/**
 Whole runs of a table (include/uthash.h:154-175, 397-478): elements are added
 unless their key is taken, looked up and deleted by key, in any order.
 */
module HashRuns {
  import opened Sequences
  import opened HashBuckets
  import opened UtHashTable

  datatype Op = Put(h: Handle) | Remove(key: Key) | Get(key: Key)

  /** A finite map from keys to elements, which is what the table stands for. */
  type Model = map<Key, Handle>

  function Lookup(m: Model, key: Key): Handle? {
    if key in m then m[key] else null
  }

  function KeyOfOp(op: Op): Key {
    if op.Put? then op.h.key else op.key
  }

  /** The map after an operation. */
  function After(m: Model, op: Op): Model {
    match op
    case Put(h) => if h.key in m then m else m[h.key := h]
    case Remove(key) => m - {key}
    case Get(_) => m
  }

  /** The application order without the element of a key. */
  function Dropped(order: seq<Handle>, key: Key): seq<Handle> {
    if order == [] then [] else if order[0].key == key then order[1..] else [order[0]] + Dropped(order[1..], key)
  }

  predicate HasKey(order: seq<Handle>, key: Key) {
    exists i :: 0 <= i < |order| && order[i].key == key
  }

  /** The application order after an operation: new elements go to the end. */
  function OrderAfter(order: seq<Handle>, op: Op): seq<Handle> {
    match op
    case Put(h) => if HasKey(order, h.key) then order else order + [h]
    case Remove(key) => Dropped(order, key)
    case Get(_) => order
  }

  function OrderAfterAll(order: seq<Handle>, ops: seq<Op>): seq<Handle> {
    if ops == [] then order else OrderAfter(OrderAfterAll(order, ops[..|ops| - 1]), ops[|ops| - 1])
  }

  function AfterAll(m: Model, ops: seq<Op>): Model {
    if ops == [] then m else After(AfterAll(m, ops[..|ops| - 1]), ops[|ops| - 1])
  }

  /** The order binds the keys like the map. */
  ghost predicate Agrees(order: seq<Handle>, m: Model) {
    forall key :: AgreesAt(order, m, key)
  }

  ghost predicate AgreesAt(order: seq<Handle>, m: Model, key: Key) {
    Binds(order, key, Lookup(m, key))
  }

  lemma {:induction false} DroppedIsWithout(order: seq<Handle>, hash: Key -> nat, p: nat)
    requires KeysOk(order, hash) && p < |order|
    ensures Dropped(order, order[p].key) == Without(order, p)
  {
    if p > 0 {
      DroppedIsWithout(order[1..], hash, p - 1);
      assert Without(order, p) == [order[0]] + Without(order[1..], p - 1);
    }
  }

  lemma {:induction false} DroppedNothing(order: seq<Handle>, key: Key)
    requires forall i :: 0 <= i < |order| ==> order[i].key != key
    ensures Dropped(order, key) == order
  {
    if order != [] {
      DroppedNothing(order[1..], key);
    }
  }

  lemma PutAgrees(order: seq<Handle>, m: Model, h: Handle)
    requires Agrees(order, m) && h.key !in m
    ensures Agrees(order + [h], m[h.key := h])
  {
    assert AgreesAt(order, m, h.key);
    var order', m' := order + [h], m[h.key := h];
    forall key ensures AgreesAt(order', m', key) {
      BindsAfterAdd(order, h, key, Lookup(m', key));
      assert AgreesAt(order, m, key);
    }
  }

  lemma RemoveAgrees(order: seq<Handle>, m: Model, hash: Key -> nat, p: nat)
    requires Agrees(order, m) && KeysOk(order, hash) && p < |order|
    ensures Agrees(Without(order, p), m - {order[p].key})
  {
    var order', m' := Without(order, p), m - {order[p].key};
    forall key ensures AgreesAt(order', m', key) {
      BindsAfterDelete(order, hash, p, key, Lookup(m', key));
      assert AgreesAt(order, m, key);
    }
  }

  /** One operation of a run: a lookup, and what follows from it. */
  method Execute(t: HashTable, op: Op, ghost m: Model, ghost all: set<Handle>) returns (found: Handle?)
    requires t.Valid() && Agrees(t.order, m) && (forall e :: e in t.order ==> e in all)
    requires op.Put? ==> op.h.hashv == t.hash(op.h.key) && op.h in all
    modifies t, t.buckets, all
    ensures t.Valid() && Agrees(t.order, After(m, op)) && (forall e :: e in t.order ==> e in all)
    ensures t.order == OrderAfter(old(t.order), op) && found == Lookup(m, KeyOfOp(op))
    ensures t.buckets == old(t.buckets) || fresh(t.buckets)
  {
    var key := KeyOfOp(op);
    found := t.FindKey(key);
    assert AgreesAt(t.order, m, key);
    BindsOnce(t.order, t.hash, key, found, Lookup(m, key));
    match op
    case Put(h) =>
      if found == null {
        PutAgrees(t.order, m, h);
        t.Add(h);
      }
    case Remove(_) =>
      if found != null {
        RemoveFound(t, found, m);
      } else {
        DroppedNothing(t.order, key);
        assert m - {key} == m;
      }
    case Get(_) =>
  }

  method RemoveFound(t: HashTable, e: Handle, ghost m: Model)
    requires t.Valid() && Agrees(t.order, m) && e in t.order
    modifies t, t.buckets, t.order
    ensures t.Valid() && Agrees(t.order, m - {e.key}) && t.order == Dropped(old(t.order), e.key)
    ensures (forall h :: h in t.order ==> h in old(t.order)) && t.buckets == old(t.buckets)
  {
    ghost var order := t.order;
    ghost var p := t.Delete(e);
    RemoveAgrees(order, m, t.hash, p);
    DroppedIsWithout(order, t.hash, p);
  }

  /** What the first n lookups of a run give. */
  ghost predicate Answered(ops: seq<Op>, n: nat, answers: seq<Handle?>) {
    && n <= |ops| && |answers| == n
    && forall i :: 0 <= i < n ==> answers[i] == Lookup(AfterAll(map[], ops[..i]), KeyOfOp(ops[i]))
  }

  /** The table after the first n operations. */
  ghost predicate Reached(t: HashTable, ops: seq<Op>, n: nat, all: set<Handle>)
    reads t, t.order
  {
    && n <= |ops| && (forall e :: e in t.order ==> e in all)
    && t.order == OrderAfterAll([], ops[..n]) && Agrees(t.order, AfterAll(map[], ops[..n]))
  }

  method ExecuteNext(t: HashTable, ops: seq<Op>, i: nat, ghost all: set<Handle>) returns (found: Handle?)
    requires t.Valid() && i < |ops| && Reached(t, ops, i, all)
    requires ops[i].Put? ==> ops[i].h.hashv == t.hash(ops[i].h.key) && ops[i].h in all
    modifies t, t.buckets, all
    ensures t.Valid() && Reached(t, ops, i + 1, all)
    ensures found == Lookup(AfterAll(map[], ops[..i]), KeyOfOp(ops[i]))
    ensures t.buckets == old(t.buckets) || fresh(t.buckets)
  {
    assert ops[..i + 1][..i] == ops[..i];
    found := Execute(t, ops[i], AfterAll(map[], ops[..i]), all);
  }

  /**
   Any run of operations on a new table: every lookup gives what a finite map
   holds, and the application order is the order of insertion.
   */
  method Run(hash: Key -> nat, ops: seq<Op>) returns (t: HashTable, answers: seq<Handle?>)
    requires forall i :: 0 <= i < |ops| && ops[i].Put? ==> ops[i].h.hashv == hash(ops[i].h.key)
    modifies set i | 0 <= i < |ops| && ops[i].Put? :: ops[i].h
    ensures t.Valid() && t.order == OrderAfterAll([], ops) && Agrees(t.order, AfterAll(map[], ops))
    ensures Answered(ops, |ops|, answers)
  {
    ghost var all := set i | 0 <= i < |ops| && ops[i].Put? :: ops[i].h;
    t := new HashTable(hash);
    answers := [];
    for i := 0 to |ops|
      invariant fresh(t) && fresh(t.buckets) && t.Valid() && t.hash == hash
      invariant Reached(t, ops, i, all) && Answered(ops, i, answers)
    {
      var found := ExecuteNext(t, ops, i, all);
      answers := answers + [found];
    }
    assert ops[..|ops|] == ops;
  }
}
