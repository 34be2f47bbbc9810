/**
 The hash table of include/uthash.h as a whole: a map from keys to elements that
 also remembers the order of insertion.
 */
module UtHashTable {
  import opened Arithmetic
  import opened Sequences
  import opened HashBuckets

  const INITIAL_NUM_BUCKETS: nat := 32
  const INITIAL_NUM_BUCKETS_LOG2: nat := 5
  const BKT_CAPACITY_THRESH: nat := 10

  function Pow2(n: nat): (r: nat)
    ensures r > 0
  {
    if n == 0 then 1 else 2 * Pow2(n - 1)
  }

  /** a / b rounded up, as repeated subtraction. */
  function CeilDiv(a: nat, b: nat): nat
    requires b > 0
  {
    if a == 0 then 0 else if a <= b then 1 else 1 + CeilDiv(a - b, b)
  }

  lemma OneMoreInQuotient(a: nat, b: nat)
    requires a >= b > 0
    ensures a / b == (a - b) / b + 1 && a % b == (a - b) % b
  {
    var q, r := (a - b) / b, (a - b) % b;
    assert (q + 1) * b == q * b + b;
    DivModUnique(a, q + 1, b, r);
  }

  lemma {:induction false} CeilDivIsRoundedUp(a: nat, b: nat)
    requires b > 0
    ensures CeilDiv(a, b) == a / b + if a % b != 0 then 1 else 0
  {
    if a >= b {
      OneMoreInQuotient(a, b);
      if a > b {
        CeilDivIsRoundedUp(a - b, b);
      }
    }
  }

  /** The chain length if all buckets were used equally. */
  method IdealChainLength(items: nat, buckets: nat) returns (r: nat)
    requires buckets > 0
    ensures r == CeilDiv(items, buckets)
  {
    CeilDivIsRoundedUp(items, buckets);
    r := items / buckets + if items % buckets != 0 then 1 else 0;
  }

  ghost predicate KeysOk(order: seq<Handle>, hash: Key -> nat) {
    && (forall i :: 0 <= i < |order| ==> order[i].hashv == hash(order[i].key))
    && (forall i, j :: 0 <= i < j < |order| ==> order[i].key != order[j].key)
  }

  ghost function Last(c: seq<Handle>): Handle?
  {
    At(c, |c| - 1)
  }

  // ------------------------------------------------- application-order list ----

  /** HASH_APPEND_LIST. */
  method AppendList(h: Handle, tail: Handle, ghost c: seq<Handle>)
    requires Linked(c) && Distinct(c) && h !in c && tail == Last(c)
    modifies h`next, h`prev, tail`next
    ensures Linked(c + [h])
  {
    h.next := null;
    h.prev := tail;
    tail.next := h;
    ghost var d := c + [h];
    assert c[|c| - 1] == tail;
    forall i | 0 <= i < |d| ensures d[i].next == At(d, i + 1) && d[i].prev == At(d, i - 1) {
      if i < |c| {
        assert d[i] == c[i] && (i < |c| - 1 ==> c[i] != tail);
      }
    }
  }

  method UnlinkList(h: Handle, ghost c: seq<Handle>, ghost p: nat)
    requires Linked(c) && Distinct(c) && p < |c| && c[p] == h
    modifies c`next, c`prev
    ensures Linked(Without(c, p))
  {
    assert At(c, p - 1) == h.prev && At(c, p + 1) == h.next;
    if h.prev != null {
      h.prev.next := h.next;
    }
    if h.next != null {
      h.next.prev := h.prev;
    }
    ghost var d := Without(c, p);
    forall i | 0 <= i < |d| ensures d[i].next == At(d, i + 1) && d[i].prev == At(d, i - 1) {
      ghost var k := if i < p then i else i + 1;
      assert d[i] == c[k] && c[k] != h;
      assert k != p - 1 ==> c[k] != At(c, p - 1);
      assert k != p + 1 ==> c[k] != At(c, p + 1);
    }
  }

  // --------------------------------------------------------------- counts ----

  function CountSum(chains: seq<seq<Handle>>, n: nat): nat
    requires n <= |chains|
  {
    if n == 0 then 0 else CountSum(chains, n - 1) + |chains[n - 1]|
  }

  lemma {:induction false} ElementCount(c: seq<Handle>)
    requires Distinct(c)
    ensures |Elements(c)| == |c|
  {
    if c != [] {
      var n := |c| - 1;
      ElementCount(c[..n]);
      ElementsNext(c, n);
      assert c[..n + 1] == c;
    } else {
      assert Elements(c) == {};
    }
  }

  lemma DisjointSum(a: set<Handle>, b: set<Handle>)
    requires a !! b
    ensures |a + b| == |a| + |b|
  {
  }

  lemma OneMoreChain(chains: seq<seq<Handle>>, n: nat)
    requires InPlace(chains) && n < |chains|
    ensures |Members(chains[..n + 1])| == |Members(chains[..n])| + |chains[n]|
  {
    PrefixMembers(chains, n);
    LaterChainsApart(chains, n, n);
    assert Belongs(chains[n], n, |chains|);
    ElementCount(chains[n]);
    DisjointSum(Elements(chains[n]), Members(chains[..n]));
  }

  /** The chains share out the elements: their lengths add up to the number of elements. */
  lemma {:induction false} MemberCount(chains: seq<seq<Handle>>, n: nat)
    requires InPlace(chains) && n <= |chains|
    ensures |Members(chains[..n])| == CountSum(chains, n)
  {
    if n > 0 {
      MemberCount(chains, n - 1);
      OneMoreChain(chains, n - 1);
    }
  }

  // ---------------------------------------------------------------- table ----

  /** The counters of UT_hash_table. */
  datatype TableInfo = TableInfo(
    log2NumBuckets: nat, numItems: nat, idealChainMaxlen: nat, nonidealItems: nat, ineffExpands: nat, noexpand: bool)

  const NEW_TABLE: TableInfo := TableInfo(INITIAL_NUM_BUCKETS_LOG2, 0, 0, 0, 0, false)

  /** The buckets hold exactly these elements. */
  ghost predicate Store(buckets: array<Bucket>, chains: seq<seq<Handle>>, log2: nat, elements: set<Handle>)
    reads buckets, Members(chains)`hhNext, Members(chains)`hhPrev
  {
    && |chains| == Pow2(log2) && AllHold(buckets, chains) && InPlace(chains) && Members(chains) == elements
  }

  /** The counters after an expansion: the ideal chain length, and the items beyond it. */
  ghost predicate Measured(info: TableInfo, chains: seq<seq<Handle>>) {
    && |chains| > 0
    && info.idealChainMaxlen == CeilDiv(info.numItems, |chains|)
    && info.nonidealItems == Excess(chains, info.idealChainMaxlen, |chains|)
  }

  /** HASH_MAKE_TABLE: 32 empty buckets. */
  method MakeTable() returns (buckets: array<Bucket>, ghost chains: seq<seq<Handle>>)
    ensures fresh(buckets) && Store(buckets, chains, INITIAL_NUM_BUCKETS_LOG2, {}) && |chains| == INITIAL_NUM_BUCKETS
  {
    buckets, chains := NewBuckets(INITIAL_NUM_BUCKETS, 0);
    assert Pow2(1) == 2 && Pow2(2) == 4 && Pow2(3) == 8 && Pow2(4) == 16 && Pow2(5) == 32;
  }

  /** Two expansions in a row that leave more than half of the items beyond the ideal length stop further ones. */
  function Expanded(info: TableInfo, ideal: nat, nonideal: nat): TableInfo {
    var ineff := if nonideal > info.numItems / 2 then info.ineffExpands + 1 else 0;
    TableInfo(info.log2NumBuckets + 1, info.numItems, ideal, nonideal, ineff, info.noexpand || ineff > 1)
  }

  lemma ExpansionIsMeasured(info: TableInfo, chains: seq<seq<Handle>>, ideal: nat, nonideal: nat)
    requires |chains| > 0 && ideal == CeilDiv(info.numItems, |chains|) && nonideal == Excess(chains, ideal, |chains|)
    ensures Measured(Expanded(info, ideal, nonideal), chains)
  {
  }

  /** Twice as many buckets for the same elements. */
  method DoubleBuckets(buckets: array<Bucket>, ghost chains: seq<seq<Handle>>, ghost log2: nat, ideal: nat,
                       ghost elements: set<Handle>)
    returns (buckets': array<Bucket>, nonideal: nat, ghost chains': seq<seq<Handle>>)
    requires Store(buckets, chains, log2, elements)
    modifies elements`hhNext, elements`hhPrev
    ensures fresh(buckets') && Store(buckets', chains', log2 + 1, elements) && |chains'| == 2 * |chains|
    ensures nonideal == Excess(chains', ideal, |chains'|)
  {
    buckets', nonideal, chains' := RehashAll(buckets, chains, ideal);
    assert Pow2(log2 + 1) == 2 * Pow2(log2);
  }

  /** HASH_EXPAND_BUCKETS: the number of buckets doubles. */
  method ExpandBuckets(buckets: array<Bucket>, ghost chains: seq<seq<Handle>>, info: TableInfo,
                       ghost elements: set<Handle>)
    returns (buckets': array<Bucket>, ghost chains': seq<seq<Handle>>, info': TableInfo)
    requires Store(buckets, chains, info.log2NumBuckets, elements)
    modifies elements`hhNext, elements`hhPrev
    ensures fresh(buckets') && Store(buckets', chains', info'.log2NumBuckets, elements)
    ensures info' == Expanded(info, info'.idealChainMaxlen, info'.nonidealItems) && Measured(info', chains')
  {
    var ideal := IdealChainLength(info.numItems, buckets.Length * 2);
    var nonideal;
    buckets', nonideal, chains' := DoubleBuckets(buckets, chains, info.log2NumBuckets, ideal, elements);
    ExpansionIsMeasured(info, chains', ideal, nonideal);
    info' := Expanded(info, ideal, nonideal);
  }

  /** The element becomes the head of the chain of its hash. */
  method PushToTable(buckets: array<Bucket>, ghost chains: seq<seq<Handle>>, ghost log2: nat, h: Handle,
                     ghost elements: set<Handle>)
    returns (b: nat, ghost chains': seq<seq<Handle>>)
    requires Store(buckets, chains, log2, elements) && h !in elements
    modifies buckets, elements`hhNext, elements`hhPrev, h`hhNext, h`hhPrev
    ensures |chains| == buckets.Length > 0 && b == h.hashv % |chains| && chains' == chains[b := [h] + chains[b]]
    ensures Store(buckets, chains', log2, elements + {h})
    ensures buckets[b].count == |chains'[b]| && buckets[b].mult == old(buckets[b].mult)
  {
    b := AddToBucket(buckets, chains, h);
    StaysInPlace(chains, b, h);
    chains' := chains[b := [h] + chains[b]];
    assert Holds(buckets[b], chains'[b]);
  }

  /** HASH_ADD_TO_BKT, with the expansion it may trigger. */
  method AddToTable(buckets: array<Bucket>, ghost chains: seq<seq<Handle>>, info: TableInfo, h: Handle,
                    ghost elements: set<Handle>)
    returns (buckets': array<Bucket>, ghost chains': seq<seq<Handle>>, info': TableInfo)
    requires Store(buckets, chains, info.log2NumBuckets, elements) && h !in elements
    modifies buckets, elements`hhNext, elements`hhPrev, h`hhNext, h`hhPrev
    ensures buckets' == buckets || fresh(buckets')
    ensures Store(buckets', chains', info'.log2NumBuckets, elements + {h})
    // the table is expanded exactly if the chain reached its capacity and expansion is not inhibited
    ensures |chains| == buckets.Length > 0
    ensures info' != info <==> !info.noexpand && |chains[h.hashv % |chains|]| + 1
                               >= (old(buckets[h.hashv % buckets.Length].mult) + 1) * BKT_CAPACITY_THRESH
    ensures info' == info ==> chains' == chains[h.hashv % |chains| := [h] + chains[h.hashv % |chains|]]
    ensures info' != info ==>
              info' == Expanded(info, info'.idealChainMaxlen, info'.nonidealItems) && Measured(info', chains')
    ensures info'.numItems == info.numItems
  {
    var b;
    b, chains' := PushToTable(buckets, chains, info.log2NumBuckets, h, elements);
    buckets', info' := buckets, info;
    if buckets[b].count >= (buckets[b].mult + 1) * BKT_CAPACITY_THRESH && !info.noexpand {
      buckets', chains', info' := ExpandBuckets(buckets, chains', info, elements + {h});
    }
  }

  lemma AddedElements(c: seq<Handle>, h: Handle)
    ensures Elements(c + [h]) == Elements(c) + {h}
  {
  }

  lemma RemovedElements(c: seq<Handle>, p: nat)
    requires Distinct(c) && p < |c|
    ensures Elements(Without(c, p)) == Elements(c) - {c[p]}
  {
    forall e | e in Elements(c) - {c[p]} ensures e in Elements(Without(c, p)) {
      var i :| 0 <= i < |c| && c[i] == e;
      assert Without(c, p)[if i < p then i else i - 1] == e;
    }
  }

  lemma WithoutEnds(c: seq<Handle>, p: nat)
    requires Distinct(c) && p < |c|
    ensures Distinct(Without(c, p))
    ensures At(Without(c, p), 0) == if p == 0 then At(c, 1) else At(c, 0)
    ensures Last(Without(c, p)) == if p == |c| - 1 then At(c, p - 1) else Last(c)
    ensures c[p] == Last(c) <==> p == |c| - 1
  {
  }

  /** What a lookup of the key must give: the element with that key, or NULL if there is none. */
  ghost predicate Binds(order: seq<Handle>, key: Key, out: Handle?) {
    if out == null then forall i :: 0 <= i < |order| ==> order[i].key != key
    else out.key == key && exists i :: 0 <= i < |order| && order[i] == out
  }

  lemma BindsOnce(order: seq<Handle>, hash: Key -> nat, key: Key, a: Handle?, b: Handle?)
    requires KeysOk(order, hash) && Binds(order, key, a) && Binds(order, key, b)
    ensures a == b
  {
  }

  lemma KeysOkAdded(order: seq<Handle>, hash: Key -> nat, h: Handle)
    requires KeysOk(order, hash) && h.hashv == hash(h.key) && Binds(order, h.key, null)
    ensures KeysOk(order + [h], hash)
  {
  }

  lemma KeysOkWithout(order: seq<Handle>, hash: Key -> nat, p: nat)
    requires KeysOk(order, hash) && p < |order|
    ensures KeysOk(Without(order, p), hash)
  {
  }

  /** Adding an element rebinds its key and no other. */
  lemma BindsAfterAdd(order: seq<Handle>, h: Handle, key: Key, out: Handle?)
    requires Binds(order, h.key, null)
    ensures Binds(order + [h], key, out) <==> if key == h.key then out == h else Binds(order, key, out)
  {
    var c := order + [h];
    assert c[|order|] == h;
    assert forall i :: 0 <= i < |order| ==> c[i] == order[i];
  }

  /** Deleting an element unbinds its key and no other. */
  lemma BindsAfterDelete(order: seq<Handle>, hash: Key -> nat, p: nat, key: Key, out: Handle?)
    requires KeysOk(order, hash) && p < |order|
    ensures Binds(Without(order, p), key, out) <==>
            if key == order[p].key then out == null else Binds(order, key, out)
  {
    var c := Without(order, p);
    assert forall i :: 0 <= i < |order| && i != p ==> order[i] == c[if i < p then i else i - 1];
  }

  class HashTable {
    const hash: Key -> nat
    var head: Handle?
    var tail: Handle?
    var buckets: array<Bucket>
    var info: TableInfo
    ghost var order: seq<Handle>         // insertion order
    ghost var chains: seq<seq<Handle>>   // bucket contents

    /** Application order and keys. */
    ghost predicate ListOk()
      reads this`head, this`tail, this`order, order`next, order`prev
    {
      && Distinct(order) && Linked(order) && head == At(order, 0) && tail == Last(order)
      && KeysOk(order, hash)
    }

    /** The table proper is present as long as there is an element. */
    ghost predicate Valid()
      reads this, buckets, order, Members(chains)
    {
      && ListOk() && info.numItems == |order|
      && (order != [] ==> Store(buckets, chains, info.log2NumBuckets, Elements(order)))
    }

    constructor (hash: Key -> nat)
      ensures Valid() && order == [] && this.hash == hash && fresh(buckets)
    {
      this.hash := hash;
      head, tail, info := null, null, NEW_TABLE;
      buckets := new Bucket[0](_ => Bucket(null, 0, 0));
      order, chains := [], [];
    }

    /** The invariant checked by HASH_FSCK: the counts of the buckets add up to num_items. */
    lemma CountsAddUp()
      requires Valid() && order != []
      ensures info.numItems == |order| == CountSum(chains, |chains|)
      ensures forall b :: 0 <= b < |chains| ==> buckets[b].count == |chains[b]|
      ensures forall e :: e in order ==> e in chains[e.hashv % |chains|]
    {
      MemberCount(chains, |chains|);
      assert chains[..|chains|] == chains;
      ElementCount(order);
      forall b | 0 <= b < |chains| ensures buckets[b].count == |chains[b]| {
        assert Holds(buckets[b], chains[b]);
      }
      forall e | e in order ensures e in chains[e.hashv % |chains|] {
        InItsChain(e);
      }
    }

    lemma InItsChain(e: Handle)
      requires Valid() && e in order
      ensures order != [] && |chains| > 0 && e in chains[e.hashv % |chains|]
    {
      assert e in Elements(order);
      var b, i := Find(chains, e);
      assert Belongs(chains[b], b, |chains|);
    }

    /** HASH_FIND: the element with this key, if any. */
    method FindKey(key: Key) returns (out: Handle?)
      requires Valid()
      ensures Binds(order, key, out)
    {
      out := null;
      if head != null {
        var hashv := hash(key);
        var b := hashv % buckets.Length;
        assert Holds(buckets[b], chains[b]);
        out := FindInBucket(buckets[b], chains[b], key, hashv);
        if out != null {
          ChainInOrder(b, out);
        } else {
          forall i | 0 <= i < |order| ensures order[i].key != key {
            InItsChain(order[i]);
          }
        }
      }
    }

    lemma ChainInOrder(b: nat, e: Handle)
      requires Valid() && order != [] && b < |chains| && e in chains[b]
      ensures e in order
    {
      ChainMembers(chains, b);
      assert e in Elements(chains[b]) && e in Elements(order);
    }

    /** The element becomes the only one, or the last one, of the application order. */
    method AddToList(h: Handle)
      requires ListOk() && h !in order && h.hashv == hash(h.key) && Binds(order, h.key, null)
      modifies this`head, this`tail, this`order, order`next, order`prev, h`next, h`prev
      ensures ListOk() && order == old(order) + [h]
    {
      if head == null {
        h.next := null;
        h.prev := null;
        head, tail := h, h;
      } else {
        AppendList(h, tail, order);
        tail := h;
      }
      KeysOkAdded(order, hash, h);
      order := order + [h];
    }

    /** HASH_ADD_KEYPTR_BYHASHVALUE: the element goes to the end of the application order. */
    method Add(h: Handle)
      requires Valid() && h !in order && h.hashv == hash(h.key) && Binds(order, h.key, null)
      modifies this, buckets, order, h
      ensures Valid() && order == old(order) + [h]
      ensures buckets == old(buckets) || fresh(buckets)
    {
      AddedElements(order, h);
      if head == null {
        AddFirst(h);
      } else {
        AddLater(h);
      }
    }

    /** The first element brings a table of its own. */
    method AddFirst(h: Handle)
      requires Valid() && order == [] && h.hashv == hash(h.key)
      modifies this, h
      ensures ListOk() && order == [h] && info.numItems == 1 && fresh(buckets)
      ensures Store(buckets, chains, info.log2NumBuckets, {h})
    {
      AddToList(h);
      StoreFirst(h);
    }

    method StoreFirst(h: Handle)
      modifies this`buckets, this`chains, this`info, h`hhNext, h`hhPrev
      ensures Store(buckets, chains, info.log2NumBuckets, {h}) && info.numItems == 1 && fresh(buckets)
    {
      buckets, chains := MakeTable();
      info := NEW_TABLE;
      assert {} + {h} == {h};
      CountAndStore(h, {});
    }

    method AddLater(h: Handle)
      requires Valid() && order != [] && h !in order && h.hashv == hash(h.key) && Binds(order, h.key, null)
      modifies this, buckets, order, h
      ensures ListOk() && order == old(order) + [h] && info.numItems == |order|
      ensures Store(buckets, chains, info.log2NumBuckets, Elements(old(order)) + {h})
      ensures buckets == old(buckets) || fresh(buckets)
    {
      AddToList(h);
      CountAndStore(h, Elements(old(order)));
    }

    /** HASH_ADD_TO_TABLE. */
    method CountAndStore(h: Handle, ghost elements: set<Handle>)
      requires Store(buckets, chains, info.log2NumBuckets, elements) && h !in elements
      modifies this`buckets, this`chains, this`info, buckets, elements`hhNext, elements`hhPrev, h`hhNext, h`hhPrev
      ensures Store(buckets, chains, info.log2NumBuckets, elements + {h})
      ensures info.numItems == old(info.numItems) + 1
      ensures buckets == old(buckets) || fresh(buckets)
    {
      var bs, info';
      ghost var cs;
      bs, cs, info' := AddToTable(buckets, chains, info.(numItems := info.numItems + 1), h, elements);
      buckets, chains, info := bs, cs, info';
    }

    // ----------------------------------------------------------- deleting ----

    /** Links, head and tail of the application order without element p. */
    method DeleteFromList(h: Handle, ghost p: nat)
      requires ListOk() && |order| > 1 && p < |order| && order[p] == h
      modifies this`head, this`tail, this`order, order`next, order`prev
      ensures ListOk() && order == Without(old(order), p)
    {
      ghost var c := order;
      assert h.prev == At(c, p - 1) && h.next == At(c, p + 1);
      WithoutEnds(c, p);
      KeysOkWithout(c, hash, p);
      if h == tail {
        tail := h.prev;
      }
      if h.prev == null {
        head := h.next;
      }
      UnlinkList(h, c, p);
      order := Without(c, p);
    }

    /** HASH_DEL_IN_BKT on the element's bucket. */
    method DeleteFromTable(h: Handle, ghost elements: set<Handle>)
      requires Store(buckets, chains, info.log2NumBuckets, elements) && h in elements && info.numItems > 0
      modifies this`chains, this`info, buckets, elements`hhNext, elements`hhPrev
      ensures Store(buckets, chains, info.log2NumBuckets, elements - {h})
      ensures info == old(info).(numItems := old(info).numItems - 1)
    {
      ghost var k, i := Find(chains, h);
      var b := h.hashv % buckets.Length;
      assert Belongs(chains[k], k, |chains|);
      DelInBucket(buckets, chains, h, b, i);
      ShrunkInPlace(chains, b, i);
      MembersShrink(chains, b, i);
      chains := chains[b := Without(chains[b], i)];
      info := info.(numItems := info.numItems - 1);
    }

    /** HASH_DELETE: the element leaves the order and its bucket; the last one takes the table with it. */
    method Delete(h: Handle) returns (ghost p: nat)
      requires Valid() && h in order
      modifies this, buckets, order
      ensures p < |old(order)| && old(order)[p] == h
      ensures Valid() && order == Without(old(order), p) && buckets == old(buckets)
    {
      p :| p < |order| && order[p] == h;
      assert h.prev == At(order, p - 1) && h.next == At(order, p + 1);
      if h.prev == null && h.next == null {
        head, tail := null, null;
        info := info.(numItems := 0);
        order, chains := [], [];
      } else {
        DeleteNotLast(h, p);
      }
    }

    method DeleteNotLast(h: Handle, ghost p: nat)
      requires Valid() && |order| > 1 && p < |order| && order[p] == h
      modifies this, buckets, order
      ensures Valid() && order == Without(old(order), p) && buckets == old(buckets)
    {
      RemovedElements(order, p);
      ghost var elements := Elements(order);
      DeleteFromList(h, p);
      DeleteFromTable(h, elements);
    }
  }
}
