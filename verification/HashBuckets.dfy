/**
 Buckets of the intrusive hash table of include/uthash.h. Elements carry the links of two
 lists, the application-order list and the chain of their bucket. The hash is
 an arbitrary function of the key.
 */
module HashBuckets {
  import opened Sequences

  /** A key is the string of its bytes; its length is the keylen of the handle. */
  type Key = string

  class Handle {
    const key: Key
    const hashv: nat
    var next: Handle?
    var prev: Handle?
    var hhNext: Handle?
    var hhPrev: Handle?

    constructor (key: Key, hashv: nat)
      ensures this.key == key && this.hashv == hashv
    {
      this.key := key;
      this.hashv := hashv;
    }
  }

  // ----------------------------------------------------- linked sequences ----

  function At(c: seq<Handle>, i: int): Handle? {
    if 0 <= i < |c| then c[i] else null
  }

  /** The bucket links run through c in order. */
  ghost predicate Chained(c: seq<Handle>)
    reads c`hhNext, c`hhPrev
  {
    forall i {:trigger c[i].hhNext} {:trigger c[i].hhPrev} :: 0 <= i < |c| ==>
      c[i].hhNext == At(c, i + 1) && c[i].hhPrev == At(c, i - 1)
  }

  /** The application-order links run through c in order. */
  ghost predicate Linked(c: seq<Handle>)
    reads c`next, c`prev
  {
    forall i {:trigger c[i].next} {:trigger c[i].prev} :: 0 <= i < |c| ==>
      c[i].next == At(c, i + 1) && c[i].prev == At(c, i - 1)
  }

  // -------------------------------------------------------------- buckets ----

  datatype Bucket = Bucket(head: Handle?, count: nat, mult: nat)

  ghost function Elements(c: seq<Handle>): set<Handle> {
    set e | e in c
  }

  ghost function Members(chains: seq<seq<Handle>>): set<Handle> {
    if |chains| == 0 then {}
    else Elements(chains[|chains| - 1]) + Members(chains[..|chains| - 1])
  }

  lemma {:induction false} ChainMembers(chains: seq<seq<Handle>>, b: nat)
    requires b < |chains|
    ensures Elements(chains[b]) <= Members(chains)
  {
    if b < |chains| - 1 {
      ChainMembers(chains[..|chains| - 1], b);
    }
  }

  /** Where an element sits. */
  lemma {:induction false} Find(chains: seq<seq<Handle>>, e: Handle) returns (k: nat, i: nat)
    requires e in Members(chains)
    ensures k < |chains| && i < |chains[k]| && chains[k][i] == e
  {
    var n := |chains| - 1;
    if e in chains[n] {
      k := n;
      i :| 0 <= i < |chains[k]| && chains[k][i] == e;
    } else {
      k, i := Find(chains[..n], e);
    }
  }

  /** The elements of c hash to bucket b of n. */
  ghost predicate Belongs(c: seq<Handle>, b: nat, n: nat)
    requires n > 0
  {
    Distinct(c) && forall i :: 0 <= i < |c| ==> c[i].hashv % n == b
  }

  /** Every element is in the chain its hash selects; hence chains are disjoint. */
  ghost predicate InPlace(chains: seq<seq<Handle>>) {
    forall b :: 0 <= b < |chains| ==> Belongs(chains[b], b, |chains|)
  }

  ghost predicate Holds(bucket: Bucket, chain: seq<Handle>)
    reads chain`hhNext, chain`hhPrev
  {
    bucket.head == At(chain, 0) && bucket.count == |chain| && Chained(chain)
  }

  ghost predicate AllHold(buckets: array<Bucket>, chains: seq<seq<Handle>>)
    reads buckets, Members(chains)`hhNext, Members(chains)`hhPrev
  {
    && buckets.Length == |chains|
    && forall b :: 0 <= b < |chains| ==> (ChainMembers(chains, b); Holds(buckets[b], chains[b]))
  }

  method PushChain(h: Handle, first: Handle?, ghost c: seq<Handle>)
    requires Chained(c) && Distinct(c) && h !in c && first == At(c, 0)
    modifies h`hhNext, h`hhPrev, c`hhPrev
    ensures Chained([h] + c)
  {
    h.hhNext := first;
    h.hhPrev := null;
    if first != null {
      first.hhPrev := h;
    }
    ghost var d := [h] + c;
    forall i | 0 <= i < |d| ensures d[i].hhNext == At(d, i + 1) && d[i].hhPrev == At(d, i - 1) {
      if i > 0 {
        assert d[i] == c[i - 1];
      }
    }
  }

  lemma StaysInPlace(chains: seq<seq<Handle>>, b: nat, h: Handle)
    requires InPlace(chains) && b < |chains| && b == h.hashv % |chains| && h !in Members(chains)
    ensures InPlace(chains[b := [h] + chains[b]])
    ensures Members(chains[b := [h] + chains[b]]) == Members(chains) + {h}
  {
    MembersGrow(chains, b, h);
    ChainMembers(chains, b);
    var chains' := chains[b := [h] + chains[b]];
    forall k | 0 <= k < |chains'| ensures Belongs(chains'[k], k, |chains'|) {
      assert Belongs(chains[k], k, |chains|);
    }
  }

  lemma OtherChain(chains: seq<seq<Handle>>, b: nat, k: nat, e: Handle)
    requires InPlace(chains) && b < |chains| && k < |chains| && b != k && e in chains[k]
    ensures e !in chains[b]
  {
    assert Belongs(chains[b], b, |chains|) && Belongs(chains[k], k, |chains|);
  }

  method PushBucket(bucket: Bucket, ghost c: seq<Handle>, h: Handle) returns (bucket': Bucket)
    requires Holds(bucket, c) && Distinct(c) && h !in c
    modifies h`hhNext, h`hhPrev, c`hhPrev
    ensures Holds(bucket', [h] + c) && bucket' == Bucket(h, bucket.count + 1, bucket.mult)
  {
    PushChain(h, bucket.head, c);
    bucket' := Bucket(h, bucket.count + 1, bucket.mult);
  }

  /** HASH_ADD_TO_BKT without the expansion: the element becomes the head of its chain. */
  method AddToBucket(buckets: array<Bucket>, ghost chains: seq<seq<Handle>>, h: Handle) returns (b: nat)
    requires buckets.Length > 0 && AllHold(buckets, chains) && InPlace(chains) && h !in Members(chains)
    modifies buckets, h`hhNext, h`hhPrev, Members(chains)`hhPrev
    ensures b == h.hashv % buckets.Length
    ensures AllHold(buckets, chains[b := [h] + chains[b]])
    ensures buckets[..] == old(buckets[..])[b := Bucket(h, old(buckets[b].count) + 1, old(buckets[b].mult))]
  {
    b := h.hashv % buckets.Length;
    ghost var c := chains[b];
    assert Holds(buckets[b], c) && Belongs(c, b, |chains|);
    ChainMembers(chains, b);
    var bucket := PushBucket(buckets[b], c, h);
    forall k | 0 <= k < |chains| && k != b ensures Holds(buckets[k], chains[k]) {
      assert old(Holds(buckets[k], chains[k]));
      forall e | e in chains[k] ensures e !in c && e != h {
        OtherChain(chains, b, k, e);
      }
    }
    buckets[b] := bucket;
  }

  lemma MembersGrow(chains: seq<seq<Handle>>, b: nat, h: Handle)
    requires b < |chains|
    ensures Members(chains[b := [h] + chains[b]]) == Members(chains) + {h}
  {
    var chains' := chains[b := [h] + chains[b]];
    forall e | e in Members(chains) + {h} ensures e in Members(chains') {
      if e == h {
        assert h == chains'[b][0];
        ChainMembers(chains', b);
      } else {
        var k, i := Find(chains, e);
        assert chains'[k][if k == b then i + 1 else i] == e;
        ChainMembers(chains', k);
      }
    }
    forall e | e in Members(chains') ensures e in Members(chains) + {h} {
      var k, i := Find(chains', e);
      if e != h {
        assert chains[k][if k == b then i - 1 else i] == e;
        ChainMembers(chains, k);
      }
    }
  }

  method UnlinkChain(h: Handle, ghost c: seq<Handle>, ghost p: nat)
    requires Chained(c) && Distinct(c) && p < |c| && c[p] == h
    modifies c`hhNext, c`hhPrev
    ensures Chained(Without(c, p))
  {
    assert At(c, p - 1) == h.hhPrev && At(c, p + 1) == h.hhNext;
    if h.hhPrev != null {
      h.hhPrev.hhNext := h.hhNext;
    }
    if h.hhNext != null {
      h.hhNext.hhPrev := h.hhPrev;
    }
    ghost var d := Without(c, p);
    forall i | 0 <= i < |d| ensures d[i].hhNext == At(d, i + 1) && d[i].hhPrev == At(d, i - 1) {
      ghost var k := if i < p then i else i + 1;
      assert d[i] == c[k] && c[k] != h;
      assert k != p - 1 ==> c[k] != At(c, p - 1);
      assert k != p + 1 ==> c[k] != At(c, p + 1);
    }
  }

  lemma ShrunkInPlace(chains: seq<seq<Handle>>, b: nat, p: nat)
    requires InPlace(chains) && b < |chains| && p < |chains[b]|
    ensures InPlace(chains[b := Without(chains[b], p)])
  {
    var chains' := chains[b := Without(chains[b], p)];
    forall k | 0 <= k < |chains'| ensures Belongs(chains'[k], k, |chains'|) {
      assert Belongs(chains[k], k, |chains|);
    }
  }

  lemma NotLeftOver(chains: seq<seq<Handle>>, b: nat, p: nat, k: nat, i: nat)
    requires InPlace(chains) && b < |chains| && p < |chains[b]|
    requires k < |chains| && i < |chains[k]| && !(k == b && i == p)
    ensures chains[k][i] != chains[b][p]
  {
    assert Belongs(chains[k], k, |chains|) && Belongs(chains[b], b, |chains|);
  }

  lemma MembersShrink(chains: seq<seq<Handle>>, b: nat, p: nat)
    requires InPlace(chains) && b < |chains| && p < |chains[b]|
    ensures Members(chains[b := Without(chains[b], p)]) == Members(chains) - {chains[b][p]}
  {
    var h, chains' := chains[b][p], chains[b := Without(chains[b], p)];
    forall e | e in Members(chains) - {h} ensures e in Members(chains') {
      var k, i := Find(chains, e);
      assert chains'[k][if k == b && i > p then i - 1 else i] == e;
      ChainMembers(chains', k);
    }
    forall e | e in Members(chains') ensures e in Members(chains) - {h} {
      var k, i := Find(chains', e);
      var j := if k == b && i >= p then i + 1 else i;
      assert chains[k][j] == e;
      ChainMembers(chains, k);
      NotLeftOver(chains, b, p, k, j);
    }
  }

  /** HASH_DEL_IN_BKT. */
  method DelFromBucket(bucket: Bucket, ghost c: seq<Handle>, h: Handle, ghost p: nat) returns (bucket': Bucket)
    requires Holds(bucket, c) && Distinct(c) && p < |c| && c[p] == h
    modifies c`hhNext, c`hhPrev
    ensures Holds(bucket', Without(c, p)) && bucket'.mult == bucket.mult
  {
    bucket' := bucket.(count := bucket.count - 1);
    if bucket'.head == h {
      assert p == 0;
      bucket' := bucket'.(head := h.hhNext);
    }
    UnlinkChain(h, c, p);
  }

  method DelInBucket(buckets: array<Bucket>, ghost chains: seq<seq<Handle>>, h: Handle, b: nat, ghost p: nat)
    requires AllHold(buckets, chains) && InPlace(chains) && b < buckets.Length
    requires p < |chains[b]| && chains[b][p] == h
    modifies buckets, Members(chains)`hhNext, Members(chains)`hhPrev
    ensures AllHold(buckets, chains[b := Without(chains[b], p)])
  {
    ghost var c := chains[b];
    assert Holds(buckets[b], c) && Belongs(c, b, |chains|);
    ChainMembers(chains, b);
    var bucket := DelFromBucket(buckets[b], c, h, p);
    forall k | 0 <= k < |chains| && k != b ensures Holds(buckets[k], chains[k]) {
      assert old(Holds(buckets[k], chains[k]));
      forall e | e in chains[k] ensures e !in c {
        OtherChain(chains, b, k, e);
      }
    }
    buckets[b] := bucket;
  }

  /** HASH_FIND_IN_BKT: the element of the chain with this key, or NULL. */
  method FindInBucket(bucket: Bucket, ghost chain: seq<Handle>, key: Key, hashv: nat) returns (out: Handle?)
    requires Holds(bucket, chain)
    ensures out != null ==> out in chain && out.key == key && out.hashv == hashv
    ensures out == null ==> forall e :: e in chain ==> !(e.key == key && e.hashv == hashv)
  {
    out := bucket.head;
    ghost var i := 0;
    while out != null
      invariant 0 <= i <= |chain| && out == At(chain, i)
      invariant forall k :: 0 <= k < i ==> !(chain[k].key == key && chain[k].hashv == hashv)
      decreases |chain| - i
    {
      if out.hashv == hashv && |out.key| == |key| && out.key == key {
        break;
      }
      out := out.hhNext;
      i := i + 1;
    }
  }

  // ------------------------------------------------------------ expansion ----

  /** Elements at a chain position beyond the ideal length, over the first n chains. */
  function Excess(chains: seq<seq<Handle>>, ideal: nat, n: nat): nat
    requires n <= |chains|
  {
    if n == 0 then 0
    else Excess(chains, ideal, n - 1) + if |chains[n - 1]| > ideal then |chains[n - 1]| - ideal else 0
  }

  lemma {:induction false} ExcessGrows(chains: seq<seq<Handle>>, b: nat, h: Handle, ideal: nat, n: nat)
    requires b < |chains| && n <= |chains|
    ensures Excess(chains[b := [h] + chains[b]], ideal, n)
         == Excess(chains, ideal, n) + if b < n && |chains[b]| >= ideal then 1 else 0
  {
    if n > 0 {
      ExcessGrows(chains, b, h, ideal, n - 1);
    }
  }

  lemma {:induction false} NoExcess(chains: seq<seq<Handle>>, ideal: nat, n: nat)
    requires n <= |chains| && forall b :: 0 <= b < |chains| ==> chains[b] == []
    ensures Excess(chains, ideal, n) == 0
  {
    if n > 0 {
      NoExcess(chains, ideal, n - 1);
    }
  }

  /**
   Expansion is put off exactly for buckets longer than the ideal chain: by the
   least multiple of it that holds the chain, but by no more than its excess.
   */
  predicate MultFits(b: Bucket, ideal: nat) {
    if b.count <= ideal then b.mult == 0
    else
      && 1 <= b.mult <= b.count - ideal && b.mult * ideal < b.count + ideal
      && (b.count <= b.mult * ideal || b.mult == b.count - ideal)
  }

  predicate AllMultFit(buckets: seq<Bucket>, ideal: nat) {
    forall k :: 0 <= k < |buckets| ==> MultFits(buckets[k], ideal)
  }

  /** The forward bucket links of c from position j on. */
  ghost predicate NextFrom(c: seq<Handle>, j: nat)
    reads c`hhNext
  {
    forall k {:trigger c[k].hhNext} :: j <= k < |c| ==> c[k].hhNext == At(c, k + 1)
  }

  lemma ElementsNext(c: seq<Handle>, j: nat)
    requires j < |c| && Distinct(c)
    ensures Elements(c[..j + 1]) == Elements(c[..j]) + {c[j]} && c[j] !in Elements(c[..j])
  {
    assert c[..j + 1] == c[..j] + [c[j]];
  }

  /** Buckets during an expansion, with the counts kept so far. */
  ghost predicate Rehashed(buckets: array<Bucket>, chains: seq<seq<Handle>>, ideal: nat, nonideal: nat)
    reads buckets, Members(chains)`hhNext, Members(chains)`hhPrev
  {
    && |chains| > 0 && AllHold(buckets, chains) && InPlace(chains)
    && nonideal == Excess(chains, ideal, |chains|) && AllMultFit(buckets[..], ideal)
  }

  /** The bucket entries after one more element, its expansion multiplier raised if it is too long. */
  lemma MultKept(bs: seq<Bucket>, b: nat, h: Handle, ideal: nat, bs': seq<Bucket>)
    requires AllMultFit(bs, ideal) && b < |bs| && |bs'| == |bs|
    requires forall k :: 0 <= k < |bs| && k != b ==> bs'[k] == bs[k]
    requires var n := bs[b].count + 1;
             bs'[b] == Bucket(h, n, if n > ideal && n > bs[b].mult * ideal then bs[b].mult + 1 else bs[b].mult)
    ensures AllMultFit(bs', ideal)
  {
    assert MultFits(bs[b], ideal);
    MultGrows(bs[b].count, bs[b].mult, ideal, bs'[b]);
  }

  lemma MultGrows(count: nat, mult: nat, ideal: nat, b': Bucket)
    requires MultFits(Bucket(null, count, mult), ideal) && b'.count == count + 1
    requires b'.mult == if count + 1 > ideal && count + 1 > mult * ideal then mult + 1 else mult
    ensures MultFits(b', ideal)
  {
    assert (mult + 1) * ideal == mult * ideal + ideal;
    if count == ideal {
      assert mult * ideal == 0;
    }
  }

  method CountNonideal(buckets: array<Bucket>, ghost chains: seq<seq<Handle>>, b: nat, ideal: nat, nonideal: nat)
    returns (nonideal': nat)
    requires AllHold(buckets, chains) && b < buckets.Length
    modifies buckets
    ensures AllHold(buckets, chains)
    ensures nonideal' == nonideal + if old(buckets[b].count) > ideal then 1 else 0
    ensures forall k :: 0 <= k < buckets.Length && k != b ==> buckets[k] == old(buckets[k])
    ensures buckets[b] == old(buckets[b]).(mult :=
              if old(buckets[b].count) > ideal && old(buckets[b].count) > old(buckets[b].mult) * ideal
              then old(buckets[b].mult) + 1 else old(buckets[b].mult))
  {
    nonideal' := nonideal;
    if buckets[b].count > ideal {
      nonideal' := nonideal + 1;
      if buckets[b].count > buckets[b].mult * ideal {
        buckets[b] := buckets[b].(mult := buckets[b].mult + 1);
      }
    }
    forall k | 0 <= k < |chains| ensures Holds(buckets[k], chains[k]) {
      assert old(Holds(buckets[k], chains[k]));
    }
  }

  /** One element of an old chain moves to its new bucket. */
  method RehashOne(h: Handle, buckets: array<Bucket>, ghost chains: seq<seq<Handle>>, ideal: nat, nonideal: nat)
    returns (nonideal': nat, ghost chains': seq<seq<Handle>>)
    requires Rehashed(buckets, chains, ideal, nonideal) && h !in Members(chains)
    modifies buckets, h`hhNext, h`hhPrev, Members(chains)`hhPrev
    ensures |chains'| == |chains| && Rehashed(buckets, chains', ideal, nonideal')
    ensures Members(chains') == Members(chains) + {h}
  {
    ghost var bs := buckets[..];
    var b := AddToBucket(buckets, chains, h);
    chains' := chains[b := [h] + chains[b]];
    StaysInPlace(chains, b, h);
    ExcessGrows(chains, b, h, ideal, |chains|);
    assert Holds(buckets[b], chains'[b]);
    nonideal' := CountNonideal(buckets, chains', b, ideal, nonideal);
    MultKept(bs, b, h, ideal, buckets[..]);
  }

  lemma PrefixMembers(chains: seq<seq<Handle>>, i: nat)
    requires i < |chains|
    ensures Members(chains[..i + 1]) == Elements(chains[i]) + Members(chains[..i])
  {
    assert chains[..i + 1][..i] == chains[..i];
  }

  /** The first j elements of c have joined the elements of `base` in the new buckets. */
  ghost predicate Dealt(c: seq<Handle>, j: nat, base: set<Handle>, buckets: array<Bucket>, chains: seq<seq<Handle>>,
                        ideal: nat, nonideal: nat)
    reads buckets, c`hhNext, Members(chains)`hhNext, Members(chains)`hhPrev
  {
    && j <= |c| && NextFrom(c, j) && Rehashed(buckets, chains, ideal, nonideal)
    && Members(chains) == Elements(c[..j]) + base
  }

  method DealNext(h: Handle, ghost c: seq<Handle>, ghost j: nat, ghost base: set<Handle>, buckets: array<Bucket>,
                  ghost chains: seq<seq<Handle>>, ideal: nat, nonideal: nat)
    returns (following: Handle?, nonideal': nat, ghost chains': seq<seq<Handle>>)
    requires Distinct(c) && Elements(c) !! base && j < |c| && h == c[j]
    requires Dealt(c, j, base, buckets, chains, ideal, nonideal)
    modifies buckets, h`hhNext, h`hhPrev, Members(chains)`hhPrev
    ensures following == At(c, j + 1)
    ensures |chains'| == |chains| && Dealt(c, j + 1, base, buckets, chains', ideal, nonideal')
  {
    following := h.hhNext;
    ElementsNext(c, j);
    nonideal', chains' := RehashOne(h, buckets, chains, ideal, nonideal);
  }

  /** The inner loop of HASH_EXPAND_BUCKETS: one old chain is dealt out to the new buckets. */
  method RehashChain(first: Handle?, ghost c: seq<Handle>, buckets: array<Bucket>, ghost chains: seq<seq<Handle>>,
                     ideal: nat, nonideal: nat)
    returns (nonideal': nat, ghost chains': seq<seq<Handle>>)
    requires NextFrom(c, 0) && Distinct(c) && first == At(c, 0) && Elements(c) !! Members(chains)
    requires Rehashed(buckets, chains, ideal, nonideal)
    modifies buckets, Elements(c)`hhNext, Elements(c)`hhPrev, Members(chains)`hhPrev
    ensures |chains'| == |chains| && Rehashed(buckets, chains', ideal, nonideal')
    ensures Members(chains') == Elements(c) + Members(chains)
  {
    nonideal', chains' := nonideal, chains;
    var h := first;
    ghost var j: nat := 0;
    while h != null
      invariant j <= |c| && h == At(c, j) && |chains'| == |chains|
      invariant Dealt(c, j, Members(chains), buckets, chains', ideal, nonideal')
      decreases |c| - j
    {
      h, nonideal', chains' := DealNext(h, c, j, Members(chains), buckets, chains', ideal, nonideal');
      j := j + 1;
    }
    assert c[..j] == c;
  }

  lemma LaterChainsApart(chains: seq<seq<Handle>>, i: nat, b: nat)
    requires InPlace(chains) && i <= b < |chains|
    ensures Elements(chains[b]) !! Members(chains[..i])
  {
    forall e | e in Members(chains[..i]) ensures e !in chains[b] {
      var k, j := Find(chains[..i], e);
      OtherChain(chains, b, k, e);
    }
  }

  /** The old chains from i on can still be walked. */
  ghost predicate Walkable(buckets: array<Bucket>, chains: seq<seq<Handle>>, i: nat)
    reads buckets, Members(chains)`hhNext
  {
    && buckets.Length == |chains|
    && forall b :: i <= b < |chains| ==>
         (ChainMembers(chains, b); NextFrom(chains[b], 0) && buckets[b].head == At(chains[b], 0))
  }

  method NewBuckets(n: nat, ideal: nat) returns (buckets: array<Bucket>, ghost chains: seq<seq<Handle>>)
    requires n > 0
    ensures fresh(buckets) && |chains| == n && Members(chains) == {} && Rehashed(buckets, chains, ideal, 0)
    ensures forall b :: 0 <= b < n ==> buckets[b] == Bucket(null, 0, 0)
  {
    buckets := new Bucket[n](_ => Bucket(null, 0, 0));
    chains := seq(n, _ => []);
    EmptyMembers(chains);
    NoExcess(chains, ideal, n);
  }

  /** Chain i of the old table is done; the later ones were not touched. */
  method RehashNth(i: nat, old': array<Bucket>, ghost oldChains: seq<seq<Handle>>, buckets: array<Bucket>,
                   ghost chains: seq<seq<Handle>>, ideal: nat, nonideal: nat)
    returns (nonideal': nat, ghost chains': seq<seq<Handle>>)
    requires i < |oldChains| && InPlace(oldChains) && Walkable(old', oldChains, i) && old' != buckets
    requires Rehashed(buckets, chains, ideal, nonideal) && Members(chains) == Members(oldChains[..i])
    modifies buckets, Members(oldChains)`hhNext, Members(oldChains)`hhPrev
    ensures Walkable(old', oldChains, i + 1)
    ensures |chains'| == |chains| && Rehashed(buckets, chains', ideal, nonideal')
    ensures Members(chains') == Members(oldChains[..i + 1])
  {
    LaterChainsApart(oldChains, i, i);
    assert Belongs(oldChains[i], i, |oldChains|);
    PrefixMembers(oldChains, i);
    PrefixSubset(oldChains, i);
    nonideal', chains' := RehashChain(old'[i].head, oldChains[i], buckets, chains, ideal, nonideal);
    forall b | i + 1 <= b < |oldChains| ensures NextFrom(oldChains[b], 0) {
      LaterChainsApart(oldChains, i + 1, b);
    }
  }

  lemma PrefixSubset(chains: seq<seq<Handle>>, i: nat)
    requires i < |chains|
    ensures Members(chains[..i]) <= Members(chains) && Elements(chains[i]) <= Members(chains)
  {
    ChainMembers(chains, i);
    forall e | e in Members(chains[..i]) ensures e in Members(chains) {
      var k, j := Find(chains[..i], e);
      ChainMembers(chains, k);
    }
  }

  /** HASH_EXPAND_BUCKETS: twice the buckets, every element rehashed into them. */
  method RehashAll(buckets: array<Bucket>, ghost chains: seq<seq<Handle>>, ideal: nat)
    returns (buckets': array<Bucket>, nonideal: nat, ghost chains': seq<seq<Handle>>)
    requires |chains| > 0 && AllHold(buckets, chains) && InPlace(chains)
    modifies Members(chains)`hhNext, Members(chains)`hhPrev
    ensures fresh(buckets') && |chains'| == 2 * |chains| && Members(chains') == Members(chains)
    ensures AllHold(buckets', chains') && InPlace(chains')
    ensures nonideal == Excess(chains', ideal, |chains'|) && AllMultFit(buckets'[..], ideal)
  {
    var n := buckets.Length;
    HeldIsWalkable(buckets, chains);
    nonideal := 0;
    buckets', chains' := NewBuckets(2 * n, ideal);
    assert chains[..0] == [];
    for i := 0 to n
      invariant |chains'| == 2 * n && Rehashed(buckets', chains', ideal, nonideal)
      invariant Members(chains') == Members(chains[..i]) && Walkable(buckets, chains, i)
    {
      nonideal, chains' := RehashNth(i, buckets, chains, buckets', chains', ideal, nonideal);
    }
    assert chains[..n] == chains;
  }

  lemma HeldIsWalkable(buckets: array<Bucket>, chains: seq<seq<Handle>>)
    requires AllHold(buckets, chains)
    ensures Walkable(buckets, chains, 0)
  {
    forall b | 0 <= b < |chains| ensures NextFrom(chains[b], 0) && buckets[b].head == At(chains[b], 0) {
      assert Holds(buckets[b], chains[b]);
    }
  }

  lemma EmptyMembers(chains: seq<seq<Handle>>)
    requires forall b :: 0 <= b < |chains| ==> chains[b] == []
    ensures Members(chains) == {}
  {
  }
}
