/**
 The bottom-up mergesort behind HASH_SRT (include/uthash.h:889-971), on plain
 sequences: what a pass makes of the list, and that the passes end in the
 stable sorted order.
 */
module MergeSort {
  import opened Arithmetic

  // ----------------------------------------------------------- algorithm ----

  /** One merge; p wins ties. */
  function Merge<T, K>(cmp: (K, K) -> int, key: T -> K, p: seq<T>, q: seq<T>): (r: seq<T>)
    ensures |r| == |p| + |q|
  {
    if p == [] then q
    else if q == [] then p
    else if cmp(key(p[0]), key(q[0])) <= 0 then [p[0]] + Merge(cmp, key, p[1..], q)
    else [q[0]] + Merge(cmp, key, p, q[1..])
  }

  /** Merges the runs of length k pairwise. */
  function MergePass<T, K>(cmp: (K, K) -> int, key: T -> K, s: seq<T>, k: nat): (r: seq<T>)
    requires k > 0
    ensures |r| == |s|
  {
    if s == [] then []
    else
      var a, b := Min(k, |s|), Min(2 * k, |s|);
      Merge(cmp, key, s[..a], s[a..b]) + MergePass(cmp, key, s[b..], k)
  }

  /** Passes over runs of length k, 2k, 4k, ... until a pass made a single merge. */
  function Passes<T, K>(cmp: (K, K) -> int, key: T -> K, s: seq<T>, k: nat): (r: seq<T>)
    requires k > 0
    ensures |r| == |s|
    decreases |s| - k
  {
    if |s| <= 2 * k then MergePass(cmp, key, s, k) else Passes(cmp, key, MergePass(cmp, key, s, k), 2 * k)
  }

  // ---------------------------------------------------------- permutation ----

  lemma FirstAndRest<T>(s: seq<T>)
    requires s != []
    ensures multiset(s) == multiset{s[0]} + multiset(s[1..])
  {
    assert s == [s[0]] + s[1..];
  }

  lemma {:induction false} MergeKeeps<T, K>(cmp: (K, K) -> int, key: T -> K, p: seq<T>, q: seq<T>)
    ensures multiset(Merge(cmp, key, p, q)) == multiset(p) + multiset(q)
  {
    var r := Merge(cmp, key, p, q);
    if p != [] && q != [] {
      FirstAndRest(r);
      if cmp(key(p[0]), key(q[0])) <= 0 {
        MergeKeeps(cmp, key, p[1..], q);
        FirstAndRest(p);
        assert r[1..] == Merge(cmp, key, p[1..], q);
      } else {
        MergeKeeps(cmp, key, p, q[1..]);
        FirstAndRest(q);
        assert r[1..] == Merge(cmp, key, p, q[1..]);
      }
    }
  }

  lemma {:induction false} PassKeeps<T, K>(cmp: (K, K) -> int, key: T -> K, s: seq<T>, k: nat)
    requires k > 0
    ensures multiset(MergePass(cmp, key, s, k)) == multiset(s)
  {
    if s != [] {
      var a, b := Min(k, |s|), Min(2 * k, |s|);
      MergeKeeps(cmp, key, s[..a], s[a..b]);
      PassKeeps(cmp, key, s[b..], k);
      ThreeParts(s, a, b);
    }
  }

  lemma ThreeParts<T>(s: seq<T>, a: nat, b: nat)
    requires a <= b <= |s|
    ensures multiset(s) == multiset(s[..a]) + multiset(s[a..b]) + multiset(s[b..])
  {
    assert s[..b] == s[..a] + s[a..b];
    assert s == s[..b] + s[b..];
  }

  lemma {:induction false} PassesKeep<T, K>(cmp: (K, K) -> int, key: T -> K, s: seq<T>, k: nat)
    requires k > 0
    ensures multiset(Passes(cmp, key, s, k)) == multiset(s)
    decreases |s| - k
  {
    PassKeeps(cmp, key, s, k);
    if |s| > 2 * k {
      PassesKeep(cmp, key, MergePass(cmp, key, s, k), 2 * k);
    }
  }

  // ---------------------------------------------------------------- order ----

  /** cmp is the sign of a comparison of these keys. */
  ghost predicate Compares<K>(cmp: (K, K) -> int, all: iset<K>) {
    && (forall x, y :: x in all && y in all ==> (cmp(x, y) < 0 <==> cmp(y, x) > 0))
    && (forall x, y, z :: x in all && y in all && z in all && cmp(x, y) <= 0 && cmp(y, z) <= 0 ==> cmp(x, z) <= 0)
  }

  /** The elements have their keys among these. */
  ghost predicate KeysIn<T, K>(key: T -> K, s: seq<T>, all: iset<K>) {
    forall i :: 0 <= i < |s| ==> key(s[i]) in all
  }

  lemma Transitive<K>(cmp: (K, K) -> int, all: iset<K>, x: K, y: K, z: K)
    requires Compares(cmp, all) && x in all && y in all && z in all && cmp(x, y) <= 0 && cmp(y, z) <= 0
    ensures cmp(x, z) <= 0
    ensures cmp(x, y) < 0 || cmp(y, z) < 0 ==> cmp(x, z) < 0
  {
    if cmp(x, z) == 0 {
      assert cmp(z, x) == 0;
      assert cmp(z, y) <= 0 && cmp(y, x) <= 0;
    }
  }

  lemma PermutedKeysIn<T, K>(key: T -> K, s: seq<T>, t: seq<T>, all: iset<K>)
    requires KeysIn(key, s, all) && multiset(s) == multiset(t)
    ensures KeysIn(key, t, all)
  {
    forall i | 0 <= i < |t| ensures key(t[i]) in all {
      assert t[i] in multiset(t);
      assert t[i] in s;
    }
  }

  /** The stable order: by cmp, and elements that compare equal by their rank. */
  predicate Before<T, K>(cmp: (K, K) -> int, key: T -> K, rank: T -> int, x: T, y: T) {
    cmp(key(x), key(y)) < 0 || (cmp(key(x), key(y)) == 0 && rank(x) < rank(y))
  }

  ghost predicate Sorted<T, K>(cmp: (K, K) -> int, key: T -> K, rank: T -> int, s: seq<T>) {
    forall i, j :: 0 <= i < j < |s| ==> Before(cmp, key, rank, s[i], s[j])
  }

  /** All of a ranks before all of b. */
  ghost predicate Precedes<T>(rank: T -> int, a: seq<T>, b: seq<T>) {
    forall i, j :: 0 <= i < |a| && 0 <= j < |b| ==> rank(a[i]) < rank(b[j])
  }

  /** x comes first in front of s. */
  ghost predicate Leads<T, K>(cmp: (K, K) -> int, key: T -> K, rank: T -> int, x: T, s: seq<T>) {
    forall i :: 0 <= i < |s| ==> Before(cmp, key, rank, x, s[i])
  }

  lemma PrependSorted<T, K>(cmp: (K, K) -> int, key: T -> K, rank: T -> int, x: T, s: seq<T>)
    requires Leads(cmp, key, rank, x, s) && Sorted(cmp, key, rank, s)
    ensures Sorted(cmp, key, rank, [x] + s)
  {
  }

  lemma {:induction false} MergeLeads<T, K>(cmp: (K, K) -> int, key: T -> K, rank: T -> int, x: T, p: seq<T>, q: seq<T>)
    requires Leads(cmp, key, rank, x, p) && Leads(cmp, key, rank, x, q)
    ensures Leads(cmp, key, rank, x, Merge(cmp, key, p, q))
  {
    if p != [] && q != [] {
      if cmp(key(p[0]), key(q[0])) <= 0 {
        MergeLeads(cmp, key, rank, x, p[1..], q);
      } else {
        MergeLeads(cmp, key, rank, x, p, q[1..]);
      }
    }
  }

  /** The head of the left run leads both runs if it does not compare greater than the other head. */
  lemma LeftHeadLeads<T, K>(cmp: (K, K) -> int, all: iset<K>, key: T -> K, rank: T -> int, p: seq<T>, q: seq<T>)
    requires Compares(cmp, all) && KeysIn(key, p, all) && KeysIn(key, q, all)
    requires Sorted(cmp, key, rank, p) && Sorted(cmp, key, rank, q) && Precedes(rank, p, q)
    requires p != [] && q != [] && cmp(key(p[0]), key(q[0])) <= 0
    ensures Leads(cmp, key, rank, p[0], p[1..]) && Leads(cmp, key, rank, p[0], q)
  {
    forall i | 0 <= i < |q| ensures Before(cmp, key, rank, p[0], q[i]) {
      if i > 0 {
        assert Before(cmp, key, rank, q[0], q[i]);
        Transitive(cmp, all, key(p[0]), key(q[0]), key(q[i]));
      }
    }
  }

  lemma RightHeadLeads<T, K>(cmp: (K, K) -> int, all: iset<K>, key: T -> K, rank: T -> int, p: seq<T>, q: seq<T>)
    requires Compares(cmp, all) && KeysIn(key, p, all) && KeysIn(key, q, all)
    requires Sorted(cmp, key, rank, p) && Sorted(cmp, key, rank, q)
    requires p != [] && q != [] && cmp(key(p[0]), key(q[0])) > 0
    ensures Leads(cmp, key, rank, q[0], p) && Leads(cmp, key, rank, q[0], q[1..])
  {
    assert cmp(key(q[0]), key(p[0])) < 0;
    forall i | 0 <= i < |p| ensures Before(cmp, key, rank, q[0], p[i]) {
      if i > 0 {
        assert Before(cmp, key, rank, p[0], p[i]);
        Transitive(cmp, all, key(q[0]), key(p[0]), key(p[i]));
      }
    }
  }

  lemma {:induction false} MergeSorts<T, K>(cmp: (K, K) -> int, all: iset<K>, key: T -> K, rank: T -> int, p: seq<T>,
                                              q: seq<T>)
    requires Compares(cmp, all) && KeysIn(key, p, all) && KeysIn(key, q, all)
    requires Sorted(cmp, key, rank, p) && Sorted(cmp, key, rank, q) && Precedes(rank, p, q)
    ensures Sorted(cmp, key, rank, Merge(cmp, key, p, q))
  {
    if p != [] && q != [] {
      if cmp(key(p[0]), key(q[0])) <= 0 {
        MergeSorts(cmp, all, key, rank, p[1..], q);
        LeftHeadLeads(cmp, all, key, rank, p, q);
        MergeLeads(cmp, key, rank, p[0], p[1..], q);
        PrependSorted(cmp, key, rank, p[0], Merge(cmp, key, p[1..], q));
      } else {
        MergeSorts(cmp, all, key, rank, p, q[1..]);
        RightHeadLeads(cmp, all, key, rank, p, q);
        MergeLeads(cmp, key, rank, q[0], p, q[1..]);
        PrependSorted(cmp, key, rank, q[0], Merge(cmp, key, p, q[1..]));
      }
    }
  }

  /** Sorted runs of length k, each ranking before everything that follows. */
  ghost predicate Runs<T, K>(cmp: (K, K) -> int, key: T -> K, rank: T -> int, s: seq<T>, k: nat)
    requires k > 0
    decreases |s|
  {
    s != [] ==>
      var a := Min(k, |s|);
      Sorted(cmp, key, rank, s[..a]) && Precedes(rank, s[..a], s[a..]) && Runs(cmp, key, rank, s[a..], k)
  }

  /** To begin with every element is a run of its own. */
  lemma {:induction false} SingleRuns<T, K>(cmp: (K, K) -> int, key: T -> K, rank: T -> int, s: seq<T>)
    requires forall i, j :: 0 <= i < j < |s| ==> rank(s[i]) < rank(s[j])
    ensures Runs(cmp, key, rank, s, 1)
  {
    if s != [] {
      SingleRuns(cmp, key, rank, s[1..]);
    }
  }

  lemma PrecedesByElements<T>(rank: T -> int, a: seq<T>, b: seq<T>, a': seq<T>, b': seq<T>)
    requires Precedes(rank, a, b) && multiset(a') == multiset(a) && multiset(b') == multiset(b)
    ensures Precedes(rank, a', b')
  {
    forall i, j | 0 <= i < |a'| && 0 <= j < |b'| ensures rank(a'[i]) < rank(b'[j]) {
      assert a'[i] in multiset(a') && b'[j] in multiset(b');
      assert a'[i] in multiset(a) && b'[j] in multiset(b);
      assert a'[i] in a && b'[j] in b;
    }
  }

  lemma JoinPrecedes<T>(rank: T -> int, x: seq<T>, y: seq<T>, z: seq<T>)
    requires Precedes(rank, x, y + z) && Precedes(rank, y, z)
    ensures Precedes(rank, x, y) && Precedes(rank, x + y, z)
  {
    var r := y + z;
    forall i, j | 0 <= i < |x| && 0 <= j < |y| ensures rank(x[i]) < rank(y[j]) {
      assert r[j] == y[j];
    }
    forall i, j | 0 <= i < |x + y| && 0 <= j < |z| ensures rank((x + y)[i]) < rank(z[j]) {
      assert r[|y| + j] == z[j];
    }
  }

  lemma TwoRuns<T, K>(cmp: (K, K) -> int, key: T -> K, rank: T -> int, s: seq<T>, k: nat, x: seq<T>, y: seq<T>,
                      z: seq<T>)
    requires k > 0 && s != [] && Runs(cmp, key, rank, s, k)
    requires x == s[..Min(k, |s|)] && y == s[Min(k, |s|)..Min(2 * k, |s|)] && z == s[Min(2 * k, |s|)..]
    ensures Sorted(cmp, key, rank, x) && Sorted(cmp, key, rank, y) && Precedes(rank, x, y)
    ensures Precedes(rank, x + y, z) && Runs(cmp, key, rank, z, k)
  {
    var t := s[Min(k, |s|)..];
    SecondRun(s, k, y, z);
    JoinPrecedes(rank, x, y, z);
  }

  lemma SecondRun<T>(s: seq<T>, k: nat, y: seq<T>, z: seq<T>)
    requires k > 0 && y == s[Min(k, |s|)..Min(2 * k, |s|)] && z == s[Min(2 * k, |s|)..]
    ensures var t := s[Min(k, |s|)..];
      t == y + z && t[..Min(k, |t|)] == y && t[Min(k, |t|)..] == z
  {
  }

  lemma RunsPrepend<T, K>(cmp: (K, K) -> int, key: T -> K, rank: T -> int, m: seq<T>, rest: seq<T>, k: nat)
    requires k > 0 && 0 < |m| <= k && (|m| < k ==> rest == [])
    requires Sorted(cmp, key, rank, m) && Precedes(rank, m, rest) && Runs(cmp, key, rank, rest, k)
    ensures Runs(cmp, key, rank, m + rest, k)
  {
    var r := m + rest;
    assert Min(k, |r|) == |m|;
    assert r[..|m|] == m && r[|m|..] == rest;
  }

  /** A pass doubles the length of the runs. */
  lemma {:induction false} PassDoublesRuns<T, K>(cmp: (K, K) -> int, all: iset<K>, key: T -> K, rank: T -> int,
                                                   s: seq<T>, k: nat)
    requires k > 0 && Compares(cmp, all) && KeysIn(key, s, all) && Runs(cmp, key, rank, s, k)
    ensures Runs(cmp, key, rank, MergePass(cmp, key, s, k), 2 * k)
  {
    if s != [] {
      var a, b := Min(k, |s|), Min(2 * k, |s|);
      var x, y, z := s[..a], s[a..b], s[b..];
      TwoRuns(cmp, key, rank, s, k, x, y, z);
      MergeSorts(cmp, all, key, rank, x, y);
      PassDoublesRuns(cmp, all, key, rank, z, k);
      var m, rest := Merge(cmp, key, x, y), MergePass(cmp, key, z, k);
      MergeKeeps(cmp, key, x, y);
      PassKeeps(cmp, key, z, k);
      PrecedesByElements(rank, x + y, z, m, rest);
      RunsPrepend(cmp, key, rank, m, rest, 2 * k);
    }
  }

  /** The passes end with one run. */
  lemma {:induction false} PassesSort<T, K>(cmp: (K, K) -> int, all: iset<K>, key: T -> K, rank: T -> int, s: seq<T>,
                                              k: nat)
    requires k > 0 && Compares(cmp, all) && KeysIn(key, s, all) && Runs(cmp, key, rank, s, k)
    ensures Sorted(cmp, key, rank, Passes(cmp, key, s, k))
    decreases |s| - k
  {
    PassDoublesRuns(cmp, all, key, rank, s, k);
    var r := MergePass(cmp, key, s, k);
    if |s| <= 2 * k {
      assert r[..|r|] == r;
    } else {
      PassKeeps(cmp, key, s, k);
      PermutedKeysIn(key, s, r, all);
      PassesSort(cmp, all, key, rank, r, 2 * k);
    }
  }

  /** Starting from single elements: a permutation, sorted, and stable. */
  lemma StableSort<T, K>(cmp: (K, K) -> int, all: iset<K>, key: T -> K, rank: T -> int, s: seq<T>)
    requires Compares(cmp, all) && KeysIn(key, s, all) && forall i, j :: 0 <= i < j < |s| ==> rank(s[i]) < rank(s[j])
    ensures multiset(Passes(cmp, key, s, 1)) == multiset(s)
    ensures Sorted(cmp, key, rank, Passes(cmp, key, s, 1))
  {
    PassesKeep(cmp, key, s, 1);
    SingleRuns(cmp, key, rank, s);
    PassesSort(cmp, all, key, rank, s, 1);
  }
}
