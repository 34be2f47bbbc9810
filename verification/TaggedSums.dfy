/**
 Sums of the values that carry a given tag. The layout code keeps two such
 tables: infos drawn per chart (devices tagged with their chart) and columns
 used per stack (charts tagged with their stack).
 */
module TaggedSums {

  /** Sum of vals[i] over the first n positions whose tag is t. */
  function SumTo(vals: seq<nat>, tags: seq<nat>, t: nat, n: nat): nat
    requires n <= |vals| && n <= |tags|
  {
    if n == 0 then 0
    else SumTo(vals, tags, t, n - 1) + if tags[n - 1] == t then vals[n - 1] else 0
  }

  /** Plain sum of the first n values. */
  function Total(vals: seq<nat>, n: nat): nat
    requires n <= |vals|
  {
    if n == 0 then 0 else Total(vals, n - 1) + vals[n - 1]
  }

  lemma {:induction false} SumFrame(vals: seq<nat>, tags: seq<nat>, vals': seq<nat>, tags': seq<nat>, t: nat, n: nat)
    requires n <= |vals| && n <= |tags| && n <= |vals'| && n <= |tags'|
    requires forall i :: 0 <= i < n ==> vals[i] == vals'[i] && tags[i] == tags'[i]
    ensures SumTo(vals, tags, t, n) == SumTo(vals', tags', t, n)
  {
    if n > 0 {
      SumFrame(vals, tags, vals', tags', t, n - 1);
    }
  }

  /** Tags of zero values do not matter, and a tag may be renamed. */
  lemma {:induction false} SumRenamed(vals: seq<nat>, tags: seq<nat>, tags': seq<nat>, t: nat, t': nat, n: nat)
    requires n <= |vals| && n <= |tags| && n <= |tags'|
    requires forall i :: 0 <= i < n && vals[i] > 0 ==> (tags[i] == t <==> tags'[i] == t')
    ensures SumTo(vals, tags, t, n) == SumTo(vals, tags', t', n)
  {
    if n > 0 {
      SumRenamed(vals, tags, tags', t, t', n - 1);
    }
  }

  /** Giving one position a new tag moves exactly its value between two sums. */
  lemma {:induction false} SumRetagged(vals: seq<nat>, tags: seq<nat>, i: nat, to: nat, t: nat, n: nat)
    requires i < |tags| && n <= |vals| && n <= |tags|
    ensures i < n ==> SumTo(vals, tags[i := to], t, n) + (if tags[i] == t then vals[i] else 0)
                      == SumTo(vals, tags, t, n) + (if to == t then vals[i] else 0)
    ensures i >= n ==> SumTo(vals, tags[i := to], t, n) == SumTo(vals, tags, t, n)
  {
    if n > 0 {
      SumRetagged(vals, tags, i, to, t, n - 1);
    }
  }

  /** Folding tag b into tag a adds the two sums and empties b. */
  lemma {:induction false} SumFolded(vals: seq<nat>, tags: seq<nat>, tags': seq<nat>, a: nat, b: nat, t: nat, n: nat)
    requires n <= |vals| && n <= |tags| && n <= |tags'| && a != b
    requires forall i :: 0 <= i < n ==> tags'[i] == if tags[i] == b then a else tags[i]
    ensures SumTo(vals, tags', t, n) ==
            if t == a then SumTo(vals, tags, a, n) + SumTo(vals, tags, b, n)
            else if t == b then 0
            else SumTo(vals, tags, t, n)
  {
    if n > 0 {
      SumFolded(vals, tags, tags', a, b, t, n - 1);
    }
  }

  lemma {:induction false} SumAtLeast(vals: seq<nat>, tags: seq<nat>, i: nat, n: nat)
    requires i < n <= |vals| && n <= |tags|
    ensures SumTo(vals, tags, tags[i], n) >= vals[i]
  {
    if i < n - 1 {
      SumAtLeast(vals, tags, i, n - 1);
    }
  }

  lemma {:induction false} SumPositive(vals: seq<nat>, tags: seq<nat>, t: nat, n: nat) returns (i: nat)
    requires n <= |vals| && n <= |tags|
    requires SumTo(vals, tags, t, n) > 0
    ensures i < n && tags[i] == t && vals[i] > 0
  {
    if tags[n - 1] == t && vals[n - 1] > 0 {
      i := n - 1;
    } else {
      i := SumPositive(vals, tags, t, n - 1);
    }
  }
}
