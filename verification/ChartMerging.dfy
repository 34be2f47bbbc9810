/**
 Charts and their merging (src/interface_layout_selection.c:25-56, 165-172): one
 chart per device to begin with, and two neighbouring charts drawn as one.
 */
module ChartMerging {
  import opened TaggedSums

  const COLS_NEEDED_BOX_DRAWING: nat := 5
  const MIN_PLOT_ROWS: nat := 7
  const UINT_MAX: nat := 0xFFFF_FFFF

  function MinPlotCols(infos: nat): nat {
    COLS_NEEDED_BOX_DRAWING + 10 * infos
  }

  /** The columns needed by each chart of a list. */
  function Widths(infos: seq<nat>): (w: seq<nat>)
    ensures |w| == |infos|
    ensures forall k :: 0 <= k < |w| ==> w[k] == MinPlotCols(infos[k])
  {
    seq(|infos|, k requires 0 <= k < |infos| => MinPlotCols(infos[k]))
  }

  /** a and b are non-empty charts with only empty charts between them. */
  ghost predicate Neighbours(infos: seq<nat>, a: nat, b: nat) {
    && a < b < |infos|
    && infos[a] > 0 && infos[b] > 0
    && forall k :: a < k < b ==> infos[k] == 0
  }

  ghost predicate Mergeable(infos: seq<nat>, most: nat, a: nat, b: nat) {
    Neighbours(infos, a, b) && infos[a] + infos[b] <= most && infos[a] + infos[b] < UINT_MAX
  }

  /** The pair to merge: the smallest sum, and among those the rightmost pair. */
  ghost predicate IsBestMerge(infos: seq<nat>, most: nat, a: nat, b: nat) {
    && Mergeable(infos, most, a, b)
    && forall x: nat, y: nat :: Mergeable(infos, most, x, y) ==>
         || infos[a] + infos[b] < infos[x] + infos[y]
         || (infos[a] + infos[b] == infos[x] + infos[y] && y <= b)
  }

  lemma BestMergeIsUnique(infos: seq<nat>, most: nat, a: nat, b: nat, x: nat, y: nat)
    requires IsBestMerge(infos, most, a, b) && IsBestMerge(infos, most, x, y)
    ensures a == x && b == y
  {
    assert b == y;
  }

  /** The closest non-empty chart on the left of idx, or idx itself. */
  method LeftNeighbour(infos: array<nat>, idx: nat) returns (m: nat)
    requires idx < infos.Length && infos[idx] > 0
    ensures m <= idx
    ensures m < idx ==> Neighbours(infos[..], m, idx)
    ensures forall x: nat :: Neighbours(infos[..], x, idx) ==> x == m
  {
    m := idx;
    var j: int := idx - 1;
    while j >= 0
      invariant -1 <= j < idx && m == idx
      invariant forall k :: j < k < idx ==> infos[k] == 0
    {
      if infos[j] != 0 {
        m := j;
        break;
      }
      j := j - 1;
    }
  }

  method WhoToMerge(most: nat, infos: array<nat>) returns (found: bool, a: nat, b: nat)
    ensures found ==> IsBestMerge(infos[..], most, a, b)
    ensures !found ==> forall x: nat, y: nat :: !Mergeable(infos[..], most, x, y)
  {
    var smallest := UINT_MAX;
    a, b := 0, 0;
    ghost var s := infos[..];
    var idx: int := infos.Length - 1;
    while idx >= 0
      invariant -1 <= idx < infos.Length
      invariant smallest <= UINT_MAX
      invariant smallest < UINT_MAX ==> Mergeable(s, most, a, b) && idx < b && s[a] + s[b] == smallest
      invariant forall x: nat, y: nat :: Mergeable(s, most, x, y) && y > idx ==>
                  smallest < s[x] + s[y] || (smallest == s[x] + s[y] && y <= b)
    {
      if infos[idx] != 0 {
        var mergeWith := LeftNeighbour(infos, idx);
        var merged := infos[idx] + infos[mergeWith];
        if mergeWith < idx && merged <= most && merged < smallest {
          smallest := merged;
          a, b := mergeWith, idx;
        }
      }
      idx := idx - 1;
    }
    found := smallest != UINT_MAX;
  }

  /** Chart b's infos are drawn by chart a. */
  function MergeInfos(infos: seq<nat>, a: nat, b: nat): (r: seq<nat>)
    requires a < |infos| && b < |infos|
    ensures |r| == |infos|
  {
    infos[a := infos[a] + infos[b]][b := 0]
  }

  /** Every device owned by chart b's owner moves to chart a's owner. */
  function MergeOwners(owner: seq<nat>, a: nat, b: nat): (r: seq<nat>)
    requires a < |owner| && b < |owner|
    ensures |r| == |owner|
    ensures forall d :: 0 <= d < |r| ==> r[d] == if owner[d] == owner[b] then owner[a] else owner[d]
  {
    seq(|owner|, d requires 0 <= d < |owner| => if owner[d] == owner[b] then owner[a] else owner[d])
  }

  /** What every round of merging keeps. */
  ghost predicate Consistent(draws: seq<nat>, infos: seq<nat>, owner: seq<nat>) {
    && |infos| == |draws| && |owner| == |draws|
    && (forall d :: 0 <= d < |owner| ==> owner[d] < |draws|)
       // nothing a device draws is lost or counted twice
    && (forall p :: 0 <= p < |infos| ==> infos[p] == SumTo(draws, owner, p, |draws|))
       // a chart still in use is drawn at the place of its first device
    && (forall p :: 0 <= p < |infos| && infos[p] > 0 ==> owner[p] == p)
       // device order is kept
    && (forall d, e :: 0 <= d < e < |draws| && draws[d] > 0 && draws[e] > 0 ==> owner[d] <= owner[e])
  }

  lemma {:induction false} IdentitySum(draws: seq<nat>, owner: seq<nat>, p: nat, n: nat)
    requires n <= |draws| && |owner| == |draws|
    requires forall d :: 0 <= d < |owner| ==> owner[d] == d
    ensures SumTo(draws, owner, p, n) == if p < n then draws[p] else 0
  {
    if n > 0 {
      IdentitySum(draws, owner, p, n - 1);
    }
  }

  lemma InitiallyConsistent(draws: seq<nat>, owner: seq<nat>)
    requires |owner| == |draws| && forall d :: 0 <= d < |owner| ==> owner[d] == d
    ensures Consistent(draws, draws, owner)
  {
    forall p | 0 <= p < |draws| ensures draws[p] == SumTo(draws, owner, p, |draws|) {
      IdentitySum(draws, owner, p, |draws|);
    }
  }

  lemma MergeKeepsConsistent(draws: seq<nat>, infos: seq<nat>, owner: seq<nat>, a: nat, b: nat)
    requires Consistent(draws, infos, owner) && Neighbours(infos, a, b)
    ensures Consistent(draws, MergeInfos(infos, a, b), MergeOwners(owner, a, b))
  {
    var n, infos', owner' := |draws|, MergeInfos(infos, a, b), MergeOwners(owner, a, b);
    forall p | 0 <= p < n ensures infos'[p] == SumTo(draws, owner', p, n) {
      SumFolded(draws, owner, owner', a, b, p, n);
    }
    forall d, e | 0 <= d < e < n && draws[d] > 0 && draws[e] > 0 ensures owner'[d] <= owner'[e] {
      SumAtLeast(draws, owner, d, n);
      SumAtLeast(draws, owner, e, n);
      assert owner[d] <= owner[e];
    }
  }

  /** How many of the first n charts are in use; also the new index of chart n. */
  function InUse(infos: seq<nat>, n: nat): (r: nat)
    requires n <= |infos|
    ensures r <= n
  {
    if n == 0 then 0 else InUse(infos, n - 1) + if infos[n - 1] > 0 then 1 else 0
  }

  lemma {:induction false} InUseAfterMerge(infos: seq<nat>, a: nat, b: nat, n: nat)
    requires Neighbours(infos, a, b) && n <= |infos|
    ensures InUse(MergeInfos(infos, a, b), n) + (if b < n then 1 else 0) == InUse(infos, n)
  {
    if n > 0 {
      InUseAfterMerge(infos, a, b, n - 1);
    }
  }
}
