/**
 preliminary_plot_positioning (src/interface_layout_selection.c): the search of
 ChartPacking followed by the renumbering of the charts left in use as
 0..num_plots-1, with the properties its callers rely on.
 */
module ChartPlan {
  import opened PlotLimits
  import opened TaggedSums
  import opened ChartMerging
  import opened ChartPacking
  import opened ChartSearch

  /** What info_in_plot returns for each chart. */
  function ChartInfos(draws: seq<nat>, chartOf: seq<nat>, charts: nat): (r: seq<nat>)
    requires |chartOf| == |draws|
    ensures |r| == charts
    ensures forall p :: 0 <= p < charts ==> r[p] == SumTo(draws, chartOf, p, |draws|)
  {
    seq(charts, p requires 0 <= p < charts => SumTo(draws, chartOf, p, |draws|))
  }

  // ---------------------------------------------------------- numbering ----

  lemma {:induction false} CompactTail(infos: seq<nat>, m: nat, n: nat)
    requires m < n <= |infos| && infos[m] > 0
    ensures InUse(infos, m) < InUse(infos, n) && Compact(infos, n)[InUse(infos, m)] == infos[m]
  {
    if m < n - 1 {
      CompactTail(infos, m, n - 1);
    }
  }

  /** Every new chart number comes from a chart in use. */
  lemma {:induction false} Locate(infos: seq<nat>, p: nat, n: nat) returns (at: nat)
    requires n <= |infos| && p < InUse(infos, n)
    ensures at < n && infos[at] > 0 && InUse(infos, at) == p && Compact(infos, n)[p] == infos[at]
  {
    if infos[n - 1] > 0 && InUse(infos, n - 1) == p {
      at := n - 1;
    } else {
      at := Locate(infos, p, n - 1);
    }
  }

  /** Drawing devices follow their chart to its new number. */
  ghost predicate Renumbered(draws: seq<nat>, infos: seq<nat>, owner: seq<nat>, chartOf: seq<nat>) {
    && |owner| == |draws| && |infos| == |draws| && |chartOf| == |draws|
    && forall d :: 0 <= d < |draws| && draws[d] > 0 ==>
         owner[d] < |infos| && chartOf[d] == InUse(infos, owner[d])
  }

  lemma OwnerInUse(draws: seq<nat>, infos: seq<nat>, owner: seq<nat>, d: nat)
    requires Consistent(draws, infos, owner) && d < |draws| && draws[d] > 0
    ensures infos[owner[d]] > 0
  {
    SumAtLeast(draws, owner, d, |draws|);
  }

  lemma NumberingFollowsOwners(draws: seq<nat>, infos: seq<nat>, owner: seq<nat>, chartOf: seq<nat>, at: nat, d: nat)
    requires Consistent(draws, infos, owner) && Renumbered(draws, infos, owner, chartOf)
    requires at < |infos| && infos[at] > 0 && d < |draws| && draws[d] > 0
    ensures owner[d] == at <==> chartOf[d] == InUse(infos, at)
  {
    OwnerInUse(draws, infos, owner, d);
    if owner[d] < at {
      InUseMonotone(infos, owner[d], at);
    } else {
      InUseMonotone(infos, at, owner[d]);
    }
  }

  /** Renumbering keeps the infos of every chart in use. */
  lemma RenumberedInfos(draws: seq<nat>, infos: seq<nat>, owner: seq<nat>, chartOf: seq<nat>)
    requires Consistent(draws, infos, owner) && Renumbered(draws, infos, owner, chartOf)
    ensures ChartInfos(draws, chartOf, InUse(infos, |infos|)) == Compact(infos, |infos|)
  {
    forall p | 0 <= p < InUse(infos, |infos|)
      ensures SumTo(draws, chartOf, p, |draws|) == Compact(infos, |infos|)[p]
    {
      var at := Locate(infos, p, |infos|);
      forall d | 0 <= d < |draws| && draws[d] > 0 ensures owner[d] == at <==> chartOf[d] == p {
        NumberingFollowsOwners(draws, infos, owner, chartOf, at, d);
      }
      SumRenamed(draws, owner, chartOf, at, p, |draws|);
    }
  }

  lemma RenumberedOrder(draws: seq<nat>, infos: seq<nat>, owner: seq<nat>, chartOf: seq<nat>)
    requires Consistent(draws, infos, owner) && Renumbered(draws, infos, owner, chartOf)
    ensures forall d :: 0 <= d < |draws| && draws[d] > 0 ==> chartOf[d] < InUse(infos, |infos|)
    ensures forall d, e :: 0 <= d < e < |draws| && draws[d] > 0 && draws[e] > 0 ==> chartOf[d] <= chartOf[e]
  {
    forall d | 0 <= d < |draws| && draws[d] > 0 ensures chartOf[d] < InUse(infos, |infos|) {
      OwnerInUse(draws, infos, owner, d);
      InUseMonotone(infos, owner[d], |infos|);
    }
    forall d, e | 0 <= d < e < |draws| && draws[d] > 0 && draws[e] > 0 ensures chartOf[d] <= chartOf[e] {
      InUseMonotone(infos, owner[d], owner[e]);
    }
  }

  /** Devices of the charts before `taken` have their new number, the others still their owner. */
  ghost predicate Handled(draws: seq<nat>, infos: seq<nat>, owner: seq<nat>, chartOf: seq<nat>, taken: nat)
    requires |owner| == |draws| && |infos| == |draws| && |chartOf| == |draws|
  {
    forall d :: 0 <= d < |draws| && draws[d] > 0 && owner[d] < |infos| ==>
      chartOf[d] == if owner[d] < taken then InUse(infos, owner[d]) else owner[d]
  }

  lemma HandleNext(draws: seq<nat>, infos: seq<nat>, owner: seq<nat>, before: seq<nat>, after: seq<nat>,
                   taken: nat, next: nat, to: nat)
    requires Consistent(draws, infos, owner) && |before| == |after| == |draws|
    requires taken <= next < |infos| && infos[next] > 0 && forall k :: taken <= k < next ==> infos[k] == 0
    requires Handled(draws, infos, owner, before, taken) && to == InUse(infos, taken)
    requires forall d :: 0 <= d < |after| ==> after[d] == if before[d] == next then to else before[d]
    ensures Handled(draws, infos, owner, after, next + 1) && InUse(infos, next + 1) == to + 1
  {
    AllEmpty(infos, taken, next);
    forall d | 0 <= d < |draws| && draws[d] > 0
      ensures after[d] == if owner[d] < next + 1 then InUse(infos, owner[d]) else owner[d]
    {
      OwnerInUse(draws, infos, owner, d);
    }
  }

  lemma HandleRest(draws: seq<nat>, infos: seq<nat>, owner: seq<nat>, chartOf: seq<nat>, taken: nat)
    requires Consistent(draws, infos, owner) && |chartOf| == |draws| && taken <= |infos|
    requires forall k :: taken <= k < |infos| ==> infos[k] == 0
    requires Handled(draws, infos, owner, chartOf, taken)
    ensures Handled(draws, infos, owner, chartOf, |infos|) && InUse(infos, |infos|) == InUse(infos, taken)
  {
    AllEmpty(infos, taken, |infos|);
    forall d | 0 <= d < |draws| && draws[d] > 0 ensures owner[d] < taken {
      OwnerInUse(draws, infos, owner, d);
    }
  }

  /** Search next non-empty chart. */
  method NextNonEmpty(infos: array<nat>, idx: nat) returns (next: nat)
    requires idx < infos.Length && infos[idx] == 0
    ensures idx < next <= infos.Length
    ensures forall k :: idx <= k < next ==> infos[k] == 0
    ensures next < infos.Length ==> infos[next] > 0
  {
    next := idx + 1;
    while next < infos.Length && infos[next] == 0
      invariant idx < next <= infos.Length
      invariant forall k :: idx <= k < next ==> infos[k] == 0
    {
      next := next + 1;
    }
  }

  /** State of the renumbering loop before position idx. */
  ghost predicate Compacting(draws: seq<nat>, o: seq<nat>, w: seq<nat>, infos: seq<nat>, chartOf: seq<nat>,
                             idx: nat, taken: nat, numPlots: nat)
    requires Consistent(draws, o, w)
  {
    && |infos| == |draws| && |chartOf| == |draws| && idx <= taken <= |draws|
    && numPlots == InUse(o, taken) && numPlots <= idx && (numPlots < idx ==> taken == |draws|)
    && (forall k :: idx <= k < |draws| ==> infos[k] == if k < taken then 0 else o[k])
    && Handled(draws, o, w, chartOf, taken) && Compacted(o, infos, idx, numPlots)
  }

  /** The first idx charts: those in use in their order, then empty ones. */
  ghost predicate Compacted(o: seq<nat>, infos: seq<nat>, idx: nat, numPlots: nat) {
    && idx <= |infos| && numPlots <= |Compact(o, |o|)|
    && forall k :: 0 <= k < idx ==> infos[k] == if k < numPlots then Compact(o, |o|)[k] else 0
  }

  lemma KeepOne(draws: seq<nat>, o: seq<nat>, w: seq<nat>, infos: seq<nat>, chartOf: seq<nat>, idx: nat, taken: nat,
                numPlots: nat)
    requires Consistent(draws, o, w) && Compacting(draws, o, w, infos, chartOf, idx, taken, numPlots)
    requires idx < |draws| && infos[idx] > 0
    ensures Compacting(draws, o, w, infos, chartOf, idx + 1, idx + 1, numPlots + 1)
  {
    HandleNext(draws, o, w, chartOf, chartOf, taken, idx, idx);
    CompactTail(o, idx, |o|);
  }

  lemma PullOne(draws: seq<nat>, o: seq<nat>, w: seq<nat>, infos: seq<nat>, chartOf: seq<nat>, idx: nat, taken: nat,
                numPlots: nat, next: nat, chartOf': seq<nat>)
    requires Consistent(draws, o, w) && Compacting(draws, o, w, infos, chartOf, idx, taken, numPlots)
    requires idx < next < |draws| && infos[next] > 0 && forall k :: idx <= k < next ==> infos[k] == 0
    requires |chartOf'| == |draws|
    requires forall d :: 0 <= d < |draws| ==> chartOf'[d] == if chartOf[d] == next then idx else chartOf[d]
    ensures Compacting(draws, o, w, infos[idx := infos[next]][next := 0], chartOf', idx + 1, next + 1, numPlots + 1)
  {
    assert taken <= next;
    forall k | taken <= k < next ensures o[k] == 0 {
      assert infos[k] == 0;
    }
    HandleNext(draws, o, w, chartOf, chartOf', taken, next, idx);
    PullCompacted(o, infos, idx, numPlots, next);
  }

  lemma PullCompacted(o: seq<nat>, infos: seq<nat>, idx: nat, numPlots: nat, next: nat)
    requires Compacted(o, infos, idx, numPlots) && idx < next < |infos| == |o| && idx == numPlots
    requires infos[next] == o[next] > 0 && numPlots == InUse(o, next)
    ensures Compacted(o, infos[idx := infos[next]][next := 0], idx + 1, numPlots + 1)
  {
    CompactTail(o, next, |o|);
  }

  lemma PullNone(draws: seq<nat>, o: seq<nat>, w: seq<nat>, infos: seq<nat>, chartOf: seq<nat>, idx: nat, taken: nat,
                 numPlots: nat)
    requires Consistent(draws, o, w) && Compacting(draws, o, w, infos, chartOf, idx, taken, numPlots)
    requires idx < |draws| && forall k :: idx <= k < |draws| ==> infos[k] == 0
    ensures Compacting(draws, o, w, infos, chartOf, idx + 1, |draws|, numPlots)
  {
    forall k | taken <= k < |o| ensures o[k] == 0 {
      assert infos[k] == 0;
    }
    HandleRest(draws, o, w, chartOf, taken);
    InUseMonotone(o, taken, |o|);
  }

  /** Position idx gets the next chart in use, if there is one. */
  method CompactOne(ghost draws: seq<nat>, infos: array<nat>, chartOf: array<nat>, idx: nat, numPlots: nat,
                    ghost o: seq<nat>, ghost w: seq<nat>, ghost taken: nat)
    returns (numPlots': nat, ghost taken': nat)
    requires infos.Length == chartOf.Length == |draws| && infos != chartOf && idx < infos.Length
    requires Consistent(draws, o, w) && Compacting(draws, o, w, infos[..], chartOf[..], idx, taken, numPlots)
    modifies infos, chartOf
    ensures Compacting(draws, o, w, infos[..], chartOf[..], idx + 1, taken', numPlots')
  {
    ghost var c, v := infos[..], chartOf[..];
    if infos[idx] == 0 {
      var next := NextNonEmpty(infos, idx);
      if next < infos.Length {
        infos[idx] := infos[next];
        infos[next] := 0;
        RenameChart(next, idx, chartOf);
        PullOne(draws, o, w, c, v, idx, taken, numPlots, next, chartOf[..]);
        assert infos[..] == c[idx := c[next]][next := 0];
        numPlots', taken' := numPlots + 1, next + 1;
      } else {
        PullNone(draws, o, w, c, v, idx, taken, numPlots);
        numPlots', taken' := numPlots, infos.Length;
      }
    } else {
      KeepOne(draws, o, w, c, v, idx, taken, numPlots);
      numPlots', taken' := numPlots + 1, idx + 1;
    }
  }

  /** Moves the charts in use over the empty ones and renumbers their devices. */
  method CompactCharts(ghost draws: seq<nat>, infos: array<nat>, chartOf: array<nat>) returns (numPlots: nat)
    requires infos.Length == chartOf.Length && infos != chartOf
    requires Consistent(draws, infos[..], chartOf[..])
    modifies infos, chartOf
    ensures numPlots == InUse(old(infos[..]), infos.Length)
    ensures Compacted(old(infos[..]), infos[..], infos.Length, numPlots)
    ensures Renumbered(draws, old(infos[..]), old(chartOf[..]), chartOf[..])
  {
    ghost var o, w := infos[..], chartOf[..];
    ghost var taken: nat := 0;   // charts before this one have been handled
    numPlots := 0;
    for idx := 0 to infos.Length
      invariant Compacting(draws, o, w, infos[..], chartOf[..], idx, taken, numPlots)
    {
      numPlots, taken := CompactOne(draws, infos, chartOf, idx, numPlots, o, w, taken);
    }
  }

  lemma {:induction false} AllEmpty(infos: seq<nat>, m: nat, n: nat)
    requires m <= n <= |infos| && forall k :: m <= k < n ==> infos[k] == 0
    ensures InUse(infos, n) == InUse(infos, m)
  {
    if m < n {
      AllEmpty(infos, m, n - 1);
    }
  }

  /** Every device on chart `from` moves to chart `to`. */
  method RenameChart(from: nat, to: nat, chartOf: array<nat>)
    modifies chartOf
    ensures forall d :: 0 <= d < chartOf.Length ==>
              chartOf[d] == if old(chartOf[d]) == from then to else old(chartOf[d])
  {
    for d := 0 to chartOf.Length
      invariant forall k :: 0 <= k < d ==>
                  chartOf[k] == if old(chartOf[k]) == from then to else old(chartOf[k])
      invariant forall k :: d <= k < chartOf.Length ==> chartOf[k] == old(chartOf[k])
    {
      if chartOf[d] == from {
        chartOf[d] := to;
      }
    }
  }

  // ------------------------------------------------------- whole function ----

  /** What the caller gets when at least one stack was opened. */
  ghost predicate LaidOut(draws: seq<nat>, chartOf: seq<nat>, numPlots: nat, stackOf: seq<nat>, stacks: nat,
                          rows: nat, cols: nat)
    requires |chartOf| == |draws|
  {
    var infos := ChartInfos(draws, chartOf, numPlots);
    && 0 < numPlots <= |draws|
       // no chart is empty: the assertion of info_in_plot cannot fail
    && (forall p :: 0 <= p < numPlots ==> infos[p] > 0)
       // every device that draws has a chart, in device order
    && (forall d :: 0 <= d < |draws| && draws[d] > 0 ==> chartOf[d] < numPlots)
    && (forall d, e :: 0 <= d < e < |draws| && draws[d] > 0 && draws[e] > 0 ==> chartOf[d] <= chartOf[e])
       // charts in order over stacks that fit, as packed as possible
    && Packs(Widths(infos), stackOf, stacks, cols)
    && NextFit(Widths(infos), stackOf, cols)
    && stackOf[numPlots - 1] == stacks - 1
    && stacks * MIN_PLOT_ROWS <= rows
  }

  ghost predicate DrawsAnything(draws: seq<nat>) {
    exists d :: 0 <= d < |draws| && draws[d] > 0
  }

  function Identity(n: nat): (r: seq<nat>)
    ensures |r| == n && forall d :: 0 <= d < n ==> r[d] == d
  {
    seq(n, d requires 0 <= d < n => d)
  }

  lemma {:induction false} SomethingInUse(draws: seq<nat>, d: nat, n: nat)
    requires d < n <= |draws| && draws[d] > 0
    ensures InUse(draws, n) > 0
  {
    if d < n - 1 {
      SomethingInUse(draws, d, n - 1);
    }
  }

  /** Merging never empties the last chart. */
  lemma {:induction false} SettledInUse(infos: seq<nat>, owner: seq<nat>, rows: nat, cols: nat, plan: Plan)
    requires |owner| == |infos| && InUse(infos, |infos|) > 0
    requires Settles(infos, owner, rows, cols, plan) && plan.Laid?
    ensures InUse(plan.infos, |plan.infos|) > 0
    decreases InUse(infos, |infos|)
  {
    if TryPack(infos, rows, cols, |infos|).Crowded? {
      var a: nat, b: nat :| IsBestMerge(infos, MAX_LINES_PER_PLOT, a, b) &&
        Settles(MergeInfos(infos, a, b), MergeOwners(owner, a, b), rows, cols, plan);
      InUseAfterMerge(infos, a, b, |infos|);
      SomethingInUse(MergeInfos(infos, a, b), a, |infos|);
      SettledInUse(MergeInfos(infos, a, b), MergeOwners(owner, a, b), rows, cols, plan);
    }
  }

  /** The plan's packing, seen on the renumbered charts. */
  lemma PlanPacks(infos: seq<nat>, rows: nat, cols: nat)
    requires rows >= MIN_PLOT_ROWS
    ensures var at, ws := TryPack(infos, rows, cols, |infos|), Widths(Compact(infos, |infos|));
            at.Placed? && |ws| > 0 ==>
              && Packs(ws, at.stackOf, at.stacks, cols) && NextFit(ws, at.stackOf, cols)
              && at.stackOf[|ws| - 1] == at.stacks - 1 && at.stacks * MIN_PLOT_ROWS <= rows
    ensures var at := TryPack(infos, rows, cols, |infos|);
            at.Placed? ==> |at.stackOf| == InUse(infos, |infos|)
  {
    PlacedIsNextFit(infos, rows, cols, |infos|);
  }

  lemma PlanIsLaidOut(draws: seq<nat>, rows: nat, cols: nat, plan: Plan, chartOf: seq<nat>)
    requires rows >= MIN_PLOT_ROWS && plan.Laid?
    requires Consistent(draws, plan.infos, plan.owner) && InUse(plan.infos, |draws|) > 0
    requires var at := TryPack(plan.infos, rows, cols, |draws|);
             at.Placed? && at.stackOf == plan.stackOf && at.stacks == plan.stacks
    requires Renumbered(draws, plan.infos, plan.owner, chartOf)
    ensures LaidOut(draws, chartOf, InUse(plan.infos, |draws|), plan.stackOf, plan.stacks, rows, cols)
  {
    RenumberedInfos(draws, plan.infos, plan.owner, chartOf);
    RenumberedOrder(draws, plan.infos, plan.owner, chartOf);
    PlanPacks(plan.infos, rows, cols);
  }

  /** The infos drawn over all charts are the infos drawn over all devices. */
  lemma {:induction false} ChartTotals(draws: seq<nat>, chartOf: seq<nat>, charts: nat, n: nat)
    requires |chartOf| == |draws| && n <= |draws|
    requires forall d :: 0 <= d < n && draws[d] > 0 ==> chartOf[d] < charts
    ensures Total(seq(charts, p requires 0 <= p < charts => SumTo(draws, chartOf, p, n)), charts) == Total(draws, n)
  {
    var sums := seq(charts, p requires 0 <= p < charts => SumTo(draws, chartOf, p, n));
    if n == 0 {
      AllZero(sums, charts);
    } else {
      ChartTotals(draws, chartOf, charts, n - 1);
      var before := seq(charts, p requires 0 <= p < charts => SumTo(draws, chartOf, p, n - 1));
      OneGrows(before, sums, chartOf[n - 1], draws[n - 1], charts);
    }
  }

  lemma {:induction false} AllZero(vals: seq<nat>, n: nat)
    requires n <= |vals| && forall i :: 0 <= i < n ==> vals[i] == 0
    ensures Total(vals, n) == 0
  {
    if n > 0 {
      AllZero(vals, n - 1);
    }
  }

  lemma {:induction false} OneGrows(vals: seq<nat>, vals': seq<nat>, at: nat, grow: nat, n: nat)
    requires n <= |vals| && n <= |vals'|
    requires forall i :: 0 <= i < n ==> vals'[i] == vals[i] + if i == at then grow else 0
    ensures Total(vals', n) == Total(vals, n) + if at < n then grow else 0
  {
    if n > 0 {
      OneGrows(vals, vals', at, grow, n - 1);
    }
  }

  /** Nothing drawn is lost: the charts of a layout draw what the devices draw. */
  lemma LayoutConservesInfos(draws: seq<nat>, chartOf: seq<nat>, numPlots: nat, stackOf: seq<nat>, stacks: nat,
                             rows: nat, cols: nat)
    requires |chartOf| == |draws| && LaidOut(draws, chartOf, numPlots, stackOf, stacks, rows, cols)
    ensures Total(ChartInfos(draws, chartOf, numPlots), numPlots) == Total(draws, |draws|)
  {
    ChartTotals(draws, chartOf, numPlots, |draws|);
    assert ChartInfos(draws, chartOf, numPlots)
        == seq(numPlots, p requires 0 <= p < numPlots => SumTo(draws, chartOf, p, |draws|));
  }

  /** Merge the two charts: infos and devices of b go to a. */
  method MergeCharts(infos: array<nat>, chartOf: array<nat>, a: nat, b: nat)
    requires infos.Length == chartOf.Length && infos != chartOf && a < b < infos.Length
    modifies infos, chartOf
    ensures infos[..] == MergeInfos(old(infos[..]), a, b)
    ensures chartOf[..] == MergeOwners(old(chartOf[..]), a, b)
  {
    infos[a] := infos[a] + infos[b];
    infos[b] := 0;
    RenameChart(chartOf[b], chartOf[a], chartOf);
  }

  lemma MergeStep(infos: seq<nat>, owner: seq<nat>, rows: nat, cols: nat, a: nat, b: nat, plan: Plan)
    requires |owner| == |infos| && TryPack(infos, rows, cols, |infos|).Crowded?
    requires IsBestMerge(infos, MAX_LINES_PER_PLOT, a, b)
    requires Settles(MergeInfos(infos, a, b), MergeOwners(owner, a, b), rows, cols, plan)
    ensures Settles(infos, owner, rows, cols, plan)
  {
  }

  /** The retry loop: pack, and merge one more pair for as long as it is too crowded. */
  method SearchConfiguration(ghost draws: seq<nat>, rows: nat, cols: nat,
                             infos: array<nat>, chartOf: array<nat>, plotInStack: array<nat>)
    returns (stacks: nat, ghost plan: Plan)
    requires infos.Length == chartOf.Length == |draws| <= plotInStack.Length
    requires infos != chartOf && infos != plotInStack && chartOf != plotInStack
    requires infos[..] == draws && chartOf[..] == Identity(|draws|) && rows >= MIN_PLOT_ROWS
    modifies infos, chartOf, plotInStack
    ensures Settles(draws, Identity(|draws|), rows, cols, plan)
    ensures plan.Laid? <==> stacks > 0
    ensures plan.Laid? ==> stacks == plan.stacks && plan.stackOf <= plotInStack[..]
    ensures plan.Laid? ==> infos[..] == plan.infos && chartOf[..] == plan.owner
  {
    ghost var id := Identity(|draws|);
    while true
      invariant chartOf.Length == infos.Length
      invariant forall p :: Settles(infos[..], chartOf[..], rows, cols, p) ==> Settles(draws, id, rows, cols, p)
      decreases InUse(infos[..], infos.Length)
    {
      ghost var s, w := infos[..], chartOf[..];
      var crowded;
      stacks, crowded := PackOnce(rows, cols, infos, plotInStack);
      if !crowded {
        plan := match TryPack(s, rows, cols, |s|)
          case Placed(stackOf, count, _) => Laid(s, w, stackOf, count)
          case _ => NoRoom;
        assert Settles(s, w, rows, cols, plan);
        return;
      }
      var found, a, b := WhoToMerge(MAX_LINES_PER_PLOT, infos);
      if !found {
        stacks, plan := 0, NoRoom;
        assert Settles(s, w, rows, cols, plan);
        return;
      }
      MergeCharts(infos, chartOf, a, b);
      InUseAfterMerge(s, a, b, |s|);
      forall p | Settles(infos[..], chartOf[..], rows, cols, p) ensures Settles(draws, id, rows, cols, p) {
        MergeStep(s, w, rows, cols, a, b, p);
      }
    }
  }

  /** One chart per device to begin with. */
  method InitCharts(draws: seq<nat>, infos: array<nat>, chartOf: array<nat>) returns (plotAnything: bool)
    requires infos.Length == chartOf.Length == |draws| && infos != chartOf
    modifies infos, chartOf
    ensures infos[..] == draws && chartOf[..] == Identity(|draws|)
    ensures plotAnything <==> DrawsAnything(draws)
  {
    plotAnything := false;
    for i := 0 to |draws|
      invariant forall k :: 0 <= k < i ==> infos[k] == draws[k] && chartOf[k] == k
      invariant plotAnything <==> exists d :: 0 <= d < i && draws[d] > 0
    {
      infos[i] := draws[i];
      chartOf[i] := i;
      if infos[i] != 0 {
        plotAnything := true;
      }
    }
  }

  /** What the charts, their numbers and their stacks are, given the outcome of the search. */
  ghost predicate FollowsPlan(draws: seq<nat>, rows: nat, cols: nat, plan: Plan, chartOf: seq<nat>, numPlots: nat,
                              stackOf: seq<nat>)
    requires |chartOf| == |draws|
  {
    && plan.Laid? && Settles(draws, Identity(|draws|), rows, cols, plan) && |plan.infos| == |draws|
    && numPlots == InUse(plan.infos, |draws|) && ChartInfos(draws, chartOf, numPlots) == Compact(plan.infos, |draws|)
    && stackOf == plan.stackOf
  }

  method NumberCharts(ghost draws: seq<nat>, ghost rows: nat, ghost cols: nat,
                      infos: array<nat>, chartOf: array<nat>, ghost plan: Plan)
    returns (numPlots: nat)
    requires infos.Length == chartOf.Length == |draws| && infos != chartOf
    requires rows >= MIN_PLOT_ROWS && DrawsAnything(draws)
    requires plan.Laid? && infos[..] == plan.infos && chartOf[..] == plan.owner
    requires Settles(draws, Identity(|draws|), rows, cols, plan)
    modifies infos, chartOf
    ensures numPlots == InUse(plan.infos, |draws|) == |plan.stackOf|
    ensures Renumbered(draws, plan.infos, plan.owner, chartOf[..])
    ensures LaidOut(draws, chartOf[..], numPlots, plan.stackOf, plan.stacks, rows, cols)
    ensures FollowsPlan(draws, rows, cols, plan, chartOf[..], numPlots, plan.stackOf)
  {
    PlanFacts(draws, rows, cols, plan);
    numPlots := CompactCharts(draws, infos, chartOf);
    RenumberedInfos(draws, plan.infos, plan.owner, chartOf[..]);
    PlanIsLaidOut(draws, rows, cols, plan, chartOf[..]);
  }

  /** Everything promised about a layout with stacks. */
  ghost predicate Positioned(draws: seq<nat>, rows: nat, cols: nat, plan: Plan, chartOf: seq<nat>, numPlots: nat,
                             stacks: nat, plotInStack: seq<nat>)
    requires |chartOf| == |draws|
  {
    && plan.Laid? && stacks == plan.stacks && numPlots <= |plotInStack|
    && Renumbered(draws, plan.infos, plan.owner, chartOf)
    && LaidOut(draws, chartOf, numPlots, plotInStack[..numPlots], stacks, rows, cols)
    && FollowsPlan(draws, rows, cols, plan, chartOf, numPlots, plotInStack[..numPlots])
  }

  /** The search, and the numbers of the charts it leaves. */
  method SearchAndNumber(ghost draws: seq<nat>, rows: nat, cols: nat, infos: array<nat>, chartOf: array<nat>,
                         plotInStack: array<nat>)
    returns (numPlots: nat, stacks: nat, ghost plan: Plan)
    requires chartOf.Length == infos.Length == |draws| <= plotInStack.Length
    requires chartOf != plotInStack && infos != chartOf && infos != plotInStack
    requires infos[..] == draws && chartOf[..] == Identity(|draws|) && DrawsAnything(draws) && rows >= MIN_PLOT_ROWS
    modifies infos, chartOf, plotInStack
    ensures Settles(draws, Identity(|draws|), rows, cols, plan) && (stacks > 0 <==> plan.Laid?)
    ensures stacks == 0 ==> numPlots == 0
    ensures stacks > 0 ==> Positioned(draws, rows, cols, plan, chartOf[..], numPlots, stacks, plotInStack[..])
  {
    numPlots := 0;
    stacks, plan := SearchConfiguration(draws, rows, cols, infos, chartOf, plotInStack);
    if stacks > 0 {
      numPlots := NumberCharts(draws, rows, cols, infos, chartOf, plan);
      assert plotInStack[..][..numPlots] == plan.stackOf;
    }
  }

  method PreliminaryPlotPositioning(rows: nat, cols: nat, draws: seq<nat>, chartOf: array<nat>, plotInStack: array<nat>)
    returns (numPlots: nat, stacks: nat, ghost plan: Plan)
    requires chartOf.Length == |draws| <= MAX_CHARTS && |draws| <= plotInStack.Length && chartOf != plotInStack
    modifies chartOf, plotInStack
    ensures stacks > 0 <==> DrawsAnything(draws) && rows >= MIN_PLOT_ROWS && plan.Laid?
    ensures DrawsAnything(draws) && rows >= MIN_PLOT_ROWS ==> Settles(draws, Identity(|draws|), rows, cols, plan)
    ensures stacks == 0 ==> numPlots == 0
    ensures stacks > 0 ==> Positioned(draws, rows, cols, plan, chartOf[..], numPlots, stacks, plotInStack[..])
  {
    var infos := new nat[|draws|];
    var plotAnything := InitCharts(draws, infos, chartOf);
    numPlots, stacks, plan := 0, 0, NoRoom;
    if plotAnything && rows >= MIN_PLOT_ROWS {
      numPlots, stacks, plan := SearchAndNumber(draws, rows, cols, infos, chartOf, plotInStack);
    }
  }

  lemma PlanFacts(draws: seq<nat>, rows: nat, cols: nat, plan: Plan)
    requires rows >= MIN_PLOT_ROWS && plan.Laid? && DrawsAnything(draws)
    requires Settles(draws, Identity(|draws|), rows, cols, plan)
    ensures Consistent(draws, plan.infos, plan.owner) && InUse(plan.infos, |draws|) > 0
    ensures var at := TryPack(plan.infos, rows, cols, |draws|);
            at.Placed? && at.stackOf == plan.stackOf && at.stacks == plan.stacks
    ensures |plan.stackOf| == InUse(plan.infos, |draws|)
  {
    InitiallyConsistent(draws, Identity(|draws|));
    SettledPlan(draws, draws, Identity(|draws|), rows, cols, plan);
    var d :| 0 <= d < |draws| && draws[d] > 0;
    SomethingInUse(draws, d, |draws|);
    SettledInUse(draws, Identity(|draws|), rows, cols, plan);
    PlanPacks(plan.infos, rows, cols);
  }

  // ---------------------------------------------------- drawings that narrow ----

  /** No two neighbouring drawing devices draw few enough infos for one chart. */
  ghost predicate NothingMerges(draws: seq<nat>) {
    forall a: nat, b: nat :: !Mergeable(draws, MAX_LINES_PER_PLOT, a, b)
  }

  /** No device draws more infos than a drawing device before it. */
  ghost predicate NarrowingInUse(draws: seq<nat>) {
    forall j, k :: 0 <= j < k < |draws| && draws[j] > 0 ==> draws[j] >= draws[k]
  }

  lemma {:induction false} CompactNarrows(infos: seq<nat>, n: nat)
    requires n <= |infos| && NarrowingInUse(infos)
    ensures forall j, k :: 0 <= j < k < |Compact(infos, n)| ==> Compact(infos, n)[j] >= Compact(infos, n)[k]
    ensures forall j, k :: 0 <= j < |Compact(infos, n)| && n <= k < |infos| ==> Compact(infos, n)[j] >= infos[k]
  {
    if n > 0 {
      CompactNarrows(infos, n - 1);
    }
  }

  /** If nothing can be merged, or there are rows for a stack per device, the charts draw what the devices draw. */
  lemma UnmergedCharts(draws: seq<nat>, owner: seq<nat>, rows: nat, cols: nat, plan: Plan)
    requires |owner| == |draws| && Settles(draws, owner, rows, cols, plan) && plan.Laid?
    requires NothingMerges(draws) || RowsForAll(draws, rows, cols)
    ensures plan.infos == draws
  {
    if RowsForAll(draws, rows, cols) {
      OneChartPerDeviceWhenRoomy(draws, owner, rows, cols, plan);
    }
  }

  /** Every drawing device could have a stack of its own, and is not too wide for it. */
  ghost predicate RowsForAll(draws: seq<nat>, rows: nat, cols: nat) {
    && rows >= MIN_PLOT_ROWS && InUse(draws, |draws|) * MIN_PLOT_ROWS <= rows
    && forall d :: 0 <= d < |draws| ==> MinPlotCols(draws[d]) <= cols
  }
}
