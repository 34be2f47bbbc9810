/** The search for a configuration: pack, merge, and pack again (src/interface_layout_selection.c:129-181). */
module ChartSearch {
  import opened PlotLimits
  import opened ChartMerging
  import opened ChartPacking
  import opened PackingBest

  datatype Plan = NoRoom | Laid(infos: seq<nat>, owner: seq<nat>, stackOf: seq<nat>, stacks: nat)

  /**
   The outcome of the search from the given charts: pack; if that needs too many
   rows merge the best pair and start over; give up when nothing can be merged.
   */
  ghost predicate Settles(infos: seq<nat>, owner: seq<nat>, rows: nat, cols: nat, plan: Plan)
    requires |owner| == |infos|
    decreases InUse(infos, |infos|)
  {
    match TryPack(infos, rows, cols, |infos|)
    case Placed(stackOf, stacks, _) => plan == Laid(infos, owner, stackOf, stacks)
    case TooWide => plan == NoRoom
    case Crowded =>
      if forall a: nat, b: nat :: !Mergeable(infos, MAX_LINES_PER_PLOT, a, b) then plan == NoRoom
      else exists a: nat, b: nat :: IsBestMerge(infos, MAX_LINES_PER_PLOT, a, b) &&
             (InUseAfterMerge(infos, a, b, |infos|);
              Settles(MergeInfos(infos, a, b), MergeOwners(owner, a, b), rows, cols, plan))
  }

  /** The search has one outcome only. */
  lemma {:induction false} SettlesOnce(infos: seq<nat>, owner: seq<nat>, rows: nat, cols: nat, p: Plan, q: Plan)
    requires |owner| == |infos|
    requires Settles(infos, owner, rows, cols, p) && Settles(infos, owner, rows, cols, q)
    ensures p == q
    decreases InUse(infos, |infos|)
  {
    if TryPack(infos, rows, cols, |infos|).Crowded? &&
       exists a: nat, b: nat :: Mergeable(infos, MAX_LINES_PER_PLOT, a, b)
    {
      var a: nat, b: nat :| IsBestMerge(infos, MAX_LINES_PER_PLOT, a, b) &&
        Settles(MergeInfos(infos, a, b), MergeOwners(owner, a, b), rows, cols, p);
      var x: nat, y: nat :| IsBestMerge(infos, MAX_LINES_PER_PLOT, x, y) &&
        Settles(MergeInfos(infos, x, y), MergeOwners(owner, x, y), rows, cols, q);
      BestMergeIsUnique(infos, MAX_LINES_PER_PLOT, a, b, x, y);
      InUseAfterMerge(infos, a, b, |infos|);
      SettlesOnce(MergeInfos(infos, a, b), MergeOwners(owner, a, b), rows, cols, p, q);
    }
  }

  /** Merging loses no info and keeps device order, and what is laid was packed. */
  lemma {:induction false} SettledPlan(draws: seq<nat>, infos: seq<nat>, owner: seq<nat>, rows: nat, cols: nat,
                                       plan: Plan)
    requires Consistent(draws, infos, owner) && rows >= MIN_PLOT_ROWS
    requires Settles(infos, owner, rows, cols, plan) && plan.Laid?
    ensures Consistent(draws, plan.infos, plan.owner)
    ensures var at := TryPack(plan.infos, rows, cols, |draws|);
            at.Placed? && at.stackOf == plan.stackOf && at.stacks == plan.stacks
    decreases InUse(infos, |infos|)
  {
    if TryPack(infos, rows, cols, |infos|).Crowded? {
      var a: nat, b: nat :| IsBestMerge(infos, MAX_LINES_PER_PLOT, a, b) &&
        Settles(MergeInfos(infos, a, b), MergeOwners(owner, a, b), rows, cols, plan);
      InUseAfterMerge(infos, a, b, |infos|);
      MergeKeepsConsistent(draws, infos, owner, a, b);
      SettledPlan(draws, MergeInfos(infos, a, b), MergeOwners(owner, a, b), rows, cols, plan);
    }
  }

  lemma {:induction false} RoomyPacking(draws: seq<nat>, rows: nat, cols: nat, n: nat)
    requires n <= |draws| && rows >= MIN_PLOT_ROWS && InUse(draws, |draws|) * MIN_PLOT_ROWS <= rows
    requires forall d :: 0 <= d < |draws| ==> MinPlotCols(draws[d]) <= cols
    ensures var at := TryPack(draws, rows, cols, n);
            at.Placed? && at.stacks <= InUse(draws, n) + (if at.used == 0 then 1 else 0)
    ensures TryPack(draws, rows, cols, n).used == 0 ==> InUse(draws, n) == 0
  {
    if n > 0 {
      RoomyPacking(draws, rows, cols, n - 1);
      InUseMonotone(draws, n, |draws|);
    }
  }

  lemma {:induction false} InUseMonotone(infos: seq<nat>, m: nat, n: nat)
    requires m <= n <= |infos|
    ensures InUse(infos, m) <= InUse(infos, n)
    ensures m < n && infos[m] > 0 ==> InUse(infos, m) < InUse(infos, n)
  {
    if m < n {
      InUseMonotone(infos, m, n - 1);
    }
  }

  /** One chart per device whenever a stack per chart fits: nothing is merged needlessly. */
  lemma OneChartPerDeviceWhenRoomy(draws: seq<nat>, owner: seq<nat>, rows: nat, cols: nat, plan: Plan)
    requires |owner| == |draws| && rows >= MIN_PLOT_ROWS && InUse(draws, |draws|) * MIN_PLOT_ROWS <= rows
    requires forall d :: 0 <= d < |draws| ==> MinPlotCols(draws[d]) <= cols
    requires Settles(draws, owner, rows, cols, plan)
    ensures plan.Laid? && plan.infos == draws && plan.owner == owner
  {
    RoomyPacking(draws, rows, cols, |draws|);
  }

  /** A chart is that of one device, or draws no more infos than a chart may. */
  ghost predicate OwnOrSmall(draws: seq<nat>, infos: seq<nat>) {
    |infos| == |draws| && forall p :: 0 <= p < |infos| ==> infos[p] == draws[p] || infos[p] <= MAX_LINES_PER_PLOT
  }

  /** Merging never makes a chart of more than four infos. */
  lemma {:induction false} MergedChartsAreSmall(draws: seq<nat>, infos: seq<nat>, owner: seq<nat>, rows: nat, cols: nat,
                                                plan: Plan)
    requires |owner| == |infos| && OwnOrSmall(draws, infos) && Settles(infos, owner, rows, cols, plan) && plan.Laid?
    ensures OwnOrSmall(draws, plan.infos)
    decreases InUse(infos, |infos|)
  {
    if TryPack(infos, rows, cols, |infos|).Crowded? {
      var a: nat, b: nat :| IsBestMerge(infos, MAX_LINES_PER_PLOT, a, b) &&
        Settles(MergeInfos(infos, a, b), MergeOwners(owner, a, b), rows, cols, plan);
      InUseAfterMerge(infos, a, b, |infos|);
      MergedChartsAreSmall(draws, MergeInfos(infos, a, b), MergeOwners(owner, a, b), rows, cols, plan);
    }
  }

  /**
   No place is found only for charts, merged from those of the devices, that
   cannot be arranged in order: one of them is wider than the screen, or no two
   neighbours draw few enough infos for one chart.
   */
  lemma {:induction false} NoRoomMeans(draws: seq<nat>, infos: seq<nat>, owner: seq<nat>, rows: nat, cols: nat)
    returns (last: seq<nat>, lastOwner: seq<nat>)
    requires Consistent(draws, infos, owner) && rows >= MIN_PLOT_ROWS && Settles(infos, owner, rows, cols, NoRoom)
    ensures Consistent(draws, last, lastOwner) && !Arrangeable(Widths(Compact(last, |last|)), rows, cols)
    ensures (exists p :: 0 <= p < |last| && last[p] > 0 && MinPlotCols(last[p]) > cols)
            || forall a: nat, b: nat :: Neighbours(last, a, b) ==> last[a] + last[b] > MAX_LINES_PER_PLOT
    decreases InUse(infos, |infos|)
  {
    PackingMissesNothing(infos, rows, cols);
    last, lastOwner := infos, owner;
    if TryPack(infos, rows, cols, |infos|).TooWide? {
      var p := TooWideForScreen(infos, rows, cols, |infos|);
    } else if exists a: nat, b: nat :: Mergeable(infos, MAX_LINES_PER_PLOT, a, b) {
      var a: nat, b: nat :| IsBestMerge(infos, MAX_LINES_PER_PLOT, a, b) &&
        Settles(MergeInfos(infos, a, b), MergeOwners(owner, a, b), rows, cols, NoRoom);
      InUseAfterMerge(infos, a, b, |infos|);
      MergeKeepsConsistent(draws, infos, owner, a, b);
      last, lastOwner := NoRoomMeans(draws, MergeInfos(infos, a, b), MergeOwners(owner, a, b), rows, cols);
    } else {
      forall a: nat, b: nat | Neighbours(infos, a, b) ensures infos[a] + infos[b] > MAX_LINES_PER_PLOT {
        assert !Mergeable(infos, MAX_LINES_PER_PLOT, a, b);
      }
    }
  }

  /** A place is found at once if the charts of the devices can be arranged in order. */
  lemma ArrangeableIsLaid(draws: seq<nat>, owner: seq<nat>, rows: nat, cols: nat, plan: Plan)
    requires |owner| == |draws| && rows >= MIN_PLOT_ROWS && Settles(draws, owner, rows, cols, plan)
    ensures Arrangeable(Widths(Compact(draws, |draws|)), rows, cols) ==>
              plan.Laid? && plan.infos == draws && plan.owner == owner
  {
    PackingMissesNothing(draws, rows, cols);
  }
}
