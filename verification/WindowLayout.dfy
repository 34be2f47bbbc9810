/**
 compute_sizes_from_layout (src/interface_layout_selection.c): device header,
 charts, CPU/mem band and process table stacked from the top of the screen to
 its last row.
 */
module WindowLayout {
  import opened PlotLimits
  import opened CIntegers
  import opened TaggedSums
  import opened Arithmetic
  import opened HeaderLayout
  import opened ChartMerging
  import opened ChartPacking
  import opened ChartSearch
  import opened ChartPlan
  import opened ChartGrid
  import opened StackBalance
  import opened StackFilling

  /** What the process table gets at least: more for more devices, as far as a third of the screen goes. */
  function MinRowsTakenByProcess(rows: nat, devices: nat): nat {
    1 + Max(6, Min(rows / 3, devices * 3))
  }

  /** Rows of the htop-style CPU/mem band: the grid of the sub-columns and three summary lines. */
  function StatsWanted(ncpu: int): nat {
    var n := if ncpu < 1 then 1 else ncpu;
    var half: nat := n / 2 + 1;
    var subcols := if n > 128 then 1 else if n > 32 then 8 else if n > 16 then 4 else if n > 8 then 2 else 1;
    (half + subcols - 1) / subcols + 3
  }

  /**
   The table gets seven rows, or one more than three a device or a third of the
   screen, whichever is less.
   */
  lemma TableMinimum(rows: nat, devices: nat, k: nat)
    requires k >= 6
    ensures MinRowsTakenByProcess(rows, devices) >= k + 1 <==> k == 6 || (3 * k <= rows && k <= 3 * devices)
  {
  }

  /**
   The grid of the band has a cell for every second processor and one more, and
   no row to spare; three rows are added. There are 2, 4 and 8 sub-columns from
   9, 17 and 33 processors on, and one beyond 128.
   */
  lemma StatsGridFits(ncpu: nat)
    ensures StatsWanted(ncpu) >= 4 && StatsWanted(0) == StatsWanted(1) && StatsWanted(-1 - ncpu) == StatsWanted(1)
    ensures var rows, cells := StatsWanted(ncpu) - 3, ncpu / 2 + 1;
            && (ncpu <= 8 || ncpu > 128 ==> rows == cells)
            && (8 < ncpu <= 16 ==> 2 * (rows - 1) < cells <= 2 * rows)
            && (16 < ncpu <= 32 ==> 4 * (rows - 1) < cells <= 4 * rows)
            && (32 < ncpu <= 128 ==> 8 * (rows - 1) < cells <= 8 * rows)
  {
  }

  /** The least height of the process table on a screen of this size. */
  ghost function ProcessMinimum(rows: nat, headerRows: nat, fields: nat, devices: nat, hidden: bool): nat {
    var least := MinRowsTakenByProcess(rows, devices);
    if fields == 0 || hidden then 0
    else if rows >= headerRows + least then least
    else if rows >= headerRows + 2 then rows - headerRows
    else 0
  }

  /**
   Where a table is shown at all, it gets its minimum, or on a smaller screen all
   rows below the header, as long as there are two of them.
   */
  lemma TableGetsItsRows(rows: nat, headerRows: nat, fields: nat, devices: nat)
    ensures ProcessMinimum(rows, headerRows, 0, devices, false) == 0
    ensures ProcessMinimum(rows, headerRows, fields, devices, true) == 0
    ensures fields > 0 ==>
              var table, least := ProcessMinimum(rows, headerRows, fields, devices, false),
                                  MinRowsTakenByProcess(rows, devices);
              && table <= least && (table > 0 <==> headerRows + 2 <= rows)
              && (table > 0 ==> headerRows + table <= rows && (table < least ==> headerRows + table == rows))
  {
  }

  datatype Budget = Budget(header: nat, process: nat, plots: nat, stats: nat)

  /**
   Rows for plots and CPU/mem band out of those that header and process table
   leave: the modifier is subtracted, as unsigned int.
   */
  function RowsForPlots(available: nat, heightModifier: int): (r: nat)
    ensures r <= available
  {
    if heightModifier % TWO_32 < available then available - heightModifier % TWO_32 else 0
  }

  /**
   The modifier is described as rows added to the plots. The code does that only
   for no modification, for one that takes all rows away, and for the least
   integer on a screen of at least 2^31 rows.
   */
  lemma ModifierAddsNoRows(available: nat, heightModifier: CInt)
    requires available < TWO_32
    ensures RowsForPlots(available, heightModifier) == available + heightModifier <==>
            heightModifier == 0 || available + heightModifier == 0
            || (heightModifier == -0x8000_0000 && available >= 0x8000_0000)
    ensures heightModifier >= 0 ==>
              RowsForPlots(available, heightModifier) == Max(0, available - Min(available, heightModifier))
    ensures heightModifier < 0 ==>
              RowsForPlots(available, heightModifier) == available - Min(available, TWO_32 + heightModifier)
  {
    assert heightModifier >= 0 ==> heightModifier % TWO_32 == heightModifier;
    assert heightModifier < 0 ==> heightModifier % TWO_32 == heightModifier + TWO_32;
  }

  /** One press of the key that changes the modifier by 3 takes three rows away. */
  lemma ThreeRowsLess()
    ensures RowsForPlots(40, 3) == 37 != 40 + 3
  {
    ModifierAddsNoRows(40, 3);
  }

  /** How the rows of the screen are shared out. */
  ghost predicate Budgeted(b: Budget, rows: nat, headerRows: nat, fields: nat, devices: nat, heightModifier: int,
                           ncpu: int, hidden: bool)
  {
    // nothing is promised twice
    && b.header + b.process + b.plots + b.stats <= rows
    // what the header and the table leave, less the modifier
    && b.plots + b.stats == RowsForPlots(rows - b.header - b.process, heightModifier)
    // the process table keeps its minimum, shrunk when the screen is too small, or nothing
    && b.process == ProcessMinimum(rows, headerRows, fields, devices, hidden)
    && (b.header == headerRows || (b.header == rows && b.plots == 0 && b.process == 0 && b.stats == 0))
    && (rows >= headerRows + (if fields > 0 then 2 else 0) ==> b.header == headerRows)
    && (fields == 0 || hidden ==> b.stats == 0)
    // the band never eats into a second table minimum, but gets all it wants of the other rows
    && (b.stats > 0 ==> b.stats <= StatsWanted(ncpu) && b.process <= b.plots)
    && (fields > 0 && !hidden && b.stats < StatsWanted(ncpu) ==> b.plots <= b.process)
  }

  method ReserveRows(rows: nat, headerRows: nat, fields: nat, devices: nat, heightModifier: int, ncpu: int,
                     hidden: bool)
    returns (b: Budget)
    requires rows < TWO_32
    ensures Budgeted(b, rows, headerRows, fields, devices, heightModifier, ncpu, hidden)
  {
    var minHeader, minProcess := headerRows, if fields > 0 then MinRowsTakenByProcess(rows, devices) else 0;
    if rows < minHeader + minProcess {
      if rows >= minHeader + 2 && fields > 0 {
        minProcess := rows - minHeader;
      } else {
        minHeader, minProcess := rows, 0;
      }
    }
    if hidden {
      minProcess := 0;
    }
    var raw: int := rows - minHeader - minProcess - heightModifier % TWO_32;
    var plots: nat := if raw > 0 then raw else 0;
    var stats: nat := 0;
    if fields > 0 && !hidden {
      var avail: nat := if plots > minProcess then plots - minProcess else 0;
      stats := if StatsWanted(ncpu) < avail then StatsWanted(ncpu) else avail;
      plots := plots - stats;
    }
    b := Budget(minHeader, minProcess, plots, stats);
  }

  // -------------------------------------------------------- chart stacks ----

  /** More stacks as long as each still gets at least eleven rows. */
  method AddStacks(numPlots: nat, rows: nat, packed: nat) returns (stacks: nat)
    requires packed * MIN_PLOT_ROWS <= rows
    ensures packed <= stacks && stacks * MIN_PLOT_ROWS <= rows
    ensures stacks <= numPlots || stacks == packed
    ensures stacks > packed ==> packed > 0 && rows / stacks >= 11
    ensures packed > 0 ==>
              stacks >= numPlots || rows / (stacks + 1) < 11 || (stacks + 1) * MIN_PLOT_ROWS > rows
  {
    stacks := packed;
    if stacks > 0 {
      while stacks < numPlots && rows / (stacks + 1) >= 11 && (stacks + 1) * MIN_PLOT_ROWS <= rows
        invariant packed <= stacks && stacks * MIN_PLOT_ROWS <= rows
        invariant stacks <= numPlots || stacks == packed
        invariant stacks > packed ==> rows / stacks >= 11
      {
        stacks := stacks + 1;
      }
    }
  }

  /** Some device of the chart draws something. */
  ghost predicate HasInfo(draws: seq<nat>, chartOf: seq<nat>, p: nat)
    requires |chartOf| == |draws|
  {
    exists d :: 0 <= d < |draws| && chartOf[d] == p && draws[d] > 0
  }

  /** The infos of a chart; they are not zero, as the source asserts. */
  method InfoInPlot(p: nat, draws: seq<nat>, chartOf: array<nat>) returns (sum: nat)
    requires chartOf.Length == |draws| && HasInfo(draws, chartOf[..], p)
    ensures sum == SumTo(draws, chartOf[..], p, |draws|) > 0
  {
    sum := 0;
    ghost var map' := chartOf[..];
    for d := 0 to |draws|
      invariant sum == SumTo(draws, map', p, d)
    {
      if chartOf[d] == p {
        sum := sum + draws[d];
      }
    }
    ghost var d :| 0 <= d < |draws| && map'[d] == p && draws[d] > 0;
    SumAtLeast(draws, map', d, |draws|);
    assert sum > 0;
  }

  method CollectInfos(numPlots: nat, draws: seq<nat>, chartOf: array<nat>) returns (infos: seq<nat>)
    requires chartOf.Length == |draws| && forall p :: 0 <= p < numPlots ==> HasInfo(draws, chartOf[..], p)
    ensures infos == ChartInfos(draws, chartOf[..], numPlots)
  {
    infos := [];
    for p := 0 to numPlots
      invariant |infos| == p
      invariant forall k :: 0 <= k < p ==> infos[k] == SumTo(draws, chartOf[..], k, |draws|)
    {
      var sum := InfoInPlot(p, draws, chartOf);
      infos := infos + [sum];
    }
  }

  method ColsUsedByStack(s: nat, infos: seq<nat>, stackOf: array<nat>) returns (sum: nat)
    requires stackOf.Length == |infos|
    ensures sum == SumTo(Widths(infos), stackOf[..], s, |infos|)
  {
    sum := 0;
    ghost var tags := stackOf[..];
    for p := 0 to |infos|
      invariant sum == SumTo(Widths(infos), tags, s, p)
    {
      if stackOf[p] == s {
        sum := sum + MinPlotCols(infos[p]);
      }
    }
  }

  lemma MoreStacksFit(widths: seq<nat>, stackOf: seq<nat>, packed: nat, stacks: nat, cols: nat)
    requires Packs(widths, stackOf, packed, cols) && packed <= stacks
    ensures forall s :: 0 <= s < stacks ==> SumTo(widths, stackOf, s, |widths|) <= cols
  {
    forall s | packed <= s < stacks ensures SumTo(widths, stackOf, s, |widths|) <= cols {
      NothingYetInStack(widths, stackOf, s, |widths|);
    }
  }

  /** Spreads packed charts over the final number of stacks. */
  method SpreadCharts(packed: nat, stacks: nat, cols: nat, infos: seq<nat>, stackOf: array<nat>)
    returns (ghost before: seq<nat>, ghost after: seq<nat>)
    requires stackOf.Length == |infos| && packed <= stacks
    requires Packs(Widths(infos), stackOf[..], packed, cols)
    modifies stackOf
    ensures |before| == stacks && InSync(Widths(infos), old(stackOf[..]), before, cols)
    ensures BalancesTo(Widths(infos), old(stackOf[..]), before, cols, Min(stacks, |infos|), stackOf[..], after)
    ensures |after| == stacks && InSync(Widths(infos), stackOf[..], after, cols)
  {
    var colsOf := new nat[stacks];
    MoreStacksFit(Widths(infos), stackOf[..], packed, stacks, cols);
    for s := 0 to stacks
      invariant stackOf[..] == old(stackOf[..])
      invariant forall t :: 0 <= t < s ==> colsOf[t] == SumTo(Widths(infos), stackOf[..], t, |infos|)
    {
      colsOf[s] := ColsUsedByStack(s, infos, stackOf);
    }
    before := colsOf[..];
    ghost var packing := stackOf[..];
    BalanceInfoOnStacks(cols, stacks, infos, colsOf, stackOf);
    after := colsOf[..];
    BalancedResult(Widths(infos), packing, before, cols, Min(stacks, |infos|), stackOf[..], after);
  }

  // ------------------------------------------------------- whole function ----

  /** What is known about the charts before they get their windows. */
  ghost predicate Planned(draws: seq<nat>, chartOf: seq<nat>, numPlots: nat, infos: seq<nat>, stackOf: seq<nat>,
                          stacks: nat, cols: nat)
    requires |chartOf| == |draws|
  {
    && |stackOf| == numPlots <= |draws| && infos == ChartInfos(draws, chartOf, numPlots)
    && (forall p :: 0 <= p < numPlots ==> infos[p] > 0 && stackOf[p] < stacks)
    && (forall s :: 0 <= s < stacks ==> SumTo(Widths(infos), stackOf, s, numPlots) <= cols)
    && (numPlots > 0 ==> forall d :: 0 <= d < |draws| && draws[d] > 0 ==> chartOf[d] < numPlots)
    && (numPlots > 0 ==> forall d, e :: 0 <= d < e < |draws| && draws[d] > 0 && draws[e] > 0 ==>
                           chartOf[d] <= chartOf[e])
  }

  lemma SpreadIsPlanned(draws: seq<nat>, chartOf: seq<nat>, numPlots: nat, packed: nat, stacks: nat, rows: nat,
                        cols: nat, packing: seq<nat>, infos: seq<nat>, stackOf: seq<nat>, colsOf: seq<nat>)
    requires |chartOf| == |draws| && infos == ChartInfos(draws, chartOf, numPlots)
    requires numPlots > 0 ==> LaidOut(draws, chartOf, numPlots, packing, packed, rows, cols)
    requires numPlots <= |draws|
    requires InSync(Widths(infos), stackOf, colsOf, cols) && |colsOf| == stacks
    ensures Planned(draws, chartOf, numPlots, infos, stackOf, stacks, cols)
  {
  }

  lemma NothingPacks(infos: seq<nat>, stackOf: seq<nat>, cols: nat)
    requires infos == [] && stackOf == []
    ensures Packs(Widths(infos), stackOf, 0, cols)
  {
  }

  /** How the charts came to their stacks: by the plan, more stacks where rows allow it, and balancing. */
  ghost predicate Spread(draws: seq<nat>, rows: nat, cols: nat, plan: Plan, infos: seq<nat>, stackOf: seq<nat>,
                         stacks: nat, before: seq<nat>, after: seq<nat>)
  {
    && plan.Laid? && Settles(draws, Identity(|draws|), rows, cols, plan) && |plan.infos| == |draws|
    && infos == Compact(plan.infos, |draws|) && |plan.stackOf| == |infos|
    && plan.stacks <= stacks && (stacks > plan.stacks ==> stacks <= |infos|)
    && |before| == stacks && InSync(Widths(infos), plan.stackOf, before, cols)
    && BalancesTo(Widths(infos), plan.stackOf, before, cols, Min(stacks, |infos|), stackOf, after)
  }

  lemma {:induction false} StacksAtMost(widths: seq<nat>, stackOf: seq<nat>, cols: nat, k: nat)
    requires NextFit(widths, stackOf, cols) && k < |stackOf|
    ensures stackOf[k] <= k
  {
    if k > 0 {
      StacksAtMost(widths, stackOf, cols, k - 1);
      assert Tight(widths, stackOf, cols, k);
    }
  }

  lemma SpreadIsPacked(draws: seq<nat>, rows: nat, cols: nat, plan: Plan, infos: seq<nat>, stackOf: seq<nat>,
                       stacks: nat, before: seq<nat>, after: seq<nat>)
    requires Spread(draws, rows, cols, plan, infos, stackOf, stacks, before, after)
    requires DrawsAnything(draws) && rows >= MIN_PLOT_ROWS
    ensures |infos| > 0 && Packs(Widths(infos), plan.stackOf, plan.stacks, cols)
            && NextFit(Widths(infos), plan.stackOf, cols)
    ensures plan.stackOf[|infos| - 1] == plan.stacks - 1
  {
    PlanFacts(draws, rows, cols, plan);
    PlanPacks(plan.infos, rows, cols);
  }

  /** Every stack has a chart: no rows are given away to an empty one. */
  lemma SpreadFillsStacks(draws: seq<nat>, rows: nat, cols: nat, plan: Plan, infos: seq<nat>, stackOf: seq<nat>,
                          stacks: nat, before: seq<nat>, after: seq<nat>)
    requires Spread(draws, rows, cols, plan, infos, stackOf, stacks, before, after)
    requires DrawsAnything(draws) && rows >= MIN_PLOT_ROWS
    ensures forall s: nat :: s < stacks ==> s in stackOf
  {
    SpreadIsPacked(draws, rows, cols, plan, infos, stackOf, stacks, before, after);
    var ws := Widths(infos);
    StacksAtMost(ws, plan.stackOf, cols, |infos| - 1);
    BalancingFillsStacks(ws, plan.stackOf, before, cols, stacks, stackOf, after);
  }

  /** Packs, renumbers, gives blank lines to the header and spreads the charts. */
  method PlanCharts(draws: seq<nat>, rows: nat, cols: nat, headerStacks: nat, chartOf: array<nat>)
    returns (numPlots: nat, stacks: nat, infos: seq<nat>, stackOf: array<nat>, spaced: bool,
             ghost plan: Plan, ghost before: seq<nat>, ghost after: seq<nat>)
    requires chartOf.Length == |draws| <= MAX_CHARTS && headerStacks > 0
    modifies chartOf
    ensures stackOf.Length == numPlots
    ensures Planned(draws, chartOf[..], numPlots, infos, stackOf[..], stacks, cols)
    ensures numPlots > 0 ==> Spread(draws, rows, cols, plan, infos, stackOf[..], stacks, before, after)
    // charts are shown exactly if something is drawn, there are rows for them, and the search finds a place
    ensures numPlots > 0 <==> stacks > 0
    ensures numPlots > 0 <==> DrawsAnything(draws) && rows >= MIN_PLOT_ROWS && plan.Laid?
    ensures DrawsAnything(draws) && rows >= MIN_PLOT_ROWS ==> Settles(draws, Identity(|draws|), rows, cols, plan)
    ensures RowsShared(rows, headerStacks, if numPlots > 0 then PackedStacks(plan) else 0, numPlots, spaced, stacks)
    ensures stacks * MIN_PLOT_ROWS <= ChartRows(rows, headerStacks, spaced)
  {
    var plotInStack := new nat[MAX_CHARTS];
    var packed;
    numPlots, packed, plan := PreliminaryPlotPositioning(rows, cols, draws, chartOf, plotInStack);
    PackedHasCharts(draws, chartOf[..], numPlots, packed, plotInStack[..], rows, cols);
    spaced, stacks := ShareRows(rows, headerStacks, numPlots, packed);
    infos := CollectInfos(numPlots, draws, chartOf);
    stackOf := new nat[numPlots](p requires 0 <= p < numPlots <= plotInStack.Length
                                   reads plotInStack => plotInStack[p]);
    ghost var packing := stackOf[..];
    assert packing == plotInStack[..numPlots];
    if numPlots == 0 {
      NothingPacks(infos, packing, cols);
    }
    before, after := SpreadCharts(packed, stacks, cols, infos, stackOf);
    SpreadIsPlanned(draws, chartOf[..], numPlots, packed, stacks, rows, cols, packing, infos, stackOf[..], after);
  }

  /** The rows of the charts: blank lines between the header rows are taken from them. */
  function ChartRows(rows: nat, headerStacks: nat, spaced: bool): (r: nat)
    ensures r <= rows
  {
    if spaced && headerStacks - 1 <= rows then rows - Max(headerStacks, 1) + 1 else rows
  }

  /**
   The header rows are parted by blank lines if and only if no packed stack needs
   those lines; of the rows left, every added stack leaves at least eleven to
   each, and another one would not, or there is no chart for it.
   */
  ghost predicate RowsShared(rows: nat, headerStacks: nat, packed: nat, numPlots: nat, spaced: bool, stacks: nat) {
    && (spaced <==> packed * MIN_PLOT_ROWS + headerStacks <= rows + 1)
    && packed <= stacks
    && (stacks > packed ==> packed > 0 && stacks <= numPlots && ChartRows(rows, headerStacks, spaced) / stacks >= 11)
    && (packed > 0 ==> stacks >= numPlots || ChartRows(rows, headerStacks, spaced) / (stacks + 1) < 11)
  }

  /** Rows that no chart needs go to the header, and to more stacks. */
  method ShareRows(rows: nat, headerStacks: nat, numPlots: nat, packed: nat) returns (spaced: bool, stacks: nat)
    requires headerStacks > 0 && packed * MIN_PLOT_ROWS <= rows && (packed > 0 <==> numPlots > 0)
    ensures RowsShared(rows, headerStacks, packed, numPlots, spaced, stacks)
    ensures stacks * MIN_PLOT_ROWS <= ChartRows(rows, headerStacks, spaced)
  {
    var transferable: nat := rows - packed * MIN_PLOT_ROWS;
    spaced := transferable >= headerStacks - 1;
    var plotRows: nat := if spaced then rows - (headerStacks - 1) else rows;
    stacks := AddStacks(numPlots, plotRows, packed);
    ElevenRows(plotRows, stacks + 1);
  }

  /** Where eleven rows a stack fit, so do seven. */
  lemma ElevenRows(rows: nat, stacks: nat)
    requires stacks > 0
    ensures rows / stacks >= 11 ==> stacks * MIN_PLOT_ROWS <= rows
  {
    if rows / stacks >= 11 {
      MulOrder(11, rows / stacks, stacks);
    }
  }

  lemma PackedHasCharts(draws: seq<nat>, chartOf: seq<nat>, numPlots: nat, packed: nat, plotInStack: seq<nat>,
                        rows: nat, cols: nat)
    requires |chartOf| == |draws| <= |plotInStack|
    requires packed == 0 ==> numPlots == 0
    requires packed > 0 ==>
               numPlots <= |draws| && LaidOut(draws, chartOf, numPlots, plotInStack[..numPlots], packed, rows, cols)
    ensures packed * MIN_PLOT_ROWS <= rows && numPlots <= |draws| && (packed > 0 <==> numPlots > 0)
    ensures packed > 0 ==> Packs(Widths(ChartInfos(draws, chartOf, numPlots)), plotInStack[..numPlots], packed, cols)
    ensures forall p :: 0 <= p < numPlots ==> HasInfo(draws, chartOf, p)
  {
    forall p: nat | p < numPlots ensures HasInfo(draws, chartOf, p) {
      assert ChartInfos(draws, chartOf, numPlots)[p] > 0;
      var d := SumPositive(draws, chartOf, p, |draws|);
    }
  }

  /** Bands from top to bottom: header (and setup below it), charts, CPU/mem, processes, last row. */
  ghost predicate Stacked(rows: nat, cols: nat, header: nat, charts: nat, stats: Window, process: Window,
                          setup: Window) {
    && setup == Window(0, header, cols, setup.sizeY) && header + setup.sizeY == rows
    && stats == Window(0, header + charts, cols, stats.sizeY)
    && process == Window(0, header + charts + stats.sizeY, cols, process.sizeY)
    && header + charts + stats.sizeY + process.sizeY == rows
  }

  /** Height of every stack of charts. */
  method StackRows(plotRows: nat, stacks: nat, hidden: bool) returns (h: nat)
    requires stacks > 0 && stacks * MIN_PLOT_ROWS <= plotRows
    ensures h == StackHeight(plotRows, stacks, hidden)
    ensures h >= MIN_PLOT_ROWS && Steps(h, stacks) <= plotRows
  {
    h := plotRows / stacks;
    DivideAtLeast(plotRows, MIN_PLOT_ROWS, stacks);
    if !hidden && h > 12 {
      h := 12;
    }
    StepsProduct(h, stacks);
    MulOrder(h, plotRows / stacks, stacks);
  }

  /** How a layout came about. */
  datatype Layout = Layout(budget: Budget, header: nat, spaced: bool, stackOf: seq<nat>, stacks: nat, h: nat,
                           plan: Plan, before: seq<nat>, after: seq<nat>)

  /** The stacks of the search, or none. */
  function PackedStacks(plan: Plan): nat {
    if plan.Laid? then plan.stacks else 0
  }

  /** Header, charts and their stacks have the rows they are due. */
  ghost predicate RowsAreDue(r: Layout, headerStacks: nat, numPlots: nat, hidden: bool) {
    && r.header == r.budget.header + (if r.spaced then headerStacks - 1 else 0)
    && RowsShared(r.budget.plots, headerStacks, if numPlots > 0 then PackedStacks(r.plan) else 0, numPlots, r.spaced,
                  r.stacks)
    && (numPlots > 0 ==> r.stacks > 0)
    && (numPlots > 0 ==> r.h == StackHeight(ChartRows(r.budget.plots, headerStacks, r.spaced), r.stacks, hidden))
  }

  function StackHeight(plotRows: nat, stacks: nat, hidden: bool): nat
    requires stacks > 0
  {
    if hidden then plotRows / stacks else Min(12, plotRows / stacks)
  }

  /** Every stack gets the same rows, as many as there are, but beside a process table at most twelve. */
  lemma StackHeightIsLargest(plotRows: nat, stacks: nat, hidden: bool, h: nat)
    requires stacks > 0
    ensures h <= StackHeight(plotRows, stacks, hidden) <==> h * stacks <= plotRows && (hidden || h <= 12)
  {
    HeightIsQuotient(plotRows, stacks);
    var q := plotRows / stacks;
    if h <= q {
      MulOrder(h, q, stacks);
    } else {
      MulOrder(q + 1, h, stacks);
    }
  }

  lemma HeightIsQuotient(plotRows: nat, stacks: nat)
    requires stacks > 0
    ensures (plotRows / stacks) * stacks <= plotRows < (plotRows / stacks + 1) * stacks
  {
    var q := plotRows / stacks;
    assert (q + 1) * stacks == q * stacks + stacks;
  }

  /** Everything promised about the windows of a layout. */
  ghost predicate GoodLayout(draws: seq<nat>, chartOf: seq<nat>, numPlots: nat, stackOf: seq<nat>, stacks: nat,
                             cols: nat, header: nat, h: nat, hidden: bool, charts: seq<Window>)
    requires |chartOf| == |draws|
  {
    var infos := ChartInfos(draws, chartOf, numPlots);
    && Planned(draws, chartOf, numPlots, infos, stackOf, stacks, cols)
    && (numPlots > 0 ==> h >= MIN_PLOT_ROWS && (!hidden ==> h <= 12))
    && (numPlots > 0 ==> Grid(charts, Seating(stackOf, stacks), infos, stackOf, cols, header, h))
  }

  method ArrangeCharts(ghost draws: seq<nat>, ghost chartOf: seq<nat>, cols: nat, header: nat, plotRows: nat,
                       infos: seq<nat>, stackOf: seq<nat>, stacks: nat, hidden: bool, positions: array<Window>)
    returns (plotBottom: nat, h: nat)
    requires |chartOf| == |draws| <= positions.Length && (|infos| > 0 <==> stacks > 0)
    requires Planned(draws, chartOf, |infos|, infos, stackOf, stacks, cols)
    requires stacks * MIN_PLOT_ROWS <= plotRows
    modifies positions
    ensures plotBottom == header + (if |infos| > 0 then Steps(h, stacks) else 0) <= header + plotRows
    ensures |infos| <= positions.Length
    ensures |infos| > 0 ==> h == StackHeight(plotRows, stacks, hidden)
    ensures GoodLayout(draws, chartOf, |infos|, stackOf, stacks, cols, header, h, hidden, positions[..|infos|])
  {
    plotBottom, h := header, 0;
    if |infos| > 0 {
      h := StackRows(plotRows, stacks, hidden);
      StepsProduct(h, stacks);
      PlaceCharts(stacks, cols, header, h, infos, stackOf, positions);
      plotBottom := header + h * stacks;
    }
  }

  /** The bands below the header, given where the charts end. */
  method ArrangeBands(rows: nat, cols: nat, header: nat, plotBottom: nat, statsRows: nat)
    returns (stats: Window, process: Window, setup: Window)
    requires header <= plotBottom && plotBottom + statsRows <= rows
    ensures Stacked(rows, cols, header, plotBottom - header, stats, process, setup)
    ensures stats.sizeY == statsRows && process.sizeY == rows - plotBottom - statsRows
  {
    stats := Window(0, plotBottom, cols, statsRows);
    var y := plotBottom + statsRows;
    process := Window(0, y, cols, rows - y);
    setup := Window(0, header, cols, rows - header);
  }

  /** Every chart has its window, and got it as the plan and balancing say. */
  ghost predicate ChartsShown(draws: seq<nat>, cols: nat, hidden: bool, numPlots: nat, chartOf: seq<nat>, r: Layout,
                              charts: seq<Window>)
    requires |chartOf| == |draws|
  {
    && GoodLayout(draws, chartOf, numPlots, r.stackOf, r.stacks, cols, r.header, r.h, hidden, charts)
    && (numPlots > 0 <==> DrawsAnything(draws) && r.budget.plots >= MIN_PLOT_ROWS && r.plan.Laid?)
    && (DrawsAnything(draws) && r.budget.plots >= MIN_PLOT_ROWS ==>
          Settles(draws, Identity(|draws|), r.budget.plots, cols, r.plan))
    && (numPlots > 0 ==>
          Spread(draws, r.budget.plots, cols, r.plan, ChartInfos(draws, chartOf, numPlots), r.stackOf, r.stacks,
                 r.before, r.after))
  }

  /** Every device has its window; they end above the bands if and only if the screen has rows for them. */
  ghost predicate DevicesShown(ws: seq<Window>, headerRows: nat, headerCols: nat, rows: nat, cols: nat, header: nat,
                               spaced: bool)
    requires headerCols > 0
  {
    && HeaderPlaced(ws, headerRows, headerCols, cols) && InCells(ws, headerRows, headerCols, cols, spaced)
    && (AllAbove(ws, header) <==> ws == [] || rows >= Steps(headerRows, HeaderGrid(|ws|, headerCols, cols).stacks))
    // otherwise the last device window ends below the screen
    && (!AllAbove(ws, header) ==> ws != [] && ws[|ws| - 1].posY + ws[|ws| - 1].sizeY > rows)
  }

  /** The device windows, with blank lines between them if there are rows to spare. */
  method PlaceDevices(devices: nat, g: Header, headerRows: nat, headerCols: nat, ghost rows: nat, cols: nat,
                      spaced: bool, b: Budget, devicePositions: array<Window>)
    returns (rowsForHeader: nat)
    requires 0 < headerCols < TWO_32 && cols < TWO_32 && devices <= devicePositions.Length
    requires g == HeaderGrid(devices, headerCols, cols) && (b.header == Steps(headerRows, g.stacks) || b.header == rows)
    requires b.header + (if spaced then g.stacks - 1 else 0) <= rows
    modifies devicePositions
    ensures rowsForHeader == b.header + if spaced then g.stacks - 1 else 0
    ensures DevicesShown(devicePositions[..devices], headerRows, headerCols, rows, cols, rowsForHeader, spaced)
  {
    ArrangeHeader(devices, g, headerRows, headerCols, cols, spaced, devicePositions);
    rowsForHeader := if spaced then b.header + (g.stacks - 1) else b.header;
    HeaderAboveBands(devicePositions[..devices], rows, b, headerRows, g.stacks, spaced, rowsForHeader);
  }

  lemma DueRows(r: Layout, headerStacks: nat, numPlots: nat, hidden: bool, plotRows: nat)
    requires headerStacks > 0 && r.header == r.budget.header + (if r.spaced then headerStacks - 1 else 0)
    requires RowsShared(r.budget.plots, headerStacks, if numPlots > 0 then PackedStacks(r.plan) else 0, numPlots,
                        r.spaced, r.stacks)
    requires plotRows == ChartRows(r.budget.plots, headerStacks, r.spaced)
    requires numPlots > 0 ==> r.stacks > 0 && r.h == StackHeight(plotRows, r.stacks, hidden)
    ensures RowsAreDue(r, headerStacks, numPlots, hidden)
  {
  }

  /** Header and charts, with the rows they were given. */
  method ArrangeWindows(draws: seq<nat>, headerRows: nat, headerCols: nat, rows: nat, cols: nat, hidden: bool,
                        b: Budget, g: Header,
                        devicePositions: array<Window>, plotPositions: array<Window>, chartOf: array<nat>)
    returns (numPlots: nat, rowsForHeader: nat, plotBottom: nat, ghost r: Layout)
    requires |draws| <= MAX_CHARTS && cols < TWO_32 && 0 < headerCols < TWO_32
             && g == HeaderGrid(|draws|, headerCols, cols)
    requires chartOf.Length == |draws| && devicePositions.Length >= |draws| && plotPositions.Length >= |draws|
    requires devicePositions != plotPositions
    requires b.header + b.process + b.plots + b.stats <= rows
             && (b.header == Steps(headerRows, g.stacks) || b.header == rows)
    modifies devicePositions, plotPositions, chartOf
    ensures numPlots <= |draws| && r.header == rowsForHeader && r.budget == b
    ensures RowsAreDue(r, g.stacks, numPlots, hidden)
    ensures numPlots > 0 ==> forall s: nat :: s < r.stacks ==> s in r.stackOf
    ensures plotBottom == rowsForHeader + if numPlots > 0 then Steps(r.h, r.stacks) else 0
    ensures plotBottom + b.process + b.stats <= rows
    ensures ChartsShown(draws, cols, hidden, numPlots, chartOf[..], r, plotPositions[..numPlots])
    ensures DevicesShown(devicePositions[..|draws|], headerRows, headerCols, rows, cols, r.header, r.spaced)
  {
    var infos, stackArray, spaced, k;
    ghost var plan, before, after;
    numPlots, k, infos, stackArray, spaced, plan, before, after := PlanCharts(draws, b.plots, cols, g.stacks, chartOf);
    rowsForHeader := PlaceDevices(|draws|, g, headerRows, headerCols, rows, cols, spaced, b, devicePositions);
    var plotRows: nat := if spaced then b.plots - (g.stacks - 1) else b.plots;
    assert plotRows == ChartRows(b.plots, g.stacks, spaced);
    var rowsPerStack;
    plotBottom, rowsPerStack :=
      ArrangeCharts(draws, chartOf[..], cols, rowsForHeader, plotRows, infos, stackArray[..], k, hidden, plotPositions);
    r := Layout(b, rowsForHeader, spaced, stackArray[..], k, rowsPerStack, plan, before, after);
    DueRows(r, g.stacks, numPlots, hidden, plotRows);
    if numPlots > 0 {
      SpreadFillsStacks(draws, b.plots, cols, plan, infos, r.stackOf, k, before, after);
    }
  }

  /** The grid of the header, and the rows of all bands. */
  method ReserveBands(devices: nat, headerRows: nat, headerCols: nat, rows: nat, cols: nat, fields: nat,
                      heightModifier: int, ncpu: int, hidden: bool)
    returns (g: Header, b: Budget)
    requires rows < TWO_32 && headerCols > 0
    ensures g == HeaderGrid(devices, headerCols, cols)
    ensures Budgeted(b, rows, Steps(headerRows, g.stacks), fields, devices, heightModifier, ncpu, hidden)
  {
    g := HeaderGrid(devices, headerCols, cols);
    StepsProduct(headerRows, g.stacks);
    b := ReserveRows(rows, g.stacks * headerRows, fields, devices, heightModifier, ncpu, hidden);
  }

  method ComputeSizesFromLayout(
      draws: seq<nat>, headerRows: nat, headerCols: nat, rows: nat, cols: nat, fields: nat, heightModifier: int,
      ncpu: int, hidden: bool,
      devicePositions: array<Window>, plotPositions: array<Window>, chartOf: array<nat>)
    returns (numPlots: nat, process: Window, stats: Window, setup: Window, ghost r: Layout)
    requires |draws| <= MAX_CHARTS && rows < TWO_32 && cols < TWO_32 && 0 < headerCols < TWO_32
    requires chartOf.Length == |draws| && devicePositions.Length >= |draws| && plotPositions.Length >= |draws|
    requires devicePositions != plotPositions
    modifies devicePositions, plotPositions, chartOf
    ensures numPlots <= |draws|
    // the bands fill the screen, in order
    ensures Stacked(rows, cols, r.header, if numPlots > 0 then Steps(r.h, r.stacks) else 0, stats, process, setup)
    // the rows are shared out as they should, and the process table keeps its minimum
    ensures Budgeted(r.budget, rows, Steps(headerRows, HeaderGrid(|draws|, headerCols, cols).stacks), fields, |draws|,
                     heightModifier, ncpu, hidden)
    ensures process.sizeY >= r.budget.process && stats.sizeY == r.budget.stats
    ensures RowsAreDue(r, HeaderGrid(|draws|, headerCols, cols).stacks, numPlots, hidden)
    // one window for every chart, on its stack, and one for every device, above the bands if there are rows
    ensures ChartsShown(draws, cols, hidden, numPlots, chartOf[..], r, plotPositions[..numPlots])
    // and on every stack a chart
    ensures numPlots > 0 ==> forall s: nat :: s < r.stacks ==> s in r.stackOf
    ensures DevicesShown(devicePositions[..|draws|], headerRows, headerCols, rows, cols, r.header, r.spaced)
  {
    var g, b := ReserveBands(|draws|, headerRows, headerCols, rows, cols, fields, heightModifier, ncpu, hidden);
    var rowsForHeader, plotBottom;
    numPlots, rowsForHeader, plotBottom, r :=
      ArrangeWindows(draws, headerRows, headerCols, rows, cols, hidden, b, g, devicePositions, plotPositions, chartOf);
    stats, process, setup := ArrangeBands(rows, cols, rowsForHeader, plotBottom, b.stats);
  }

  lemma HeaderAboveBands(ws: seq<Window>, rows: nat, b: Budget, headerRows: nat, stacks: nat, spaced: bool, header: nat)
    requires stacks > 0 && header <= rows && header == if spaced then b.header + (stacks - 1) else b.header
    requires AllAbove(ws, Steps(headerRows, stacks) + if spaced then stacks - 1 else 0)
    requires ws != [] ==> ws[|ws| - 1].posY + ws[|ws| - 1].sizeY >= Steps(headerRows, stacks)
    requires b.header == Steps(headerRows, stacks) || b.header == rows
    ensures AllAbove(ws, header) <==> ws == [] || rows >= Steps(headerRows, stacks)
    ensures !AllAbove(ws, header) ==> ws[|ws| - 1].posY + ws[|ws| - 1].sizeY > rows
  {
    if ws != [] && rows < Steps(headerRows, stacks) {
      assert !(ws[|ws| - 1].posY + ws[|ws| - 1].sizeY <= header);
    }
  }
}
