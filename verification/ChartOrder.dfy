/**
 Charts and window positions (src/interface_layout_selection.c:210-237, 376-404,
 src/interface.c:489-498, 2612-2622): position k is handed to chart k. That is
 right as long as balancing leaves the charts in order, which it does for charts
 that do not get wider, but not always.
 */
module ChartOrder {
  import opened TaggedSums
  import opened Arithmetic
  import opened ChartMerging
  import opened ChartPacking
  import opened ChartSearch
  import opened ChartPlan
  import opened ChartGrid
  import opened StackBalance
  import opened StackOrder
  import opened HeaderLayout
  import opened WindowLayout

  /** Charts in order: every chart gets a window whose columns split evenly among its infos. */
  lemma OrderedChartsGetTheirWindows(draws: seq<nat>, chartOf: seq<nat>, numPlots: nat, stackOf: seq<nat>, stacks: nat,
                                     cols: nat, header: nat, h: nat, hidden: bool, charts: seq<Window>)
    requires |chartOf| == |draws| && numPlots > 0
    requires GoodLayout(draws, chartOf, numPlots, stackOf, stacks, cols, header, h, hidden, charts)
    requires InOrder(stackOf)
    ensures |charts| == numPlots
    ensures forall k :: 0 <= k < numPlots ==> Suits(charts[k], SumTo(draws, chartOf, k, |draws|))
  {
    PositionsMatchCharts(stackOf, stacks);
    var infos := ChartInfos(draws, chartOf, numPlots);
    forall k | 0 <= k < numPlots ensures Suits(charts[k], SumTo(draws, chartOf, k, |draws|)) {
      assert Seated(charts[k], Seating(stackOf, stacks)[k], infos, stackOf, cols, header, h);
      assert Seating(stackOf, stacks)[k] == k;
    }
  }

  // --------------------------------------------- charts that do not get wider ----

  /** No chart draws more infos than one before it. */
  ghost predicate InfosNarrow(infos: seq<nat>) {
    forall j, k :: 0 <= j < k < |infos| ==> infos[j] >= infos[k]
  }

  /** Balancing leaves such charts in order. */
  lemma SpreadInOrder(draws: seq<nat>, rows: nat, cols: nat, r: Layout, infos: seq<nat>)
    requires Spread(draws, rows, cols, r.plan, infos, r.stackOf, r.stacks, r.before, r.after)
    requires DrawsAnything(draws) && rows >= MIN_PLOT_ROWS && InfosNarrow(infos)
    ensures InOrder(r.stackOf)
  {
    SpreadIsPacked(draws, rows, cols, r.plan, infos, r.stackOf, r.stacks, r.before, r.after);
    NarrowingStaysInOrder(Widths(infos), r.plan.stackOf, r.before, cols, Min(r.stacks, |infos|), r.stackOf, r.after);
  }

  /** So every chart of the layout has a window that its infos divide. */
  lemma NarrowingChartsGetTheirWindows(draws: seq<nat>, cols: nat, hidden: bool, numPlots: nat, chartOf: seq<nat>,
                                       r: Layout, charts: seq<Window>)
    requires |chartOf| == |draws| && numPlots > 0
    requires ChartsShown(draws, cols, hidden, numPlots, chartOf, r, charts)
    requires InfosNarrow(ChartInfos(draws, chartOf, numPlots))
    ensures InOrder(r.stackOf) && |charts| == numPlots
    ensures forall k :: 0 <= k < numPlots ==> Suits(charts[k], SumTo(draws, chartOf, k, |draws|))
  {
    SpreadInOrder(draws, r.budget.plots, cols, r, ChartInfos(draws, chartOf, numPlots));
    OrderedChartsGetTheirWindows(draws, chartOf, numPlots, r.stackOf, r.stacks, cols, r.header, r.h, hidden, charts);
  }

  /**
   A condition on the devices alone: no device draws more infos than one before
   it, and either no two neighbours can share a chart, or there are rows for a
   stack each. Then every chart of the layout has a window that its infos divide.
   */
  lemma NarrowingDevicesGetTheirWindows(draws: seq<nat>, cols: nat, hidden: bool, numPlots: nat, chartOf: seq<nat>,
                                        r: Layout, charts: seq<Window>)
    requires |chartOf| == |draws| && numPlots > 0
    requires ChartsShown(draws, cols, hidden, numPlots, chartOf, r, charts)
    requires NarrowingInUse(draws) && (NothingMerges(draws) || RowsForAll(draws, r.budget.plots, cols))
    ensures InOrder(r.stackOf) && |charts| == numPlots
    ensures forall k :: 0 <= k < numPlots ==> Suits(charts[k], SumTo(draws, chartOf, k, |draws|))
  {
    UnmergedCharts(draws, Identity(|draws|), r.budget.plots, cols, r.plan);
    CompactNarrows(draws, |draws|);
    NarrowingChartsGetTheirWindows(draws, cols, hidden, numPlots, chartOf, r, charts);
  }

  // ------------------------------------------------- order lost and regained ----

  /** Chart p can move down, in columns. */
  ghost predicate Lighter(w: seq<nat>, st: seq<nat>, c: seq<nat>, p: nat)
    requires |st| == |w| && p < |w| && st[p] < |c|
  {
    st[p] + 1 < |c| && c[st[p] + 1] + w[p] <= c[st[p]]
  }

  lemma NoneMoves(w: seq<nat>, st: seq<nat>, c: seq<nat>, most: nat)
    requires InSync(w, st, c, most) && AllWide(w) && forall q :: 0 <= q < |w| ==> !Lighter(w, st, c, q)
    ensures BalancesTo(w, st, c, most, |c|, st, c)
  {
    forall q: nat | q < |w| ensures !CanMove(w, st, c, most, |c|, q) {
      assert !Lighter(w, st, c, q);
      CanMoveExactly(w, st, c, most, |c|, q);
    }
  }

  /** Chart p, the last that can, moves down: the stacks and columns after it are st' and c'. */
  ghost predicate Lowers(w: seq<nat>, st: seq<nat>, c: seq<nat>, p: nat, st': seq<nat>, c': seq<nat>)
    requires |st| == |w| && forall k :: 0 <= k < |st| ==> st[k] < |c|
  {
    && p < |w| && Lighter(w, st, c, p) && w[p] <= c[st[p]]
    && (forall q :: p < q < |w| ==> !Lighter(w, st, c, q))
    && |st'| == |st| && (forall k :: 0 <= k < |st| ==> st'[k] == if k == p then st[k] + 1 else st[k])
    && |c'| == |c| && c'[st[p]] == c[st[p]] - w[p] && c'[st[p] + 1] == c[st[p] + 1] + w[p]
    && (forall s :: 0 <= s < |c| && s != st[p] && s != st[p] + 1 ==> c'[s] == c[s])
  }

  lemma LoweredSeqs(w: seq<nat>, st: seq<nat>, c: seq<nat>, p: nat, st': seq<nat>, c': seq<nat>)
    requires |st| == |w| && (forall k :: 0 <= k < |st| ==> st[k] < |c|) && Lowers(w, st, c, p, st', c')
    ensures st' == st[p := st[p] + 1] && c' == MoveCols(c, st[p], st[p] + 1, w[p])
  {
  }

  lemma LastMoves(w: seq<nat>, st: seq<nat>, c: seq<nat>, most: nat, p: nat, st': seq<nat>, c': seq<nat>,
                  end: seq<nat>, endCols: seq<nat>)
    requires InSync(w, st, c, most) && AllWide(w) && Lowers(w, st, c, p, st', c')
    requires InSync(w, st', c', most) && BalancesTo(w, st', c', most, |c|, end, endCols)
    ensures BalancesTo(w, st, c, most, |c|, end, endCols)
  {
    OnlyLastMoves(w, st, c, most, p);
    LoweredSeqs(w, st, c, p, st', c');
    BalanceStep(w, st, c, most, |c|, p, st', c', end, endCols);
  }

  lemma OnlyLastMoves(w: seq<nat>, st: seq<nat>, c: seq<nat>, most: nat, p: nat)
    requires InSync(w, st, c, most) && AllWide(w) && p < |w| && Lighter(w, st, c, p)
    requires forall q :: p < q < |w| ==> !Lighter(w, st, c, q)
    ensures CanMove(w, st, c, most, |c|, p)
    ensures forall q :: p < q < |w| ==> !CanMove(w, st, c, most, |c|, q)
  {
    CanMoveExactly(w, st, c, most, |c|, p);
    forall q: nat | p < q < |w| ensures !CanMove(w, st, c, most, |c|, q) {
      assert !Lighter(w, st, c, q);
      CanMoveExactly(w, st, c, most, |c|, q);
    }
  }

  /** The widths of charts with 1, 1, 2, 3 and 1 infos. */
  const FIVE: seq<nat> := [15, 15, 25, 35, 15]

  ghost predicate On(st: seq<nat>, s: nat, x: nat)
    requires |st| == 5
  {
    x == (if st[0] == s then 15 else 0) + (if st[1] == s then 15 else 0) + (if st[2] == s then 25 else 0)
         + (if st[3] == s then 35 else 0) + (if st[4] == s then 15 else 0)
  }

  lemma FiveInSync(st: seq<nat>, c: seq<nat>)
    requires |st| == 5 && |c| == 3 && forall k :: 0 <= k < 5 ==> st[k] < 3
    requires forall s :: 0 <= s < 3 ==> On(st, s, c[s]) && c[s] <= 55
    ensures InSync(FIVE, st, c, 55)
  {
    forall s: nat | s < 3 ensures c[s] == SumTo(FIVE, st, s, 5) {
      assert SumTo(FIVE, st, s, 1) == if st[0] == s then 15 else 0;
      assert SumTo(FIVE, st, s, 2) == SumTo(FIVE, st, s, 1) + if st[1] == s then 15 else 0;
      assert SumTo(FIVE, st, s, 3) == SumTo(FIVE, st, s, 2) + if st[2] == s then 25 else 0;
      assert SumTo(FIVE, st, s, 4) == SumTo(FIVE, st, s, 3) + if st[3] == s then 35 else 0;
    }
  }

  lemma FiveInOrder(st: seq<nat>)
    requires |st| == 5 && st[0] <= st[1] <= st[2] <= st[3] <= st[4]
    ensures InOrder(st)
  {
  }

  lemma FirstTwoMoves(w: seq<nat>, a: seq<nat>, ac: seq<nat>, b: seq<nat>, bc: seq<nat>, c: seq<nat>, cc: seq<nat>)
    requires w == FIVE && a == [0, 0, 0, 1, 1] && ac == [55, 50, 0] && b == [0, 0, 0, 1, 2] && bc == [55, 35, 15]
    requires c == [0, 1, 0, 1, 2] && cc == [40, 50, 15]
    ensures Lowers(w, a, ac, 4, b, bc) && Lowers(w, b, bc, 1, c, cc)
  {
  }

  lemma SecondInSync(b: seq<nat>, bc: seq<nat>)
    requires b == [0, 0, 0, 1, 2] && bc == [55, 35, 15]
    ensures InSync(FIVE, b, bc, 55) && AllWide(FIVE)
  {
    FiveInSync(b, bc);
  }

  lemma LastTwoMoves(w: seq<nat>)
    requires w == FIVE
    ensures Lowers(w, [0, 1, 0, 1, 2], [40, 50, 15], 3, [0, 1, 0, 2, 2], [40, 15, 50])
    ensures Lowers(w, [0, 1, 0, 2, 2], [40, 15, 50], 2, [0, 1, 1, 2, 2], [15, 40, 50])
  {
  }

  lemma NoFurtherMove(w: seq<nat>)
    requires w == FIVE
    ensures forall q :: 0 <= q < 5 ==> !Lighter(w, [0, 1, 1, 2, 2], [15, 40, 50], q)
  {
  }

  lemma OrderRegained(w: seq<nat>, c: seq<nat>, cc: seq<nat>, e: seq<nat>, ec: seq<nat>)
    requires w == FIVE && c == [0, 1, 0, 1, 2] && cc == [40, 50, 15] && e == [0, 1, 1, 2, 2] && ec == [15, 40, 50]
    ensures InSync(w, c, cc, 55) && BalancesTo(w, c, cc, 55, 3, e, ec)
    ensures !InOrder(c) && InOrder(e)
  {
    var d: seq<nat>, dc: seq<nat> := [0, 1, 0, 2, 2], [40, 15, 50];
    FiveInSync(c, cc);
    FiveInSync(d, dc);
    FiveInSync(e, ec);
    NoFurtherMove(w);
    NoneMoves(w, e, ec, 55);
    LastTwoMoves(w);
    LastMoves(w, d, dc, 55, 2, e, ec, e, ec);
    LastMoves(w, c, cc, 55, 3, d, dc, e, ec);
    assert c[1] > c[2];
    FiveInOrder(e);
  }

  lemma OrderLost(w: seq<nat>, a: seq<nat>, ac: seq<nat>, b: seq<nat>, bc: seq<nat>, c: seq<nat>, cc: seq<nat>,
                  e: seq<nat>, ec: seq<nat>)
    requires w == FIVE && a == [0, 0, 0, 1, 1] && ac == [55, 50, 0] && b == [0, 0, 0, 1, 2] && bc == [55, 35, 15]
    requires c == [0, 1, 0, 1, 2] && cc == [40, 50, 15]
    requires InSync(w, a, ac, 55) && InSync(w, c, cc, 55) && BalancesTo(w, c, cc, 55, 3, e, ec)
    ensures Lowers(w, a, ac, 4, b, bc) && Lowers(w, b, bc, 1, c, cc) && BalancesTo(w, a, ac, 55, 3, e, ec)
  {
    SecondInSync(b, bc);
    FirstTwoMoves(w, a, ac, b, bc, c, cc);
    LastMoves(w, b, bc, 55, 1, c, cc, e, ec);
    LastMoves(w, a, ac, 55, 4, b, bc, e, ec);
  }

  /**
   Five charts on 55 columns: the first two moves, of charts 4 and 1, lose the
   order, but further moves bring it back. So balancing can end in order though
   not every move keeps it.
   */
  lemma LostOrderCanComeBack(w: seq<nat>, a: seq<nat>, ac: seq<nat>, b: seq<nat>, bc: seq<nat>, c: seq<nat>,
                             cc: seq<nat>, e: seq<nat>, ec: seq<nat>)
    requires w == FIVE && a == [0, 0, 0, 1, 1] && ac == [55, 50, 0] && b == [0, 0, 0, 1, 2] && bc == [55, 35, 15]
    requires c == [0, 1, 0, 1, 2] && cc == [40, 50, 15] && e == [0, 1, 1, 2, 2] && ec == [15, 40, 50]
    ensures Lowers(w, a, ac, 4, b, bc) && Lowers(w, b, bc, 1, c, cc)
    ensures InSync(w, a, ac, 55) && BalancesTo(w, a, ac, 55, 3, e, ec)
    ensures InSync(w, c, cc, 55) && BalancesTo(w, c, cc, 55, 3, e, ec)
    ensures InOrder(a) && !InOrder(c) && InOrder(e)
  {
    FiveInSync(a, ac);
    OrderRegained(w, c, cc, e, ec);
    OrderLost(w, a, ac, b, bc, c, cc, e, ec);
    FiveInOrder(a);
  }

  // --------------------------------------------------- a layout out of order ----

  /** Three devices drawing 1, 4 and 4 infos on 80 columns. */
  const THREE: seq<nat> := [1, 4, 4]

  lemma PackedExample()
    ensures TryPack(THREE, 14, 80, 3) == Placed([0, 0, 1], 2, 45)
  {
    assert TryPack(THREE, 14, 80, 0) == Placed([], 1, 0);
    assert TryPack(THREE, 14, 80, 1) == Placed([0], 1, 15);
    assert TryPack(THREE, 14, 80, 2) == Placed([0, 0], 1, 60);
  }

  lemma ExampleWidths()
    ensures Widths(THREE) == [15, 45, 45]
  {
  }

  lemma CompactExample()
    ensures Compact(THREE, 3) == THREE
  {
    assert Compact(THREE, 1) == [1] && Compact(THREE, 2) == [1, 4];
  }

  lemma Sums3(w: seq<nat>, tags: seq<nat>, t: nat)
    requires |w| == |tags| == 3
    ensures SumTo(w, tags, t, 3) == (if tags[0] == t then w[0] else 0) + (if tags[1] == t then w[1] else 0)
                                  + (if tags[2] == t then w[2] else 0)
  {
    assert SumTo(w, tags, t, 1) == if tags[0] == t then w[0] else 0;
    assert SumTo(w, tags, t, 2) == SumTo(w, tags, t, 1) + if tags[1] == t then w[1] else 0;
  }

  lemma ExampleInSync(tags: seq<nat>, colsOf: seq<nat>)
    requires tags == [0, 0, 1] || tags == [1, 0, 1]
    ensures InSync([15, 45, 45], tags, colsOf, 80) && |colsOf| == 2 <==>
            colsOf == if tags[0] == 0 then [60, 45] else [45, 60]
  {
    var w: seq<nat> := [15, 45, 45];
    Sums3(w, tags, 0);
    Sums3(w, tags, 1);
  }

  lemma MovableInExample(tags: seq<nat>, colsOf: seq<nat>, p: nat)
    requires tags == [0, 0, 1] || tags == [1, 0, 1]
    requires InSync([15, 45, 45], tags, colsOf, 80) && |colsOf| == 2 && p < 3
    ensures CanMove([15, 45, 45], tags, colsOf, 80, 2, p) <==> tags[0] == 0 && p == 0
  {
    ExampleInSync(tags, colsOf);
    CanMoveExactly([15, 45, 45], tags, colsOf, 80, 2, p);
  }

  /** Balancing moves the first chart below the second: the order of the charts is lost. */
  lemma BalancingBreaksOrder(colsOf: seq<nat>, stackOf': seq<nat>, cols': seq<nat>)
    requires InSync([15, 45, 45], [0, 0, 1], colsOf, 80) && |colsOf| == 2
    ensures BalancesTo([15, 45, 45], [0, 0, 1], colsOf, 80, 2, stackOf', cols')
            <==> stackOf' == [1, 0, 1] && cols' == [45, 60]
  {
    var w: seq<nat>, s0: seq<nat>, s1: seq<nat>, c1: seq<nat> := [15, 45, 45], [0, 0, 1], [1, 0, 1], [45, 60];
    ExampleInSync(s0, colsOf);
    ExampleInSync(s1, c1);
    forall p: nat | p < 3
      ensures CanMove(w, s0, colsOf, 80, 2, p) <==> p == 0
      ensures !CanMove(w, s1, c1, 80, 2, p)
    {
      MovableInExample(s0, colsOf, p);
      MovableInExample(s1, c1, p);
    }
    assert s0[0 := 1] == s1 && MoveCols(colsOf, 0, 1, 15) == c1;
    forall st, c ensures MovesLast(w, s0, colsOf, 80, 2, st, c) <==> st == s1 && c == c1 {
      OnlyMove(w, s0, colsOf, st, c);
    }
    BalanceStep(w, s0, colsOf, 80, 2, 0, s1, c1, s1, c1);
  }

  lemma OnlyMove(w: seq<nat>, s0: seq<nat>, colsOf: seq<nat>, st: seq<nat>, c: seq<nat>)
    requires w == [15, 45, 45] && s0 == [0, 0, 1] && colsOf == [60, 45] && InSync(w, s0, colsOf, 80)
    requires forall p: nat :: p < 3 ==> (CanMove(w, s0, colsOf, 80, 2, p) <==> p == 0)
    ensures MovesLast(w, s0, colsOf, 80, 2, st, c) <==> st == [1, 0, 1] && c == [45, 60]
  {
    assert s0[0 := 1] == [1, 0, 1] && MoveCols(colsOf, 0, 1, 15) == [45, 60];
    assert CanMove(w, s0, colsOf, 80, 2, 0);
  }

  lemma ExampleSeats()
    ensures ChartsOn([1, 0, 1], 1, 3) == [0, 2] && Seating([1, 0, 1], 2) == [1, 0, 2]
  {
    var st: seq<nat> := [1, 0, 1];
    assert ChartsOn(st, 0, 1) == [] && ChartsOn(st, 0, 2) == [1] && ChartsOn(st, 0, 3) == [1];
    assert ChartsOn(st, 1, 1) == [0] && ChartsOn(st, 1, 2) == [0];
    assert Seating(st, 0) == [] && Seating(st, 1) == [1];
  }

  /** Chart 0 is due 19 columns on the second stack: 14 for its line, which four infos do not divide. */
  lemma NarrowWindow()
    ensures DueWidth(THREE, [1, 0, 1], 80, 0) == 19
  {
    ExampleSeats();
    Sums3(THREE, [1, 0, 1], 1);
    assert ChartWidth(70, 1, 5) == 19 by {
      assert Share(70, 1, 5) == 14;
    }
  }

  lemma PlanOfThree(plan: Plan)
    requires Settles(THREE, Identity(3), 14, 80, plan)
    ensures plan == Laid(THREE, Identity(3), [0, 0, 1], 2)
  {
    PackedExample();
  }

  lemma FourRows(rows: nat)
    requires rows <= 14
    ensures rows / 3 < 11
  {
  }

  lemma SpreadOfThree(r: Layout, infos: seq<nat>)
    requires Spread(THREE, 14, 80, r.plan, infos, r.stackOf, r.stacks, r.before, r.after)
    requires RowsShared(14, 3, PackedStacks(r.plan), |infos|, r.spaced, r.stacks)
    ensures infos == THREE && r.stacks == 2 && r.stackOf == [1, 0, 1]
  {
    PlanOfThree(r.plan);
    CompactExample();
    ExampleWidths();
    FourRows(ChartRows(14, 3, r.spaced));
    BalancingBreaksOrder(r.before, r.stackOf, r.after);
  }

  /** Whatever the outcome of the search and of balancing, chart 1 gets the window made for chart 0. */
  lemma ThreeDevicesLoseOrder(hidden: bool, numPlots: nat, chartOf: seq<nat>, r: Layout, charts: seq<Window>)
    requires |chartOf| == 3 && r.budget.plots == 14
    requires ChartsShown(THREE, 80, hidden, numPlots, chartOf, r, charts) && RowsAreDue(r, 3, numPlots, hidden)
    ensures numPlots == |charts| == 3 && ChartInfos(THREE, chartOf, 3) == THREE && r.stackOf == [1, 0, 1]
    ensures charts[1].sizeX == 19 && !Suits(charts[1], 4) && (charts[1].sizeX - COLS_NEEDED_BOX_DRAWING) % 4 != 0
  {
    assert THREE[0] > 0;
    PlanOfThree(r.plan);
    SpreadOfThree(r, ChartInfos(THREE, chartOf, numPlots));
    ExampleSeats();
    NarrowWindow();
    assert Seated(charts[1], Seating(r.stackOf, 2)[1], THREE, r.stackOf, 80, r.header, r.h);
  }

  lemma HeaderOfThree()
    ensures HeaderGrid(3, 78, 80) == Header(1, 3) && Steps(3, 3) == 9
  {
    assert FitPerRow(78, 80) == 1 && RowsNeeded(3, 1) == 3;
    StepsProduct(3, 3);
  }

  /**
   The three devices on a screen of 80 columns and 23 rows, without process
   table: the layout gives chart 1, which draws 4 infos, 14 columns for them, so
   the divisibility assertion of src/interface.c:2621 fails.
   */
  method OutOfOrderChartGetsWrongWindow() returns (charts: seq<Window>, chartOf: seq<nat>)
    ensures |charts| == |chartOf| == 3 && SumTo(THREE, chartOf, 1, 3) == 4
    ensures charts[1].sizeX == 19 && (charts[1].sizeX - COLS_NEEDED_BOX_DRAWING) % 4 != 0
  {
    var devicePositions, plotPositions :=
      new Window[3](_ => Window(0, 0, 0, 0)), new Window[3](_ => Window(0, 0, 0, 0));
    var map' := new nat[3](_ => 0);
    ghost var r;
    var numPlots, process, stats, setup;
    numPlots, process, stats, setup, r :=
      ComputeSizesFromLayout(THREE, 3, 78, 23, 80, 0, 0, 8, true, devicePositions, plotPositions, map');
    HeaderOfThree();
    ThreeDevicesLoseOrder(true, numPlots, map'[..], r, plotPositions[..numPlots]);
    charts, chartOf := plotPositions[..], map'[..];
    assert charts[1] == plotPositions[..numPlots][1];
    assert ChartInfos(THREE, map'[..], 3)[1] == 4;
  }
}
