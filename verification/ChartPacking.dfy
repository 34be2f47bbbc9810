/** Packing charts into stacks (src/interface_layout_selection.c:132-181). */
module ChartPacking {
  import opened TaggedSums
  import opened ChartMerging

  datatype Attempt =
    | TooWide                     // a chart does not even fit alone in a stack
    | Crowded                     // one more stack is needed than there are rows for
    | Placed(stackOf: seq<nat>, stacks: nat, used: nat)

  /** Next-fit packing of the first n charts, empty charts skipped. */
  function TryPack(infos: seq<nat>, rows: nat, cols: nat, n: nat): (r: Attempt)
    requires n <= |infos|
    ensures r.Placed? ==> r.stacks > 0
  {
    if n == 0 then Placed([], 1, 0)
    else
      match TryPack(infos, rows, cols, n - 1)
      case TooWide => TooWide
      case Crowded => Crowded
      case Placed(stackOf, stacks, used) =>
        var w := MinPlotCols(infos[n - 1]);
        if infos[n - 1] == 0 then Placed(stackOf, stacks, used)
        else if used + w <= cols then Placed(stackOf + [stacks - 1], stacks, used + w)
        else if used == 0 then TooWide
        else if (stacks + 1) * MIN_PLOT_ROWS > rows then Crowded
        else if w > cols then TooWide
        else Placed(stackOf + [stacks], stacks + 1, w)
  }

  /** The charts in use among the first n, in order. */
  function Compact(infos: seq<nat>, n: nat): (r: seq<nat>)
    requires n <= |infos|
    ensures |r| == InUse(infos, n)
    ensures forall k :: 0 <= k < |r| ==> r[k] > 0
  {
    if n == 0 then []
    else if infos[n - 1] > 0 then Compact(infos, n - 1) + [infos[n - 1]]
    else Compact(infos, n - 1)
  }

  /** Charts are in order: a later chart is never on an earlier stack. */
  ghost predicate InOrder(stackOf: seq<nat>) {
    forall j, k :: 0 <= j < k < |stackOf| ==> stackOf[j] <= stackOf[k]
  }

  /** Charts in order over stacks 0..stacks-1, no stack empty, no stack too wide. */
  ghost predicate Packs(widths: seq<nat>, stackOf: seq<nat>, stacks: nat, cols: nat) {
    && |stackOf| == |widths|
    && (forall k :: 0 <= k < |stackOf| ==> stackOf[k] < stacks)
    && InOrder(stackOf)
    && (forall s :: 0 <= s < stacks ==> SumTo(widths, stackOf, s, |widths|) <= cols)
  }

  /** Chart k goes on the stack of chart k-1, or on the next one because that stack could not take it. */
  ghost predicate Tight(widths: seq<nat>, stackOf: seq<nat>, cols: nat, k: nat)
    requires 0 < k < |stackOf| == |widths|
  {
    || stackOf[k] == stackOf[k - 1]
    || (stackOf[k] == stackOf[k - 1] + 1 && SumTo(widths, stackOf, stackOf[k - 1], k) + widths[k] > cols)
  }

  /** A stack is opened only for a chart that the stack before could not take. */
  ghost predicate NextFit(widths: seq<nat>, stackOf: seq<nat>, cols: nat) {
    && |stackOf| == |widths|
    && (|stackOf| > 0 ==> stackOf[0] == 0)
    && forall k :: 0 < k < |stackOf| ==> Tight(widths, stackOf, cols, k)
  }

  lemma {:induction false} NothingYetInStack(widths: seq<nat>, stackOf: seq<nat>, s: nat, n: nat)
    requires n <= |widths| && n <= |stackOf|
    requires forall k :: 0 <= k < n ==> stackOf[k] < s
    ensures SumTo(widths, stackOf, s, n) == 0
  {
    if n > 0 {
      NothingYetInStack(widths, stackOf, s, n - 1);
    }
  }

  lemma {:induction false} AppendChart(widths: seq<nat>, stackOf: seq<nat>, w: nat, t: nat, s: nat)
    requires |stackOf| == |widths|
    ensures SumTo(widths + [w], stackOf + [t], s, |widths| + 1)
            == SumTo(widths, stackOf, s, |widths|) + if s == t then w else 0
  {
    SumFrame(widths, stackOf, widths + [w], stackOf + [t], s, |widths|);
  }

  /** One step of the packing: chart w goes on stack t, the last or a new one. */
  ghost predicate CanPlace(widths: seq<nat>, stackOf: seq<nat>, stacks: nat, cols: nat, w: nat, t: nat) {
    && |stackOf| == |widths| && w <= cols
    && 0 < stacks <= t + 1 <= stacks + 1
    && (|stackOf| == 0 ==> stacks == 1 && t == 0)
    && (|stackOf| > 0 ==> stackOf[|stackOf| - 1] == stacks - 1)
    && (t < stacks ==> SumTo(widths, stackOf, t, |widths|) + w <= cols)
    && (t == stacks ==> SumTo(widths, stackOf, stacks - 1, |widths|) + w > cols)
  }

  lemma PlaceOnePacks(widths: seq<nat>, stackOf: seq<nat>, stacks: nat, cols: nat, w: nat, t: nat)
    requires Packs(widths, stackOf, stacks, cols) && CanPlace(widths, stackOf, stacks, cols, w, t)
    ensures Packs(widths + [w], stackOf + [t], t + 1, cols)
  {
    var n, ws, so := |widths|, widths + [w], stackOf + [t];
    forall s | 0 <= s < t + 1 ensures SumTo(ws, so, s, |ws|) <= cols {
      AppendChart(widths, stackOf, w, t, s);
      if s == stacks {
        NothingYetInStack(widths, stackOf, s, n);
      }
    }
  }

  lemma PlaceOneNextFit(widths: seq<nat>, stackOf: seq<nat>, stacks: nat, cols: nat, w: nat, t: nat)
    requires NextFit(widths, stackOf, cols) && CanPlace(widths, stackOf, stacks, cols, w, t)
    ensures NextFit(widths + [w], stackOf + [t], cols)
  {
    var n, ws, so := |widths|, widths + [w], stackOf + [t];
    forall k | 0 < k < n + 1 ensures Tight(ws, so, cols, k) {
      SumFrame(widths, stackOf, ws, so, so[k - 1], k);
      if k < n {
        assert Tight(widths, stackOf, cols, k);
      }
    }
  }

  lemma WidthsAppend(a: seq<nat>, x: nat)
    ensures Widths(a + [x]) == Widths(a) + [MinPlotCols(x)]
  {
  }

  /** What a successful attempt means. */
  ghost predicate GoodAttempt(ws: seq<nat>, at: Attempt, rows: nat, cols: nat) {
    at.Placed? ==>
      && at.stacks >= 1 && at.stacks * MIN_PLOT_ROWS <= rows
      && Packs(ws, at.stackOf, at.stacks, cols)
      && NextFit(ws, at.stackOf, cols)
      && (|ws| == 0 ==> at.stacks == 1 && at.used == 0)
      && (|ws| > 0 ==> at.stackOf[|ws| - 1] == at.stacks - 1)
      && at.used == SumTo(ws, at.stackOf, at.stacks - 1, |ws|)
  }

  lemma GoodStep(ws: seq<nat>, at: Attempt, rows: nat, cols: nat, w: nat, t: nat)
    requires at.Placed? && GoodAttempt(ws, at, rows, cols)
    requires CanPlace(ws, at.stackOf, at.stacks, cols, w, t) && (t + 1) * MIN_PLOT_ROWS <= rows
    ensures GoodAttempt(ws + [w], Placed(at.stackOf + [t], t + 1, if t < at.stacks then at.used + w else w), rows, cols)
  {
    PlaceOnePacks(ws, at.stackOf, at.stacks, cols, w, t);
    PlaceOneNextFit(ws, at.stackOf, at.stacks, cols, w, t);
    AppendChart(ws, at.stackOf, w, t, t);
    if t == at.stacks {
      NothingYetInStack(ws, at.stackOf, t, |ws|);
    }
  }

  ghost predicate PacksWell(infos: seq<nat>, rows: nat, cols: nat, n: nat)
    requires n <= |infos|
  {
    GoodAttempt(Widths(Compact(infos, n)), TryPack(infos, rows, cols, n), rows, cols)
  }

  lemma {:induction false} PacksWellSoFar(infos: seq<nat>, rows: nat, cols: nat, n: nat)
    requires n <= |infos| && rows >= MIN_PLOT_ROWS
    ensures PacksWell(infos, rows, cols, n)
  {
    if n == 0 {
      NothingPlaced(infos, rows, cols);
    } else {
      var k: nat := n - 1;
      PacksWellSoFar(infos, rows, cols, k);
      OneMorePlaced(infos, rows, cols, k, n);
    }
  }

  lemma PlacedIsNextFit(infos: seq<nat>, rows: nat, cols: nat, n: nat)
    requires n <= |infos| && rows >= MIN_PLOT_ROWS
    ensures GoodAttempt(Widths(Compact(infos, n)), TryPack(infos, rows, cols, n), rows, cols)
  {
    PacksWellSoFar(infos, rows, cols, n);
  }

  lemma NothingPlaced(infos: seq<nat>, rows: nat, cols: nat)
    requires rows >= MIN_PLOT_ROWS
    ensures GoodAttempt(Widths(Compact(infos, 0)), TryPack(infos, rows, cols, 0), rows, cols)
  {
  }

  lemma SkipEmpty(infos: seq<nat>, rows: nat, cols: nat, n: nat)
    requires n < |infos| && infos[n] == 0
    requires GoodAttempt(Widths(Compact(infos, n)), TryPack(infos, rows, cols, n), rows, cols)
    ensures GoodAttempt(Widths(Compact(infos, n + 1)), TryPack(infos, rows, cols, n + 1), rows, cols)
  {
    assert TryPack(infos, rows, cols, n + 1) == TryPack(infos, rows, cols, n);
    assert Compact(infos, n + 1) == Compact(infos, n);
  }

  lemma PlaceNext(infos: seq<nat>, rows: nat, cols: nat, n: nat)
    requires n < |infos| && rows >= MIN_PLOT_ROWS && infos[n] > 0
    requires GoodAttempt(Widths(Compact(infos, n)), TryPack(infos, rows, cols, n), rows, cols)
    ensures GoodAttempt(Widths(Compact(infos, n + 1)), TryPack(infos, rows, cols, n + 1), rows, cols)
  {
    var ws, before, after :=
      Widths(Compact(infos, n)), TryPack(infos, rows, cols, n), TryPack(infos, rows, cols, n + 1);
    if after.Placed? {
      WidthsAppend(Compact(infos, n), infos[n]);
      var w, t: nat := MinPlotCols(infos[n]), after.stacks - 1;
      assert before.Placed?;
      assert CanPlace(ws, before.stackOf, before.stacks, cols, w, t);
      GoodStep(ws, before, rows, cols, w, t);
      assert Widths(Compact(infos, n + 1)) == ws + [w];
    }
  }

  lemma OneMorePlaced(infos: seq<nat>, rows: nat, cols: nat, k: nat, n: nat)
    requires k + 1 == n <= |infos| && rows >= MIN_PLOT_ROWS && PacksWell(infos, rows, cols, k)
    ensures PacksWell(infos, rows, cols, n)
  {
    if infos[k] > 0 {
      PlaceNext(infos, rows, cols, k);
    } else {
      SkipEmpty(infos, rows, cols, k);
    }
  }

  lemma {:induction false} FailureIsFinal(infos: seq<nat>, rows: nat, cols: nat, i: nat, n: nat)
    requires i <= n <= |infos| && !TryPack(infos, rows, cols, i).Placed?
    ensures TryPack(infos, rows, cols, n) == TryPack(infos, rows, cols, i)
  {
    if i < n {
      FailureIsFinal(infos, rows, cols, i, n - 1);
    }
  }

  /** A chart that does not fit beside the others goes on a stack of its own. */
  lemma NewStack(infos: seq<nat>, rows: nat, cols: nat, i: nat, stackOf: seq<nat>, stacks: nat, used: nat)
    requires i < |infos| && infos[i] > 0 && used > 0
    requires TryPack(infos, rows, cols, i) == Placed(stackOf, stacks, used)
    requires used + MinPlotCols(infos[i]) > cols && (stacks + 1) * MIN_PLOT_ROWS <= rows
    ensures TryPack(infos, rows, cols, i + 1) ==
            if MinPlotCols(infos[i]) > cols then TooWide
            else Placed(stackOf + [stacks], stacks + 1, MinPlotCols(infos[i]))
  {
  }

  /** State of the packing loop before chart i; retry says that a stack was just opened for that chart. */
  ghost predicate Packing(infos: seq<nat>, rows: nat, cols: nat, i: nat, placed: seq<nat>, stacks: nat, used: nat,
                          retry: bool, before: nat)
  {
    && i <= |infos| && stacks > 0 && stacks * MIN_PLOT_ROWS <= rows
    && if retry then
         && i < |infos| && infos[i] > 0 && used == 0 && before > 0 && stacks > 1
         && before + MinPlotCols(infos[i]) > cols
         && TryPack(infos, rows, cols, i) == Placed(placed, stacks - 1, before)
       else TryPack(infos, rows, cols, i) == Placed(placed, stacks, used)
  }

  lemma PackingFits(infos: seq<nat>, rows: nat, cols: nat, i: nat, placed: seq<nat>, stacks: nat, used: nat,
                    retry: bool, before: nat)
    requires Packing(infos, rows, cols, i, placed, stacks, used, retry, before) && i < |infos| && infos[i] > 0
    requires MinPlotCols(infos[i]) + used <= cols
    ensures Packing(infos, rows, cols, i + 1, placed + [stacks - 1], stacks, used + MinPlotCols(infos[i]), false, 0)
  {
    if retry {
      NewStack(infos, rows, cols, i, placed, stacks - 1, before);
    }
  }

  lemma PackingTooWide(infos: seq<nat>, rows: nat, cols: nat, i: nat, placed: seq<nat>, stacks: nat, retry: bool,
                       before: nat)
    requires Packing(infos, rows, cols, i, placed, stacks, 0, retry, before) && i < |infos| && infos[i] > 0
    requires MinPlotCols(infos[i]) > cols
    ensures TryPack(infos, rows, cols, |infos|) == TooWide
  {
    if retry {
      NewStack(infos, rows, cols, i, placed, stacks - 1, before);
    }
    FailureIsFinal(infos, rows, cols, i + 1, |infos|);
  }

  lemma PackingCrowded(infos: seq<nat>, rows: nat, cols: nat, i: nat, placed: seq<nat>, stacks: nat, used: nat,
                       retry: bool, before: nat)
    requires Packing(infos, rows, cols, i, placed, stacks, used, retry, before) && i < |infos| && infos[i] > 0
    requires used > 0 && MinPlotCols(infos[i]) + used > cols && (stacks + 1) * MIN_PLOT_ROWS > rows
    ensures TryPack(infos, rows, cols, |infos|) == Crowded
  {
    assert TryPack(infos, rows, cols, i + 1) == Crowded;
    FailureIsFinal(infos, rows, cols, i + 1, |infos|);
  }

  /** One run of the packing loop over the current charts. */
  method PackOnce(rows: nat, cols: nat, infos: array<nat>, plotInStack: array<nat>)
    returns (stacks: nat, crowded: bool)
    requires rows >= MIN_PLOT_ROWS && infos.Length <= plotInStack.Length && infos != plotInStack
    modifies plotInStack
    ensures match TryPack(infos[..], rows, cols, infos.Length)
            case Placed(stackOf, count, _) => !crowded && stacks == count && stackOf <= plotInStack[..]
            case TooWide => !crowded && stacks == 0
            case Crowded => crowded
  {
    ghost var s := infos[..];
    var n := infos.Length;
    var i, plotId, used := 0, 0, 0;
    stacks, crowded := 1, false;
    var rowsLeft: nat := rows - MIN_PLOT_ROWS;
    ghost var retry, before := false, 0;
    while i < n
      invariant infos[..] == s && plotId <= i <= n && !crowded
      invariant rowsLeft + stacks * MIN_PLOT_ROWS == rows
      invariant Packing(s, rows, cols, i, plotInStack[..plotId], stacks, used, retry, before)
      decreases n - i, rowsLeft
    {
      var count := infos[i];
      if count == 0 {
        i := i + 1;
        continue;
      }
      var w := MinPlotCols(count);
      ghost var placed := plotInStack[..plotId];
      if cols >= w + used {
        PackingFits(s, rows, cols, i, placed, stacks, used, retry, before);
        used := used + w;
        plotInStack[plotId] := stacks - 1;
        plotId := plotId + 1;
        assert plotInStack[..plotId] == placed + [stacks - 1];
        i, retry, before := i + 1, false, 0;
      } else if used == 0 {
        PackingTooWide(s, rows, cols, i, placed, stacks, retry, before);
        stacks := 0;
        return;
      } else if rowsLeft >= MIN_PLOT_ROWS {
        rowsLeft := rowsLeft - MIN_PLOT_ROWS;
        retry, before := true, used;
        stacks, used := stacks + 1, 0;
      } else {
        PackingCrowded(s, rows, cols, i, placed, stacks, used, retry, before);
        crowded := true;
        return;
      }
    }
  }
}
