/**
 Second half of the window layout solver (src/interface_layout_selection.c):
 charts are moved one stack down, one at a time, as long as that does not make
 the stack widths more uneven.
 */
module StackBalance {
  import opened TaggedSums
  import opened ChartMerging

  function Apart(a: nat, b: nat): nat {
    if a > b then a - b else b - a
  }

  /** Differences between stack i and the stacks i+1..n-1. */
  function RowDifferences(cols: seq<nat>, i: nat, n: nat): nat
    requires n <= |cols| && i < |cols|
    decreases n
  {
    if n <= i + 1 then 0 else RowDifferences(cols, i, n - 1) + Apart(cols[i], cols[n - 1])
  }

  /** Differences over all pairs i < j < n with i < m. */
  function PairDifferences(cols: seq<nat>, m: nat, n: nat): nat
    requires m <= n <= |cols|
  {
    if m == 0 then 0 else PairDifferences(cols, m - 1, n) + RowDifferences(cols, m - 1, n)
  }

  /** The unevenness of the first n stacks. */
  function Unevenness(cols: seq<nat>, n: nat): nat
    requires n <= |cols|
  {
    PairDifferences(cols, n, n)
  }

  lemma {:induction false} RowEven(cols: seq<nat>, i: nat, n: nat)
    requires n <= |cols| && i < |cols|
    ensures RowDifferences(cols, i, n) == 0 <==> forall j :: i < j < n ==> cols[j] == cols[i]
    decreases n
  {
    if n > i + 1 {
      RowEven(cols, i, n - 1);
    }
  }

  lemma {:induction false} PairsEven(cols: seq<nat>, m: nat, n: nat)
    requires m <= n <= |cols|
    ensures PairDifferences(cols, m, n) == 0 <==> forall i, j :: 0 <= i < m && i < j < n ==> cols[j] == cols[i]
  {
    if m > 0 {
      PairsEven(cols, m - 1, n);
      RowEven(cols, m - 1, n);
    }
  }

  method SizeDifferencesBetweenStacks(stackCount: nat, cols: array<nat>) returns (sum: nat)
    requires stackCount <= cols.Length
    ensures sum == Unevenness(cols[..], stackCount)
    ensures sum == 0 <==> forall i, j :: 0 <= i < j < stackCount ==> cols[i] == cols[j]
  {
    sum := 0;
    ghost var c := cols[..];
    for i := 0 to stackCount
      invariant sum == PairDifferences(c, i, stackCount)
    {
      for j := i + 1 to stackCount
        invariant sum == PairDifferences(c, i, stackCount) + RowDifferences(c, i, j)
      {
        if cols[i] > cols[j] {
          sum := sum + (cols[i] - cols[j]);
        } else {
          sum := sum + (cols[j] - cols[i]);
        }
      }
    }
    PairsEven(c, stackCount, stackCount);
  }

  // -------------------------------------------------------------- moving ----

  /** The recorded columns are the true sums, and no stack is too wide. */
  ghost predicate InSync(widths: seq<nat>, stackOf: seq<nat>, cols: seq<nat>, most: nat) {
    && |stackOf| == |widths|
    && (forall p :: 0 <= p < |stackOf| ==> stackOf[p] < |cols|)
    && (forall s :: 0 <= s < |cols| ==> cols[s] == SumTo(widths, stackOf, s, |widths|) <= most)
  }

  function MoveCols(cols: seq<nat>, from: nat, to: nat, w: nat): (r: seq<nat>)
    requires from < |cols| && to < |cols| && from != to && w <= cols[from]
    ensures |r| == |cols|
  {
    cols[from := cols[from] - w][to := cols[to] + w]
  }

  lemma MoveInSync(widths: seq<nat>, stackOf: seq<nat>, cols: seq<nat>, most: nat, p: nat, to: nat)
    requires InSync(widths, stackOf, cols, most) && p < |stackOf| && to < |cols| && to != stackOf[p]
    requires cols[to] + widths[p] <= most
    ensures widths[p] <= cols[stackOf[p]]
    ensures InSync(widths, stackOf[p := to], MoveCols(cols, stackOf[p], to, widths[p]), most)
  {
    SumAtLeast(widths, stackOf, p, |widths|);
    var from, stackOf', cols' := stackOf[p], stackOf[p := to], MoveCols(cols, stackOf[p], to, widths[p]);
    forall s | 0 <= s < |cols'| ensures cols'[s] == SumTo(widths, stackOf', s, |widths|) && cols'[s] <= most {
      SumRetagged(widths, stackOf, p, to, s, |widths|);
      assert cols[s] == SumTo(widths, stackOf, s, |widths|);
      if s == from {
        assert cols'[s] == cols[s] - widths[p];
      } else if s == to {
        assert cols'[s] == cols[s] + widths[p];
      } else {
        assert cols'[s] == cols[s];
      }
    }
  }

  method MovePlotToStack(most: nat, p: nat, to: nat, infos: seq<nat>, cols: array<nat>, stackOf: array<nat>)
    returns (moved: bool)
    requires |infos| == stackOf.Length && cols != stackOf && p < |infos| && to < cols.Length
    requires InSync(Widths(infos), stackOf[..], cols[..], most)
    modifies cols, stackOf
    ensures moved <==> old(stackOf[p]) != to && old(cols[to]) + MinPlotCols(infos[p]) <= most
    ensures !moved ==> cols[..] == old(cols[..]) && stackOf[..] == old(stackOf[..])
    ensures moved ==> stackOf[..] == old(stackOf[..])[p := to]
    ensures moved ==> MinPlotCols(infos[p]) <= old(cols[stackOf[p]])
    ensures moved ==> cols[..] == MoveCols(old(cols[..]), old(stackOf[p]), to, MinPlotCols(infos[p]))
    ensures InSync(Widths(infos), stackOf[..], cols[..], most)
  {
    if stackOf[p] == to {
      return false;
    }
    var w := MinPlotCols(infos[p]);
    if cols[to] + w > most {
      return false;
    }
    MoveInSync(Widths(infos), stackOf[..], cols[..], most, p, to);
    cols[stackOf[p]] := cols[stackOf[p]] - w;
    cols[to] := cols[to] + w;
    stackOf[p] := to;
    return true;
  }

  // ----------------------------------------------------------- balancing ----

  /** Moving p one stack down fits and does not make the stacks more uneven. */
  ghost predicate CanMove(widths: seq<nat>, stackOf: seq<nat>, cols: seq<nat>, most: nat, count: nat, p: nat)
    requires InSync(widths, stackOf, cols, most) && count <= |cols|
  {
    && p < |widths| && stackOf[p] + 1 < count
    && cols[stackOf[p] + 1] + widths[p] <= most
    && (MoveInSync(widths, stackOf, cols, most, p, stackOf[p] + 1);
        Unevenness(MoveCols(cols, stackOf[p], stackOf[p] + 1, widths[p]), count) <= Unevenness(cols, count))
  }

  /** How far the first n charts can still move down. */
  function Slack(stackOf: seq<nat>, count: nat, n: nat): nat
    requires n <= |stackOf|
  {
    if n == 0 then 0
    else Slack(stackOf, count, n - 1) + if stackOf[n - 1] < count then count - stackOf[n - 1] else 0
  }

  lemma {:induction false} SlackShrinks(stackOf: seq<nat>, count: nat, p: nat, n: nat)
    requires n <= |stackOf| && p < |stackOf| && stackOf[p] + 1 < count
    ensures Slack(stackOf[p := stackOf[p] + 1], count, n) + (if p < n then 1 else 0) == Slack(stackOf, count, n)
  {
    if n > 0 {
      SlackShrinks(stackOf, count, p, n - 1);
    }
  }

  /** One accepted move: the last chart that can move goes one stack down. */
  ghost predicate MovesLast(widths: seq<nat>, stackOf: seq<nat>, cols: seq<nat>, most: nat, count: nat,
                            stackOf': seq<nat>, cols': seq<nat>)
    requires InSync(widths, stackOf, cols, most) && count <= |cols|
  {
    exists p: nat :: CanMove(widths, stackOf, cols, most, count, p)
                     && (forall q :: p < q < |widths| ==> !CanMove(widths, stackOf, cols, most, count, q))
                     && widths[p] <= cols[stackOf[p]]
                     && stackOf' == stackOf[p := stackOf[p] + 1]
                     && cols' == MoveCols(cols, stackOf[p], stackOf[p] + 1, widths[p])
  }

  lemma MoveKeepsSync(widths: seq<nat>, stackOf: seq<nat>, cols: seq<nat>, most: nat, count: nat,
                      stackOf': seq<nat>, cols': seq<nat>)
    requires InSync(widths, stackOf, cols, most) && count <= |cols|
    requires MovesLast(widths, stackOf, cols, most, count, stackOf', cols')
    ensures InSync(widths, stackOf', cols', most) && |cols'| == |cols| && |stackOf'| == |stackOf|
    ensures Slack(stackOf', count, |stackOf'|) < Slack(stackOf, count, |stackOf|)
  {
    var p: nat :| CanMove(widths, stackOf, cols, most, count, p)
                  && widths[p] <= cols[stackOf[p]]
                  && stackOf' == stackOf[p := stackOf[p] + 1]
                  && cols' == MoveCols(cols, stackOf[p], stackOf[p] + 1, widths[p]);
    MoveInSync(widths, stackOf, cols, most, p, stackOf[p] + 1);
    SlackShrinks(stackOf, count, p, |stackOf|);
  }

  /** Keep moving the last chart that can move until none can. */
  ghost predicate BalancesTo(widths: seq<nat>, stackOf: seq<nat>, cols: seq<nat>, most: nat, count: nat,
                             stackOf': seq<nat>, cols': seq<nat>)
    requires InSync(widths, stackOf, cols, most) && count <= |cols|
    decreases Slack(stackOf, count, |stackOf|)
  {
    if forall p :: 0 <= p < |widths| ==> !CanMove(widths, stackOf, cols, most, count, p)
    then stackOf' == stackOf && cols' == cols
    else exists st, c :: MovesLast(widths, stackOf, cols, most, count, st, c) &&
           (MoveKeepsSync(widths, stackOf, cols, most, count, st, c);
            BalancesTo(widths, st, c, most, count, stackOf', cols'))
  }

  /** What balancing keeps: charts only move down, and the stacks do not get more uneven. */
  ghost predicate Improves(stackOf: seq<nat>, cols: seq<nat>, count: nat, stackOf': seq<nat>, cols': seq<nat>)
    requires count <= |cols|
  {
    && |cols'| == |cols| && |stackOf'| == |stackOf|
    && Unevenness(cols', count) <= Unevenness(cols, count)
    && (forall p :: 0 <= p < |stackOf| ==> stackOf[p] <= stackOf'[p])
    && (forall p :: 0 <= p < |stackOf| ==> stackOf[p] < count ==> stackOf'[p] < count)
  }

  lemma MoveImproves(widths: seq<nat>, stackOf: seq<nat>, cols: seq<nat>, most: nat, count: nat,
                     st: seq<nat>, c: seq<nat>, stackOf': seq<nat>, cols': seq<nat>)
    requires InSync(widths, stackOf, cols, most) && count <= |cols| && |c| == |cols|
    requires MovesLast(widths, stackOf, cols, most, count, st, c) && Improves(st, c, count, stackOf', cols')
    ensures Improves(stackOf, cols, count, stackOf', cols')
  {
    forall k | 0 <= k < |stackOf| ensures stackOf[k] <= stackOf'[k] && (stackOf[k] < count ==> stackOf'[k] < count) {
      assert st[k] <= stackOf'[k];
    }
  }

  /** Balancing ends in a local optimum: no single move down both fits and keeps the evenness. */
  lemma {:induction false} BalancedResult(widths: seq<nat>, stackOf: seq<nat>, cols: seq<nat>, most: nat, count: nat,
                                          stackOf': seq<nat>, cols': seq<nat>)
    requires InSync(widths, stackOf, cols, most) && count <= |cols|
    requires BalancesTo(widths, stackOf, cols, most, count, stackOf', cols')
    ensures InSync(widths, stackOf', cols', most) && Improves(stackOf, cols, count, stackOf', cols')
    ensures forall p :: 0 <= p < |widths| ==> !CanMove(widths, stackOf', cols', most, count, p)
    decreases Slack(stackOf, count, |stackOf|)
  {
    if exists p :: 0 <= p < |widths| && CanMove(widths, stackOf, cols, most, count, p) {
      var st, c :| MovesLast(widths, stackOf, cols, most, count, st, c) &&
        (MoveKeepsSync(widths, stackOf, cols, most, count, st, c);
         BalancesTo(widths, st, c, most, count, stackOf', cols'));
      MoveKeepsSync(widths, stackOf, cols, most, count, st, c);
      BalancedResult(widths, st, c, most, count, stackOf', cols');
      MoveImproves(widths, stackOf, cols, most, count, st, c, stackOf', cols');
    }
  }

  lemma BalanceStep(widths: seq<nat>, stackOf: seq<nat>, cols: seq<nat>, most: nat, count: nat, p: nat,
                    st: seq<nat>, c: seq<nat>, stackOf': seq<nat>, cols': seq<nat>)
    requires InSync(widths, stackOf, cols, most) && count <= |cols|
    requires CanMove(widths, stackOf, cols, most, count, p)
    requires forall q :: p < q < |widths| ==> !CanMove(widths, stackOf, cols, most, count, q)
    requires widths[p] <= cols[stackOf[p]]
    requires st == stackOf[p := stackOf[p] + 1] && c == MoveCols(cols, stackOf[p], stackOf[p] + 1, widths[p])
    requires InSync(widths, st, c, most) && BalancesTo(widths, st, c, most, count, stackOf', cols')
    ensures BalancesTo(widths, stackOf, cols, most, count, stackOf', cols')
  {
    assert MovesLast(widths, stackOf, cols, most, count, st, c);
  }

  /** One candidate: moved for good exactly when it can move, else everything is put back. */
  method TryMoveDown(most: nat, count: nat, p: nat, infos: seq<nat>, cols: array<nat>, stackOf: array<nat>)
    returns (accepted: bool)
    requires |infos| == stackOf.Length && cols != stackOf && p < |infos| && count <= cols.Length
    requires InSync(Widths(infos), stackOf[..], cols[..], most)
    modifies cols, stackOf
    ensures InSync(Widths(infos), stackOf[..], cols[..], most)
    ensures InSync(Widths(infos), old(stackOf[..]), old(cols[..]), most)
    ensures accepted <==> CanMove(Widths(infos), old(stackOf[..]), old(cols[..]), most, count, p)
    ensures !accepted ==> cols[..] == old(cols[..]) && stackOf[..] == old(stackOf[..])
    ensures accepted ==> stackOf[..] == old(stackOf[..])[p := old(stackOf[p]) + 1]
    ensures accepted ==> MinPlotCols(infos[p]) <= old(cols[stackOf[p]])
    ensures accepted ==>
              cols[..] == MoveCols(old(cols[..]), old(stackOf[p]), old(stackOf[p]) + 1, MinPlotCols(infos[p]))
  {
    var to := stackOf[p] + 1;
    accepted := false;
    if to < count {
      var before := SizeDifferencesBetweenStacks(count, cols);
      var from := stackOf[p];
      var moved := MovePlotToStack(most, p, to, infos, cols, stackOf);
      if moved {
        var after := SizeDifferencesBetweenStacks(count, cols);
        if after <= before {
          accepted := true;
        } else {
          var back := MovePlotToStack(most, p, from, infos, cols, stackOf);
          assert back;
          assert cols[..] == old(cols[..]) && stackOf[..] == old(stackOf[..]);
        }
      }
    }
  }

  method BalanceInfoOnStacks(most: nat, stackCount: nat, infos: seq<nat>, cols: array<nat>, stackOf: array<nat>)
    requires |infos| == stackOf.Length && cols != stackOf && stackCount <= cols.Length
    requires InSync(Widths(infos), stackOf[..], cols[..], most)
    modifies cols, stackOf
    ensures InSync(Widths(infos), old(stackOf[..]), old(cols[..]), most)
    ensures BalancesTo(Widths(infos), old(stackOf[..]), old(cols[..]), most,
                       if stackCount > |infos| then |infos| else stackCount, stackOf[..], cols[..])
  {
    var count := if stackCount > |infos| then |infos| else stackCount;
    ghost var ws, st0, c0 := Widths(infos), stackOf[..], cols[..];
    var moving: int := |infos| - 1;
    while moving >= 0
      invariant -1 <= moving < |infos|
      invariant InSync(ws, stackOf[..], cols[..], most)
      invariant forall q :: moving < q < |infos| ==> !CanMove(ws, stackOf[..], cols[..], most, count, q)
      invariant forall st, c :: BalancesTo(ws, stackOf[..], cols[..], most, count, st, c)
                            ==> BalancesTo(ws, st0, c0, most, count, st, c)
      decreases Slack(stackOf[..], count, stackOf.Length), moving
    {
      ghost var st1, c1 := stackOf[..], cols[..];
      var accepted := TryMoveDown(most, count, moving, infos, cols, stackOf);
      if accepted {
        SlackShrinks(st1, count, moving, |st1|);
        forall st, c | BalancesTo(ws, stackOf[..], cols[..], most, count, st, c)
          ensures BalancesTo(ws, st0, c0, most, count, st, c)
        {
          BalanceStep(ws, st1, c1, most, count, moving, stackOf[..], cols[..], st, c);
        }
        moving := |infos|;
      }
      moving := moving - 1;
    }
  }
}
