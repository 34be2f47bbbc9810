/**
 When balancing keeps the charts in order (src/interface_layout_selection.c:96-109,
 210-237): what an accepted move means in columns, and which moves keep the order.
 */
module StackOrder {
  import opened TaggedSums
  import opened ChartPacking
  import opened StackBalance

  // ------------------------------------------------------ stacks made alike ----

  /** Stacks s and s+1 of c hold the columns of those of d, but lie between them; the others are the same. */
  ghost predicate Closer(c: seq<nat>, d: seq<nat>, s: nat) {
    && |c| == |d| && s + 1 < |c|
    && (forall k :: 0 <= k < |c| && k != s && k != s + 1 ==> c[k] == d[k])
    && c[s] + c[s + 1] == d[s] + d[s + 1]
    && (d[s] <= c[s] <= d[s + 1] || d[s + 1] <= c[s] <= d[s])
  }

  lemma {:induction false} SameRow(c: seq<nat>, d: seq<nat>, i: nat, n: nat)
    requires |c| == |d| && i < |c| && n <= |c| && c[i] == d[i] && forall j :: i < j < n ==> c[j] == d[j]
    ensures RowDifferences(c, i, n) == RowDifferences(d, i, n)
    decreases n
  {
    if n > i + 1 {
      SameRow(c, d, i, n - 1);
    }
  }

  /** An earlier stack differs less from the two together. */
  lemma {:induction false} EarlierRow(c: seq<nat>, d: seq<nat>, s: nat, i: nat, n: nat)
    requires Closer(c, d, s) && i < s && s + 2 <= n <= |c|
    ensures RowDifferences(c, i, n) <= RowDifferences(d, i, n)
    decreases n
  {
    if n == s + 2 {
      SameRow(c, d, i, s);
    } else {
      EarlierRow(c, d, s, i, n - 1);
    }
  }

  /** So do the two from every later stack, and their own difference shrinks. */
  lemma {:induction false} OwnRows(c: seq<nat>, d: seq<nat>, s: nat, n: nat)
    requires Closer(c, d, s) && s + 2 <= n <= |c|
    ensures RowDifferences(c, s, n) + RowDifferences(c, s + 1, n) + Apart(d[s], d[s + 1])
            <= RowDifferences(d, s, n) + RowDifferences(d, s + 1, n) + Apart(c[s], c[s + 1])
    decreases n
  {
    if n == s + 2 {
      assert RowDifferences(c, s, s + 1) == 0 && RowDifferences(d, s, s + 1) == 0;
    } else {
      OwnRows(c, d, s, n - 1);
    }
  }

  lemma {:induction false} EarlierPairs(c: seq<nat>, d: seq<nat>, s: nat, m: nat, n: nat)
    requires Closer(c, d, s) && m <= s && s + 2 <= n <= |c|
    ensures PairDifferences(c, m, n) <= PairDifferences(d, m, n)
  {
    if m > 0 {
      EarlierPairs(c, d, s, m - 1, n);
      EarlierRow(c, d, s, m - 1, n);
    }
  }

  lemma {:induction false} AllPairs(c: seq<nat>, d: seq<nat>, s: nat, m: nat, n: nat)
    requires Closer(c, d, s) && s + 2 <= m <= n <= |c|
    ensures PairDifferences(c, m, n) + Apart(d[s], d[s + 1]) <= PairDifferences(d, m, n) + Apart(c[s], c[s + 1])
  {
    if m == s + 2 {
      EarlierPairs(c, d, s, s, n);
      OwnRows(c, d, s, n);
    } else {
      AllPairs(c, d, s, m - 1, n);
      SameRow(c, d, m - 1, n);
    }
  }

  /** Making two neighbouring stacks more alike makes all stacks more even, by at least as much. */
  lemma CloserIsMoreEven(c: seq<nat>, d: seq<nat>, s: nat, n: nat)
    requires Closer(c, d, s) && s + 1 < n <= |c|
    ensures Unevenness(c, n) + Apart(d[s], d[s + 1]) <= Unevenness(d, n) + Apart(c[s], c[s + 1])
  {
    AllPairs(c, d, s, n, n);
  }

  // --------------------------------------------------------- accepted moves ----

  /**
   Moving w > 0 columns one stack down keeps the evenness if and only if the
   next stack does not grow beyond this one.
   */
  lemma MoveKeepsEvenness(cols: seq<nat>, s: nat, w: nat, n: nat)
    requires s + 1 < n <= |cols| && 0 < w <= cols[s]
    ensures Unevenness(MoveCols(cols, s, s + 1, w), n) <= Unevenness(cols, n) <==> cols[s + 1] + w <= cols[s]
  {
    var moved := MoveCols(cols, s, s + 1, w);
    if cols[s + 1] + w <= cols[s] {
      CloserIsMoreEven(moved, cols, s, n);
    } else {
      CloserIsMoreEven(cols, moved, s, n);
    }
  }

  /**
   What the two tests of the search come to: a chart can move down if it does
   not make the next stack the wider one.
   */
  lemma CanMoveExactly(widths: seq<nat>, stackOf: seq<nat>, cols: seq<nat>, most: nat, count: nat, p: nat)
    requires InSync(widths, stackOf, cols, most) && count <= |cols| && p < |widths| && widths[p] > 0
    ensures CanMove(widths, stackOf, cols, most, count, p) <==>
            stackOf[p] + 1 < count && cols[stackOf[p] + 1] + widths[p] <= cols[stackOf[p]]
  {
    var s := stackOf[p];
    SumAtLeast(widths, stackOf, p, |widths|);
    assert cols[s] == SumTo(widths, stackOf, s, |widths|) <= most;
    if s + 1 < count {
      MoveKeepsEvenness(cols, s, widths[p], count);
    }
  }

  // ------------------------------------------------------------ chart order ----

  ghost predicate LastOfItsStack(stackOf: seq<nat>, p: nat)
    requires p < |stackOf|
  {
    forall q :: p < q < |stackOf| ==> stackOf[q] != stackOf[p]
  }

  /** A move down keeps charts in order if and only if the chart is the last of its stack. */
  lemma MoveKeepsOrder(stackOf: seq<nat>, p: nat)
    requires InOrder(stackOf) && p < |stackOf|
    ensures InOrder(stackOf[p := stackOf[p] + 1]) <==> LastOfItsStack(stackOf, p)
  {
    var st := stackOf[p := stackOf[p] + 1];
    if LastOfItsStack(stackOf, p) {
      forall j, k | 0 <= j < k < |st| ensures st[j] <= st[k] {
        assert stackOf[j] <= stackOf[k];
        if j == p {
          assert stackOf[k] != stackOf[p];
        }
      }
    } else {
      var q :| p < q < |stackOf| && stackOf[q] == stackOf[p];
      assert st[p] > st[q];
    }
  }

  /** No chart is wider than one before it. */
  ghost predicate Narrowing(widths: seq<nat>) {
    forall j, k :: 0 <= j < k < |widths| ==> widths[j] >= widths[k]
  }

  ghost predicate AllWide(widths: seq<nat>) {
    forall p :: 0 <= p < |widths| ==> widths[p] > 0
  }

  /**
   If a chart can move, so can every narrower chart of its stack; so the last
   one that can is the last of its stack.
   */
  lemma LastMovableIsLast(widths: seq<nat>, stackOf: seq<nat>, cols: seq<nat>, most: nat, count: nat, p: nat)
    requires InSync(widths, stackOf, cols, most) && count <= |cols| && Narrowing(widths) && AllWide(widths)
    requires CanMove(widths, stackOf, cols, most, count, p)
    requires forall q :: p < q < |widths| ==> !CanMove(widths, stackOf, cols, most, count, q)
    ensures LastOfItsStack(stackOf, p)
  {
    CanMoveExactly(widths, stackOf, cols, most, count, p);
    forall q: nat | p < q < |stackOf| ensures stackOf[q] != stackOf[p] {
      CanMoveExactly(widths, stackOf, cols, most, count, q);
      assert widths[p] >= widths[q];
    }
  }

  /** Balancing keeps charts in order whose widths do not increase. */
  lemma {:induction false} NarrowingStaysInOrder(widths: seq<nat>, stackOf: seq<nat>, cols: seq<nat>, most: nat,
                                                 count: nat, stackOf': seq<nat>, cols': seq<nat>)
    requires InSync(widths, stackOf, cols, most) && count <= |cols| && Narrowing(widths) && AllWide(widths)
    requires InOrder(stackOf) && BalancesTo(widths, stackOf, cols, most, count, stackOf', cols')
    ensures InOrder(stackOf')
    decreases Slack(stackOf, count, |stackOf|)
  {
    if exists p :: 0 <= p < |widths| && CanMove(widths, stackOf, cols, most, count, p) {
      var st, c :| MovesLast(widths, stackOf, cols, most, count, st, c) &&
        (MoveKeepsSync(widths, stackOf, cols, most, count, st, c);
         BalancesTo(widths, st, c, most, count, stackOf', cols'));
      MoveKeepsSync(widths, stackOf, cols, most, count, st, c);
      LastMoveKeepsOrder(widths, stackOf, cols, most, count, st, c);
      NarrowingStaysInOrder(widths, st, c, most, count, stackOf', cols');
    }
  }

  lemma LastMoveKeepsOrder(widths: seq<nat>, stackOf: seq<nat>, cols: seq<nat>, most: nat, count: nat,
                           st: seq<nat>, c: seq<nat>)
    requires InSync(widths, stackOf, cols, most) && count <= |cols| && Narrowing(widths) && AllWide(widths)
    requires InOrder(stackOf) && MovesLast(widths, stackOf, cols, most, count, st, c)
    ensures InOrder(st)
  {
    var p: nat :| CanMove(widths, stackOf, cols, most, count, p)
                  && (forall q :: p < q < |widths| ==> !CanMove(widths, stackOf, cols, most, count, q))
                  && widths[p] <= cols[stackOf[p]]
                  && st == stackOf[p := stackOf[p] + 1];
    LastMovableIsLast(widths, stackOf, cols, most, count, p);
    MoveKeepsOrder(stackOf, p);
  }
}
