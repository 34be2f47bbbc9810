/**
 Balancing leaves no stack without a chart (src/interface_layout_selection.c:210-237),
 although a move can empty the stack the chart comes from.
 */
module StackFilling {
  import opened Sequences
  import opened TaggedSums
  import opened ChartPacking
  import opened StackBalance
  import opened StackOrder

  /** Every stack before one with two charts has a chart. */
  ghost predicate Backed(stackOf: seq<nat>) {
    forall j, k, s: nat :: 0 <= j < k < |stackOf| && stackOf[j] == stackOf[k] && s < stackOf[j] ==> s in stackOf
  }

  /** The packing of the search leaves no stack below its last one without a chart. */
  lemma {:induction false} PackedFills(widths: seq<nat>, stackOf: seq<nat>, cols: nat, k: nat)
    requires NextFit(widths, stackOf, cols) && k < |stackOf|
    ensures forall s: nat :: s <= stackOf[k] ==> s in stackOf
  {
    if k > 0 {
      PackedFills(widths, stackOf, cols, k - 1);
      assert Tight(widths, stackOf, cols, k);
    }
  }

  lemma PackedIsBacked(widths: seq<nat>, stackOf: seq<nat>, cols: nat)
    requires NextFit(widths, stackOf, cols)
    ensures Backed(stackOf)
  {
    forall j, k, s: nat | 0 <= j < k < |stackOf| && stackOf[j] == stackOf[k] && s < stackOf[j] ensures s in stackOf {
      PackedFills(widths, stackOf, cols, j);
    }
  }

  // -------------------------------------------------------------- one move ----

  lemma {:induction false} SumOfOne(widths: seq<nat>, stackOf: seq<nat>, p: nat, n: nat)
    requires n <= |widths| == |stackOf| && p < |stackOf|
    requires forall q :: 0 <= q < |stackOf| && q != p ==> stackOf[q] != stackOf[p]
    ensures SumTo(widths, stackOf, stackOf[p], n) == if p < n then widths[p] else 0
  {
    if n > 0 {
      SumOfOne(widths, stackOf, p, n - 1);
    }
  }

  /** A stack that is wider than one of its charts has another one. */
  lemma Companion(widths: seq<nat>, stackOf: seq<nat>, cols: seq<nat>, most: nat, p: nat) returns (q: nat)
    requires InSync(widths, stackOf, cols, most) && p < |stackOf| && cols[stackOf[p]] > widths[p]
    ensures q < |stackOf| && q != p && stackOf[q] == stackOf[p]
  {
    if forall r :: 0 <= r < |stackOf| && r != p ==> stackOf[r] != stackOf[p] {
      SumOfOne(widths, stackOf, p, |widths|);
      assert false;
    }
    q :| q < |stackOf| && q != p && stackOf[q] == stackOf[p];
  }

  /** A chart that moves to a stack with a chart leaves one behind, and all stacks before have charts. */
  lemma JoinsBacked(widths: seq<nat>, stackOf: seq<nat>, cols: seq<nat>, most: nat, p: nat, q: nat, s: nat)
    requires InSync(widths, stackOf, cols, most) && AllWide(widths) && Backed(stackOf)
    requires p < |stackOf| && q < |stackOf| && stackOf[q] == stackOf[p] + 1 < |cols| && s <= stackOf[p]
    requires cols[stackOf[q]] + widths[p] <= cols[stackOf[p]]
    ensures s in stackOf[p := stackOf[q]]
  {
    SumAtLeast(widths, stackOf, q, |widths|);
    assert cols[stackOf[q]] >= widths[q];
    var r := Companion(widths, stackOf, cols, most, p);
    var st := stackOf[p := stackOf[q]];
    assert st[r] == stackOf[p];
    if s < stackOf[p] {
      assert p < r || r < p;
      assert s in stackOf;
      Stays(stackOf, p, stackOf[q], s);
    }
  }

  /** Other stacks keep their charts. */
  lemma Stays(stackOf: seq<nat>, p: nat, to: nat, s: nat)
    requires p < |stackOf| && s in stackOf && s != stackOf[p]
    ensures s in stackOf[p := to]
  {
    var i :| 0 <= i < |stackOf| && stackOf[i] == s;
    assert stackOf[p := to][i] == s;
  }

  /** A stack further down has two charts: then the stack of the moving chart has another one. */
  lemma PassesBacked(widths: seq<nat>, stackOf: seq<nat>, cols: seq<nat>, most: nat, p: nat, s: nat)
    requires InSync(widths, stackOf, cols, most) && AllWide(widths) && p < |stackOf| && stackOf[p] + 1 < |cols|
    requires cols[stackOf[p] + 1] + widths[p] <= cols[stackOf[p]]
    requires stackOf[p] + 1 in stackOf && s in stackOf
    ensures s in stackOf[p := stackOf[p] + 1]
  {
    var q: nat :| q < |stackOf| && stackOf[q] == stackOf[p] + 1;
    if s == stackOf[p] {
      SumAtLeast(widths, stackOf, q, |widths|);
      assert cols[stackOf[q]] >= widths[q];
      var r := Companion(widths, stackOf, cols, most, p);
      assert stackOf[p := stackOf[p] + 1][r] == s;
    } else {
      Stays(stackOf, p, stackOf[p] + 1, s);
    }
  }

  /** An accepted move keeps every stack before one with two charts filled. */
  lemma MoveStaysBacked(widths: seq<nat>, stackOf: seq<nat>, cols: seq<nat>, most: nat, p: nat)
    requires InSync(widths, stackOf, cols, most) && AllWide(widths) && Backed(stackOf)
    requires p < |stackOf| && stackOf[p] + 1 < |cols| && cols[stackOf[p] + 1] + widths[p] <= cols[stackOf[p]]
    ensures Backed(stackOf[p := stackOf[p] + 1])
  {
    var st := stackOf[p := stackOf[p] + 1];
    forall j, k, s: nat | 0 <= j < k < |st| && st[j] == st[k] && s < st[j] ensures s in st {
      if j == p || k == p {
        JoinsBacked(widths, stackOf, cols, most, p, if j == p then k else j, s);
      } else if s == stackOf[p] + 1 || stackOf[p] + 1 >= st[j] {
        assert s in stackOf;
        if stackOf[p] + 1 == st[j] {
          PassesBacked(widths, stackOf, cols, most, p, s);
        } else if s == stackOf[p] + 1 {
          assert st[p] == s;
        } else {
          Stays(stackOf, p, stackOf[p] + 1, s);
        }
      } else {
        assert s in stackOf && stackOf[p] + 1 in stackOf;
        PassesBacked(widths, stackOf, cols, most, p, s);
      }
    }
  }

  // --------------------------------------------------------------- the end ----

  /** Without a further move, a stack behind one with a chart has a chart. */
  lemma {:induction false} FilledBehind(widths: seq<nat>, stackOf: seq<nat>, cols: seq<nat>, most: nat, count: nat,
                                        s: nat)
    requires InSync(widths, stackOf, cols, most) && count <= |cols| && AllWide(widths) && s < count
    requires forall p :: 0 <= p < |widths| ==> !CanMove(widths, stackOf, cols, most, count, p)
    requires 0 in stackOf
    ensures s in stackOf
  {
    if s > 0 {
      FilledBehind(widths, stackOf, cols, most, count, s - 1);
      var p: nat :| p < |stackOf| && stackOf[p] == s - 1;
      CanMoveExactly(widths, stackOf, cols, most, count, p);
      SumAtLeast(widths, stackOf, p, |widths|);
      assert cols[s] == SumTo(widths, stackOf, s, |widths|) && cols[s - 1] == SumTo(widths, stackOf, s - 1, |widths|);
      var i := SumPositive(widths, stackOf, s, |widths|);
    }
  }

  /** Different numbers from 1 to n - 1 are at most n - 1. */
  lemma {:induction false} FewNumbers(s: seq<nat>, n: nat)
    requires Distinct(s) && n > 0 && forall i :: 0 <= i < |s| ==> 0 < s[i] < n
    ensures |s| <= n - 1
  {
    if s != [] {
      assert 0 < s[0] < n;
      if n - 1 in s {
        var p: nat :| p < |s| && s[p] == n - 1;
        assert forall i :: 0 <= i < |s| && i != p ==> s[i] != s[p];
        FewNumbers(Without(s, p), n - 1);
      } else {
        FewNumbers(s, n - 1);
      }
    }
  }

  /** If the first stack were empty, no two charts would share one: there would be too few. */
  lemma FirstFilled(stackOf: seq<nat>, count: nat)
    requires Backed(stackOf) && 0 < count <= |stackOf| && forall p :: 0 <= p < |stackOf| ==> stackOf[p] < count
    ensures 0 in stackOf
  {
    if 0 !in stackOf {
      forall j, k | 0 <= j < k < |stackOf| ensures stackOf[j] != stackOf[k] {
        assert stackOf[j] in stackOf;
      }
      FewNumbers(stackOf, count);
    }
  }

  lemma {:induction false} BalancingStaysBacked(widths: seq<nat>, stackOf: seq<nat>, cols: seq<nat>, most: nat,
                                                count: nat, stackOf': seq<nat>, cols': seq<nat>)
    requires InSync(widths, stackOf, cols, most) && count <= |cols| && AllWide(widths) && Backed(stackOf)
    requires BalancesTo(widths, stackOf, cols, most, count, stackOf', cols')
    ensures Backed(stackOf')
    decreases Slack(stackOf, count, |stackOf|)
  {
    if exists p :: 0 <= p < |widths| && CanMove(widths, stackOf, cols, most, count, p) {
      var st, c :| MovesLast(widths, stackOf, cols, most, count, st, c) &&
        (MoveKeepsSync(widths, stackOf, cols, most, count, st, c);
         BalancesTo(widths, st, c, most, count, stackOf', cols'));
      MoveKeepsSync(widths, stackOf, cols, most, count, st, c);
      LastMoveStaysBacked(widths, stackOf, cols, most, count, st, c);
      BalancingStaysBacked(widths, st, c, most, count, stackOf', cols');
    }
  }

  lemma LastMoveStaysBacked(widths: seq<nat>, stackOf: seq<nat>, cols: seq<nat>, most: nat, count: nat,
                            st: seq<nat>, c: seq<nat>)
    requires InSync(widths, stackOf, cols, most) && count <= |cols| && AllWide(widths) && Backed(stackOf)
    requires MovesLast(widths, stackOf, cols, most, count, st, c)
    ensures Backed(st)
  {
    var p: nat :| CanMove(widths, stackOf, cols, most, count, p) && widths[p] <= cols[stackOf[p]]
                  && st == stackOf[p := stackOf[p] + 1];
    CanMoveExactly(widths, stackOf, cols, most, count, p);
    MoveStaysBacked(widths, stackOf, cols, most, p);
  }

  /** Balancing a packing over as many stacks as there are charts, or fewer, leaves a chart on each. */
  lemma BalancingFillsStacks(widths: seq<nat>, stackOf: seq<nat>, cols: seq<nat>, most: nat, count: nat,
                             stackOf': seq<nat>, cols': seq<nat>)
    requires InSync(widths, stackOf, cols, most) && count <= |cols| && AllWide(widths) && NextFit(widths, stackOf, most)
    requires count <= |widths| && forall p :: 0 <= p < |stackOf| ==> stackOf[p] < count
    requires BalancesTo(widths, stackOf, cols, most, count, stackOf', cols')
    ensures forall s: nat :: s < count ==> s in stackOf'
  {
    PackedIsBacked(widths, stackOf, most);
    BalancingStaysBacked(widths, stackOf, cols, most, count, stackOf', cols');
    BalancedResult(widths, stackOf, cols, most, count, stackOf', cols');
    forall s: nat | s < count ensures s in stackOf' {
      FirstFilled(stackOf', count);
      FilledBehind(widths, stackOf', cols', most, count, s);
    }
  }
}
