/**
 The chart windows of compute_sizes_from_layout
 (src/interface_layout_selection.c): every stack is a band of rows, and the
 columns of a band are shared among its charts by the infos they draw.
 */
module ChartGrid {
  import opened TaggedSums
  import opened ChartMerging
  import opened ChartPacking
  import opened Arithmetic

  datatype Window = Window(posX: nat, posY: nat, sizeX: nat, sizeY: nat) {
    ghost predicate Inside(cols: nat, top: nat, bottom: nat) {
      posX + sizeX <= cols && top <= posY && posY + sizeY <= bottom
    }

    ghost predicate Apart(w: Window) {
      || posX + sizeX <= w.posX || w.posX + w.sizeX <= posX
      || posY + sizeY <= w.posY || w.posY + w.sizeY <= posY
    }
  }

  // ------------------------------------------------------ who sits where ----

  /** The charts of one stack among the first n, in order. */
  function ChartsOn(stackOf: seq<nat>, s: nat, n: nat): (r: seq<nat>)
    requires n <= |stackOf|
    ensures forall k :: 0 <= k < |r| ==> r[k] < n && stackOf[r[k]] == s
  {
    if n == 0 then []
    else if stackOf[n - 1] == s then ChartsOn(stackOf, s, n - 1) + [n - 1]
    else ChartsOn(stackOf, s, n - 1)
  }

  /** The chart each window position is made for: the charts of stack 0, then of stack 1, ... */
  function Seating(stackOf: seq<nat>, stacks: nat): seq<nat> {
    if stacks == 0 then [] else Seating(stackOf, stacks - 1) + ChartsOn(stackOf, stacks - 1, |stackOf|)
  }

  lemma {:induction false} ChartsOnOrder(stackOf: seq<nat>, s: nat, n: nat)
    requires n <= |stackOf|
    ensures forall j, k :: 0 <= j < k < |ChartsOn(stackOf, s, n)| ==>
              ChartsOn(stackOf, s, n)[j] < ChartsOn(stackOf, s, n)[k]
  {
    if n > 0 {
      ChartsOnOrder(stackOf, s, n - 1);
    }
  }

  ghost predicate Before(stackOf: seq<nat>, p: nat, q: nat)
    requires p < |stackOf| && q < |stackOf|
  {
    stackOf[p] < stackOf[q] || (stackOf[p] == stackOf[q] && p < q)
  }

  lemma JoinAt(a: seq<nat>, b: seq<nat>, k: nat)
    requires k < |a + b|
    ensures (a + b)[k] == if k < |a| then a[k] else b[k - |a|]
  {
  }

  /** A list of charts in seating order: by stack, then by number. */
  ghost predicate Ordered(stackOf: seq<nat>, r: seq<nat>, stacks: nat) {
    && (forall k :: 0 <= k < |r| ==> r[k] < |stackOf| && stackOf[r[k]] < stacks)
    && (forall j, k :: 0 <= j < k < |r| ==> Before(stackOf, r[j], r[k]))
  }

  lemma OrderedJoin(stackOf: seq<nat>, a: seq<nat>, b: seq<nat>, s: nat)
    requires Ordered(stackOf, a, s)
    requires forall k :: 0 <= k < |b| ==> b[k] < |stackOf| && stackOf[b[k]] == s
    requires forall j, k :: 0 <= j < k < |b| ==> b[j] < b[k]
    ensures Ordered(stackOf, a + b, s + 1)
  {
    var r := a + b;
    forall k | 0 <= k < |r| ensures r[k] < |stackOf| && stackOf[r[k]] < s + 1 {
      JoinAt(a, b, k);
    }
    forall j, k | 0 <= j < k < |r| ensures Before(stackOf, r[j], r[k]) {
      JoinAt(a, b, j);
      JoinAt(a, b, k);
      if k < |a| {
        assert Before(stackOf, a[j], a[k]);
      }
    }
  }

  lemma {:induction false} SeatsOrdered(stackOf: seq<nat>, stacks: nat)
    ensures Ordered(stackOf, Seating(stackOf, stacks), stacks)
  {
    if stacks > 0 {
      SeatsOrdered(stackOf, stacks - 1);
      ChartsOnOrder(stackOf, stacks - 1, |stackOf|);
      OrderedJoin(stackOf, Seating(stackOf, stacks - 1), ChartsOn(stackOf, stacks - 1, |stackOf|), stacks - 1);
    }
  }

  lemma {:induction false} OnItsStack(stackOf: seq<nat>, p: nat, n: nat) returns (k: nat)
    requires p < n <= |stackOf|
    ensures k < |ChartsOn(stackOf, stackOf[p], n)| && ChartsOn(stackOf, stackOf[p], n)[k] == p
  {
    if p == n - 1 {
      k := |ChartsOn(stackOf, stackOf[p], n - 1)|;
    } else {
      k := OnItsStack(stackOf, p, n - 1);
    }
  }

  /** Every chart has a seat. */
  lemma {:induction false} HasSeat(stackOf: seq<nat>, stacks: nat, p: nat) returns (k: nat)
    requires p < |stackOf| && stackOf[p] < stacks
    ensures k < |Seating(stackOf, stacks)| && Seating(stackOf, stacks)[k] == p
  {
    var a, b := Seating(stackOf, stacks - 1), ChartsOn(stackOf, stacks - 1, |stackOf|);
    if stackOf[p] == stacks - 1 {
      var at := OnItsStack(stackOf, p, |stackOf|);
      k := |a| + at;
      JoinAt(a, b, k);
    } else {
      k := HasSeat(stackOf, stacks - 1, p);
      JoinAt(a, b, k);
    }
  }

  /** A duplicate-free list of all numbers below n has length n. */
  lemma {:induction false} ListsAllBelow(r: seq<nat>, n: nat)
    requires forall k :: 0 <= k < |r| ==> r[k] < n
    requires forall j, k :: 0 <= j < k < |r| ==> r[j] != r[k]
    requires forall p :: 0 <= p < n ==> p in r
    ensures |r| == n
  {
    if n > 0 {
      assert n - 1 in r;
      var k :| 0 <= k < |r| && r[k] == n - 1;
      var rest := r[..k] + r[k + 1..];
      forall p | 0 <= p < n - 1 ensures p in rest {
        assert p in r;
        var j :| 0 <= j < |r| && r[j] == p;
        assert rest[if j < k then j else j - 1] == p;
      }
      ListsAllBelow(rest, n - 1);
    }
  }

  lemma SeatsForAll(stackOf: seq<nat>, stacks: nat)
    requires forall p :: 0 <= p < |stackOf| ==> stackOf[p] < stacks
    ensures |Seating(stackOf, stacks)| == |stackOf|
    ensures forall p :: 0 <= p < |stackOf| ==> p in Seating(stackOf, stacks)
  {
    var r := Seating(stackOf, stacks);
    SeatsOrdered(stackOf, stacks);
    forall j, k | 0 <= j < k < |r| ensures r[j] != r[k] {
      assert Before(stackOf, r[j], r[k]);
    }
    forall p | 0 <= p < |stackOf| ensures p in Seating(stackOf, stacks) {
      var k := HasSeat(stackOf, stacks, p);
    }
    ListsAllBelow(Seating(stackOf, stacks), |stackOf|);
  }

  lemma {:induction false} IncreasingIsIdentity(r: seq<nat>, k: nat)
    requires forall i :: 0 <= i < |r| ==> r[i] < |r|
    requires forall i, j :: 0 <= i < j < |r| ==> r[i] < r[j]
    requires k < |r|
    ensures r[k] == k
  {
    AtLeast(r, k);
    AtMost(r, k);
  }

  lemma {:induction false} AtLeast(r: seq<nat>, k: nat)
    requires forall i, j :: 0 <= i < j < |r| ==> r[i] < r[j]
    requires k < |r|
    ensures r[k] >= k
  {
    if k > 0 {
      AtLeast(r, k - 1);
    }
  }

  lemma {:induction false} AtMost(r: seq<nat>, k: nat)
    requires forall i :: 0 <= i < |r| ==> r[i] < |r|
    requires forall i, j :: 0 <= i < j < |r| ==> r[i] < r[j]
    requires k < |r|
    ensures r[k] <= k
    decreases |r| - k
  {
    if k < |r| - 1 {
      AtMost(r, k + 1);
    }
  }

  /**
   Window position k is used for chart k (src/interface.c:489-498). It is the
   position made for chart k, for all k, exactly when the charts are still in
   order over the stacks.
   */
  lemma PositionsMatchCharts(stackOf: seq<nat>, stacks: nat)
    requires forall p :: 0 <= p < |stackOf| ==> stackOf[p] < stacks
    ensures |Seating(stackOf, stacks)| == |stackOf|
    ensures (forall k :: 0 <= k < |stackOf| ==> Seating(stackOf, stacks)[k] == k)
            <==> InOrder(stackOf)
  {
    SeatsForAll(stackOf, stacks);
    SeatsOrdered(stackOf, stacks);
    var r := Seating(stackOf, stacks);
    if InOrder(stackOf) {
      forall i, j | 0 <= i < j < |r| ensures r[i] < r[j] {
        assert Before(stackOf, r[i], r[j]);
      }
      forall k | 0 <= k < |stackOf| ensures r[k] == k {
        IncreasingIsIdentity(r, k);
      }
    }
    if forall k :: 0 <= k < |stackOf| ==> r[k] == k {
      forall j, k | 0 <= j < k < |stackOf| ensures stackOf[j] <= stackOf[k] {
        assert r[j] == j && r[k] == k;
        assert Before(stackOf, r[j], r[k]);
      }
    }
  }

  // ------------------------------------------------------ sharing columns ----

  /** The columns of a stack: box drawing for each chart, ten columns for each info. */
  lemma {:induction false} StackWidth(infos: seq<nat>, stackOf: seq<nat>, s: nat, n: nat)
    requires n <= |infos| && n <= |stackOf|
    ensures SumTo(Widths(infos), stackOf, s, n)
         == COLS_NEEDED_BOX_DRAWING * |ChartsOn(stackOf, s, n)| + 10 * SumTo(infos, stackOf, s, n)
  {
    if n > 0 {
      StackWidth(infos, stackOf, s, n - 1);
    }
  }

  lemma ShareBounds(c: nat, i: nat, l: nat)
    requires l > 0 && c >= 10 * l
    ensures 10 * i <= c * i / l && (c * i / l) * l <= c * i
  {
    assert (10 * i) * l <= c * i by {
      assert (10 * l) * i <= c * i;
    }
    DivideAtLeast(c * i, 10 * i, l);
  }

  /** The charts placed so far use no more than their part of the columns. */
  lemma ShareAdds(x: nat, c: nat, sum: nat, i: nat, l: nat)
    requires l > 0 && c >= 10 * l && x * l <= c * sum
    ensures (x + c * i / l) * l <= c * (sum + i)
  {
    ShareBounds(c, i, l);
  }

  lemma ShareFits(x: nat, c: nat, sum: nat, l: nat)
    requires l > 0 && x * l <= c * sum && sum <= l
    ensures x <= c
  {
    assert c * sum <= c * l;
    MulOrder(c + 1, x, l);
  }

  lemma RoundedDown(m: nat, i: nat)
    requires i > 0 && m >= 10 * i
    ensures m - m % i >= 10 * i && (m - m % i) % i == 0
  {
    var q := m / i;
    assert m == q * i + m % i;
    DivideAtLeast(m, 10, i);
    assert q * i >= 10 * i;
    MultipleHasNoRest(q, i);
  }

  // ------------------------------------------------------------- placing ----

  /** Wide enough for the infos, and the drawing area splits evenly among them. */
  ghost predicate Suits(w: Window, infos: nat) {
    infos > 0 && w.sizeX >= MinPlotCols(infos) && (w.sizeX - COLS_NEEDED_BOX_DRAWING) % infos == 0
  }

  /** The columns of a stack left for drawing lines. */
  function LineCols(cols: nat, plots: nat): nat {
    if plots * COLS_NEEDED_BOX_DRAWING <= cols then cols - plots * COLS_NEEDED_BOX_DRAWING else 0
  }

  /** A chart's part of c columns when l infos share them. */
  function Share(c: nat, infos: nat, l: nat): nat
    requires l > 0
  {
    c * infos / l
  }

  /** Box drawing and the part, less what does not split evenly. */
  function ChartWidth(c: nat, infos: nat, l: nat): (r: nat)
    requires l > 0 && infos > 0
    ensures r <= COLS_NEEDED_BOX_DRAWING + Share(c, infos, l) < r + infos
  {
    COLS_NEEDED_BOX_DRAWING + Share(c, infos, l) - Share(c, infos, l) % infos
  }

  lemma WidthSuits(w: Window, c: nat, infos: nat, l: nat)
    requires l > 0 && infos > 0 && c >= 10 * l && w.sizeX == ChartWidth(c, infos, l)
    ensures Suits(w, infos)
  {
    ShareBounds(c, infos, l);
    RoundedDown(Share(c, infos, l), infos);
  }

  /** The columns given to every chart of a stack whose l infos share c columns, in the order of the charts. */
  function Slots(c: nat, infos: seq<nat>, l: nat): (r: seq<nat>)
    ensures |r| == |infos|
  {
    seq(|infos|, p requires 0 <= p < |infos| => if l == 0 then 0 else COLS_NEEDED_BOX_DRAWING + Share(c, infos[p], l))
  }

  /** The windows of one stack: side by side from column 0, none past column `right`. */
  ghost predicate Row(ws: seq<Window>, charts: seq<nat>, infos: seq<nat>, right: nat, y: nat, h: nat) {
    && |ws| == |charts|
    && (forall k :: 0 <= k < |ws| ==> charts[k] < |infos| && Suits(ws[k], infos[charts[k]]))
    && (forall k :: 0 <= k < |ws| ==> ws[k].posY == y && ws[k].sizeY == h && ws[k].posX + ws[k].sizeX <= right)
    && (forall j, k :: 0 <= j < k < |ws| ==> ws[j].posX + ws[j].sizeX <= ws[k].posX)
  }

  /** Every chart has the width its infos are due out of the c columns shared by l infos. */
  ghost predicate FairWidths(ws: seq<Window>, charts: seq<nat>, infos: seq<nat>, c: nat, l: nat) {
    && |ws| == |charts| && (|ws| > 0 ==> l > 0)
    && forall k :: 0 <= k < |ws| ==> charts[k] < |infos| && infos[charts[k]] > 0
                                     && ws[k].sizeX == ChartWidth(c, infos[charts[k]], l)
  }

  method CountStack(stack: nat, infos: seq<nat>, stackOf: seq<nat>) returns (plots: nat, lines: nat)
    requires |infos| == |stackOf|
    ensures plots == |ChartsOn(stackOf, stack, |infos|)| && lines == SumTo(infos, stackOf, stack, |infos|)
  {
    plots, lines := 0, 0;
    for j := 0 to |infos|
      invariant plots == |ChartsOn(stackOf, stack, j)| && lines == SumTo(infos, stackOf, stack, j)
    {
      if stackOf[j] == stack {
        plots := plots + 1;
        lines := lines + infos[j];
      }
    }
  }

  lemma {:induction false} SumGrows(vals: seq<nat>, tags: seq<nat>, t: nat, m: nat, n: nat)
    requires m <= n <= |vals| && n <= |tags|
    ensures SumTo(vals, tags, t, m) <= SumTo(vals, tags, t, n)
  {
    if m < n {
      SumGrows(vals, tags, t, m, n - 1);
    }
  }

  /** The columns handed out so far, times the infos of the stack, are within the part of the charts placed. */
  ghost predicate InShare(shared: nat, c: nat, infos: seq<nat>, stackOf: seq<nat>, s: nat, j: nat)
    requires |infos| == |stackOf| && j <= |infos|
  {
    shared * SumTo(infos, stackOf, s, |infos|) <= c * SumTo(infos, stackOf, s, j)
  }

  lemma ShareStep(shared: nat, c: nat, infos: seq<nat>, stackOf: seq<nat>, s: nat, j: nat)
    requires |infos| == |stackOf| && j < |infos| && stackOf[j] == s && infos[j] > 0
    requires c >= 10 * SumTo(infos, stackOf, s, |infos|) && InShare(shared, c, infos, stackOf, s, j)
    ensures SumTo(infos, stackOf, s, |infos|) > 0 && |ChartsOn(stackOf, s, j)| < |ChartsOn(stackOf, s, |infos|)|
    ensures InShare(shared + c * infos[j] / SumTo(infos, stackOf, s, |infos|), c, infos, stackOf, s, j + 1)
  {
    SumGrows(infos, stackOf, s, j + 1, |infos|);
    ChartsOnGrows(stackOf, s, j + 1, |infos|);
    ShareAdds(shared, c, SumTo(infos, stackOf, s, j), infos[j], SumTo(infos, stackOf, s, |infos|));
  }

  lemma ShareEnd(shared: nat, c: nat, infos: seq<nat>, stackOf: seq<nat>, s: nat)
    requires |infos| == |stackOf| && InShare(shared, c, infos, stackOf, s, |infos|)
    requires forall p :: 0 <= p < |infos| ==> infos[p] > 0
    requires |ChartsOn(stackOf, s, |infos|)| > 0
    ensures shared <= c
  {
    SumAtLeast(infos, stackOf, ChartsOn(stackOf, s, |infos|)[0], |infos|);
    ShareFits(shared, c, SumTo(infos, stackOf, s, |infos|), SumTo(infos, stackOf, s, |infos|));
  }

  /** The width chart p is due: its stack's columns shared by the infos of that stack. */
  function DueWidth(infos: seq<nat>, stackOf: seq<nat>, cols: nat, p: nat): nat
    requires |infos| == |stackOf| && p < |infos|
  {
    var lines := SumTo(infos, stackOf, stackOf[p], |infos|);
    if lines == 0 || infos[p] == 0 then 0
    else ChartWidth(LineCols(cols, |ChartsOn(stackOf, stackOf[p], |infos|)|), infos[p], lines)
  }

  lemma ShareIsQuotient(c: nat, i: nat, l: nat)
    requires l > 0
    ensures Share(c, i, l) * l <= c * i < (Share(c, i, l) + 1) * l
  {
    var q, r := Share(c, i, l), (c * i) % l;
    assert c * i == l * q + r;
    assert l * q == q * l && (q + 1) * l == q * l + l;
  }

  lemma MultipleBelow(m: nat, i: nat)
    requires i > 0
    ensures (m - m % i) % i == 0
  {
    var q := m / i;
    assert m - m % i == i * q == q * i;
    MultipleHasNoRest(q, i);
  }

  /**
   The drawing columns of a chart are the largest multiple of its infos that is
   within its part of the columns: c columns for l infos in all.
   */
  lemma DueWidthIsFair(c: nat, i: nat, l: nat)
    requires l > 0 && i > 0
    ensures ChartWidth(c, i, l) >= COLS_NEEDED_BOX_DRAWING
    ensures var drawn := ChartWidth(c, i, l) - COLS_NEEDED_BOX_DRAWING;
            drawn % i == 0 && drawn * l <= c * i < (drawn + i) * l
  {
    var share := Share(c, i, l);
    var drawn := share - share % i;
    MultipleBelow(share, i);
    ShareIsQuotient(c, i, l);
    MulOrder(drawn, share, l);
    MulOrder(share + 1, drawn + i, l);
  }

  /** A chart's slot of the stack: the box, and all whole columns of its part. */
  lemma SlotIsPart(c: nat, infos: seq<nat>, l: nat, p: nat)
    requires l > 0 && p < |infos|
    ensures Slots(c, infos, l)[p] >= COLS_NEEDED_BOX_DRAWING
    ensures var drawn := Slots(c, infos, l)[p] - COLS_NEEDED_BOX_DRAWING;
            drawn * l <= c * infos[p] < (drawn + 1) * l
  {
    ShareIsQuotient(c, infos[p], l);
  }

  /** Due widths of all charts. */
  function DueWidths(infos: seq<nat>, stackOf: seq<nat>, cols: nat): (r: seq<nat>)
    requires |infos| == |stackOf|
    ensures |r| == |infos|
  {
    seq(|infos|, p requires 0 <= p < |infos| => DueWidth(infos, stackOf, cols, p))
  }

  /** The first n charts: each loses less columns than it has infos. */
  lemma {:induction false} ColumnsUsed(infos: seq<nat>, stackOf: seq<nat>, cols: nat, s: nat, n: nat, c: nat, l: nat)
    requires |infos| == |stackOf| && n <= |infos| && forall p :: 0 <= p < |infos| ==> infos[p] > 0
    requires l == SumTo(infos, stackOf, s, |infos|) > 0 && c == LineCols(cols, |ChartsOn(stackOf, s, |infos|)|)
    ensures var plots, used := |ChartsOn(stackOf, s, n)|, SumTo(DueWidths(infos, stackOf, cols), stackOf, s, n);
            used >= COLS_NEEDED_BOX_DRAWING * plots
            && c * SumTo(infos, stackOf, s, n) + plots
               <= (used - COLS_NEEDED_BOX_DRAWING * plots + SumTo(infos, stackOf, s, n)) * l
  {
    if n > 0 {
      ColumnsUsed(infos, stackOf, cols, s, n - 1, c, l);
      var p := n - 1;
      if stackOf[p] == s {
        var plots, used := |ChartsOn(stackOf, s, p)|, SumTo(DueWidths(infos, stackOf, cols), stackOf, s, p);
        DueWidthIsFair(c, infos[p], l);
        OneMoreUsed(c, l, used - COLS_NEEDED_BOX_DRAWING * plots, SumTo(infos, stackOf, s, p), plots, infos[p],
                    ChartWidth(c, infos[p], l) - COLS_NEEDED_BOX_DRAWING);
      }
    }
  }

  lemma OneMoreUsed(c: nat, l: nat, drawn: nat, sum: nat, plots: nat, i: nat, more: nat)
    requires c * sum + plots <= (drawn + sum) * l && c * i < (more + i) * l
    ensures c * (sum + i) + (plots + 1) <= (drawn + more + (sum + i)) * l
  {
    assert c * (sum + i) == c * sum + c * i;
    assert (drawn + sum) * l + (more + i) * l == (drawn + more + (sum + i)) * l;
  }

  lemma HasColumns(infos: seq<nat>, stackOf: seq<nat>, cols: nat, s: nat)
    requires |infos| == |stackOf| && forall p :: 0 <= p < |infos| ==> infos[p] > 0
    requires s in stackOf && SumTo(Widths(infos), stackOf, s, |infos|) <= cols
    ensures SumTo(infos, stackOf, s, |infos|) > 0 && |ChartsOn(stackOf, s, |infos|)| > 0
    ensures COLS_NEEDED_BOX_DRAWING * |ChartsOn(stackOf, s, |infos|)| <= cols
  {
    var p: nat :| p < |stackOf| && stackOf[p] == s;
    SumAtLeast(infos, stackOf, p, |infos|);
    StackWidth(infos, stackOf, s, |infos|);
    var k := OnItsStack(stackOf, p, |infos|);
  }

  /** The columns of a stack that its charts leave unused are fewer than its infos. */
  lemma StackUsesItsColumns(infos: seq<nat>, stackOf: seq<nat>, cols: nat, s: nat)
    requires |infos| == |stackOf| && forall p :: 0 <= p < |infos| ==> infos[p] > 0
    requires s in stackOf && SumTo(Widths(infos), stackOf, s, |infos|) <= cols
    ensures cols < SumTo(DueWidths(infos, stackOf, cols), stackOf, s, |infos|) + SumTo(infos, stackOf, s, |infos|)
  {
    HasColumns(infos, stackOf, cols, s);
    var n, l := |infos|, SumTo(infos, stackOf, s, |infos|);
    var plots, used := |ChartsOn(stackOf, s, n)|, SumTo(DueWidths(infos, stackOf, cols), stackOf, s, n);
    var c := LineCols(cols, plots);
    ColumnsUsed(infos, stackOf, cols, s, n, c, l);
    LessProduct(c, used - COLS_NEEDED_BOX_DRAWING * plots + l, plots, l);
  }

  lemma LessProduct(c: nat, x: nat, plots: nat, l: nat)
    requires l > 0 && plots > 0 && c * l + plots <= x * l
    ensures c < x
  {
    MulOrder(x, c, l);
  }

  /** The column at which chart p is due: those before it on its stack have got theirs. */
  function DueLeft(infos: seq<nat>, stackOf: seq<nat>, cols: nat, p: nat): nat
    requires |infos| == |stackOf| && p < |infos|
  {
    var s := stackOf[p];
    var c, l := LineCols(cols, |ChartsOn(stackOf, s, |infos|)|), SumTo(infos, stackOf, s, |infos|);
    SumTo(Slots(c, infos, l), stackOf, s, p)
  }

  /** The windows of the charts on stack s: one row, and the columns shared by infos. */
  ghost predicate StackRow(ws: seq<Window>, infos: seq<nat>, stackOf: seq<nat>, s: nat, cols: nat, y: nat, h: nat)
    requires |infos| == |stackOf|
  {
    var charts := ChartsOn(stackOf, s, |infos|);
    Row(ws, charts, infos, cols, y, h)
    && forall k :: 0 <= k < |ws| ==> ws[k].sizeX == DueWidth(infos, stackOf, cols, charts[k])
                                     && ws[k].posX == DueLeft(infos, stackOf, cols, charts[k])
  }

  /** Every chart placed begins where the ones before it end; the next one would begin at column x. */
  ghost predicate SideBySide(ws: seq<Window>, x: nat, c: nat, infos: seq<nat>, stackOf: seq<nat>, s: nat, j: nat)
    requires |infos| == |stackOf| && j <= |infos|
  {
    var charts, slots := ChartsOn(stackOf, s, j), Slots(c, infos, SumTo(infos, stackOf, s, |infos|));
    && |ws| == |charts| && x == SumTo(slots, stackOf, s, j)
    && forall k :: 0 <= k < |ws| ==> ws[k].posX == SumTo(slots, stackOf, s, charts[k])
  }

  /** State of the placing loop: charts among the first j placed, next one at column x. */
  ghost predicate Placing(ws: seq<Window>, x: nat, c: nat, infos: seq<nat>, stackOf: seq<nat>, s: nat, j: nat,
                          y: nat, h: nat)
    requires |infos| == |stackOf| && j <= |infos|
  {
    && x >= COLS_NEEDED_BOX_DRAWING * |ws|
    && InShare(x - COLS_NEEDED_BOX_DRAWING * |ws|, c, infos, stackOf, s, j)
    && Row(ws, ChartsOn(stackOf, s, j), infos, x, y, h)
    && FairWidths(ws, ChartsOn(stackOf, s, j), infos, c, SumTo(infos, stackOf, s, |infos|))
    && SideBySide(ws, x, c, infos, stackOf, s, j)
  }

  lemma ExtendFair(ws: seq<Window>, charts: seq<nat>, infos: seq<nat>, c: nat, l: nat, w: Window, p: nat)
    requires FairWidths(ws, charts, infos, c, l) && l > 0
    requires p < |infos| && infos[p] > 0 && w.sizeX == ChartWidth(c, infos[p], l)
    ensures FairWidths(ws + [w], charts + [p], infos, c, l)
  {
  }

  lemma ExtendSide(ws: seq<Window>, x: nat, c: nat, infos: seq<nat>, stackOf: seq<nat>, s: nat, j: nat, w: Window,
                   x': nat)
    requires |infos| == |stackOf| && j < |infos| && stackOf[j] == s && w.posX == x
    requires SumTo(infos, stackOf, s, |infos|) > 0 && SideBySide(ws, x, c, infos, stackOf, s, j)
    requires x' == x + COLS_NEEDED_BOX_DRAWING + Share(c, infos[j], SumTo(infos, stackOf, s, |infos|))
    ensures SideBySide(ws + [w], x', c, infos, stackOf, s, j + 1)
  {
    var charts, slots := ChartsOn(stackOf, s, j), Slots(c, infos, SumTo(infos, stackOf, s, |infos|));
    assert ChartsOn(stackOf, s, j + 1) == charts + [j];
    assert SumTo(slots, stackOf, s, j + 1) == SumTo(slots, stackOf, s, j) + slots[j];
    forall k | 0 <= k < |ws + [w]| ensures (ws + [w])[k].posX == SumTo(slots, stackOf, s, (charts + [j])[k]) {
      if k < |ws| {
        assert ws[k].posX == SumTo(slots, stackOf, s, charts[k]);
      }
    }
  }

  lemma PlaceNext(ws: seq<Window>, x: nat, c: nat, infos: seq<nat>, stackOf: seq<nat>, s: nat, j: nat,
                  y: nat, h: nat, l: nat, w: Window, x': nat)
    requires |infos| == |stackOf| && j < |infos| && stackOf[j] == s && infos[j] > 0
    requires l == SumTo(infos, stackOf, s, |infos|) && l > 0 && c >= 10 * l
    requires w == Window(x, y, ChartWidth(c, infos[j], l), h)
    requires x' == x + COLS_NEEDED_BOX_DRAWING + Share(c, infos[j], l)
    requires Placing(ws, x, c, infos, stackOf, s, j, y, h)
    ensures Placing(ws + [w], x', c, infos, stackOf, s, j + 1, y, h)
  {
    ShareStep(x - COLS_NEEDED_BOX_DRAWING * |ws|, c, infos, stackOf, s, j);
    WidthSuits(w, c, infos[j], l);
    ExtendRow(ws, ChartsOn(stackOf, s, j), infos, x, y, h, w, j, x');
    ExtendFair(ws, ChartsOn(stackOf, s, j), infos, c, l, w, j);
    ExtendSide(ws, x, c, infos, stackOf, s, j, w, x');
    assert ChartsOn(stackOf, s, j + 1) == ChartsOn(stackOf, s, j) + [j];
    assert x' - COLS_NEEDED_BOX_DRAWING * |ws + [w]| == x - COLS_NEEDED_BOX_DRAWING * |ws| + Share(c, infos[j], l);
  }

  lemma RoomForNext(infos: seq<nat>, stackOf: seq<nat>, s: nat, j: nat)
    requires |infos| == |stackOf| && j < |infos| && stackOf[j] == s && infos[j] > 0
    ensures SumTo(infos, stackOf, s, |infos|) > 0
    ensures |ChartsOn(stackOf, s, j)| < |ChartsOn(stackOf, s, |infos|)|
  {
    SumGrows(infos, stackOf, s, j + 1, |infos|);
    ChartsOnGrows(stackOf, s, j + 1, |infos|);
  }

  lemma ExtendRow(ws: seq<Window>, charts: seq<nat>, infos: seq<nat>, x: nat, y: nat, h: nat, w: Window, p: nat,
                  x': nat)
    requires Row(ws, charts, infos, x, y, h) && p < |infos| && Suits(w, infos[p])
    requires w.posX == x && w.posY == y && w.sizeY == h && x + w.sizeX <= x'
    ensures Row(ws + [w], charts + [p], infos, x', y, h)
  {
  }

  lemma WidenRow(ws: seq<Window>, charts: seq<nat>, infos: seq<nat>, x: nat, y: nat, h: nat, x': nat)
    requires Row(ws, charts, infos, x, y, h) && x <= x'
    ensures Row(ws, charts, infos, x', y, h)
  {
  }

  /** The window of the next chart on the stack, and the column after it. */
  method NextWindow(x: nat, y: nat, h: nat, colsForLines: nat, infos: nat, lines: nat) returns (w: Window, next: nat)
    requires infos > 0 && lines > 0
    ensures w == Window(x, y, ChartWidth(colsForLines, infos, lines), h)
    ensures next == x + COLS_NEEDED_BOX_DRAWING + Share(colsForLines, infos, lines)
  {
    var maxCols := COLS_NEEDED_BOX_DRAWING + Share(colsForLines, infos, lines);
    var plotCols := maxCols - (maxCols - COLS_NEEDED_BOX_DRAWING) % infos;
    w := Window(x, y, plotCols, h);
    next := x + maxCols;
  }

  lemma PlacingDone(ws: seq<Window>, x: nat, cols: nat, c: nat, infos: seq<nat>, stackOf: seq<nat>, s: nat, y: nat,
                    h: nat)
    requires |infos| == |stackOf| && forall p :: 0 <= p < |infos| ==> infos[p] > 0
    requires Placing(ws, x, c, infos, stackOf, s, |infos|, y, h)
    requires cols == c + COLS_NEEDED_BOX_DRAWING * |ws|
    ensures StackRow(ws, infos, stackOf, s, cols, y, h)
  {
    if |ws| > 0 {
      ShareEnd(x - COLS_NEEDED_BOX_DRAWING * |ws|, c, infos, stackOf, s);
      WidenRow(ws, ChartsOn(stackOf, s, |infos|), infos, x, y, h, cols);
    }
  }

  lemma SplitAt<T>(s: seq<T>, i: nat, j: nat)
    requires i <= j <= |s|
    ensures s[..j] == s[..i] + s[i..j]
  {
  }

  lemma ExtendSlice<T>(s: seq<T>, i: nat, j: nat)
    requires i <= j < |s|
    ensures s[i..j + 1] == s[i..j] + [s[j]]
  {
  }

  /** The next position is filled. */
  method PutWindow(w: Window, ghost done: nat, end: nat, positions: array<Window>, ghost row: seq<Window>)
    requires done <= end < positions.Length && positions[done..end] == row
    modifies positions
    ensures positions[..done] == old(positions[..done]) && positions[done..end + 1] == row + [w]
  {
    positions[end] := w;
    ExtendSlice(positions[..], done, end);
  }

  method PlaceStack(stack: nat, cols: nat, y: nat, h: nat, infos: seq<nat>, stackOf: seq<nat>,
                    done: nat, positions: array<Window>)
    returns (end: nat)
    requires |infos| == |stackOf| && forall p :: 0 <= p < |infos| ==> infos[p] > 0
    requires SumTo(Widths(infos), stackOf, stack, |infos|) <= cols
    requires done + |ChartsOn(stackOf, stack, |infos|)| <= positions.Length
    modifies positions
    ensures end == done + |ChartsOn(stackOf, stack, |infos|)|
    ensures positions[..done] == old(positions[..done])
    ensures StackRow(positions[done..end], infos, stackOf, stack, cols, y, h)
  {
    var plots, lines := CountStack(stack, infos, stackOf);
    StackWidth(infos, stackOf, stack, |infos|);
    var colsForLines: nat := cols - plots * COLS_NEEDED_BOX_DRAWING;
    var x: nat := 0;
    end := done;
    ghost var row: seq<Window> := [];
    for j := 0 to |infos|
      invariant end == done + |row| <= positions.Length && |row| == |ChartsOn(stackOf, stack, j)|
      invariant positions[..done] == old(positions[..done]) && positions[done..end] == row
      invariant Placing(row, x, colsForLines, infos, stackOf, stack, j, y, h)
    {
      if stackOf[j] == stack {
        RoomForNext(infos, stackOf, stack, j);
        var w, next := NextWindow(x, y, h, colsForLines, infos[j], lines);
        PlaceNext(row, x, colsForLines, infos, stackOf, stack, j, y, h, lines, w, next);
        PutWindow(w, done, end, positions, row);
        row := row + [w];
        x := next;
        end := end + 1;
      }
    }
    PlacingDone(row, x, cols, colsForLines, infos, stackOf, stack, y, h);
  }

  lemma {:induction false} ChartsOnGrows(stackOf: seq<nat>, s: nat, m: nat, n: nat)
    requires m <= n <= |stackOf|
    ensures |ChartsOn(stackOf, s, m)| <= |ChartsOn(stackOf, s, n)|
  {
    if m < n {
      ChartsOnGrows(stackOf, s, m, n - 1);
    }
  }

  // ------------------------------------------------------- all the stacks ----

  /** s steps of h rows (or columns) each: h * s, as the loops add it up. */
  function Steps(h: nat, s: nat): nat {
    if s == 0 then 0 else Steps(h, s - 1) + h
  }

  lemma {:induction false} StepsProduct(h: nat, s: nat)
    ensures Steps(h, s) == h * s
  {
    if s > 0 {
      StepsProduct(h, s - 1);
      assert h * s == h * (s - 1) + h;
    }
  }

  /** The window made for chart p. */
  ghost predicate Seated(w: Window, p: nat, infos: seq<nat>, stackOf: seq<nat>, cols: nat, top: nat, h: nat) {
    && |infos| == |stackOf| && p < |infos| && Suits(w, infos[p])
    && w.posY == top + Steps(h, stackOf[p]) && w.sizeY == h && w.posX + w.sizeX <= cols
    && w.sizeX == DueWidth(infos, stackOf, cols, p) && w.posX == DueLeft(infos, stackOf, cols, p)
  }

  /** Window v comes after window w: further down, or further right in the same stack. */
  ghost predicate Follows(w: Window, p: nat, v: Window, q: nat, stackOf: seq<nat>)
    requires p < |stackOf| && q < |stackOf|
  {
    stackOf[p] < stackOf[q] || (stackOf[p] == stackOf[q] && w.posX + w.sizeX <= v.posX)
  }

  /** Position k is made for chart seats[k]; positions go left to right, stack after stack. */
  ghost predicate Grid(ws: seq<Window>, seats: seq<nat>, infos: seq<nat>, stackOf: seq<nat>, cols: nat, top: nat,
                       h: nat) {
    && |ws| == |seats| && |infos| == |stackOf|
    && (forall k :: 0 <= k < |ws| ==> seats[k] < |infos|)
    && (forall k :: 0 <= k < |ws| ==> Seated(ws[k], seats[k], infos, stackOf, cols, top, h))
    && (forall j, k :: 0 <= j < k < |ws| ==> Follows(ws[j], seats[j], ws[k], seats[k], stackOf))
  }

  lemma RowIsSeated(row: seq<Window>, infos: seq<nat>, stackOf: seq<nat>, s: nat, cols: nat, top: nat, h: nat)
    requires |infos| == |stackOf| && StackRow(row, infos, stackOf, s, cols, top + Steps(h, s), h)
    ensures Grid(row, ChartsOn(stackOf, s, |infos|), infos, stackOf, cols, top, h)
  {
    var charts := ChartsOn(stackOf, s, |infos|);
    forall k | 0 <= k < |row| ensures Seated(row[k], charts[k], infos, stackOf, cols, top, h) {
      assert stackOf[charts[k]] == s;
    }
    forall j, k | 0 <= j < k < |row| ensures Follows(row[j], charts[j], row[k], charts[k], stackOf) {
      assert stackOf[charts[j]] == s && stackOf[charts[k]] == s;
    }
  }

  lemma JoinGrids(ws: seq<Window>, seats: seq<nat>, row: seq<Window>, charts: seq<nat>, infos: seq<nat>,
                  stackOf: seq<nat>, s: nat, cols: nat, top: nat, h: nat)
    requires |infos| == |stackOf|
    requires Grid(ws, seats, infos, stackOf, cols, top, h) && Grid(row, charts, infos, stackOf, cols, top, h)
    requires forall k :: 0 <= k < |seats| ==> stackOf[seats[k]] < s
    requires forall k :: 0 <= k < |charts| ==> stackOf[charts[k]] == s
    ensures Grid(ws + row, seats + charts, infos, stackOf, cols, top, h)
  {
    var n, all, who := |ws|, ws + row, seats + charts;
    forall k | 0 <= k < |all| ensures who[k] < |infos| && Seated(all[k], who[k], infos, stackOf, cols, top, h) {
      if k < n {
        assert Seated(ws[k], seats[k], infos, stackOf, cols, top, h);
      } else {
        assert Seated(row[k - n], charts[k - n], infos, stackOf, cols, top, h);
      }
    }
    forall j, k | 0 <= j < k < |all| ensures Follows(all[j], who[j], all[k], who[k], stackOf) {
      if k < n {
        assert Follows(ws[j], seats[j], ws[k], seats[k], stackOf);
      } else if j >= n {
        assert Follows(row[j - n], charts[j - n], row[k - n], charts[k - n], stackOf);
      } else {
        assert stackOf[seats[j]] < s && stackOf[charts[k - n]] == s;
      }
    }
  }

  lemma {:induction false} SeatingGrows(stackOf: seq<nat>, m: nat, n: nat)
    requires m <= n
    ensures |Seating(stackOf, m)| <= |Seating(stackOf, n)|
  {
    if m < n {
      SeatingGrows(stackOf, m, n - 1);
    }
  }

  lemma AddStack(all: seq<Window>, done: nat, end: nat, infos: seq<nat>, stackOf: seq<nat>, s: nat,
                 cols: nat, top: nat, h: nat)
    requires |infos| == |stackOf| && done <= end <= |all|
    requires Grid(all[..done], Seating(stackOf, s), infos, stackOf, cols, top, h)
    requires StackRow(all[done..end], infos, stackOf, s, cols, top + Steps(h, s), h)
    ensures Grid(all[..end], Seating(stackOf, s + 1), infos, stackOf, cols, top, h)
  {
    SeatsOrdered(stackOf, s);
    RowIsSeated(all[done..end], infos, stackOf, s, cols, top, h);
    JoinGrids(all[..done], Seating(stackOf, s), all[done..end], ChartsOn(stackOf, s, |infos|), infos, stackOf, s,
              cols, top, h);
    SplitAt(all, done, end);
    assert Seating(stackOf, s + 1) == Seating(stackOf, s) + ChartsOn(stackOf, s, |infos|);
  }

  method PlaceCharts(stacks: nat, cols: nat, top: nat, h: nat, infos: seq<nat>, stackOf: seq<nat>,
                     positions: array<Window>)
    requires |infos| == |stackOf| && |infos| <= positions.Length
    requires forall p :: 0 <= p < |infos| ==> infos[p] > 0 && stackOf[p] < stacks
    requires forall s :: 0 <= s < stacks ==> SumTo(Widths(infos), stackOf, s, |infos|) <= cols
    modifies positions
    ensures Grid(positions[..|infos|], Seating(stackOf, stacks), infos, stackOf, cols, top, h)
  {
    var done, y := 0, top;
    SeatsForAll(stackOf, stacks);
    for s := 0 to stacks
      invariant done == |Seating(stackOf, s)| <= positions.Length
      invariant y == top + Steps(h, s)
      invariant Grid(positions[..done], Seating(stackOf, s), infos, stackOf, cols, top, h)
    {
      SeatingGrows(stackOf, s + 1, stacks);
      var end := PlaceStack(s, cols, y, h, infos, stackOf, done, positions);
      AddStack(positions[..], done, end, infos, stackOf, s, cols, top, h);
      done := end;
      y := y + h;
    }
  }

  lemma {:induction false} StepsApart(h: nat, s: nat, t: nat)
    requires s < t
    ensures Steps(h, s) + h <= Steps(h, t)
  {
    if s < t - 1 {
      StepsApart(h, s, t - 1);
    }
  }

  lemma {:induction false} StepsMonotone(h: nat, s: nat, t: nat)
    requires s <= t
    ensures Steps(h, s) <= Steps(h, t)
  {
    if s < t {
      StepsMonotone(h, s, t - 1);
    }
  }

  /** k blocks of n with b < 2 blank lines between them. */
  lemma {:induction false} StepsSpaced(n: nat, b: nat, k: nat)
    requires k > 0 && b <= 1
    ensures Steps(n + b, k - 1) + n == Steps(n, k) + if b == 1 then k - 1 else 0
  {
    if k > 1 {
      StepsSpaced(n, b, k - 1);
    }
  }

  lemma FollowsApart(w: Window, p: nat, v: Window, q: nat, infos: seq<nat>, stackOf: seq<nat>, cols: nat, top: nat,
                     h: nat)
    requires Seated(w, p, infos, stackOf, cols, top, h) && Seated(v, q, infos, stackOf, cols, top, h)
    requires Follows(w, p, v, q, stackOf)
    ensures w.Apart(v)
  {
    if stackOf[p] < stackOf[q] {
      StepsApart(h, stackOf[p], stackOf[q]);
    }
  }

  lemma SeatedInside(w: Window, p: nat, infos: seq<nat>, stackOf: seq<nat>, stacks: nat, cols: nat, top: nat, h: nat)
    requires Seated(w, p, infos, stackOf, cols, top, h) && stackOf[p] < stacks
    ensures w.Inside(cols, top, top + Steps(h, stacks))
  {
    StepsApart(h, stackOf[p], stacks);
  }

  /** No two chart windows overlap, and all lie inside the band of the stacks. */
  lemma GridTiles(ws: seq<Window>, stackOf: seq<nat>, stacks: nat, infos: seq<nat>, cols: nat, top: nat, h: nat)
    requires Grid(ws, Seating(stackOf, stacks), infos, stackOf, cols, top, h)
    ensures forall k :: 0 <= k < |ws| ==> ws[k].Inside(cols, top, top + Steps(h, stacks))
    ensures forall j, k :: 0 <= j < k < |ws| ==> ws[j].Apart(ws[k])
  {
    var seats := Seating(stackOf, stacks);
    SeatsOrdered(stackOf, stacks);
    forall k | 0 <= k < |ws| ensures ws[k].Inside(cols, top, top + Steps(h, stacks)) {
      SeatedInside(ws[k], seats[k], infos, stackOf, stacks, cols, top, h);
    }
    forall j, k | 0 <= j < k < |ws| ensures ws[j].Apart(ws[k]) {
      FollowsApart(ws[j], seats[j], ws[k], seats[k], infos, stackOf, cols, top, h);
    }
  }
}
