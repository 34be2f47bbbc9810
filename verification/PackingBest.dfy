/**
 Next-fit packing misses nothing (src/interface_layout_selection.c:132-181): it
 opens no stack that another arrangement in order would not need, so charts are
 merged or given up only if they cannot be arranged in order at all.
 */
module PackingBest {
  import opened TaggedSums
  import opened Arithmetic
  import opened ChartMerging
  import opened ChartPacking

  /** A sum over fewer places is not greater. */
  lemma {:induction false} SumOfFewer(vals: seq<nat>, tags: seq<nat>, tags': seq<nat>, t: nat, n: nat)
    requires n <= |vals| && n <= |tags| && n <= |tags'|
    requires forall i :: 0 <= i < n && tags[i] == t ==> tags'[i] == t
    ensures SumTo(vals, tags, t, n) <= SumTo(vals, tags', t, n)
  {
    if n > 0 {
      SumOfFewer(vals, tags, tags', t, n - 1);
    }
  }

  /** In no arrangement in order is a chart on an earlier stack than next-fit packing puts it on. */
  lemma {:induction false} NextFitIsFirst(widths: seq<nat>, first: seq<nat>, other: seq<nat>, stacks: nat, cols: nat,
                                          k: nat)
    requires NextFit(widths, first, cols) && Packs(widths, other, stacks, cols) && InOrder(first) && k < |widths|
    ensures forall j :: 0 <= j <= k ==> first[j] <= other[j]
  {
    if k > 0 {
      NextFitIsFirst(widths, first, other, stacks, cols, k - 1);
      assert Tight(widths, first, cols, k) && other[k - 1] <= other[k];
      if first[k] == first[k - 1] + 1 && other[k] == first[k - 1] {
        NoRoomLeft(widths, first, other, stacks, cols, k);
      }
    }
  }

  /** What next-fit packing could not put on the stack, no arrangement in order could. */
  lemma NoRoomLeft(widths: seq<nat>, first: seq<nat>, other: seq<nat>, stacks: nat, cols: nat, k: nat)
    requires NextFit(widths, first, cols) && Packs(widths, other, stacks, cols) && InOrder(first) && 0 < k < |widths|
    requires forall j :: 0 <= j < k ==> first[j] <= other[j]
    ensures other[k] == first[k - 1] ==> SumTo(widths, first, first[k - 1], k) + widths[k] <= cols
  {
    var s := first[k - 1];
    if other[k] == s {
      forall j | 0 <= j < k && first[j] == s ensures other[j] == s {
        assert other[j] <= other[k];
      }
      SumOfFewer(widths, first, other, s, k);
      SumUpTo(widths, other, s, k + 1, |widths|);
    }
  }

  lemma {:induction false} SumUpTo(vals: seq<nat>, tags: seq<nat>, t: nat, m: nat, n: nat)
    requires m <= n <= |vals| && n <= |tags|
    ensures SumTo(vals, tags, t, m) <= SumTo(vals, tags, t, n)
  {
    if m < n {
      SumUpTo(vals, tags, t, m, n - 1);
    }
  }

  /** The charts can be arranged in order on stacks of this many columns and seven rows each. */
  ghost predicate Arrangeable(widths: seq<nat>, rows: nat, cols: nat) {
    exists stackOf, stacks: nat :: Packs(widths, stackOf, stacks, cols) && stacks * MIN_PLOT_ROWS <= rows
  }

  lemma FewerCharts(ws: seq<nat>, w: nat, rows: nat, cols: nat)
    requires Arrangeable(ws + [w], rows, cols)
    ensures Arrangeable(ws, rows, cols)
  {
    var n := |ws|;
    var stackOf, stacks: nat :| Packs(ws + [w], stackOf, stacks, cols) && stacks * MIN_PLOT_ROWS <= rows;
    forall s | 0 <= s < stacks ensures SumTo(ws, stackOf[..n], s, n) <= cols {
      SumFrame(ws, stackOf[..n], ws + [w], stackOf, s, n);
      SumUpTo(ws + [w], stackOf, s, n, n + 1);
    }
    assert Packs(ws, stackOf[..n], stacks, cols);
  }

  /** A chart that packing could not place does not fit in any arrangement. */
  lemma PlacesNext(ws: seq<nat>, at: Attempt, w: nat, rows: nat, cols: nat)
    requires at.Placed? && GoodAttempt(ws, at, rows, cols) && Arrangeable(ws + [w], rows, cols)
    ensures w <= cols
    ensures at.used + w <= cols || (at.used > 0 && (at.stacks + 1) * MIN_PLOT_ROWS <= rows)
  {
    var n, all := |ws|, ws + [w];
    var stackOf, stacks: nat :| Packs(all, stackOf, stacks, cols) && stacks * MIN_PLOT_ROWS <= rows;
    SumAtLeast(all, stackOf, n, n + 1);
    assert SumTo(all, stackOf, stackOf[n], n + 1) <= cols;
    if at.used + w > cols {
      assert n > 0;
      NeedsNext(ws, at, w, cols, rows, stackOf, stacks);
      MulOrder(at.stacks + 1, stacks, MIN_PLOT_ROWS);
    }
  }

  lemma NeedsNext(ws: seq<nat>, at: Attempt, w: nat, cols: nat, rows: nat, stackOf: seq<nat>, stacks: nat)
    requires at.Placed? && GoodAttempt(ws, at, rows, cols) && |ws| > 0 && at.used + w > cols
    requires Packs(ws + [w], stackOf, stacks, cols)
    ensures stacks > at.stacks
  {
    var n, all := |ws|, ws + [w];
    forall s | 0 <= s < stacks ensures SumTo(ws, stackOf[..n], s, n) <= cols {
      SumFrame(ws, stackOf[..n], all, stackOf, s, n);
      SumUpTo(all, stackOf, s, n, n + 1);
    }
    assert Packs(ws, stackOf[..n], stacks, cols);
    NextFitIsFirst(ws, at.stackOf, stackOf[..n], stacks, cols, n - 1);
    assert at.stacks - 1 <= stackOf[n - 1] <= stackOf[n];
    SumOnLast(ws, at.stackOf, w, stackOf, at.stacks - 1);
  }

  /** A chart put on the last stack of a packing stands beside all charts of that stack. */
  lemma SumOnLast(ws: seq<nat>, first: seq<nat>, w: nat, other: seq<nat>, t: nat)
    requires |first| == |ws| && |other| == |ws| + 1 && InOrder(other)
    requires forall j :: 0 <= j < |ws| ==> first[j] <= other[j]
    ensures other[|ws|] == t ==> SumTo(ws, first, t, |ws|) + w <= SumTo(ws + [w], other, t, |ws| + 1)
  {
    var n, all := |ws|, ws + [w];
    if other[n] == t {
      forall j | 0 <= j < n && first[j] == t ensures other[j] == t {
        assert first[j] <= other[j] <= other[n];
      }
      SumOfFewer(ws, first, other, t, n);
      SumFrame(ws, other, all, other, t, n);
    }
  }

  lemma WidthsOfNext(infos: seq<nat>, n: nat)
    requires n < |infos|
    ensures Widths(Compact(infos, n + 1))
            == Widths(Compact(infos, n)) + if infos[n] > 0 then [MinPlotCols(infos[n])] else []
  {
    if infos[n] > 0 {
      WidthsAppend(Compact(infos, n), infos[n]);
    } else {
      assert Compact(infos, n + 1) == Compact(infos, n);
    }
  }

  lemma {:induction false} ArrangeableIsPlaced(infos: seq<nat>, rows: nat, cols: nat, n: nat)
    requires n <= |infos| && rows >= MIN_PLOT_ROWS && Arrangeable(Widths(Compact(infos, n)), rows, cols)
    ensures TryPack(infos, rows, cols, n).Placed?
  {
    if n > 0 {
      var k: nat := n - 1;
      WidthsOfNext(infos, k);
      var ws, w := Widths(Compact(infos, k)), MinPlotCols(infos[k]);
      if infos[k] > 0 {
        FewerCharts(ws, w, rows, cols);
        ArrangeableIsPlaced(infos, rows, cols, k);
        PlacedIsNextFit(infos, rows, cols, k);
        PlacesNext(ws, TryPack(infos, rows, cols, k), w, rows, cols);
      } else {
        ArrangeableIsPlaced(infos, rows, cols, k);
      }
    }
  }

  /** Packing succeeds if and only if the charts can be arranged in order. */
  lemma PackingMissesNothing(infos: seq<nat>, rows: nat, cols: nat)
    requires rows >= MIN_PLOT_ROWS
    ensures TryPack(infos, rows, cols, |infos|).Placed? <==> Arrangeable(Widths(Compact(infos, |infos|)), rows, cols)
  {
    PlacedIsNextFit(infos, rows, cols, |infos|);
    if Arrangeable(Widths(Compact(infos, |infos|)), rows, cols) {
      ArrangeableIsPlaced(infos, rows, cols, |infos|);
    }
  }

  /** It is given up without merging only for a chart that is wider than the screen. */
  lemma {:induction false} TooWideForScreen(infos: seq<nat>, rows: nat, cols: nat, n: nat) returns (p: nat)
    requires n <= |infos| && TryPack(infos, rows, cols, n).TooWide?
    ensures p < n && infos[p] > 0 && MinPlotCols(infos[p]) > cols
  {
    if TryPack(infos, rows, cols, n - 1).TooWide? {
      p := TooWideForScreen(infos, rows, cols, n - 1);
    } else {
      p := n - 1;
    }
  }
}
