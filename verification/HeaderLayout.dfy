/**
 The device header (src/interface_layout_selection.c:247-252, 341-368): a grid of
 device windows, filled row by row.
 */
module HeaderLayout {
  import opened CIntegers
  import opened Arithmetic
  import opened ChartGrid

  /** C subtraction of unsigned int. */
  function UnsignedSub(a: nat, b: nat): (r: nat)
    requires a < TWO_32 && b < TWO_32
    ensures r < TWO_32
    ensures a >= b ==> r == a - b
  {
    (a - b) % TWO_32
  }

  function Pred(n: nat): nat { if n > 0 then n - 1 else 0 }

  function BoolToNat(b: bool): nat { if b then 1 else 0 }

  // -------------------------------------------------------------- header ----

  datatype Header = Header(perRow: nat, stacks: nat)

  /** How many device headers fit side by side. */
  function FitPerRow(headerCols: nat, cols: nat): (per: nat)
    requires headerCols > 0
    ensures per >= 1
  {
    Max(1, cols / headerCols)
  }

  function RowsNeeded(devices: nat, per: nat): (stacks: nat)
    requires per > 0
    ensures stacks >= 1
  {
    Max(1, devices / per + BoolToNat(devices % per > 0))
  }

  function HeaderGrid(devices: nat, headerCols: nat, cols: nat): (g: Header)
    requires headerCols > 0
    ensures g.stacks >= 1
  {
    var per := FitPerRow(headerCols, cols);
    var stacks := RowsNeeded(devices, per);
    Header(if devices % stacks == 0 then devices / stacks else per, stacks)
  }

  lemma CeilCovers(d: nat, per: nat)
    requires per > 0
    ensures d <= (d / per + BoolToNat(d % per > 0)) * per
  {
    var q, r := d / per, d % per;
    assert d == q * per + r;
    if r > 0 {
      assert (q + 1) * per == q * per + per;
    }
  }

  lemma QuotientBelow(d: nat, stacks: nat, per: nat)
    requires stacks > 0 && d <= stacks * per
    ensures d / stacks <= per
  {
    DivideAtLeast(d, 0, stacks);
    MulOrder(per + 1, d / stacks, stacks);
    assert per * stacks == stacks * per;
    assert (per + 1) * stacks == per * stacks + stacks;
  }

  lemma RowsCover(devices: nat, per: nat)
    requires per > 0
    ensures devices <= RowsNeeded(devices, per) * per
  {
    CeilCovers(devices, per);
    MulOrder(devices / per + BoolToNat(devices % per > 0), RowsNeeded(devices, per), per);
  }

  lemma FitsSideBySide(headerCols: nat, cols: nat, n: nat)
    requires headerCols > 0 && n <= FitPerRow(headerCols, cols)
    ensures cols >= headerCols ==> n * headerCols <= cols
    ensures cols < headerCols ==> n <= 1
  {
    if cols >= headerCols {
      DivideAtLeast(cols, 1, headerCols);
      MulOrder(n, cols / headerCols, headerCols);
    } else {
      MulOrder(1, cols / headerCols, headerCols);
      DivideAtLeast(cols, 0, headerCols);
    }
  }

  lemma SpreadEvenly(devices: nat, stacks: nat, per: nat)
    requires stacks > 0 && devices <= stacks * per && devices % stacks == 0
    ensures devices / stacks <= per && devices == stacks * (devices / stacks)
    ensures devices > 0 ==> devices / stacks >= 1
  {
    QuotientBelow(devices, stacks, per);
    var q := devices / stacks;
    if q == 0 {
      assert stacks * q == 0;
    }
  }

  /** Every device has a cell. */
  lemma GridHasCells(devices: nat, headerCols: nat, cols: nat)
    requires headerCols > 0
    ensures devices <= Steps(HeaderGrid(devices, headerCols, cols).perRow, HeaderGrid(devices, headerCols, cols).stacks)
    ensures devices > 0 ==> HeaderGrid(devices, headerCols, cols).perRow >= 1
    ensures HeaderGrid(devices, headerCols, cols).perRow <= FitPerRow(headerCols, cols)
  {
    var g, per := HeaderGrid(devices, headerCols, cols), FitPerRow(headerCols, cols);
    RowsCover(devices, per);
    if devices % g.stacks == 0 {
      SpreadEvenly(devices, g.stacks, per);
    }
    StepsProduct(g.perRow, g.stacks);
  }

  /** Every device has a cell, and a row of devices fits a screen at least one device wide. */
  lemma HeaderGridFits(devices: nat, headerCols: nat, cols: nat)
    requires headerCols > 0
    ensures var g := HeaderGrid(devices, headerCols, cols);
            && g.stacks >= 1 && devices <= Steps(g.perRow, g.stacks)
            && (devices > 0 ==> g.perRow >= 1) && (devices == 0 ==> g == Header(0, 1))
            && (cols >= headerCols ==> Steps(headerCols, g.perRow) <= cols)
            && (cols < headerCols ==> g.perRow <= 1)
  {
    var g := HeaderGrid(devices, headerCols, cols);
    GridHasCells(devices, headerCols, cols);
    FitsSideBySide(headerCols, cols, g.perRow);
    StepsProduct(headerCols, g.perRow);
  }

  /** No grid of devices side by side on the screen has fewer rows. */
  lemma HeaderGridIsSmallest(devices: nat, headerCols: nat, cols: nat, perRow: nat, stacks: nat)
    requires devices > 0 && 0 < headerCols <= cols
    requires perRow * headerCols <= cols && devices <= perRow * stacks
    ensures HeaderGrid(devices, headerCols, cols).stacks <= stacks
  {
    var per := FitPerRow(headerCols, cols);
    DivideAtLeast(cols, perRow, headerCols);
    assert perRow <= per;
    if stacks < RowsNeeded(devices, per) {
      FewerRowsHold(devices, per, stacks);
      TimesMore(perRow, per, stacks);
    }
  }

  lemma TimesMore(a: nat, b: nat, k: nat)
    requires a <= b
    ensures a * k <= b * k
  {
    assert b * k - a * k == (b - a) * k;
  }

  lemma FewerRowsHold(devices: nat, per: nat, stacks: nat)
    requires devices > 0 && per > 0 && stacks < RowsNeeded(devices, per)
    ensures per * stacks < devices
  {
    var q, r := devices / per, devices % per;
    assert devices == q * per + r;
    if r > 0 {
      MulOrder(stacks, q, per);
    } else if stacks >= 1 {
      MulOrder(stacks + 1, q, per);
      assert (stacks + 1) * per == stacks * per + per;
    }
    assert per * stacks == stacks * per;
  }

  /**
   On a screen narrower than one device every device has a row; otherwise either
   all rows are full, or each has room for no further device on the screen.
   */
  lemma HeaderRowsAreFull(devices: nat, headerCols: nat, cols: nat)
    requires devices > 0 && headerCols > 0
    ensures var g := HeaderGrid(devices, headerCols, cols);
            && (cols < headerCols ==> g == Header(1, devices))
            && (cols >= headerCols ==> Steps(g.perRow, g.stacks) == devices || cols < Steps(headerCols, g.perRow + 1))
  {
    var g, per := HeaderGrid(devices, headerCols, cols), FitPerRow(headerCols, cols);
    if cols < headerCols {
      DivModUnique(devices, 1, devices, 0);
    } else if devices % g.stacks == 0 {
      FullRows(devices, g.stacks);
    } else {
      NoFurtherDevice(headerCols, cols);
    }
  }

  lemma FullRows(devices: nat, stacks: nat)
    requires stacks > 0 && devices % stacks == 0
    ensures Steps(devices / stacks, stacks) == devices
  {
    StepsProduct(devices / stacks, stacks);
    assert devices == stacks * (devices / stacks);
  }

  lemma NoFurtherDevice(headerCols: nat, cols: nat)
    requires 0 < headerCols <= cols
    ensures cols < Steps(headerCols, FitPerRow(headerCols, cols) + 1)
  {
    var q := cols / headerCols;
    DivideAtLeast(cols, 1, headerCols);
    StepsProduct(headerCols, q + 1);
    assert headerCols * (q + 1) == headerCols * q + headerCols;
  }

  // ------------------------------------------------------ device windows ----

  /** Cell k of a grid filled row by row. */
  function CellRow(k: nat, perRow: nat): nat
    requires perRow > 0
  {
    k / perRow
  }

  function CellColumn(k: nat, perRow: nat): nat
    requires perRow > 0
  {
    k % perRow
  }

  /** The window of a cell. */
  function CellWindow(row: nat, col: nat, left: nat, stepX: nat, stepY: nat, headerCols: nat, headerRows: nat): Window {
    Window(left + Steps(stepX, col), Steps(stepY, row), headerCols, headerRows)
  }

  /** Device k has the window of cell k. */
  ghost predicate HeaderCells(ws: seq<Window>, g: Header, left: nat, stepX: nat, stepY: nat, headerCols: nat,
                              headerRows: nat) {
    && (|ws| > 0 ==> g.perRow > 0)
    && (forall k :: 0 <= k < |ws| ==>
          && CellRow(k, g.perRow) < g.stacks
          && ws[k] == CellWindow(CellRow(k, g.perRow), CellColumn(k, g.perRow), left, stepX, stepY, headerCols,
                                 headerRows))
  }

  lemma CellAt(g: Header, devices: nat, row: nat, col: nat, i: nat)
    requires devices <= Steps(g.perRow, g.stacks) && i < devices && col < g.perRow
    requires i == Steps(g.perRow, row) + col
    ensures row < g.stacks && CellRow(i, g.perRow) == row && CellColumn(i, g.perRow) == col
  {
    if row >= g.stacks {
      StepsMonotone(g.perRow, g.stacks, row);
    }
    StepsProduct(g.perRow, row);
    assert g.perRow * row == row * g.perRow;
    DivModUnique(i, row, g.perRow, col);
  }

  method PlaceHeaders(devices: nat, g: Header, headerRows: nat, headerCols: nat, left: nat, betweenCols: nat,
                      betweenRows: nat, positions: array<Window>)
    requires devices <= positions.Length && devices <= Steps(g.perRow, g.stacks) && (devices > 0 ==> g.perRow > 0)
    modifies positions
    ensures HeaderCells(positions[..devices], g, left, headerCols + betweenCols, headerRows + betweenRows, headerCols,
                        headerRows)
  {
    var x, y, thisRow := left, 0, 0;
    ghost var row: nat := 0;
    for i := 0 to devices
      invariant devices > 0 ==> thisRow < g.perRow
      invariant i == Steps(g.perRow, row) + thisRow
      invariant x == left + Steps(headerCols + betweenCols, thisRow)
      invariant y == Steps(headerRows + betweenRows, row)
      invariant HeaderCells(positions[..i], g, left, headerCols + betweenCols, headerRows + betweenRows, headerCols,
                            headerRows)
    {
      CellAt(g, devices, row, thisRow, i);
      positions[i] := Window(x, y, headerCols, headerRows);
      ExtendSlice(positions[..], 0, i);
      thisRow := thisRow + 1;
      if thisRow == g.perRow {
        x := left;
        y := y + headerRows + betweenRows;
        thisRow, row := 0, row + 1;
      } else {
        x := x + headerCols + betweenCols;
      }
    }
  }

  /** A later cell is in a later row, or further right in the same one. */
  lemma CellsInOrder(j: nat, k: nat, perRow: nat)
    requires j < k && perRow > 0
    ensures CellRow(j, perRow) <= CellRow(k, perRow)
    ensures CellRow(j, perRow) == CellRow(k, perRow) ==> CellColumn(j, perRow) < CellColumn(k, perRow)
  {
    var q, r := j / perRow, k / perRow;
    assert j == q * perRow + j % perRow && k == r * perRow + k % perRow;
    if r < q {
      MulOrder(r + 1, q, perRow);
    }
  }

  /** Device windows do not overlap. */
  lemma HeaderDisjoint(ws: seq<Window>, g: Header, left: nat, stepX: nat, stepY: nat, headerCols: nat, headerRows: nat)
    requires HeaderCells(ws, g, left, stepX, stepY, headerCols, headerRows)
    requires headerCols <= stepX && headerRows <= stepY
    ensures forall j, k :: 0 <= j < k < |ws| ==> ws[j].Apart(ws[k])
  {
    forall j, k | 0 <= j < k < |ws| ensures ws[j].Apart(ws[k]) {
      CellsInOrder(j, k, g.perRow);
      if CellRow(j, g.perRow) < CellRow(k, g.perRow) {
        StepsApart(stepY, CellRow(j, g.perRow), CellRow(k, g.perRow));
      } else {
        StepsApart(stepX, CellColumn(j, g.perRow), CellColumn(k, g.perRow));
      }
    }
  }

  /** One device window: right and bottom edge of the last cell bound it. */
  lemma CellExtent(ws: seq<Window>, g: Header, left: nat, stepX: nat, stepY: nat, headerCols: nat, headerRows: nat,
                   k: nat)
    requires HeaderCells(ws, g, left, stepX, stepY, headerCols, headerRows) && k < |ws|
    ensures g.perRow > 0 && g.stacks > 0
    ensures ws[k].posX + ws[k].sizeX <= left + Steps(stepX, g.perRow - 1) + headerCols
    ensures ws[k].posY + ws[k].sizeY <= Steps(stepY, g.stacks - 1) + headerRows
  {
    StepsMonotone(stepX, CellColumn(k, g.perRow), g.perRow - 1);
    StepsMonotone(stepY, CellRow(k, g.perRow), g.stacks - 1);
  }

  /** The last device is in the last row of the grid. */
  lemma LastRowIsUsed(devices: nat, headerCols: nat, cols: nat)
    requires devices > 0 && headerCols > 0
    ensures HeaderGrid(devices, headerCols, cols).perRow > 0
    ensures CellRow(devices - 1, HeaderGrid(devices, headerCols, cols).perRow)
            == HeaderGrid(devices, headerCols, cols).stacks - 1
  {
    var g, per := HeaderGrid(devices, headerCols, cols), FitPerRow(headerCols, cols);
    HeaderGridFits(devices, headerCols, cols);
    if devices % g.stacks == 0 {
      RowsCover(devices, per);
      SpreadEvenly(devices, g.stacks, per);
      LastOfEvenRows(devices, g.stacks, g.perRow);
    } else {
      LastOfRows(devices, per);
    }
  }

  lemma LastOfEvenRows(devices: nat, stacks: nat, q: nat)
    requires stacks > 0 && q > 0 && devices == stacks * q
    ensures devices > 0 && (devices - 1) / q == stacks - 1
  {
    assert (stacks - 1) * q + q == stacks * q;
    DivModUnique(devices - 1, stacks - 1, q, q - 1);
  }

  lemma LastOfRows(devices: nat, per: nat)
    requires devices > 0 && per > 0
    ensures (devices - 1) / per == RowsNeeded(devices, per) - 1
  {
    var q, r := devices / per, devices % per;
    assert devices == q * per + r;
    assert q == 0 ==> q * per == 0;
    if r > 0 {
      DivModUnique(devices - 1, q, per, r - 1);
    } else {
      LastOfEvenRows(devices, q, per);
    }
  }

  /** Where the last device window ends. */
  lemma HeaderReaches(ws: seq<Window>, g: Header, left: nat, stepX: nat, stepY: nat, headerCols: nat, headerRows: nat,
                      devices: nat, cols: nat)
    requires HeaderCells(ws, g, left, stepX, stepY, headerCols, headerRows) && |ws| == devices > 0
    requires headerCols > 0 && headerRows <= stepY && g == HeaderGrid(devices, headerCols, cols)
    ensures ws[devices - 1].posY + ws[devices - 1].sizeY >= Steps(headerRows, g.stacks)
  {
    LastRowIsUsed(devices, headerCols, cols);
    StepsLess(headerRows, stepY, g.stacks - 1);
  }

  lemma {:induction false} StepsLess(h: nat, h': nat, s: nat)
    requires h <= h'
    ensures Steps(h, s) <= Steps(h', s)
  {
    if s > 0 {
      StepsLess(h, h', s - 1);
    }
  }

  /** A blank column before the devices, if a column is left. */
  function BlankBefore(headerCols: nat, cols: nat, perRow: nat): nat {
    if (cols - Steps(headerCols, perRow)) % TWO_32 > 0 then 1 else 0
  }

  /** Blank columns between the devices, if more columns are left than devices stand in a row. */
  function BlankBetween(headerCols: nat, cols: nat, perRow: nat): nat {
    if (cols - Steps(headerCols, perRow)) % TWO_32 > perRow then 1 else 0
  }

  /** The blank columns of the header: before the first device, and between devices. */
  method HeaderSpacing(devices: nat, headerCols: nat, cols: nat, perRow: nat) returns (left: nat, between: nat)
    requires headerCols < TWO_32 && cols < TWO_32 && Steps(headerCols, perRow) < TWO_32
    ensures perRow > 0 ==> left == BlankBefore(headerCols, cols, perRow)
    ensures perRow > 0 ==> between == BlankBetween(headerCols, cols, perRow)
    ensures left <= 1 && between <= 1
    ensures perRow > 0 && Steps(headerCols, perRow) <= cols ==>
              left + Steps(headerCols, perRow) + (if between == 1 then perRow - 1 else 0) <= cols
    // blanks are left out only when there is no room for them
    ensures perRow > 0 && Steps(headerCols, perRow) <= cols ==>
              && (left == 1 <==> cols > Steps(headerCols, perRow))
              && (between == 1 <==> cols > Steps(headerCols, perRow) + perRow)
  {
    StepsProduct(headerCols, perRow);
    var colsLeft := UnsignedSub(cols, perRow * headerCols);
    between := 0;
    if colsLeft > perRow {
      between := 1;
      colsLeft := UnsignedSub(colsLeft, UnsignedSub(perRow, 1));
    }
    left := if colsLeft > 0 then 1 else 0;
  }

  /**
   The two unsigned subtractions of the header code (the second one is reached
   only if more columns than devices per row are left) do not wrap around exactly
   when there is a device and the screen is as wide as one device header, or there
   is neither a device nor a column.
   */
  lemma HeaderSubtractionsAreSafe(devices: nat, headerCols: nat, cols: nat)
    requires headerCols > 0
    ensures var g := HeaderGrid(devices, headerCols, cols);
            var used := Steps(headerCols, g.perRow);
            (used <= cols && (cols - used > g.perRow ==> 1 <= g.perRow))
            <==> (devices > 0 && cols >= headerCols) || (devices == 0 && cols == 0)
  {
    HeaderGridFits(devices, headerCols, cols);
    var g := HeaderGrid(devices, headerCols, cols);
    if cols < headerCols && g.perRow >= 1 {
      assert Steps(headerCols, 1) == headerCols;
    }
  }

  // ----------------------------------------------------------- the whole header ----

  /** The device windows: disjoint, and on the screen unless it is narrower than one of them. */
  ghost predicate HeaderPlaced(ws: seq<Window>, headerRows: nat, headerCols: nat, cols: nat) {
    && (forall k :: 0 <= k < |ws| ==> ws[k].sizeX == headerCols && ws[k].sizeY == headerRows)
    && (forall j, k :: 0 <= j < k < |ws| ==> ws[j].Apart(ws[k]))
    && (cols >= headerCols ==> forall k :: 0 <= k < |ws| ==> ws[k].posX + ws[k].sizeX <= cols)
  }

  /** Every device is in its cell of the grid, with the blanks there is room for. */
  ghost predicate InCells(ws: seq<Window>, headerRows: nat, headerCols: nat, cols: nat, spaced: bool)
    requires headerCols > 0
  {
    var g := HeaderGrid(|ws|, headerCols, cols);
    ws != [] ==> HeaderCells(ws, g, BlankBefore(headerCols, cols, g.perRow),
                             headerCols + BlankBetween(headerCols, cols, g.perRow), headerRows + BoolToNat(spaced),
                             headerCols, headerRows)
  }

  ghost predicate AllAbove(ws: seq<Window>, bottom: nat) {
    forall k :: 0 <= k < |ws| ==> ws[k].posY + ws[k].sizeY <= bottom
  }

  lemma HeaderRowBounded(devices: nat, headerCols: nat, cols: nat)
    requires 0 < headerCols < TWO_32 && cols < TWO_32
    ensures Steps(headerCols, HeaderGrid(devices, headerCols, cols).perRow) < TWO_32
  {
    HeaderGridFits(devices, headerCols, cols);
    if cols < headerCols {
      StepsMonotone(headerCols, HeaderGrid(devices, headerCols, cols).perRow, 1);
    }
  }

  lemma HeaderIsPlaced(ws: seq<Window>, g: Header, left: nat, between: nat, blank: nat,
                       headerRows: nat, headerCols: nat, cols: nat)
    requires HeaderCells(ws, g, left, headerCols + between, headerRows + blank, headerCols, headerRows)
    requires between <= 1 && blank <= 1
    requires g.perRow > 0 && cols >= headerCols ==>
               left + Steps(headerCols, g.perRow) + (if between == 1 then g.perRow - 1 else 0) <= cols
    ensures HeaderPlaced(ws, headerRows, headerCols, cols)
    ensures AllAbove(ws, Steps(headerRows, g.stacks) + if blank == 1 then Pred(g.stacks) else 0)
  {
    HeaderDisjoint(ws, g, left, headerCols + between, headerRows + blank, headerCols, headerRows);
    forall k | 0 <= k < |ws|
      ensures ws[k].posY + ws[k].sizeY <= Steps(headerRows, g.stacks) + if blank == 1 then Pred(g.stacks) else 0
      ensures cols >= headerCols ==> ws[k].posX + ws[k].sizeX <= cols
    {
      CellExtent(ws, g, left, headerCols + between, headerRows + blank, headerCols, headerRows, k);
      StepsSpaced(headerRows, blank, g.stacks);
      StepsSpaced(headerCols, between, g.perRow);
    }
  }

  lemma CellsShown(ws: seq<Window>, g: Header, left: nat, between: nat, spaced: bool, headerRows: nat, headerCols: nat,
                   cols: nat)
    requires headerCols > 0 && g == HeaderGrid(|ws|, headerCols, cols)
    requires ws != [] ==> left == BlankBefore(headerCols, cols, g.perRow)
    requires ws != [] ==> between == BlankBetween(headerCols, cols, g.perRow)
    requires HeaderCells(ws, g, left, headerCols + between, headerRows + BoolToNat(spaced), headerCols, headerRows)
    ensures InCells(ws, headerRows, headerCols, cols, spaced)
  {
  }

  lemma HeaderIsArranged(ws: seq<Window>, g: Header, left: nat, between: nat, blank: nat, headerRows: nat,
                         headerCols: nat, cols: nat)
    requires headerCols > 0 && g == HeaderGrid(|ws|, headerCols, cols) && between <= 1 && blank <= 1
    requires g.perRow > 0 && cols >= headerCols ==>
               left + Steps(headerCols, g.perRow) + (if between == 1 then g.perRow - 1 else 0) <= cols
    requires HeaderCells(ws, g, left, headerCols + between, headerRows + blank, headerCols, headerRows)
    ensures HeaderPlaced(ws, headerRows, headerCols, cols)
    ensures AllAbove(ws, Steps(headerRows, g.stacks) + if blank == 1 then Pred(g.stacks) else 0)
    ensures ws != [] ==> ws[|ws| - 1].posY + ws[|ws| - 1].sizeY >= Steps(headerRows, g.stacks)
  {
    HeaderIsPlaced(ws, g, left, between, blank, headerRows, headerCols, cols);
    if ws != [] {
      HeaderReaches(ws, g, left, headerCols + between, headerRows + blank, headerCols, headerRows, |ws|, cols);
    }
  }

  method ArrangeHeader(devices: nat, g: Header, headerRows: nat, headerCols: nat, cols: nat, spaced: bool,
                       devicePositions: array<Window>)
    requires 0 < headerCols < TWO_32 && cols < TWO_32
    requires devices <= devicePositions.Length && g == HeaderGrid(devices, headerCols, cols)
    modifies devicePositions
    ensures HeaderPlaced(devicePositions[..devices], headerRows, headerCols, cols)
    ensures InCells(devicePositions[..devices], headerRows, headerCols, cols, spaced)
    ensures AllAbove(devicePositions[..devices], Steps(headerRows, g.stacks) + if spaced then g.stacks - 1 else 0)
    // and no higher than that without blanks
    ensures devices > 0 ==>
              devicePositions[devices - 1].posY + devicePositions[devices - 1].sizeY >= Steps(headerRows, g.stacks)
  {
    HeaderGridFits(devices, headerCols, cols);
    HeaderRowBounded(devices, headerCols, cols);
    var blank := BoolToNat(spaced);
    var left, between := HeaderSpacing(devices, headerCols, cols, g.perRow);
    PlaceHeaders(devices, g, headerRows, headerCols, left, between, blank, devicePositions);
    HeaderIsArranged(devicePositions[..devices], g, left, between, blank, headerRows, headerCols, cols);
    CellsShown(devicePositions[..devices], g, left, between, spaced, headerRows, headerCols, cols);
  }
}
