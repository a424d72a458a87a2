/**
 * The pure layout arithmetic of the badge grid and the window (main.go):
 * row count, badge size, the window size `Layout` asks for, and where the
 * draw loop puts each badge.
 */
module Grid {
  import opened Wrappers

  /** Side of a badge at size multiple 1, in pixels. */
  const DefaultBadgeSize: int := 64

  /** Gap between the grid and the detail panel, in pixels. */
  const Spacer: int := 64

  /** Height reserved below the grid for the detail panel. */
  const DetailsHeight: int := Spacer + 200

  /** The vertical step between grid rows in the draw loop: a literal, not the badge size. */
  const RowStep: int := 64

  /** Side of a badge on screen: a whole number of default badge sides, from which the multiple is read back. */
  function AchievementSize(sizeMultiple: int): (size: int)
    ensures size % DefaultBadgeSize == 0 && size / DefaultBadgeSize == sizeMultiple
  {
    DefaultBadgeSize * sizeMultiple
  }

  /**
   * Number of grid rows for `n` achievements at `perRow` per row: the ceiling
   * of n / perRow. For a positive width it is the least row count whose cells
   * hold all `n`; a width lowered below zero gives the ceiling of a negative
   * quotient, so zero or fewer rows.
   */
  function NumberOfAchievementRows(n: int, perRow: int): (rows: int)
    requires perRow != 0
    ensures perRow > 0 ==> (rows - 1) * perRow < n <= rows * perRow
    ensures perRow < 0 ==> rows * perRow <= n < (rows - 1) * perRow
    ensures n >= 0 && perRow > 0 ==> rows >= 0
    ensures n >= 0 && perRow < 0 ==> rows <= 0
  {
    if perRow > 0 then
      CeilingByPositiveWidth(n, perRow);
      (n + perRow - 1) / perRow
    else
      CeilingByNegativeWidth(n, perRow);
      -(n / -perRow)
  }

  lemma CeilingByPositiveWidth(n: int, perRow: int)
    requires perRow > 0
    ensures var rows := (n + perRow - 1) / perRow;
            (rows - 1) * perRow < n <= rows * perRow && (n >= 0 ==> rows >= 0)
  {
    var rows := (n + perRow - 1) / perRow;
    var rem := (n + perRow - 1) % perRow;
    assert n + perRow - 1 == rows * perRow + rem && 0 <= rem < perRow;
    assert rows * perRow == n + perRow - 1 - rem;
    assert (rows - 1) * perRow == rows * perRow - perRow;
  }

  lemma CeilingByNegativeWidth(n: int, perRow: int)
    requires perRow < 0
    ensures var rows := -(n / -perRow);
            rows * perRow <= n < (rows - 1) * perRow && (n >= 0 ==> rows <= 0)
  {
    var w := -perRow;
    var q, rem := n / w, n % w;
    assert n == q * w + rem && 0 <= rem < w;
    assert (-q) * perRow == q * w;
    assert (-q - 1) * perRow == q * w + w;
  }

  lemma PositiveFactor(a: int, b: int)
    requires b > 0 && a * b > 0
    ensures a > 0
  {
  }

  lemma MulMonotone(a: int, b: int, c: int)
    requires a <= b && c >= 0
    ensures a * c <= b * c
  {
    assert b * c - a * c == (b - a) * c;
  }

  /** Every index below `n` lands on a row below the row count. */
  lemma CellRowWithinRows(n: int, perRow: int, i: int)
    requires perRow >= 1 && 0 <= i < n
    ensures 0 <= i / perRow < NumberOfAchievementRows(n, perRow)
  {
    var rows := NumberOfAchievementRows(n, perRow);
    var q, r := i / perRow, i % perRow;
    assert i == q * perRow + r && 0 <= r < perRow;
    assert (rows - q) * perRow == rows * perRow - q * perRow;
    assert (rows - q) * perRow > 0;
    PositiveFactor(rows - q, perRow);
  }

  /**
   * The window size `Layout` asks for when the window does not already have
   * it: the grid's width, and the grid's height plus the detail panel. None
   * when the window already has that size.
   */
  function WindowRequest(n: int, perRow: int, sizeMultiple: int, outsideWidth: int, outsideHeight: int): (r: Option<(int, int)>)
    requires perRow != 0
    ensures r.None? <==>
      (outsideWidth == perRow * AchievementSize(sizeMultiple) &&
       outsideHeight == NumberOfAchievementRows(n, perRow) * AchievementSize(sizeMultiple) + DetailsHeight)
    ensures r.Some? ==> r.value.0 == perRow * AchievementSize(sizeMultiple)
    ensures r.Some? ==> r.value.1 - DetailsHeight == NumberOfAchievementRows(n, perRow) * AchievementSize(sizeMultiple)
  {
    var rows := NumberOfAchievementRows(n, perRow);
    var size := AchievementSize(sizeMultiple);
    var height := rows * size + DetailsHeight;
    var width := perRow * size;
    if height != outsideHeight || width != outsideWidth then Some((width, height)) else None
  }

  /** Once the window has the requested size, `Layout` asks for nothing more. */
  lemma WindowRequestSettles(n: int, perRow: int, sizeMultiple: int, outsideWidth: int, outsideHeight: int)
    requires perRow != 0
    requires WindowRequest(n, perRow, sizeMultiple, outsideWidth, outsideHeight).Some?
    ensures var (w, h) := WindowRequest(n, perRow, sizeMultiple, outsideWidth, outsideHeight).value;
            WindowRequest(n, perRow, sizeMultiple, w, h) == None
  {
  }

  /**
   * With a positive badge size, the requested height holds every badge of the
   * grid, measured in badge-size rows, above the detail panel.
   */
  lemma RequestedHeightHoldsGrid(n: int, perRow: int, sizeMultiple: int, i: int)
    requires perRow >= 1 && sizeMultiple >= 1 && 0 <= i < n
    ensures (i / perRow + 1) * AchievementSize(sizeMultiple)
            <= NumberOfAchievementRows(n, perRow) * AchievementSize(sizeMultiple)
  {
    CellRowWithinRows(n, perRow, i);
    MulMonotone(i / perRow + 1, NumberOfAchievementRows(n, perRow), AchievementSize(sizeMultiple));
  }

  /**
   * For a positive width and size multiple, every badge the draw loop places
   * lies inside the grid `Layout` requests: its right edge within the row
   * width, and its bottom edge within the grid height, since the fixed row
   * step never exceeds the badge side.
   */
  lemma BadgeDrawnInsideRequestedGrid(n: int, perRow: int, sizeMultiple: int, i: nat, selected: int)
    requires perRow >= 1 && sizeMultiple >= 1 && i < n
    ensures CellAt(i, perRow, AchievementSize(sizeMultiple), selected).y + AchievementSize(sizeMultiple)
            <= NumberOfAchievementRows(n, perRow) * AchievementSize(sizeMultiple)
    ensures CellAt(i, perRow, AchievementSize(sizeMultiple), selected).x + AchievementSize(sizeMultiple)
            <= perRow * AchievementSize(sizeMultiple)
  {
    var size := AchievementSize(sizeMultiple);
    var c := CellAt(i, perRow, size, selected);
    RequestedHeightHoldsGrid(n, perRow, sizeMultiple, i);
    MulMonotone(RowStep, size, c.row);
    assert c.y + size == c.row * RowStep + size <= c.row * size + size == (c.row + 1) * size;
    MulMonotone(c.column + 1, perRow, size);
    assert c.x + size == (c.column + 1) * size;
  }

  /** Where the draw loop puts the badge at index `i`. */
  datatype Cell = Cell(row: int, column: int, x: int, y: int, highlighted: bool)

  /**
   * The cell of index `i`: column i mod perRow, row i div perRow (with Go's
   * remainder, which for i >= 0 depends only on the magnitude of perRow),
   * x advancing by the badge size and y by the fixed row step.
   */
  function CellAt(i: nat, perRow: int, size: int, selected: int): (c: Cell)
    requires perRow != 0
    ensures 0 <= c.column < Magnitude(perRow) && 0 <= c.row
    ensures c.row * Magnitude(perRow) + c.column == i
    ensures c.x == size * c.column && c.y == RowStep * c.row
    ensures c.highlighted <==> i == selected
  {
    var width := Magnitude(perRow);
    Cell(i / width, i % width, size * (i % width), RowStep * (i / width), i == selected)
  }

  function Magnitude(x: int): nat {
    if x >= 0 then x else -x
  }

  lemma MultipleBelowUnitIsZero(d: int, w: int)
    requires w > 0 && -w < d * w < w
    ensures d == 0
  {
  }

  /** Quotient and remainder by a positive divisor are unique. */
  lemma DivModUnique(i: int, w: int, q: int, r: int)
    requires w > 0 && i == q * w + r && 0 <= r < w
    ensures q == i / w && r == i % w
  {
    var q0, r0 := i / w, i % w;
    assert i == q0 * w + r0 && 0 <= r0 < w;
    assert (q - q0) * w == q * w - q0 * w;
    MultipleBelowUnitIsZero(q - q0, w);
  }

  /**
   * Go's `i % perRow` for i >= 0 and Dafny's agree, and depend only on the
   * magnitude of perRow.
   */
  lemma ModByMagnitude(i: nat, perRow: int)
    requires perRow != 0
    ensures i % perRow == i % Magnitude(perRow)
  {
    if perRow < 0 {
      var w := -perRow;
      var q, r := i / perRow, i % perRow;
      assert i == q * perRow + r && 0 <= r < w;
      assert i == (-q) * w + r;
      DivModUnique(i, w, -q, r);
    }
  }

  /**
   * The draw loop's row counter: index i > 0 starts a new row exactly when it
   * is a multiple of the row width, and then the row is one more than that of
   * index i - 1.
   */
  lemma RowAdvance(i: nat, w: int)
    requires w > 0 && i > 0
    ensures i % w == 0 ==> i / w == (i - 1) / w + 1
    ensures i % w != 0 ==> i / w == (i - 1) / w
  {
    var q', r' := (i - 1) / w, (i - 1) % w;
    assert i - 1 == q' * w + r' && 0 <= r' < w;
    if r' == w - 1 {
      assert i == (q' + 1) * w + 0;
      DivModUnique(i, w, q' + 1, 0);
    } else {
      assert i == q' * w + (r' + 1);
      DivModUnique(i, w, q', r' + 1);
    }
  }

  /**
   * The worked example of the layout: 20 achievements at 8 per row put index 17
   * on row 2, column 1, in a grid of 3 rows.
   */
  lemma SeventeenthOfTwentyAtRowTwoColumnOne()
    ensures CellAt(17, 8, 64, 0).row == 2 && CellAt(17, 8, 64, 0).column == 1
    ensures NumberOfAchievementRows(20, 8) == 3
  {
  }

  /**
   * The fixed row step equals the badge side only at size multiple 1: at any
   * other multiple consecutive rows overlap (multiple > 1) or leave gaps.
   */
  lemma RowStepMatchesBadgeOnlyAtMultipleOne(sizeMultiple: int)
    ensures RowStep == AchievementSize(sizeMultiple) <==> sizeMultiple == 1
  {
  }

  /**
   * The window size set at start-up (main.go:343-344): the grid's width, but
   * the ROW COUNT as the height in pixels.
   */
  function StartingWindowSize(n: int, perRow: int, sizeMultiple: int): (r: (int, int))
    requires perRow != 0
    ensures r.0 == perRow * AchievementSize(sizeMultiple)
    ensures r.1 == NumberOfAchievementRows(n, perRow)
  {
    (DefaultBadgeSize * perRow * sizeMultiple, NumberOfAchievementRows(n, perRow))
  }

  /**
   * For any positive size multiple and any non-zero row width, the first
   * `Layout` replaces the start-up height.
   */
  lemma StartingSizeIsResizedByLayout(n: int, perRow: int, sizeMultiple: int)
    requires perRow != 0 && n >= 0 && sizeMultiple >= 1
    ensures var (w, h) := StartingWindowSize(n, perRow, sizeMultiple);
            WindowRequest(n, perRow, sizeMultiple, w, h).Some?
  {
    var rows := NumberOfAchievementRows(n, perRow);
    var size := AchievementSize(sizeMultiple);
    assert size >= DefaultBadgeSize;
    if perRow > 0 {
      assert rows * size - rows == rows * (size - 1) >= 0;
    } else {
      RowCountNeverOffsetsPanel(-rows, size);
      assert rows * size + DetailsHeight - rows == DetailsHeight - (-rows) * (size - 1);
    }
  }

  /**
   * No number k >= 0 of rows shrinks a badge side of at least 64 pixels, less
   * one, into exactly the detail panel's height.
   */
  lemma RowCountNeverOffsetsPanel(k: int, size: int)
    requires k >= 0 && size >= DefaultBadgeSize && size % DefaultBadgeSize == 0
    ensures k * (size - 1) != DetailsHeight
  {
    var m := size / DefaultBadgeSize;
    assert size == DefaultBadgeSize * m;
    if k >= 5 {
      MulMonotone(5, k, size - 1);
    } else {
      var j := k * m;
      assert k * (size - 1) == k * size - k;
      assert k * size == DefaultBadgeSize * j;
    }
  }
}
