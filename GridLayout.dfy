/**
 * Grid arithmetic of the side-by-side and stacked compositions: how many
 * columns and rows, and the size of one cell on the fixed canvas.
 */
module GridLayout {

  const CanvasWidth: nat := 1920
  const CanvasHeight: nat := 1080
  const StackWidth: nat := 640

  datatype Layout = Layout(cols: nat, rows: nat, cellWidth: nat, cellHeight: nat)

  /** Multiplication by a natural number is monotone. */
  lemma MulLe(x: nat, a: int, b: int)
    ensures a <= b ==> x * a <= x * b
  {
    if a <= b {
      assert x * b == x * a + x * (b - a);
    }
  }

  lemma SquareMonotone(a: nat, b: nat)
    ensures a <= b ==> a * a <= b * b
  {
    MulLe(a, a, b);
    MulLe(b, a, b);
  }

  /** Floor division brackets its dividend. */
  lemma FloorDiv(a: nat, b: nat)
    requires b > 0
    ensures b * (a / b) <= a < b * (a / b) + b
  {
    assert a == b * (a / b) + a % b;
  }

  /** The quotient is the unique q with b * q <= a < b * q + b. */
  lemma DivUnique(a: nat, b: nat, q: int)
    requires b > 0
    requires b * q <= a < b * q + b
    ensures a / b == q
  {
    FloorDiv(a, b);
    MulLe(b, q + 1, a / b);
    MulLe(b, a / b + 1, q);
  }

  /** The least c >= from with c * c >= n, given that no smaller c qualifies. */
  function LeastSquareFrom(n: nat, from: nat): (c: nat)
    requires from == 0 || (from - 1) * (from - 1) < n
    ensures c >= from && c * c >= n
    ensures c == 0 || (c - 1) * (c - 1) < n
    decreases n - from
  {
    if from * from >= n then from
    else
      MulLe(from, 1, from);
      LeastSquareFrom(n, from + 1)
  }

  /** `Math.ceil(Math.sqrt(n))`, as the least c with c * c >= n. */
  function CeilSqrt(n: nat): (c: nat)
    ensures c * c >= n
    ensures c == 0 || (c - 1) * (c - 1) < n
  {
    LeastSquareFrom(n, 0)
  }

  /** No smaller number of columns covers n cells in a square. */
  lemma CeilSqrtLeast(n: nat, k: nat)
    requires k * k >= n
    ensures CeilSqrt(n) <= k
  {
    var c := CeilSqrt(n);
    if c > 0 {
      SquareMonotone(k, c - 1);
    }
  }

  /** `Math.ceil(a / b)` for a positive divisor. */
  function CeilDiv(a: nat, b: nat): (q: nat)
    requires b > 0
    ensures b * q >= a
    ensures b * q - a < b
  {
    var q := a / b;
    FloorDiv(a, b);
    if b * q == a then q else q + 1
  }

  /** Columns and rows for n clips: 3 and 5 are hard-wired to 3x1 and 3x2,
      everything else is ceil(sqrt n) columns and as many rows as needed. */
  function Dimensions(n: nat): (cr: (nat, nat))
    requires n >= 2
    ensures cr.0 >= 2 && cr.1 >= 1
  {
    var cols := CeilSqrt(n);
    SquareMonotone(cols, 1);
    var rows := CeilDiv(n, cols);
    if n == 3 then (3, 1)
    else if n == 5 then (3, 2)
    else (cols, rows)
  }

  /** The side-by-side layout on the 1920x1080 canvas. */
  function SideBySideLayout(n: nat): (l: Layout)
    requires n >= 2
    ensures l.cols >= 2 && l.rows >= 1
    ensures l.cols * l.cellWidth <= CanvasWidth < l.cols * l.cellWidth + l.cols
    ensures l.rows * l.cellHeight <= CanvasHeight < l.rows * l.cellHeight + l.rows
  {
    var (cols, rows) := Dimensions(n);
    FloorDiv(CanvasWidth, cols);
    FloorDiv(CanvasHeight, rows);
    Layout(cols, rows, CanvasWidth / cols, CanvasHeight / rows)
  }

  /** Height of one clip in the vertical stack: `floor(1080 / n)`. */
  function StackCellHeight(n: nat): (h: nat)
    requires n >= 1
    ensures n * h <= CanvasHeight < n * h + n
  {
    FloorDiv(CanvasHeight, n);
    CanvasHeight / n
  }

  /** Every grid has room for all clips and at most one row that is not full. */
  lemma GridCovers(n: nat)
    requires n >= 2
    ensures var l := SideBySideLayout(n);
            l.cols * l.rows >= n && l.cols * l.rows - n < l.cols && l.rows <= l.cols
  {
    var (c, q) := Dimensions(n);
    assert SideBySideLayout(n).cols == c && SideBySideLayout(n).rows == q;
    if n != 3 && n != 5 {
      assert c == CeilSqrt(n) && q == CeilDiv(n, c);
      FewerRowsThanColumns(n, c, q);
    }
  }

  /** Rows of the generic rule: with c * c >= n, the least covering row count is at most c. */
  lemma FewerRowsThanColumns(n: nat, c: nat, q: nat)
    requires c > 0 && c * c >= n && c * q - n < c
    ensures q <= c
  {
    MulLe(c, c + 1, q);
    assert c * (c + 1) == c * c + c;
  }

  /** The two hard-wired cases. */
  lemma SpecialCases()
    ensures Dimensions(3) == (3, 1) && Dimensions(5) == (3, 2)
  {
  }

  /** For 5 clips the square-root rule already gives 3x2; for 3 clips it would give 2x2 with one filler. */
  lemma SpecialCasesAgainstGenericRule()
    ensures CeilSqrt(5) == 3 && CeilDiv(5, 3) == 2
    ensures CeilSqrt(3) == 2 && CeilDiv(3, 2) == 2
  {
    CeilSqrtLeast(5, 3);
    CeilSqrtLeast(3, 2);
  }

  /** Seven clips: a 3x3 grid of 640x360 cells with two filler cells. */
  lemma SevenClips()
    ensures SideBySideLayout(7) == Layout(3, 3, 640, 360)
  {
    CeilSqrtLeast(7, 3);
  }

  /** A square number of clips fills a square grid exactly. */
  lemma SquareCount(k: nat)
    requires k >= 3
    ensures var l := SideBySideLayout(k * k); l.cols == k && l.rows == k
  {
    var n := k * k;
    MulLe(k, 3, k);
    assert n >= 9;
    SquareRoot(k);
    SquareRows(k);
    assert Dimensions(n) == (k, k);
  }

  /** The ceiling of the square root of a square is its root. */
  lemma SquareRoot(k: nat)
    requires k >= 1
    ensures CeilSqrt(k * k) == k
  {
    var n := k * k;
    CeilSqrtLeast(n, k);
    var c := CeilSqrt(n);
    SquareMonotone(c, k - 1);
    assert (k - 1) * (k - 1) == n - 2 * k + 1;
  }

  /** k * k cells in k columns take k rows. */
  lemma SquareRows(k: nat)
    requires k >= 1
    ensures CeilDiv(k * k, k) == k
  {
    var n := k * k;
    var q := CeilDiv(n, k);
    MulLe(k, k + 1, q);
    MulLe(k, q, k - 1);
    assert k * (k + 1) == n + k;
    assert k * (k - 1) == n - k;
  }

  /** A cell index at or past the clip count lies in the last row when at most one row is short. */
  lemma LastRow(cols: nat, rows: nat, n: nat, idx: nat)
    requires cols > 0 && rows >= 1
    requires cols * rows - n < cols
    requires n <= idx < cols * rows
    ensures idx / cols == rows - 1
  {
    assert cols * (rows - 1) == cols * rows - cols;
    DivUnique(idx, cols, rows - 1);
  }

  /** Two cells past the clip count in the same column are the same cell:
      the fillers all sit in the last row, so their columns tell them apart. */
  lemma LastRowColumns(cols: nat, rows: nat, n: nat, a: nat, b: nat)
    requires cols > 0 && rows >= 1
    requires cols * rows - n < cols
    requires n <= a < cols * rows && n <= b < cols * rows
    ensures a % cols == b % cols ==> a == b
  {
    LastRow(cols, rows, n, a);
    LastRow(cols, rows, n, b);
    assert a == cols * (a / cols) + a % cols;
    assert b == cols * (b / cols) + b % cols;
  }

  /** Cell (row, col) of a cols x rows grid has a row-major index inside the grid. */
  lemma CellInGrid(cols: nat, rows: nat, row: nat, col: nat)
    requires row < rows && col < cols
    ensures 0 <= row * cols + col < cols * rows
  {
    MulLe(cols, row, rows - 1);
    assert cols * (rows - 1) == cols * rows - cols;
  }

  /** Row-major cell (row, col) has index row * cols + col and back. */
  lemma RowOfIndex(row: nat, col: nat, cols: nat)
    requires col < cols
    ensures (row * cols + col) / cols == row
    ensures (row * cols + col) % cols == col
  {
    var idx := row * cols + col;
    DivUnique(idx, cols, row);
    assert idx == cols * (idx / cols) + idx % cols;
  }
}
