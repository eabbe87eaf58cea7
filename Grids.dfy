/**
 * The two grid compositions: `assembleSideBySide` (a cols x rows grid on a
 * 1920x1080 canvas, black fillers for empty cells) and `assembleStacked`
 * (all clips scaled to 640 wide and stacked vertically).
 */
module Grids {
  import opened Wrappers
  import opened Labels
  import opened FilterGraph
  import opened GridLayout

  /** `[i:v]scale=w:h[v{i}]` */
  function ScaleNode(i: nat, w: int, h: int): Node
  {
    Node([Stream(i)], Scale(w, h), ClipLabel(i))
  }

  /** The scales of clips 0 .. m-1. */
  function Scales(m: nat, w: int, h: int): seq<Node>
  {
    seq(m, i requires 0 <= i < m => ScaleNode(i, w, h))
  }

  lemma ScalesSnoc(m: nat, w: int, h: int)
    ensures Scales(m + 1, w, h) == Scales(m, w, h) + [ScaleNode(m, w, h)]
  {
  }

  // ---------------------------------------------------------------------------
  // Side by side

  /** What fills row-major cell idx: the scaled clip idx, or the black filler of that cell. */
  function CellLabel(n: nat, cols: nat, idx: nat): string
    requires cols > 0
  {
    if idx < n then ClipLabel(idx) else FillerLabel(idx / cols, idx % cols)
  }

  /** `color=c=black:s=wxh[black{row}{col}]` for cell idx. */
  function FillerNode(cols: nat, idx: nat, w: int, h: int): Node
    requires cols > 0
  {
    Node([], Color(w, h), FillerLabel(idx / cols, idx % cols))
  }

  /** The node that produces cell k: the scale of clip k, or the filler of cell k. */
  function CellNode(n: nat, cols: nat, k: nat, w: int, h: int): (node: Node)
    requires cols > 0
    ensures node.output == CellLabel(n, cols, k)
  {
    if k < n then ScaleNode(k, w, h) else FillerNode(cols, k, w, h)
  }

  /** The nodes for cells 0 .. upto-1: the scales come first, the fillers after them. */
  function CellNodes(n: nat, cols: nat, upto: nat, w: int, h: int): (ns: seq<Node>)
    requires cols > 0
    ensures |ns| == upto
  {
    seq(upto, k requires 0 <= k < upto => CellNode(n, cols, k, w, h))
  }

  lemma CellNodesSnoc(n: nat, cols: nat, upto: nat, w: int, h: int)
    requires cols > 0
    ensures CellNodes(n, cols, upto + 1, w, h) == CellNodes(n, cols, upto, w, h) + [CellNode(n, cols, upto, w, h)]
  {
  }

  /** The labels of `upto` consecutive cells starting at cell `first`. */
  function RowInputs(n: nat, cols: nat, first: nat, upto: nat): (ps: seq<Pad>)
    requires cols > 0
    ensures |ps| == upto
  {
    seq(upto, c requires 0 <= c < upto => Label(CellLabel(n, cols, first + c)))
  }

  lemma RowInputsSnoc(n: nat, cols: nat, first: nat, upto: nat)
    requires cols > 0
    ensures RowInputs(n, cols, first, upto + 1) == RowInputs(n, cols, first, upto) + [Label(CellLabel(n, cols, first + upto))]
  {
  }

  /** `[..]hstack=inputs=cols[row{r}]` over the cells row * cols .. row * cols + cols - 1. */
  function RowNode(n: nat, cols: nat, row: nat): Node
    requires cols > 0
  {
    Node(RowInputs(n, cols, row * cols, cols), HStack(cols), RowLabel(row))
  }

  /** The hstacks of rows 0 .. m-1. */
  function RowNodes(n: nat, cols: nat, m: nat): seq<Node>
    requires cols > 0
  {
    seq(m, r requires 0 <= r < m => RowNode(n, cols, r))
  }

  lemma RowNodesSnoc(n: nat, cols: nat, m: nat)
    requires cols > 0
    ensures RowNodes(n, cols, m + 1) == RowNodes(n, cols, m) + [RowNode(n, cols, m)]
  {
  }

  /** `[row0]..[row{rows-1}]vstack=inputs=rows[v]` */
  function RowStack(rows: nat): Node
  {
    Node(seq(rows, r requires 0 <= r < rows => Label(RowLabel(r))), VStack(rows), FinalLabel)
  }

  /** Layout l has room for n clips and at most one row that is not full. */
  predicate Fits(n: nat, l: Layout)
  {
    l.cols >= 1 && l.rows >= 1 && n <= l.cols * l.rows && l.cols * l.rows - n < l.cols
  }

  function MaxNat(a: nat, b: nat): nat
  {
    if a >= b then a else b
  }

  /** Position k of the grid graph: a cell node, a row hstack, or the vstack. */
  function GridNode(n: nat, l: Layout, k: nat): Node
    requires l.cols >= 1
  {
    var cells := MaxNat(n, l.cols * l.rows);
    if k < cells then CellNode(n, l.cols, k, l.cellWidth, l.cellHeight)
    else if k < cells + l.rows then RowNode(n, l.cols, k - cells)
    else RowStack(l.rows)
  }

  /** Scales, then the fillers (emitted while the rows are walked), then one
      hstack per row, then a vstack unless there is a single row. */
  function GridGraph(n: nat, l: Layout): (g: seq<Node>)
    requires l.cols >= 1
    ensures |g| == MaxNat(n, l.cols * l.rows) + l.rows + (if l.rows == 1 then 0 else 1)
  {
    var size := MaxNat(n, l.cols * l.rows) + l.rows + (if l.rows == 1 then 0 else 1);
    seq(size, k requires 0 <= k < size => GridNode(n, l, k))
  }

  /** A single row is mapped directly (`row0`); otherwise the vstack output `v`. */
  function GridFinal(l: Layout): string
  {
    if l.rows == 1 then RowLabel(0) else FinalLabel
  }

  /** The plan of `assembleSideBySide`: refused below two clips. */
  function SideBySidePlan(n: nat): Option<Plan>
  {
    if n < 2 then None
    else
      var l := SideBySideLayout(n);
      Some(Plan(GridGraph(n, l), GridFinal(l)))
  }

  /** The column loop for one grid row: the label of each cell in order, and a
      black filler appended to `chain` for each cell past the last clip. */
  method BuildRow(n: nat, cols: nat, row: nat, w: int, h: int, before: seq<Node>)
    returns (chain: seq<Node>, rowLabels: seq<Pad>)
    requires cols > 0
    requires before == CellNodes(n, cols, MaxNat(n, row * cols), w, h)
    ensures chain == CellNodes(n, cols, MaxNat(n, row * cols + cols), w, h)
    ensures rowLabels == RowInputs(n, cols, row * cols, cols)
  {
    chain := before;
    var first := row * cols;
    rowLabels := [];
    var col := 0;
    while col < cols
      invariant 0 <= col <= cols
      invariant chain == CellNodes(n, cols, MaxNat(n, first + col), w, h)
      invariant rowLabels == RowInputs(n, cols, first, col)
    {
      var index := first + col;
      RowInputsSnoc(n, cols, first, col);
      if index < n {
        rowLabels := rowLabels + [Label(ClipLabel(index))];
      } else {
        RowOfIndex(row, col, cols);
        CellNodesSnoc(n, cols, index, w, h);
        chain := chain + [Node([], Color(w, h), FillerLabel(row, col))];
        rowLabels := rowLabels + [Label(FillerLabel(row, col))];
      }
      col := col + 1;
    }
  }

  /** The row loop of `assembleSideBySide`: walks the cells row by row,
      appending a black filler to `chain` for every cell past the last clip and
      collecting one hstack per row (the `gridRow` text) separately. */
  method BuildRows(n: nat, cols: nat, rows: nat, w: int, h: int, scaled: seq<Node>)
    returns (chain: seq<Node>, gridRow: seq<Node>)
    requires cols > 0
    requires scaled == CellNodes(n, cols, n, w, h)
    ensures chain == CellNodes(n, cols, MaxNat(n, rows * cols), w, h)
    ensures gridRow == RowNodes(n, cols, rows)
  {
    chain := scaled;
    gridRow := [];
    var row := 0;
    while row < rows
      invariant 0 <= row <= rows
      invariant chain == CellNodes(n, cols, MaxNat(n, row * cols), w, h)
      invariant gridRow == RowNodes(n, cols, row)
    {
      var first := row * cols;
      var rowLabels;
      chain, rowLabels := BuildRow(n, cols, row, w, h, chain);
      assert first + cols == (row + 1) * cols;
      gridRow := gridRow + [Node(rowLabels, HStack(cols), RowLabel(row))];
      RowNodesSnoc(n, cols, row);
      row := row + 1;
    }
  }

  /** Builds the grid graph as `assembleSideBySide` does: scale loop, then a row loop whose
      inner column loop pushes clip labels or appends black fillers. */
  method AssembleSideBySide(n: nat) returns (plan: Option<Plan>)
    ensures plan == SideBySidePlan(n)
  {
    if n < 2 {
      return None;
    }
    var l := SideBySideLayout(n);
    var cols, rows, w, h := l.cols, l.rows, l.cellWidth, l.cellHeight;

    var chain: seq<Node> := [];
    var i := 0;
    while i < n
      invariant 0 <= i <= n
      invariant chain == CellNodes(n, cols, i, w, h)
    {
      chain := chain + [Node([Stream(i)], Scale(w, h), ClipLabel(i))];
      CellNodesSnoc(n, cols, i, w, h);
      i := i + 1;
    }

    var gridRow;
    chain, gridRow := BuildRows(n, cols, rows, w, h, chain);
    assert rows * cols == cols * rows;
    assert chain + gridRow == CellNodes(n, cols, MaxNat(n, cols * rows), w, h) + RowNodes(n, cols, rows);

    var outputLabel := FinalLabel;
    if rows == 1 {
      chain := chain + gridRow;
      outputLabel := RowLabel(0);
    } else {
      chain := chain + gridRow;
      var rowStack := seq(rows, r requires 0 <= r < rows => Label(RowLabel(r)));
      assert Node(rowStack, VStack(rows), FinalLabel) == RowStack(rows);
      chain := chain + [Node(rowStack, VStack(rows), FinalLabel)];
    }
    GridParts(n, l);
    assert chain == GridGraph(n, l);
    plan := Some(Plan(chain, outputLabel));
  }

  /** The label pushed for cell (row, col) of the grid: the scaled clip
      row * cols + col when there is one, the black filler of that cell otherwise. */
  lemma RowNodeInputs(n: nat, cols: nat, row: nat, col: nat)
    requires col < cols
    ensures RowNode(n, cols, row).inputs[col]
            == Label(if row * cols + col < n then ClipLabel(row * cols + col) else FillerLabel(row, col))
  {
    var idx := row * cols + col;
    assert RowNode(n, cols, row).inputs[col] == Label(CellLabel(n, cols, idx));
    if idx >= n {
      RowOfIndex(row, col, cols);
    }
  }

  /** A grid graph cut at its seams: the cell nodes, the row hstacks, the vstack,
      in the order the builder appends them. */
  lemma GridParts(n: nat, l: Layout)
    requires l.cols >= 1
    ensures GridGraph(n, l)
            == CellNodes(n, l.cols, MaxNat(n, l.cols * l.rows), l.cellWidth, l.cellHeight)
               + RowNodes(n, l.cols, l.rows)
               + (if l.rows == 1 then [] else [RowStack(l.rows)])
  {
    var g, cells := GridGraph(n, l), MaxNat(n, l.cols * l.rows);
    GridCellsPart(n, l);
    GridRowsPart(n, l);
    assert g[cells + l.rows..] == (if l.rows == 1 then [] else [RowStack(l.rows)]);
    assert g == g[..cells] + g[cells..cells + l.rows] + g[cells + l.rows..];
  }

  lemma GridCellsPart(n: nat, l: Layout)
    requires l.cols >= 1
    ensures var cells := MaxNat(n, l.cols * l.rows);
            GridGraph(n, l)[..cells] == CellNodes(n, l.cols, cells, l.cellWidth, l.cellHeight)
  {
  }

  lemma GridRowsPart(n: nat, l: Layout)
    requires l.cols >= 1
    ensures var cells := MaxNat(n, l.cols * l.rows);
            GridGraph(n, l)[cells..cells + l.rows] == RowNodes(n, l.cols, l.rows)
  {
    var g, cells := GridGraph(n, l), MaxNat(n, l.cols * l.rows);
    forall r | 0 <= r < l.rows
      ensures g[cells..cells + l.rows][r] == RowNodes(n, l.cols, l.rows)[r]
    {
      GridRowAt(n, l, r);
      assert g[cells..cells + l.rows][r] == g[cells + r];
    }
    assert |g[cells..cells + l.rows]| == |RowNodes(n, l.cols, l.rows)|;
  }

  lemma GridRowAt(n: nat, l: Layout, r: nat)
    requires l.cols >= 1 && r < l.rows
    ensures GridGraph(n, l)[MaxNat(n, l.cols * l.rows) + r] == RowNode(n, l.cols, r)
  {
    var cells := MaxNat(n, l.cols * l.rows);
    var k := cells + r;
    assert k - cells == r && cells <= k < cells + l.rows;
    assert GridNode(n, l, k) == RowNode(n, l.cols, r);
    assert GridGraph(n, l)[k] == GridNode(n, l, k);
  }

  /** The layout of a grid graph: the scales of clips 0 .. n-1 first, then the
      fillers, all in the last row, then one hstack per row, then the vstack
      when there are several rows. */
  lemma GridShape(n: nat, l: Layout)
    requires Fits(n, l)
    ensures var g := GridGraph(n, l);
            var cells := l.cols * l.rows;
            && |g| == cells + l.rows + (if l.rows == 1 then 0 else 1)
            && (forall k :: 0 <= k < n ==> g[k] == Node([Stream(k)], Scale(l.cellWidth, l.cellHeight), ClipLabel(k)))
            && (forall k :: n <= k < cells ==>
                  k / l.cols == l.rows - 1
                  && g[k] == Node([], Color(l.cellWidth, l.cellHeight), FillerLabel(l.rows - 1, k % l.cols)))
            && (forall r :: 0 <= r < l.rows ==> g[cells + r] == RowNode(n, l.cols, r))
            && (l.rows > 1 ==> g[|g| - 1] == RowStack(l.rows))
  {
    var cells := l.cols * l.rows;
    assert MaxNat(n, cells) == cells;
    forall k | n <= k < cells
      ensures k / l.cols == l.rows - 1
    {
      LastRow(l.cols, l.rows, n, k);
    }
  }

  /** The first n cells are scales, the rest black fillers. */
  lemma CellNodesCounts(n: nat, cols: nat, cells: nat, w: int, h: int)
    requires cols > 0 && n <= cells
    ensures forall op :: CountOp(CellNodes(n, cols, cells, w, h), op)
                         == (if op == ScaleOp then n else if op == ColorOp then cells - n else 0)
  {
    CellNodesCountsUpto(n, cols, cells, w, h);
  }

  /** Counting the cells 0 .. upto-1 one at a time. */
  lemma {:induction false} CellNodesCountsUpto(n: nat, cols: nat, upto: nat, w: int, h: int)
    requires cols > 0
    ensures var scales := if upto <= n then upto else n;
            forall op :: CountOp(CellNodes(n, cols, upto, w, h), op)
                         == (if op == ScaleOp then scales else if op == ColorOp then upto - scales else 0)
    decreases upto
  {
    if upto > 0 {
      var g, prefix := CellNodes(n, cols, upto, w, h), CellNodes(n, cols, upto - 1, w, h);
      CellNodesSnoc(n, cols, upto - 1, w, h);
      assert g[..upto - 1] == prefix;
      var last := OpOf(g[upto - 1].filter);
      assert last == if upto - 1 < n then ScaleOp else ColorOp;
      CellNodesCountsUpto(n, cols, upto - 1, w, h);
      forall op
        ensures CountOp(g, op) == CountOp(prefix, op) + (if last == op then 1 else 0)
      {
      }
    }
  }

  /** A grid graph holds n scales, cols * rows - n fillers, one hstack per row
      and one vstack exactly when there is more than one row. */
  lemma GridCounts(n: nat, l: Layout)
    requires Fits(n, l)
    ensures var g := GridGraph(n, l);
            && CountOp(g, ScaleOp) == n
            && CountOp(g, ColorOp) == l.cols * l.rows - n
            && CountOp(g, HStackOp) == l.rows
            && CountOp(g, VStackOp) == (if l.rows == 1 then 0 else 1)
            && CountOp(g, TrimOp) == 0 && CountOp(g, XFadeOp) == 0
  {
    assert MaxNat(n, l.cols * l.rows) == l.cols * l.rows;
    GridParts(n, l);
    var cells, rows := l.cols * l.rows, l.rows;
    var cellNodes := CellNodes(n, l.cols, cells, l.cellWidth, l.cellHeight);
    var hstacks := RowNodes(n, l.cols, rows);
    var vstacks := if rows == 1 then [] else [RowStack(rows)];
    CellNodesCounts(n, l.cols, cells, l.cellWidth, l.cellHeight);
    CountOpUniform(hstacks, HStackOp);
    CountOpUniform(vstacks, VStackOp);
    PartsCounts(GridGraph(n, l), cellNodes, hstacks, vstacks, n, cells - n, rows, |vstacks|);
  }

  /** Counting over the scales and fillers, the hstacks and the vstack of a grid graph. */
  lemma PartsCounts(g: seq<Node>, cellNodes: seq<Node>, hstacks: seq<Node>, vstacks: seq<Node>,
                    scales: nat, fillers: nat, rows: nat, stacks: nat)
    requires g == cellNodes + hstacks + vstacks
    requires forall op :: CountOp(cellNodes, op) == (if op == ScaleOp then scales else if op == ColorOp then fillers else 0)
    requires forall op :: CountOp(hstacks, op) == (if op == HStackOp then |hstacks| else 0)
    requires forall op :: CountOp(vstacks, op) == (if op == VStackOp then |vstacks| else 0)
    requires |hstacks| == rows && |vstacks| == stacks
    ensures && CountOp(g, ScaleOp) == scales && CountOp(g, ColorOp) == fillers
            && CountOp(g, HStackOp) == rows && CountOp(g, VStackOp) == stacks
            && CountOp(g, TrimOp) == 0 && CountOp(g, XFadeOp) == 0
  {
    CountOpSum(cellNodes, hstacks, vstacks, ScaleOp);
    CountOpSum(cellNodes, hstacks, vstacks, ColorOp);
    CountOpSum(cellNodes, hstacks, vstacks, HStackOp);
    CountOpSum(cellNodes, hstacks, vstacks, VStackOp);
    CountOpSum(cellNodes, hstacks, vstacks, TrimOp);
    CountOpSum(cellNodes, hstacks, vstacks, XFadeOp);
  }

  /** The label produced at position k of a grid graph. */
  lemma GridOutput(n: nat, l: Layout, k: nat)
    requires Fits(n, l)
    requires k < |GridGraph(n, l)|
    ensures GridGraph(n, l)[k].output == GridLabel(n, l.cols, l.rows, k)
  {
    var cells := l.cols * l.rows;
    assert MaxNat(n, cells) == cells;
    if n <= k < cells {
      LastRow(l.cols, l.rows, n, k);
    }
  }

  /** Labels of a grid graph by region: clips, fillers (last row), rows, final. */
  lemma GridOutputsDiffer(n: nat, l: Layout, a: nat, b: nat)
    requires Fits(n, l)
    requires a < b < |GridGraph(n, l)|
    ensures GridGraph(n, l)[a].output != GridGraph(n, l)[b].output
  {
    GridOutput(n, l, a);
    GridOutput(n, l, b);
    GridLabelsDiffer(n, l.cols, l.rows, a, b);
  }

  /** The label at position k of the grid graph of n clips on a cols x rows
      grid: the clip's own label, a filler of the last row, a row label, or
      the final label. */
  function GridLabel(n: nat, cols: nat, rows: nat, k: nat): string
    requires cols > 0 && rows > 0
  {
    var cells := cols * rows;
    if k < n then ClipLabel(k)
    else if k < cells then FillerLabel(rows - 1, k % cols)
    else if k < cells + rows then RowLabel(k - cells)
    else FinalLabel
  }

  lemma GridLabelsDiffer(n: nat, cols: nat, rows: nat, a: nat, b: nat)
    requires cols >= 1 && rows >= 1 && n <= cols * rows && cols * rows - n < cols
    requires a < b < cols * rows + rows + (if rows == 1 then 0 else 1)
    ensures GridLabel(n, cols, rows, a) != GridLabel(n, cols, rows, b)
  {
    var cells := cols * rows;
    var last := rows - 1;
    if b < n {
      ClipLabelInjective(a, b);
    } else if b < cells {
      if a < n {
        FamiliesDiffer(a, 0, last, b % cols, 0);
      } else {
        FillerLabelInjective(last, a % cols, b % cols);
        LastRowColumns(cols, rows, n, a, b);
      }
    } else if b < cells + rows {
      var q := b - cells;
      if a < n {
        FamiliesDiffer(a, 0, 0, 0, q);
      } else if a < cells {
        FamiliesDiffer(0, 0, last, a % cols, q);
      } else {
        RowLabelInjective(a - cells, q);
      }
    } else {
      if a < n {
        IndexedLabelsNotFinal(a, 0, 0, 0);
      } else if a < cells {
        IndexedLabelsNotFinal(0, 0, last, a % cols);
      } else {
        IndexedLabelsNotFinal(0, 0, a - cells, 0);
      }
    }
  }

  /** No two nodes of a grid graph produce the same label. */
  lemma GridUniqueOutputs(n: nat, l: Layout)
    requires Fits(n, l)
    ensures UniqueOutputs(GridGraph(n, l))
  {
    var g := GridGraph(n, l);
    forall a, b | 0 <= a < b < |g|
      ensures g[a].output != g[b].output
    {
      GridOutputsDiffer(n, l, a, b);
    }
  }

  /** Input col of the hstack of row r is the cell produced at position r * cols + col. */
  lemma RowInputDefined(n: nat, l: Layout, r: nat, col: nat)
    requires Fits(n, l)
    requires r < l.rows && col < l.cols
    ensures var g := GridGraph(n, l);
            var j := r * l.cols + col;
            0 <= j < l.cols * l.rows && g[j].output == CellLabel(n, l.cols, j)
  {
    assert MaxNat(n, l.cols * l.rows) == l.cols * l.rows;
    CellInGrid(l.cols, l.rows, r, col);
  }

  /** Input m of node k of a grid graph is an input file or an earlier node's label. */
  lemma GridInputDefined(n: nat, l: Layout, k: nat, m: nat)
    requires Fits(n, l)
    requires k < |GridGraph(n, l)| && m < |GridGraph(n, l)[k].inputs|
    ensures Defined(GridGraph(n, l)[k].inputs[m], GridGraph(n, l), k, n)
  {
    var cells := l.cols * l.rows;
    assert MaxNat(n, cells) == cells;
    if k < cells {
      CellInputDefined(n, l, k, m);
    } else if k < cells + l.rows {
      HStackInputDefined(n, l, k - cells, m);
    } else {
      VStackInputDefined(n, l, m);
    }
  }

  /** A cell node reads at most its own clip. */
  lemma CellInputDefined(n: nat, l: Layout, k: nat, m: nat)
    requires Fits(n, l) && k < l.cols * l.rows
    requires m < |GridGraph(n, l)[k].inputs|
    ensures GridGraph(n, l)[k].inputs[m] == Stream(k) && k < n
  {
    assert MaxNat(n, l.cols * l.rows) == l.cols * l.rows;
    assert GridGraph(n, l)[k] == CellNode(n, l.cols, k, l.cellWidth, l.cellHeight);
  }

  /** Each hstack input is produced by the cell at its row-major index. */
  lemma HStackInputDefined(n: nat, l: Layout, r: nat, m: nat)
    requires Fits(n, l) && r < l.rows
    requires m < |GridGraph(n, l)[l.cols * l.rows + r].inputs|
    ensures Defined(GridGraph(n, l)[l.cols * l.rows + r].inputs[m], GridGraph(n, l), l.cols * l.rows + r, n)
  {
    var g := GridGraph(n, l);
    var cells := l.cols * l.rows;
    assert MaxNat(n, cells) == cells;
    RowInputDefined(n, l, r, m);
    var j: nat := r * l.cols + m;
    GridRowAt(n, l, r);
    RowNodeInput(n, l.cols, r, m);
    DefinedByEarlier(g[cells + r].inputs[m], g, cells + r, n, j);
  }

  lemma RowNodeInput(n: nat, cols: nat, r: nat, m: nat)
    requires cols > 0 && m < cols
    ensures RowNode(n, cols, r).inputs[m] == Label(CellLabel(n, cols, r * cols + m))
  {
  }

  /** Each vstack input is the output of the hstack of its row. */
  lemma VStackInputDefined(n: nat, l: Layout, m: nat)
    requires Fits(n, l)
    requires l.cols * l.rows + l.rows < |GridGraph(n, l)|
    requires m < |GridGraph(n, l)[l.cols * l.rows + l.rows].inputs|
    ensures Defined(GridGraph(n, l)[l.cols * l.rows + l.rows].inputs[m], GridGraph(n, l), l.cols * l.rows + l.rows, n)
  {
    var g := GridGraph(n, l);
    var cells := l.cols * l.rows;
    assert MaxNat(n, cells) == cells;
    assert g[cells + l.rows] == RowStack(l.rows);
    GridRowAt(n, l, m);
    assert g[cells + m].output == RowLabel(m);
  }

  /** Every hstack input names a cell produced earlier, every vstack input a row. */
  lemma GridClosed(n: nat, l: Layout)
    requires Fits(n, l)
    ensures Closed(GridGraph(n, l), n)
  {
    var g := GridGraph(n, l);
    forall k, m | 0 <= k < |g| && 0 <= m < |g[k].inputs|
      ensures Defined(g[k].inputs[m], g, k, n)
    {
      GridInputDefined(n, l, k, m);
    }
  }

  /** Every grid graph is well formed and ends in the label that `-map` selects:
      `row0` for a single row, `v` otherwise. */
  lemma GridWellFormed(n: nat, l: Layout)
    requires Fits(n, l)
    ensures WellFormed(Plan(GridGraph(n, l), GridFinal(l)), n)
  {
    GridUniqueOutputs(n, l);
    GridClosed(n, l);
    GridOutput(n, l, |GridGraph(n, l)| - 1);
  }

  /** Every side-by-side plan for two or more clips is well formed, uses exactly
      one filler per empty cell (fewer than one row's worth) and fits its cells
      on the 1920x1080 canvas; below two clips there is no plan. */
  lemma SideBySidePlanSound(n: nat)
    ensures SideBySidePlan(n).Some? <==> n >= 2
    ensures n >= 2 ==>
              var l := SideBySideLayout(n);
              var p := SideBySidePlan(n).value;
              && WellFormed(p, n)
              && CountOp(p.graph, ScaleOp) == n
              && CountOp(p.graph, ColorOp) == l.cols * l.rows - n < l.cols
              && CountOp(p.graph, HStackOp) == l.rows
              && l.cols * l.cellWidth <= CanvasWidth && l.rows * l.cellHeight <= CanvasHeight
  {
    if n >= 2 {
      GridCovers(n);
      var l := SideBySideLayout(n);
      GridWellFormed(n, l);
      GridCounts(n, l);
    }
  }

  // ---------------------------------------------------------------------------
  // Stacked

  /** `[v0][v1]..vstack=inputs=n[v]` over the n scaled clips in order. */
  function StackNode(n: nat): Node
  {
    Node(seq(n, i requires 0 <= i < n => Label(ClipLabel(i))), VStack(n), FinalLabel)
  }

  /** Every clip scaled to 640 x floor(1080 / n), then one vstack of all of them. */
  function StackedGraph(n: nat): seq<Node>
    requires n >= 1
  {
    Scales(n, StackWidth, StackCellHeight(n)) + [StackNode(n)]
  }

  /** The plan of `assembleStacked`: refused below two clips. */
  function StackedPlan(n: nat): Option<Plan>
  {
    if n < 2 then None else Some(Plan(StackedGraph(n), FinalLabel))
  }

  /** Builds the stacked graph as `assembleStacked` does: a scale loop, then one vstack. */
  method AssembleStacked(n: nat) returns (plan: Option<Plan>)
    ensures plan == StackedPlan(n)
  {
    if n < 2 {
      return None;
    }
    var width := StackWidth;
    var height := StackCellHeight(n);
    var chain: seq<Node> := [];
    var i := 0;
    while i < n
      invariant 0 <= i <= n
      invariant chain == Scales(i, width, height)
    {
      chain := chain + [Node([Stream(i)], Scale(width, height), ClipLabel(i))];
      ScalesSnoc(i, width, height);
      i := i + 1;
    }
    var stackOrder := seq(n, i requires 0 <= i < n => Label(ClipLabel(i)));
    chain := chain + [Node(stackOrder, VStack(n), FinalLabel)];
    plan := Some(Plan(chain, FinalLabel));
  }

  /** n scales to 640 x h with n * h within the 1080-pixel canvas height (and
      less than n pixels short of it), then one vstack taking v0 .. v(n-1) in order. */
  lemma StackedShape(n: nat)
    requires n >= 1
    ensures var g := StackedGraph(n);
            var h := g[0].filter.height;
            && |g| == n + 1
            && n * h <= CanvasHeight < n * h + n
            && (forall k :: 0 <= k < n ==> g[k] == Node([Stream(k)], Scale(StackWidth, h), ClipLabel(k)))
            && g[n].filter == VStack(n) && g[n].output == FinalLabel
            && |g[n].inputs| == n
            && (forall k :: 0 <= k < n ==> g[n].inputs[k] == Label(g[k].output))
            && CountOp(g, ScaleOp) == n && CountOp(g, VStackOp) == 1
  {
    var g := StackedGraph(n);
    var scales := Scales(n, StackWidth, StackCellHeight(n));
    CountOpUniform(scales, ScaleOp);
    CountOpUniform([StackNode(n)], VStackOp);
    CountOpAppend(scales, [StackNode(n)], ScaleOp);
    CountOpAppend(scales, [StackNode(n)], VStackOp);
  }

  /** Every stacked plan for two or more clips is well formed; below two there is none. */
  lemma StackedPlanSound(n: nat)
    ensures StackedPlan(n).Some? <==> n >= 2
    ensures n >= 2 ==> WellFormed(StackedPlan(n).value, n)
  {
    if n >= 2 {
      var g := StackedGraph(n);
      forall a, b | 0 <= a < b < |g|
        ensures g[a].output != g[b].output
      {
        ClipLabelInjective(a, b);
        IndexedLabelsNotFinal(a, 0, 0, 0);
      }
      forall k, m | 0 <= k < |g| && 0 <= m < |g[k].inputs|
        ensures Defined(g[k].inputs[m], g, k, n)
      {
        if k == n {
          assert g[m].output == ClipLabel(m);
        }
      }
    }
  }
}
