/**
 * SuDoku (sudoku/SuDoku.java): the grid of cells with its rows, columns and boxes, the
 * givens, the solution the solver finds, and the check of the user's entries against it.
 * Box (b, s) is the box in band b and stack s; it is nStacks rows tall and nBands
 * columns wide, and cell (r, c) lies in box (r / nStacks, c / nBands).
 */
module SuDokuPuzzle {
  import opened Wrappers
  import opened Values
  import opened SuDokuGrid
  import opened Hints
  import SuDokuProblems
  import Solver
  import Network
  import SC = SuDokuConstraints

  const NO_SOLUTION: int := 0
  const SINGLE_SOLUTION: int := 1
  const MANY_SOLUTIONS: int := 2

  /** The strategy name and the text of the hint checkPuzzle gives (sudoku/SuDoku.java:253, 274). */
  const CHECK_NAME: string := "BOO BOO"
  const CHECK_TEXT: string := "The cells shown contain invalid values or mark up"

  /** The strategy classes a SuDoku consults for hints (DEFAULT_STRATEGIES names both). */
  datatype StrategyKind = Singleton | HiddenSingle

  /** Position (x, y) comes before position (r, c) in row-major order. */
  predicate Before(x: nat, y: nat, r: nat, c: nat)
  {
    x < r || (x == r && y < c)
  }

  function Clamp(x: int, hi: nat): nat
  {
    if x < 0 then 0 else if x > hi then hi else x
  }

  /** x / m, the block of width m that x lies in, with the block's bounds. */
  function BlockOf(x: nat, m: nat, count: nat): (q: nat)
    requires m > 0 && x < count * m
    ensures q == x / m && q < count && q * m <= x < q * m + m
  {
    BlockBounds(x, m, count);
    x / m
  }

  lemma BlockBounds(x: nat, m: nat, count: nat)
    requires m > 0 && x < count * m
    ensures x / m < count && (x / m) * m <= x < (x / m) * m + m
  {
    var q := x / m;
    SC.DivBlock(x, m, q);
    if q >= count {
      SC.MulMono(count, q, m);
    }
  }

  /**
   * How many cells of box (b, s) the row-major sweep of initCells has placed before
   * reaching cell (r, c): the full box rows above row r, and in row r the box's
   * columns left of c.
   */
  function BoxCount(nB: nat, nS: nat, b: nat, s: nat, r: nat, c: nat): nat
  {
    Clamp(r - b * nS, nS) * nB + (if b * nS <= r < b * nS + nS then Clamp(c - s * nB, nB) else 0)
  }

  lemma BoxCountStart(nB: nat, nS: nat, b: nat, s: nat)
    ensures BoxCount(nB, nS, b, s, 0, 0) == 0
  {
    assert b * nS >= 0 && s * nB >= 0;
  }

  lemma BoxCountStep(nB: nat, nS: nat, b: nat, s: nat, r: nat, c: nat)
    ensures BoxCount(nB, nS, b, s, r, c + 1) ==
      BoxCount(nB, nS, b, s, r, c) + (if b * nS <= r < b * nS + nS && s * nB <= c < s * nB + nB then 1 else 0)
  {
  }

  lemma BoxCountCarry(nB: nat, nS: nat, b: nat, s: nat, r: nat)
    requires s < nS
    ensures BoxCount(nB, nS, b, s, r, nB * nS) == BoxCount(nB, nS, b, s, r + 1, 0)
  {
    SC.MulSucc(s, nB);
    SC.MulMono(s + 1, nS, nB);
    SC.MulMono(0, s, nB);
    if b * nS <= r < b * nS + nS {
      SC.MulSucc(r - b * nS, nB);
    }
  }

  /** Inside its box, cell (r, c) is the one the sweep reaches after BoxCount others. */
  lemma BoxCountSlot(nB: nat, nS: nat, b: nat, s: nat, r: nat, c: nat)
    requires b * nS <= r < b * nS + nS && s * nB <= c < s * nB + nB
    ensures BoxCount(nB, nS, b, s, r, c) == (r - b * nS) * nB + (c - s * nB)
  {
  }

  /** After the last row the sweep has placed all nStacks * nBands cells of every box. */
  lemma BoxCountFull(nB: nat, nS: nat, b: nat, s: nat)
    requires b < nB
    ensures BoxCount(nB, nS, b, s, nB * nS, 0) == nS * nB
  {
    SC.MulSucc(b, nS);
    SC.MulMono(b + 1, nB, nS);
  }

  /** Slot i * nB + j of a box holds its cell in box row i and box column j. */
  lemma SlotBound(nB: nat, nS: nat, i: nat, j: nat)
    requires i < nS && j < nB
    ensures i * nB + j < nS * nB
  {
    SC.MulSucc(i, nB);
    SC.MulMono(i + 1, nS, nB);
  }

  /** Every slot below nS * nB is i * nB + j for one box row i and box column j. */
  lemma SlotOnto(nB: nat, nS: nat, k: nat)
    requires k < nS * nB
    ensures nB > 0 && k / nB < nS && k % nB < nB && k == (k / nB) * nB + k % nB
  {
    var i := BlockOf(k, nB, nS);
  }

  /**
   * The sweep of initCells as values: the cells array row by row, and the cell lists of
   * the rows, the columns and the boxes.
   */
  datatype Snapshot = Snapshot(grid: seq<seq<Cell?>>, rows: seq<seq<Cell>>, columns: seq<seq<Cell>>, boxes: seq<seq<seq<Cell>>>)

  /**
   * SuDoku. The rows, columns and boxes arrays are filled once while the puzzle is
   * built and never written again, so they are immutable sequences of group objects
   * here; the cells array is allocated with the puzzle and filled by initCells.
   */
  class SuDoku {
    const nBands: nat
    const nStacks: nat
    const nValues: nat := nBands * nStacks
    const valueSet: set<Value>
    /** The givens, copied from the caller's grid; None is a blank cell. */
    const puzzle: array2<Option<Value>>
    const strategies: seq<StrategyKind>
    const rows: seq<CellGroup>
    const columns: seq<CellGroup>
    /** boxes[b][s] is the box in band b and stack s. */
    const boxes: seq<seq<CellGroup>>
    const cells: array2<Cell?>
    var solution: Option<array2<Option<Value>>>

    /** The slot of a box that its cell in box row i and box column j takes. */
    function Slot(i: nat, j: nat): nat
    {
      i * nBands + j
    }

    /** The grid row of row i of band b, and the grid column of column j of stack s. */
    function BoxRowAt(b: nat, i: nat): nat
    {
      b * nStacks + i
    }

    function BoxColumnAt(s: nat, j: nat): nat
    {
      s * nBands + j
    }

    ghost function RowObjects(): set<CellGroup>
    {
      set i | 0 <= i < |rows| :: rows[i]
    }

    ghost function ColumnObjects(): set<CellGroup>
    {
      set j | 0 <= j < |columns| :: columns[j]
    }

    ghost function BoxObjects(): set<CellGroup>
    {
      set b, s | 0 <= b < |boxes| && 0 <= s < |boxes[b]| :: boxes[b][s]
    }

    ghost function Groups(): set<CellGroup>
    {
      RowObjects() + ColumnObjects() + BoxObjects()
    }

    ghost function Objects(g: seq<seq<Cell?>>): set<Cell>
    {
      set i, j | 0 <= i < |g| && 0 <= j < |g[i]| && g[i][j] != null :: g[i][j]
    }

    ghost function Cells(): set<Cell>
      reads cells
    {
      set r, c | 0 <= r < cells.Length0 && 0 <= c < cells.Length1 && cells[r, c] != null :: cells[r, c]
    }

    /** Everything the grid consists of. */
    ghost function Repr(): set<object>
      reads cells
    {
      {this, puzzle, cells} + Groups() + Cells()
    }

    /** The grid's dimensions, and every group carries its own type and index. */
    ghost predicate Shaped()
    {
      && puzzle.Length0 == nValues && puzzle.Length1 == nValues
      && cells.Length0 == nValues && cells.Length1 == nValues
      && |rows| == nValues && |columns| == nValues
      && |boxes| == nBands && (forall b :: 0 <= b < nBands ==> |boxes[b]| == nStacks)
      && (forall i :: 0 <= i < nValues ==> rows[i].kind == ROW && rows[i].index == [i])
      && (forall j :: 0 <= j < nValues ==> columns[j].kind == COLUMN && columns[j].index == [j])
      && (forall b, s :: 0 <= b < nBands && 0 <= s < nStacks ==> boxes[b][s].kind == BOX && boxes[b][s].index == [b, s])
    }

    /** Cell x is in grid position (r, c): indexed [r, c], and referring to rows[r], columns[c] and boxes[r / nStacks][c / nBands]. */
    ghost predicate LinkedAt(x: Cell?, r: nat, c: nat)
      requires Shaped() && r < nValues && c < nValues
    {
      && x != null && x.index == [r, c] && x.valueSet == valueSet
      && x.row == rows[r] && x.column == columns[c]
      && x.box == boxes[BlockOf(r, nStacks, nBands)][BlockOf(c, nBands, nStacks)]
    }

    /**
     * The grid as initCells leaves it: every cell linked to its row, column and box,
     * and each group holding exactly its cells, rows and columns in order and boxes
     * row by row.
     */
    ghost predicate Wired()
      reads cells, Groups()
    {
      Shaped() && CellsLinked() && RowsFilled() && ColumnsFilled() && BoxesFilled() && CellGroupsKnown() && GroupCellsKnown()
    }

    ghost predicate CellsLinked()
      requires Shaped()
      reads cells
    {
      forall r, c :: 0 <= r < nValues && 0 <= c < nValues ==> LinkedAt(cells[r, c], r, c)
    }

    /** Row i holds the cells of grid row i, in column order. */
    ghost predicate RowsFilled()
      requires Shaped()
      reads cells, Groups()
    {
      forall i :: 0 <= i < nValues ==>
        |rows[i].cells| == nValues && forall j :: 0 <= j < nValues ==> rows[i].cells[j] == cells[i, j]
    }

    /** Column j holds the cells of grid column j, in row order. */
    ghost predicate ColumnsFilled()
      requires Shaped()
      reads cells, Groups()
    {
      forall j :: 0 <= j < nValues ==>
        |columns[j].cells| == nValues && forall i :: 0 <= i < nValues ==> columns[j].cells[i] == cells[i, j]
    }

    /** Box (b, s) holds its cells row by row. */
    ghost predicate BoxesFilled()
      requires Shaped()
      reads cells, Groups()
    {
      forall b, s :: 0 <= b < nBands && 0 <= s < nStacks ==>
        && |boxes[b][s].cells| == nValues
        && forall i, j :: 0 <= i < nStacks && 0 <= j < nBands ==>
             && BoxRowAt(b, i) < nValues && BoxColumnAt(s, j) < nValues && Slot(i, j) < nValues
             && boxes[b][s].cells[Slot(i, j)] == cells[BoxRowAt(b, i), BoxColumnAt(s, j)]
    }

    /** Every cell's row, column and box is one of the grid's groups. */
    ghost predicate CellGroupsKnown()
      reads cells
    {
      forall x :: x in Cells() ==> x.row in Groups() && x.column in Groups() && x.box in Groups()
    }

    /** Every cell of a group is one of the grid's cells. */
    ghost predicate GroupCellsKnown()
      reads cells, Groups()
    {
      forall gr :: gr in Groups() ==> forall x :: x in gr.cells ==> x in Cells()
    }

    /** Wired, and a solution, once found, is a full grid. */
    ghost predicate Valid()
      reads this, cells, Groups()
    {
      Wired() && (solution.Some? ==> solution.value.Length0 == nValues && solution.value.Length1 == nValues)
    }

    /* The sweep of initCells. */

    ghost predicate Square(g: seq<seq<Cell?>>)
    {
      |g| == nValues && forall i :: 0 <= i < |g| ==> |g[i]| == nValues
    }

    ghost predicate Sized(w: Snapshot)
    {
      && Square(w.grid) && |w.rows| == nValues && |w.columns| == nValues
      && |w.boxes| == nBands && forall b :: 0 <= b < nBands ==> |w.boxes[b]| == nStacks
    }

    /** The cells array and the groups' cell lists are as recorded in w. */
    ghost predicate Mirrors(w: Snapshot)
      requires Shaped() && Sized(w)
      reads cells, Groups()
    {
      GridMirrors(w.grid) && RowsMirror(w.rows) && ColumnsMirror(w.columns) && BoxesMirror(w.boxes)
    }

    ghost predicate GridMirrors(g: seq<seq<Cell?>>)
      requires Shaped() && Square(g)
      reads cells
    {
      forall x, y :: 0 <= x < nValues && 0 <= y < nValues ==> cells[x, y] == g[x][y]
    }

    ghost predicate RowsMirror(rs: seq<seq<Cell>>)
      requires Shaped() && |rs| == nValues
      reads RowObjects()
    {
      forall i :: 0 <= i < nValues ==> rows[i].cells == rs[i]
    }

    ghost predicate ColumnsMirror(cs: seq<seq<Cell>>)
      requires Shaped() && |cs| == nValues
      reads ColumnObjects()
    {
      forall j :: 0 <= j < nValues ==> columns[j].cells == cs[j]
    }

    ghost predicate BoxesMirror(bs: seq<seq<seq<Cell>>>)
      requires Shaped() && |bs| == nBands && forall b :: 0 <= b < nBands ==> |bs[b]| == nStacks
      reads BoxObjects()
    {
      forall b, s :: 0 <= b < nBands && 0 <= s < nStacks ==> boxes[b][s].cells == bs[b][s]
    }

    /** The cells created before (r, c): linked, and holding the puzzle's givens. */
    ghost predicate Placed(r: nat, c: nat, g: seq<seq<Cell?>>)
      requires Shaped() && Square(g)
      reads puzzle, Objects(g)
    {
      forall x, y :: 0 <= x < nValues && 0 <= y < nValues && Before(x, y, r, c) ==>
        && LinkedAt(g[x][y], x, y) && g[x][y].value == puzzle[x, y] && g[x][y].crossedOff == {}
    }

    /** A row's cells cs are the first k cells of row i, in column order. */
    ghost predicate RowHolds(cs: seq<Cell>, i: nat, k: nat, g: seq<seq<Cell?>>)
      requires Square(g) && i < nValues && k <= nValues
    {
      |cs| == k && forall j :: 0 <= j < k ==> cs[j] == g[i][j]
    }

    /** A column's cells cs are the first k cells of column j, in row order. */
    ghost predicate ColumnHolds(cs: seq<Cell>, j: nat, k: nat, g: seq<seq<Cell?>>)
      requires Square(g) && j < nValues && k <= nValues
    {
      |cs| == k && forall i :: 0 <= i < k ==> cs[i] == g[i][j]
    }

    /**
     * A box's cells cs are the k cells of box (b, s) that come before (r, c), each in the
     * slot of its box row and box column.
     */
    ghost predicate BoxHolds(cs: seq<Cell>, b: nat, s: nat, k: nat, r: nat, c: nat, g: seq<seq<Cell?>>)
      requires Square(g)
    {
      && |cs| == k
      && forall i, j :: 0 <= i < nStacks && 0 <= j < nBands && Before(BoxRowAt(b, i), BoxColumnAt(s, j), r, c) ==>
           && BoxRowAt(b, i) < nValues && BoxColumnAt(s, j) < nValues
           && Slot(i, j) < |cs| && cs[Slot(i, j)] == g[BoxRowAt(b, i)][BoxColumnAt(s, j)]
    }

    /** Each row holds its cells before (r, c). */
    ghost predicate RowsHold(r: nat, c: nat, w: Snapshot)
      requires Sized(w) && c <= nValues
    {
      forall i :: 0 <= i < nValues ==> RowHolds(w.rows[i], i, if i < r then nValues else if i == r then c else 0, w.grid)
    }

    /** Each column holds its cells before (r, c). */
    ghost predicate ColumnsHold(r: nat, c: nat, w: Snapshot)
      requires Sized(w) && ((r < nValues && c <= nValues) || (r == nValues && c == 0))
    {
      forall j :: 0 <= j < nValues ==> ColumnHolds(w.columns[j], j, if j < c then r + 1 else r, w.grid)
    }

    /** Each box holds its cells before (r, c). */
    ghost predicate BoxesHold(r: nat, c: nat, w: Snapshot)
      requires Sized(w)
    {
      forall b, s :: 0 <= b < nBands && 0 <= s < nStacks ==>
        BoxHolds(w.boxes[b][s], b, s, BoxCount(nBands, nStacks, b, s, r, c), r, c, w.grid)
    }

    /** What the groups hold before (r, c). */
    ghost predicate Holds(r: nat, c: nat, w: Snapshot)
      requires (r < nValues && c <= nValues) || (r == nValues && c == 0)
    {
      Sized(w) && RowsHold(r, c, w) && ColumnsHold(r, c, w) && BoxesHold(r, c, w)
    }

    /** The state the sweep of initCells has reached at cell (r, c); (nValues, 0) is its end. */
    ghost predicate Built(r: nat, c: nat, w: Snapshot)
      requires (r < nValues && c <= nValues) || (r == nValues && c == 0)
      reads cells, Groups(), Objects(w.grid), puzzle
    {
      Shaped() && Holds(r, c, w) && Mirrors(w) && Placed(r, c, w.grid)
    }

    /** Positions before (r, c) hold the same cells in g and h. */
    ghost predicate Agree(g: seq<seq<Cell?>>, h: seq<seq<Cell?>>, r: nat, c: nat)
      requires Square(g) && Square(h)
    {
      forall x, y :: 0 <= x < nValues && 0 <= y < nValues && Before(x, y, r, c) ==> g[x][y] == h[x][y]
    }

    /** The snapshot after cell x is stored at (r, c) and appended to its row, column and box. */
    ghost function Step(w: Snapshot, r: nat, c: nat, x: Cell): (w': Snapshot)
      requires Sized(w) && r < nValues && c < nValues
      ensures Sized(w')
    {
      var b := BlockOf(r, nStacks, nBands);
      var s := BlockOf(c, nBands, nStacks);
      Snapshot(w.grid[r := w.grid[r][c := x]], w.rows[r := w.rows[r] + [x]], w.columns[c := w.columns[c] + [x]],
               w.boxes[b := w.boxes[b][s := w.boxes[b][s] + [x]]])
    }

    lemma HoldsStep(r: nat, c: nat, w: Snapshot, x: Cell)
      requires r < nValues && c < nValues && Holds(r, c, w)
      ensures Holds(r, c + 1, Step(w, r, c, x))
    {
      BoxesStep(r, c, w, x);
    }

    lemma BoxesStep(r: nat, c: nat, w: Snapshot, x: Cell)
      requires Sized(w) && r < nValues && c < nValues && BoxesHold(r, c, w)
      ensures BoxesHold(r, c + 1, Step(w, r, c, x))
    {
      forall b, s | 0 <= b < nBands && 0 <= s < nStacks
        ensures BoxHolds(Step(w, r, c, x).boxes[b][s], b, s, BoxCount(nBands, nStacks, b, s, r, c + 1), r, c + 1, Step(w, r, c, x).grid)
      {
        BoxStep(r, c, w, x, b, s);
      }
    }

    /** Box (b, s) gains cell (r, c) exactly when the cell lies in it. */
    lemma BoxStep(r: nat, c: nat, w: Snapshot, x: Cell, b: nat, s: nat)
      requires Sized(w) && r < nValues && c < nValues && b < nBands && s < nStacks
      requires BoxHolds(w.boxes[b][s], b, s, BoxCount(nBands, nStacks, b, s, r, c), r, c, w.grid)
      ensures BoxHolds(Step(w, r, c, x).boxes[b][s], b, s, BoxCount(nBands, nStacks, b, s, r, c + 1), r, c + 1, Step(w, r, c, x).grid)
    {
      var g' := w.grid[r := w.grid[r][c := x]];
      var band := BlockOf(r, nStacks, nBands);
      var stack := BlockOf(c, nBands, nStacks);
      BoxCountStep(nBands, nStacks, b, s, r, c);
      SC.DivBlock(r, nStacks, b);
      SC.DivBlock(c, nBands, s);
      if b == band && s == stack {
        BoxStepInside(r, c, w.boxes[b][s], x, b, s, w.grid, g');
      } else {
        BoxStepOutside(r, c, w.boxes[b][s], b, s, w.grid, g');
      }
    }

    lemma BoxStepInside(r: nat, c: nat, cs: seq<Cell>, x: Cell, b: nat, s: nat, g: seq<seq<Cell?>>, g': seq<seq<Cell?>>)
      requires Square(g) && r < nValues && c < nValues && g' == g[r := g[r][c := x]]
      requires b == BlockOf(r, nStacks, nBands) && s == BlockOf(c, nBands, nStacks)
      requires BoxHolds(cs, b, s, BoxCount(nBands, nStacks, b, s, r, c), r, c, g)
      ensures Square(g') && BoxHolds(cs + [x], b, s, BoxCount(nBands, nStacks, b, s, r, c) + 1, r, c + 1, g')
    {
      BoxCountSlot(nBands, nStacks, b, s, r, c);
      forall i, j | 0 <= i < nStacks && 0 <= j < nBands && Before(BoxRowAt(b, i), BoxColumnAt(s, j), r, c + 1)
        ensures BoxRowAt(b, i) < nValues && BoxColumnAt(s, j) < nValues
        ensures Slot(i, j) < |cs + [x]| && (cs + [x])[Slot(i, j)] == g'[BoxRowAt(b, i)][BoxColumnAt(s, j)]
      {
      }
    }

    lemma BoxStepOutside(r: nat, c: nat, cs: seq<Cell>, b: nat, s: nat, g: seq<seq<Cell?>>, g': seq<seq<Cell?>>)
      requires Square(g) && Square(g') && r < nValues && c < nValues && b < nBands && s < nStacks
      requires b != BlockOf(r, nStacks, nBands) || s != BlockOf(c, nBands, nStacks)
      requires Agree(g, g', r, c)
      requires BoxHolds(cs, b, s, |cs|, r, c, g)
      ensures BoxHolds(cs, b, s, |cs|, r, c + 1, g')
    {
      forall i, j | 0 <= i < nStacks && 0 <= j < nBands && Before(BoxRowAt(b, i), BoxColumnAt(s, j), r, c + 1)
        ensures Before(BoxRowAt(b, i), BoxColumnAt(s, j), r, c)
      {
        if BoxRowAt(b, i) == r && BoxColumnAt(s, j) == c {
          SC.DivBlock(r, nStacks, b);
          SC.DivBlock(c, nBands, s);
        }
      }
    }

    /** Cell (r, c) joins the cells created before it. */
    lemma PlacedStep(r: nat, c: nat, g: seq<seq<Cell?>>, x: Cell)
      requires Shaped() && Square(g) && r < nValues && c < nValues && Placed(r, c, g)
      requires LinkedAt(x, r, c) && x.value == puzzle[r, c] && x.crossedOff == {}
      ensures Square(g[r := g[r][c := x]]) && Placed(r, c + 1, g[r := g[r][c := x]])
    {
      var g' := g[r := g[r][c := x]];
      forall x', y' | 0 <= x' < nValues && 0 <= y' < nValues && Before(x', y', r, c + 1)
        ensures LinkedAt(g'[x'][y'], x', y') && g'[x'][y'].value == puzzle[x', y'] && g'[x'][y'].crossedOff == {}
      {
        if x' != r || y' != c {
          assert g'[x'][y'] == g[x'][y'];
        }
      }
    }

    /** The body of initCells' inner loop (sudoku/SuDoku.java:131-137) at cell (r, c). */
    method PlaceCell(r: nat, c: nat) returns (ghost x: Cell)
      requires r < nValues && c < nValues && Shaped()
      modifies cells, rows[r], columns[c], boxes[BlockOf(r, nStacks, nBands)][BlockOf(c, nBands, nStacks)]
      ensures fresh(x) && LinkedAt(x, r, c) && x.value == puzzle[r, c] && x.crossedOff == {}
      ensures cells[r, c] == x
      ensures forall a, b :: 0 <= a < nValues && 0 <= b < nValues && (a != r || b != c) ==> cells[a, b] == old(cells[a, b])
      ensures rows[r].cells == old(rows[r].cells) + [x]
      ensures columns[c].cells == old(columns[c].cells) + [x]
      ensures boxes[BlockOf(r, nStacks, nBands)][BlockOf(c, nBands, nStacks)].cells ==
        old(boxes[BlockOf(r, nStacks, nBands)][BlockOf(c, nBands, nStacks)].cells) + [x]
    {
      var row, column, box := rows[r], columns[c], boxes[r / nStacks][c / nBands];
      var cell := new Cell(row, column, box, valueSet);
      cells[r, c] := cell;
      row.AddCell(cell);
      column.AddCell(cell);
      box.AddCell(cell);
      if puzzle[r, c].Some? {
        cell.SetValue(puzzle[r, c]);
      }
      x := cell;
    }

    /** PlaceCell moves the sweep from (r, c) to the next cell: the grid now mirrors Step(w, r, c, x). */
    method Advance(r: nat, c: nat, ghost w: Snapshot) returns (ghost x: Cell, ghost w': Snapshot)
      requires r < nValues && c < nValues && Shaped() && Sized(w) && Mirrors(w) && Placed(r, c, w.grid)
      modifies cells, rows[r], columns[c], boxes[BlockOf(r, nStacks, nBands)][BlockOf(c, nBands, nStacks)]
      ensures w' == Step(w, r, c, x)
      ensures Mirrors(w') && Placed(r, c + 1, w'.grid)
    {
      x := PlaceCell(r, c);
      w' := Step(w, r, c, x);
      PlacedStep(r, c, w.grid, x);
      ghost var band, stack := BlockOf(r, nStacks, nBands), BlockOf(c, nBands, nStacks);
      forall b, s | 0 <= b < nBands && 0 <= s < nStacks
        ensures boxes[b][s].cells == w'.boxes[b][s]
      {
        if b != band || s != stack {
          assert boxes[b][s].index != boxes[band][stack].index;
        }
      }
    }

    /** Finishing row r is starting row r + 1. */
    lemma HoldsCarry(r: nat, w: Snapshot)
      requires r < nValues && Holds(r, nValues, w)
      ensures Holds(r + 1, 0, w)
    {
      forall i | 0 <= i < nValues
        ensures RowHolds(w.rows[i], i, if i < r + 1 then nValues else 0, w.grid)
      {
        assert RowHolds(w.rows[i], i, if i < r then nValues else if i == r then nValues else 0, w.grid);
      }
      forall j | 0 <= j < nValues
        ensures ColumnHolds(w.columns[j], j, r + 1, w.grid)
      {
      }
      forall b, s | 0 <= b < nBands && 0 <= s < nStacks
        ensures BoxHolds(w.boxes[b][s], b, s, BoxCount(nBands, nStacks, b, s, r + 1, 0), r + 1, 0, w.grid)
      {
        BoxCarry(r, w, b, s);
      }
    }

    /** Box (b, s) at the end of row r is the box at the start of row r + 1. */
    lemma BoxCarry(r: nat, w: Snapshot, b: nat, s: nat)
      requires Sized(w) && r < nValues && b < nBands && s < nStacks
      requires BoxHolds(w.boxes[b][s], b, s, BoxCount(nBands, nStacks, b, s, r, nValues), r, nValues, w.grid)
      ensures BoxHolds(w.boxes[b][s], b, s, BoxCount(nBands, nStacks, b, s, r + 1, 0), r + 1, 0, w.grid)
    {
      BoxCountCarry(nBands, nStacks, b, s, r);
      forall i, j | 0 <= i < nStacks && 0 <= j < nBands && Before(BoxRowAt(b, i), BoxColumnAt(s, j), r + 1, 0)
        ensures Before(BoxRowAt(b, i), BoxColumnAt(s, j), r, nValues)
      {
        SlotBound(nBands, nStacks, s, j);
      }
    }

    /** The grid the sweep starts from: no cells, and every group empty. */
    ghost function Start(): (w: Snapshot)
      ensures Sized(w)
    {
      Snapshot(seq(nValues, _ => seq(nValues, _ => null)), seq(nValues, _ => []), seq(nValues, _ => []),
               seq(nBands, _ => seq(nStacks, _ => [])))
    }

    /** The sweep starts on an empty grid. */
    lemma StartBuilt()
      requires Shaped()
      requires forall r, c :: 0 <= r < nValues && 0 <= c < nValues ==> cells[r, c] == null
      requires forall i :: 0 <= i < nValues ==> rows[i].cells == [] && columns[i].cells == []
      requires forall b, s :: 0 <= b < nBands && 0 <= s < nStacks ==> boxes[b][s].cells == []
      ensures Built(0, 0, Start())
    {
      StartHolds();
      assert Mirrors(Start());
      assert Placed(0, 0, Start().grid);
    }

    /** No group holds a cell before the first one. */
    lemma StartHolds()
      ensures Holds(0, 0, Start())
    {
      var w := Start();
      forall b, s | 0 <= b < nBands && 0 <= s < nStacks
        ensures BoxHolds(w.boxes[b][s], b, s, BoxCount(nBands, nStacks, b, s, 0, 0), 0, 0, w.grid)
      {
        BoxCountStart(nBands, nStacks, b, s);
      }
      assert BoxesHold(0, 0, w);
    }

    /** Finishing row r is starting row r + 1. */
    lemma RowCarry(r: nat, w: Snapshot)
      requires r < nValues && Built(r, nValues, w)
      ensures Built(r + 1, 0, w)
    {
      HoldsCarry(r, w);
    }

    /** The inner loop of initCells (sudoku/SuDoku.java:129-138): the cells of row r, left to right. */
    method SweepRow(r: nat, ghost w: Snapshot) returns (ghost w': Snapshot)
      requires r < nValues && Built(r, 0, w)
      modifies cells, Groups()
      ensures Built(r, nValues, w')
    {
      w' := w;
      for c := 0 to nValues
        invariant Built(r, c, w')
      {
        w' := SweepCell(r, c, w');
      }
    }

    /** One step of initCells' inner loop: the sweep moves from (r, c) to the next cell. */
    method SweepCell(r: nat, c: nat, ghost w: Snapshot) returns (ghost w': Snapshot)
      requires r < nValues && c < nValues && Built(r, c, w)
      modifies cells, Groups()
      ensures Built(r, c + 1, w')
    {
      ghost var x;
      x, w' := Advance(r, c, w);
      HoldsStep(r, c, w, x);
    }

    /**
     * initCells (sudoku/SuDoku.java:119-140): a cell for every position, holding its
     * given, linked to its row, column and box, and added to each in row-major order.
     * The cells array itself is allocated, empty, with the SuDoku.
     */
    method InitCells()
      requires Shaped()
      requires forall r, c :: 0 <= r < nValues && 0 <= c < nValues ==> cells[r, c] == null
      requires forall i :: 0 <= i < nValues ==> rows[i].cells == [] && columns[i].cells == []
      requires forall b, s :: 0 <= b < nBands && 0 <= s < nStacks ==> boxes[b][s].cells == []
      modifies cells, Groups()
      ensures Wired() && unchanged(puzzle)
      ensures forall r, c :: 0 <= r < nValues && 0 <= c < nValues ==> cells[r, c].value == puzzle[r, c] && cells[r, c].crossedOff == {}
    {
      ghost var w := Start();
      StartBuilt();
      for r := 0 to nValues
        invariant Built(r, 0, w)
      {
        w := SweepRow(r, w);
        RowCarry(r, w);
      }
      BuiltWired(w);
    }

    /** At the end of the sweep the grid is wired, and every cell holds its given. */
    lemma BuiltWired(w: Snapshot)
      requires Built(nValues, 0, w)
      ensures Wired()
      ensures forall r, c :: 0 <= r < nValues && 0 <= c < nValues ==> cells[r, c].value == puzzle[r, c] && cells[r, c].crossedOff == {}
    {
      CellsWired(w.grid);
      RowsWired(w);
      ColumnsWired(w);
      BoxesWired(w);
      CellsClosed();
      GroupsClosed();
    }

    lemma CellsWired(g: seq<seq<Cell?>>)
      requires Shaped() && Square(g) && GridMirrors(g) && Placed(nValues, 0, g)
      ensures CellsLinked()
      ensures forall r, c :: 0 <= r < nValues && 0 <= c < nValues ==> cells[r, c].value == puzzle[r, c] && cells[r, c].crossedOff == {}
    {
      forall r, c | 0 <= r < nValues && 0 <= c < nValues
        ensures LinkedAt(cells[r, c], r, c) && cells[r, c].value == puzzle[r, c] && cells[r, c].crossedOff == {}
      {
        assert Before(r, c, nValues, 0);
      }
    }

    lemma RowsWired(w: Snapshot)
      requires Shaped() && Sized(w) && GridMirrors(w.grid) && RowsMirror(w.rows) && RowsHold(nValues, 0, w)
      ensures RowsFilled()
    {
    }

    lemma ColumnsWired(w: Snapshot)
      requires Shaped() && Sized(w) && GridMirrors(w.grid) && ColumnsMirror(w.columns) && ColumnsHold(nValues, 0, w)
      ensures ColumnsFilled()
    {
    }

    lemma BoxesWired(w: Snapshot)
      requires Shaped() && Sized(w) && GridMirrors(w.grid) && BoxesMirror(w.boxes) && BoxesHold(nValues, 0, w)
      ensures BoxesFilled()
    {
      SlotBounds();
      forall b, s | 0 <= b < nBands && 0 <= s < nStacks
        ensures |boxes[b][s].cells| == nValues
        ensures forall i, j :: 0 <= i < nStacks && 0 <= j < nBands ==>
                 boxes[b][s].cells[Slot(i, j)] == cells[BoxRowAt(b, i), BoxColumnAt(s, j)]
      {
        BoxFull(w.boxes[b][s], b, s, w.grid);
      }
    }

    /** The rows, columns and slots of the boxes lie within the grid. */
    lemma SlotBounds()
      ensures forall b, i :: 0 <= b < nBands && 0 <= i < nStacks ==> BoxRowAt(b, i) < nValues
      ensures forall s, j :: 0 <= s < nStacks && 0 <= j < nBands ==> BoxColumnAt(s, j) < nValues
      ensures forall i, j :: 0 <= i < nStacks && 0 <= j < nBands ==> Slot(i, j) < nValues
    {
      forall b, i | 0 <= b < nBands && 0 <= i < nStacks
        ensures BoxRowAt(b, i) < nValues
      {
        SlotBound(nStacks, nBands, b, i);
      }
      forall s, j | 0 <= s < nStacks && 0 <= j < nBands
        ensures BoxColumnAt(s, j) < nValues
      {
        SlotBound(nBands, nStacks, s, j);
      }
      forall i, j | 0 <= i < nStacks && 0 <= j < nBands
        ensures Slot(i, j) < nValues
      {
        SlotBound(nBands, nStacks, i, j);
      }
    }

    /** When the sweep is over, box (b, s) holds all its cells, slot by slot. */
    lemma BoxFull(cs: seq<Cell>, b: nat, s: nat, g: seq<seq<Cell?>>)
      requires Square(g) && b < nBands && s < nStacks
      requires BoxHolds(cs, b, s, BoxCount(nBands, nStacks, b, s, nValues, 0), nValues, 0, g)
      ensures |cs| == nValues
      ensures forall i, j :: 0 <= i < nStacks && 0 <= j < nBands ==>
                 && BoxRowAt(b, i) < nValues && BoxColumnAt(s, j) < nValues && Slot(i, j) < nValues
                 && cs[Slot(i, j)] == g[BoxRowAt(b, i)][BoxColumnAt(s, j)]
    {
      BoxCountFull(nBands, nStacks, b, s);
      assert nStacks * nBands == nValues;
      SlotBounds();
      forall i, j | 0 <= i < nStacks && 0 <= j < nBands
        ensures Slot(i, j) < nValues && cs[Slot(i, j)] == g[BoxRowAt(b, i)][BoxColumnAt(s, j)]
      {
        assert Before(BoxRowAt(b, i), BoxColumnAt(s, j), nValues, 0);
      }
    }

    /** Every cell's groups are groups of the grid. */
    lemma CellsClosed()
      requires Shaped()
      requires CellsLinked()
      ensures CellGroupsKnown()
    {
      forall x | x in Cells()
        ensures x.row in Groups() && x.column in Groups() && x.box in Groups()
      {
        var r, c :| 0 <= r < cells.Length0 && 0 <= c < cells.Length1 && cells[r, c] == x;
        assert x.row in RowObjects();
        assert x.column in ColumnObjects();
        var b, s := BlockOf(r, nStacks, nBands), BlockOf(c, nBands, nStacks);
        assert x.box in BoxObjects();
      }
    }

    /** Every cell a group of the grid holds is a cell of the grid. */
    lemma GroupsClosed()
      requires Shaped() && CellsLinked() && RowsFilled() && ColumnsFilled() && BoxesFilled()
      ensures GroupCellsKnown()
    {
      forall gr, x | gr in Groups() && x in gr.cells
        ensures x in Cells()
      {
        var k :| 0 <= k < |gr.cells| && gr.cells[k] == x;
        if gr in RowObjects() {
          var i :| 0 <= i < |rows| && rows[i] == gr;
          assert rows[i].cells[k] == cells[i, k];
          InCells(i, k);
        } else if gr in ColumnObjects() {
          var j :| 0 <= j < |columns| && columns[j] == gr;
          assert columns[j].cells[k] == cells[k, j];
          InCells(k, j);
        } else {
          var b, s :| 0 <= b < |boxes| && 0 <= s < |boxes[b]| && boxes[b][s] == gr;
          BoxCellKnown(b, s, k);
        }
      }
    }

    /** Slot k of box (b, s) holds one of the grid's cells. */
    lemma BoxCellKnown(b: nat, s: nat, k: nat)
      requires Shaped() && CellsLinked() && BoxesFilled() && b < nBands && s < nStacks && k < |boxes[b][s].cells|
      ensures boxes[b][s].cells[k] in Cells()
    {
      SlotOnto(nBands, nStacks, k);
      var i, j := k / nBands, k % nBands;
      assert Slot(i, j) == k;
      assert boxes[b][s].cells[Slot(i, j)] == cells[BoxRowAt(b, i), BoxColumnAt(s, j)];
      InCells(BoxRowAt(b, i), BoxColumnAt(s, j));
    }

    /** A linked position of the grid holds one of the grid's cells. */
    lemma InCells(r: nat, c: nat)
      requires Shaped() && CellsLinked() && r < nValues && c < nValues
      ensures cells[r, c] in Cells()
    {
      assert LinkedAt(cells[r, c], r, c);
    }

    // -------------------------------------------------------------------------------
    // Construction

    /** initRows (sudoku/SuDoku.java:162-170): rows 0 to n - 1, each empty. */
    static method InitRows(n: nat) returns (rs: seq<CellGroup>)
      ensures |rs| == n
      ensures forall i :: 0 <= i < n ==> fresh(rs[i]) && rs[i].kind == ROW && rs[i].index == [i] && rs[i].cells == []
    {
      rs := [];
      while |rs| < n
        invariant |rs| <= n
        invariant forall i :: 0 <= i < |rs| ==> fresh(rs[i]) && rs[i].kind == ROW && rs[i].index == [i] && rs[i].cells == []
      {
        var row := new CellGroup.Row(|rs|);
        rs := rs + [row];
      }
    }

    /** initColumns (sudoku/SuDoku.java:153-161): columns 0 to n - 1, each empty. */
    static method InitColumns(n: nat) returns (cs: seq<CellGroup>)
      ensures |cs| == n
      ensures forall j :: 0 <= j < n ==> fresh(cs[j]) && cs[j].kind == COLUMN && cs[j].index == [j] && cs[j].cells == []
    {
      cs := [];
      while |cs| < n
        invariant |cs| <= n
        invariant forall j :: 0 <= j < |cs| ==> fresh(cs[j]) && cs[j].kind == COLUMN && cs[j].index == [j] && cs[j].cells == []
      {
        var column := new CellGroup.Column(|cs|);
        cs := cs + [column];
      }
    }

    /** initBoxes (sudoku/SuDoku.java:141-152): box (b, s) for every band b and stack s, each empty. */
    static method InitBoxes(nBands: nat, nStacks: nat) returns (bs: seq<seq<CellGroup>>)
      ensures |bs| == nBands
      ensures forall b :: 0 <= b < nBands ==> |bs[b]| == nStacks
      ensures forall b, s :: 0 <= b < nBands && 0 <= s < nStacks ==>
        fresh(bs[b][s]) && bs[b][s].kind == BOX && bs[b][s].index == [b, s] && bs[b][s].cells == []
    {
      bs := [];
      while |bs| < nBands
        invariant |bs| <= nBands
        invariant forall b :: 0 <= b < |bs| ==> |bs[b]| == nStacks
        invariant forall b, s :: 0 <= b < |bs| && 0 <= s < nStacks ==>
          fresh(bs[b][s]) && bs[b][s].kind == BOX && bs[b][s].index == [b, s] && bs[b][s].cells == []
      {
        var band: seq<CellGroup> := [];
        while |band| < nStacks
          invariant |band| <= nStacks
          invariant forall s :: 0 <= s < |band| ==>
            fresh(band[s]) && band[s].kind == BOX && band[s].index == [|bs|, s] && band[s].cells == []
          invariant forall b, s :: 0 <= b < |bs| && 0 <= s < nStacks ==> bs[b][s].cells == []
        {
          var box := new CellGroup.Box(|bs|, |band|);
          band := band + [box];
        }
        bs := bs + [band];
      }
    }

    /** The copy loop of the constructor (sudoku/SuDoku.java:104-111): the givens, cell for cell. */
    static method CopyPuzzle(n: nat, puzzle: array2<Option<Value>>) returns (a: array2<Option<Value>>)
      requires puzzle.Length0 >= n && puzzle.Length1 >= n
      ensures fresh(a) && a.Length0 == n && a.Length1 == n
      ensures forall r, c :: 0 <= r < n && 0 <= c < n ==> a[r, c] == puzzle[r, c]
    {
      a := new Option<Value>[n, n]((_, _) => None);
      for r := 0 to n
        invariant forall x, y :: 0 <= x < n && 0 <= y < n && x < r ==> a[x, y] == puzzle[x, y]
      {
        for c := 0 to n
          invariant forall x, y :: 0 <= x < n && 0 <= y < n && Before(x, y, r, c) ==> a[x, y] == puzzle[x, y]
        {
          a[r, c] := puzzle[r, c];
        }
      }
    }

    /**
     * SuDoku(nBands, nStacks, valueSet, puzzle, strategies) (sudoku/SuDoku.java:98-117):
     * a copy of the givens, and the wired grid with every cell holding its given. The
     * caller's grid must be at least nValues square.
     */
    constructor (nBands: nat, nStacks: nat, valueSet: set<Value>, puzzle: array2<Option<Value>>, strategies: seq<StrategyKind>)
      requires puzzle.Length0 >= nBands * nStacks && puzzle.Length1 >= nBands * nStacks
      ensures Valid() && solution == None
      ensures this.nBands == nBands && this.nStacks == nStacks && this.valueSet == valueSet && this.strategies == strategies
      ensures fresh(this.puzzle) && forall r, c :: 0 <= r < nValues && 0 <= c < nValues ==> this.puzzle[r, c] == puzzle[r, c]
      ensures forall r, c :: 0 <= r < nValues && 0 <= c < nValues ==>
        cells[r, c].value == puzzle[r, c] && cells[r, c].crossedOff == {}
    {
      var n := nBands * nStacks;
      this.nBands := nBands;
      this.nStacks := nStacks;
      this.valueSet := valueSet;
      var givens := CopyPuzzle(n, puzzle);
      var rs := InitRows(n);
      var cs := InitColumns(n);
      var bs := InitBoxes(nBands, nStacks);
      this.puzzle := givens;
      rows := rs;
      columns := cs;
      boxes := bs;
      cells := new Cell?[n, n]((_, _) => null);
      this.strategies := strategies;
      solution := None;
      new;
      InitCells();
    }

    // -------------------------------------------------------------------------------
    // Solving and checking

    /**
     * The search of checkSolutions (sudoku/SuDoku.java:191-203): the solver's count for
     * the givens, and, when it is exactly one, the solution grid, filled from the value
     * set and, when the set has exactly nValues values, filled wherever the puzzle has
     * a given from the set. `built` is the SuDokuProblem it builds: the count is 0 when
     * propagation from the givens meets a constraint with no solution, and when
     * propagation alone resolves every constraint the count is 1 and the grid shows
     * the definite candidates propagation leaves.
     */
    static method SolveGivens(nBands: nat, nStacks: nat, valueSet: set<Value>, puzzle: array2<Option<Value>>)
      returns (count: int, grid: Option<array2<Option<Value>>>, ghost built: SuDokuProblems.SuDokuProblem)
      requires |valueSet| >= nBands * nStacks
      requires puzzle.Length0 >= nBands * nStacks && puzzle.Length1 >= nBands * nStacks
      ensures fresh(built) && built.Valid()
      ensures built.nBands == nBands && built.nStacks == nStacks && built.puzzle == puzzle
      ensures |built.values| == |valueSet| && forall x :: x in built.values <==> x in valueSet
      ensures forall id: nat :: id in built.givenList <==> built.Given(id)
      ensures var p := SuDokuProblems.StartPropagation(|built.candidateList|, built.constraintList, Solver.Elems(built.givenList));
        && (!p.0 ==> count == 0)
        && (p.0 && Solver.Ids(|built.constraintList|) <= p.2 ==>
              count == 1 && grid.Some? && built.Shows(grid.value, Solver.Definites(p.1)))
      ensures count == 0 || count == 1 || count == Solver.UNKNOWN_NO_SOLUTIONS
      ensures grid.Some? <==> count == 1
      ensures grid.Some? ==> fresh(grid.value)
      ensures grid.Some? ==> grid.value.Length0 == nBands * nStacks && grid.value.Length1 == nBands * nStacks
      ensures grid.Some? ==> forall row, col :: 0 <= row < nBands * nStacks && 0 <= col < nBands * nStacks && grid.value[row, col].Some? ==>
        grid.value[row, col].value in valueSet
      ensures grid.Some? && |valueSet| == nBands * nStacks ==> forall row, col :: 0 <= row < nBands * nStacks && 0 <= col < nBands * nStacks ==>
        puzzle[row, col].Some? && puzzle[row, col].value in valueSet ==> grid.value[row, col].Some?
    {
      var problem := new SuDokuProblems.SuDokuProblem(nBands, nStacks, valueSet, puzzle);
      built := problem;
      count := problem.Solve();
      if count != 1 {
        grid := None;
        return;
      }
      var found := problem.GetSolution();
      var a := found.value;
      if |valueSet| == problem.nValues {
        problem.GivensShown(a, problem.problem.currentSolution.value);
      }
      grid := Some(a);
    }

    /**
     * checkSolutions (sudoku/SuDoku.java:189-204): solves the givens afresh. With no
     * solution or more than one (the search's "unknown" count is larger than one too) the
     * recorded solution stays as it was; with exactly one it becomes that solution.
     * `built` is the SuDokuProblem the search builds (see SolveGivens).
     */
    method CheckSolutions() returns (r: int, ghost built: SuDokuProblems.SuDokuProblem)
      requires Valid() && |valueSet| >= nValues
      modifies this`solution
      ensures fresh(built) && built.Valid()
      ensures built.nBands == nBands && built.nStacks == nStacks && built.puzzle == puzzle
      ensures |built.values| == |valueSet| && forall x :: x in built.values <==> x in valueSet
      ensures forall id: nat :: id in built.givenList <==> built.Given(id)
      ensures var p := SuDokuProblems.StartPropagation(|built.candidateList|, built.constraintList, Solver.Elems(built.givenList));
        && (!p.0 ==> r == NO_SOLUTION)
        && (p.0 && Solver.Ids(|built.constraintList|) <= p.2 ==>
              r == SINGLE_SOLUTION && solution.Some? && built.Shows(solution.value, Solver.Definites(p.1)))
      ensures r == NO_SOLUTION || r == SINGLE_SOLUTION || r == MANY_SOLUTIONS
      ensures r != SINGLE_SOLUTION ==> solution == old(solution)
      ensures r == SINGLE_SOLUTION ==> solution.Some? && fresh(solution.value)
      ensures r == SINGLE_SOLUTION ==> solution.value.Length0 == nValues && solution.value.Length1 == nValues
      ensures r == SINGLE_SOLUTION ==> forall row, col :: 0 <= row < nValues && 0 <= col < nValues && solution.value[row, col].Some? ==>
        solution.value[row, col].value in valueSet
      ensures r == SINGLE_SOLUTION && |valueSet| == nValues ==> forall row, col :: 0 <= row < nValues && 0 <= col < nValues ==>
        puzzle[row, col].Some? && puzzle[row, col].value in valueSet ==> solution.value[row, col].Some?
      ensures Valid()
    {
      r, built := Recheck();
      ValidKept();
    }

    /** The body of checkSolutions (sudoku/SuDoku.java:191-202): search, then record a single solution. */
    method Recheck() returns (r: int, ghost built: SuDokuProblems.SuDokuProblem)
      requires |valueSet| >= nValues && puzzle.Length0 >= nValues && puzzle.Length1 >= nValues
      modifies this`solution
      ensures unchanged(cells) && forall g :: g in Groups() ==> unchanged(g)
      ensures fresh(built) && built.Valid()
      ensures built.nBands == nBands && built.nStacks == nStacks && built.puzzle == puzzle
      ensures |built.values| == |valueSet| && forall x :: x in built.values <==> x in valueSet
      ensures forall id: nat :: id in built.givenList <==> built.Given(id)
      ensures var p := SuDokuProblems.StartPropagation(|built.candidateList|, built.constraintList, Solver.Elems(built.givenList));
        && (!p.0 ==> r == NO_SOLUTION)
        && (p.0 && Solver.Ids(|built.constraintList|) <= p.2 ==>
              r == SINGLE_SOLUTION && solution.Some? && built.Shows(solution.value, Solver.Definites(p.1)))
      ensures r == NO_SOLUTION || r == SINGLE_SOLUTION || r == MANY_SOLUTIONS
      ensures r != SINGLE_SOLUTION ==> solution == old(solution)
      ensures r == SINGLE_SOLUTION ==> solution.Some? && fresh(solution.value)
      ensures r == SINGLE_SOLUTION ==> solution.value.Length0 == nValues && solution.value.Length1 == nValues
      ensures r == SINGLE_SOLUTION ==> forall row, col :: 0 <= row < nValues && 0 <= col < nValues && solution.value[row, col].Some? ==>
        solution.value[row, col].value in valueSet
      ensures r == SINGLE_SOLUTION && |valueSet| == nValues ==> forall row, col :: 0 <= row < nValues && 0 <= col < nValues ==>
        puzzle[row, col].Some? && puzzle[row, col].value in valueSet ==> solution.value[row, col].Some?
    {
      var nSolutions, grid;
      assert forall g :: g in Groups() ==> allocated(g);
      nSolutions, grid, built := SolveGivens(nBands, nStacks, valueSet, puzzle);
      if nSolutions == 0 {
        r := NO_SOLUTION;
      } else if nSolutions > 1 {
        r := MANY_SOLUTIONS;
      } else {
        solution := grid;
        r := SINGLE_SOLUTION;
      }
    }

    /** Valid depends on the cell array, the groups and the shape of the solution only. */
    twostate lemma ValidKept()
      requires old(Valid()) && unchanged(cells) && forall g :: g in Groups() ==> unchanged(g)
      requires solution.Some? ==> solution.value.Length0 == nValues && solution.value.Length1 == nValues
      ensures Valid()
    {
    }

    /**
     * getCell (sudoku/SuDoku.java:208-211): the cell at (row, col), the one linked to
     * that row, column and box; any other position is outside the array.
     */
    function GetCell(row: int, col: int): (r: Result<Cell>)
      requires Valid()
      reads this, cells, Groups()
      ensures r.Failure? <==> !(0 <= row < nValues && 0 <= col < nValues)
      ensures r.Failure? ==> r.error == IndexOutOfBounds
      ensures r.Success? ==> && r.value.index == [row, col] && r.value.row == rows[row] && r.value.column == columns[col]
                             && r.value.box == boxes[BlockOf(row, nStacks, nBands)][BlockOf(col, nBands, nStacks)]
    {
      if 0 <= row < nValues && 0 <= col < nValues then Success(cells[row, col]) else Failure(IndexOutOfBounds)
    }

    /** The user's entries are gone: every cell holds its given and nothing is crossed off. */
    ghost predicate AtGivens()
      requires Shaped()
      reads puzzle, cells, Cells()
    {
      forall r, c :: 0 <= r < nValues && 0 <= c < nValues && cells[r, c] != null ==>
        cells[r, c].value == puzzle[r, c] && cells[r, c].crossedOff == {}
    }

    /** Every position of the grid holds the cell indexed by it, so distinct positions hold distinct cells. */
    ghost predicate Indexed()
      reads cells
    {
      && cells.Length0 == nValues && cells.Length1 == nValues
      && forall r, c :: 0 <= r < nValues && 0 <= c < nValues ==> cells[r, c] != null && cells[r, c].index == [r, c]
    }

    lemma ValidIndexed()
      requires Valid()
      ensures Indexed()
    {
      forall r, c | 0 <= r < nValues && 0 <= c < nValues ensures cells[r, c] != null && cells[r, c].index == [r, c] {
        assert LinkedAt(cells[r, c], r, c);
      }
    }

    /** reset (sudoku/SuDoku.java:215-226): back to the givens, the grid's wiring untouched. */
    method Reset()
      requires Valid()
      modifies Cells()
      ensures Valid() && AtGivens()
    {
      ValidIndexed();
      ResetCells();
    }

    /** The loops of reset: each cell is reset, then given its given, if any. */
    method ResetCells()
      requires Indexed() && puzzle.Length0 >= nValues && puzzle.Length1 >= nValues
      modifies Cells()
      ensures forall r, c :: 0 <= r < nValues && 0 <= c < nValues ==>
        cells[r, c].value == puzzle[r, c] && cells[r, c].crossedOff == {}
    {
      for r := 0 to nValues
        invariant forall x, y :: 0 <= x < r && 0 <= y < nValues ==>
          cells[x, y].value == puzzle[x, y] && cells[x, y].crossedOff == {}
      {
        for c := 0 to nValues
          invariant forall x, y :: 0 <= x < nValues && 0 <= y < nValues && Before(x, y, r, c) ==>
            cells[x, y].value == puzzle[x, y] && cells[x, y].crossedOff == {}
        {
          var cell := cells[r, c];
          cell.Reset();
          if puzzle[r, c].Some? {
            cell.SetValue(puzzle[r, c]);
          }
        }
      }
    }

    /**
     * The cell at (r, c) disagrees with the solution: it holds a value other than the
     * solution's there (a blank in the solution included), or it is blank with the
     * solution's value crossed off.
     */
    ghost predicate Bad(sol: array2<Option<Value>>, r: nat, c: nat)
      requires Indexed() && r < nValues && c < nValues && r < sol.Length0 && c < sol.Length1
      reads cells, cells[r, c], sol
    {
      var cell := cells[r, c];
      if cell.value.Some? then cell.value != sol[r, c]
      else sol[r, c].Some? && sol[r, c].value in cell.crossedOff
    }

    /** The bad cells of row r among its first c columns, left to right. */
    ghost function BadInRow(sol: array2<Option<Value>>, r: nat, c: nat): seq<Element>
      requires Indexed() && r < nValues && c <= nValues && sol.Length0 >= nValues && sol.Length1 >= nValues
      reads cells, Cells(), sol
      decreases c
    {
      if c == 0 then []
      else
        assert cells[r, c - 1] in Cells();
        BadInRow(sol, r, c - 1) + if Bad(sol, r, c - 1) then [CellElement(cells[r, c - 1])] else []
    }

    /** The bad cells of the first r rows, row by row. */
    ghost function BadInRows(sol: array2<Option<Value>>, r: nat): seq<Element>
      requires Indexed() && r <= nValues && sol.Length0 >= nValues && sol.Length1 >= nValues
      reads cells, Cells(), sol
    {
      if r == 0 then [] else BadInRows(sol, r - 1) + BadInRow(sol, r - 1, nValues)
    }

    /** Every bad cell of the grid, in the row-major order checkPuzzle visits them. */
    ghost function BadCells(sol: array2<Option<Value>>): seq<Element>
      requires Indexed() && sol.Length0 >= nValues && sol.Length1 >= nValues
      reads cells, Cells(), sol
    {
      BadInRows(sol, nValues)
    }

    lemma {:induction false} BadInRowMeaning(sol: array2<Option<Value>>, r: nat, c: nat)
      requires Indexed() && r < nValues && c <= nValues && sol.Length0 >= nValues && sol.Length1 >= nValues
      ensures forall e :: e in BadInRow(sol, r, c) ==> exists y :: 0 <= y < c && Bad(sol, r, y) && e == CellElement(cells[r, y])
      ensures forall y :: 0 <= y < c && Bad(sol, r, y) ==> CellElement(cells[r, y]) in BadInRow(sol, r, c)
    {
      if c > 0 {
        BadInRowMeaning(sol, r, c - 1);
      }
    }

    lemma {:induction false} BadInRowsMeaning(sol: array2<Option<Value>>, r: nat)
      requires Indexed() && r <= nValues && sol.Length0 >= nValues && sol.Length1 >= nValues
      ensures forall e :: e in BadInRows(sol, r) ==>
        exists x, y :: 0 <= x < r && 0 <= y < nValues && Bad(sol, x, y) && e == CellElement(cells[x, y])
      ensures forall x, y :: 0 <= x < r && 0 <= y < nValues && Bad(sol, x, y) ==> CellElement(cells[x, y]) in BadInRows(sol, r)
    {
      if r > 0 {
        BadInRowsMeaning(sol, r - 1);
        BadInRowMeaning(sol, r - 1, nValues);
        forall e | e in BadInRows(sol, r)
          ensures exists x, y :: 0 <= x < r && 0 <= y < nValues && Bad(sol, x, y) && e == CellElement(cells[x, y])
        {
          if e in BadInRows(sol, r - 1) {
            var x, y :| 0 <= x < r - 1 && 0 <= y < nValues && Bad(sol, x, y) && e == CellElement(cells[x, y]);
          } else {
            assert e in BadInRow(sol, r - 1, nValues);
            var y :| 0 <= y < nValues && Bad(sol, r - 1, y) && e == CellElement(cells[r - 1, y]);
          }
        }
        forall x, y | 0 <= x < r && 0 <= y < nValues && Bad(sol, x, y)
          ensures CellElement(cells[x, y]) in BadInRows(sol, r)
        {
          if x < r - 1 {
            assert CellElement(cells[x, y]) in BadInRows(sol, r - 1);
          } else {
            assert CellElement(cells[x, y]) in BadInRow(sol, r - 1, nValues);
          }
        }
      }
    }

    /** The list of bad cells holds exactly the cells that disagree with the solution. */
    lemma BadCellsMeaning(sol: array2<Option<Value>>)
      requires Indexed() && sol.Length0 >= nValues && sol.Length1 >= nValues
      ensures forall e :: e in BadCells(sol) <==>
        exists r, c :: 0 <= r < nValues && 0 <= c < nValues && Bad(sol, r, c) && e == CellElement(cells[r, c])
      ensures BadCells(sol) == [] <==> forall r, c :: 0 <= r < nValues && 0 <= c < nValues ==> !Bad(sol, r, c)
    {
      BadInRowsMeaning(sol, nValues);
      if BadCells(sol) != [] {
        var e := BadCells(sol)[0];
        assert e in BadInRows(sol, nValues);
        var r, c :| 0 <= r < nValues && 0 <= c < nValues && Bad(sol, r, c) && e == CellElement(cells[r, c]);
      }
    }

    /**
     * checkPuzzle (sudoku/SuDoku.java:249-279): a "BOO BOO" hint pointing at every cell
     * that disagrees with the solution, or no hint when none does. Without a solution the
     * first comparison dereferences null, unless the grid has no cells at all.
     */
    method CheckPuzzle() returns (r: Result<Option<Hint>>)
      requires Valid()
      ensures r.Failure? <==> solution.None? && nValues > 0
      ensures r.Failure? ==> r.error == NullPointer
      ensures r.Success? && solution.None? ==> r.value.None?
      ensures r.Success? && solution.Some? ==> old(Indexed()) && (r.value.None? <==> old(BadCells(solution.value)) == [])
      ensures r.Success? && r.value.Some? ==>
        && solution.Some? && old(Indexed())
        && fresh(r.value.value) && r.value.value.Valid() && r.value.value.name == CHECK_NAME
        && r.value.value.text == CHECK_NAME + ": " + CHECK_TEXT
        && r.value.value.elements == old(BadCells(solution.value)) && r.value.value.values == {}
    {
      ValidIndexed();
      r := CheckCells();
    }

    /** checkPuzzle on a grid whose positions hold their cells. */
    method CheckCells() returns (r: Result<Option<Hint>>)
      requires Indexed() && (solution.Some? ==> solution.value.Length0 == nValues && solution.value.Length1 == nValues)
      ensures r.Failure? <==> solution.None? && nValues > 0
      ensures r.Failure? ==> r.error == NullPointer
      ensures r.Success? && solution.None? ==> r.value.None?
      ensures r.Success? && solution.Some? ==> old(Indexed()) && (r.value.None? <==> old(BadCells(solution.value)) == [])
      ensures r.Success? && r.value.Some? ==>
        && solution.Some? && old(Indexed())
        && fresh(r.value.value) && r.value.value.Valid() && r.value.value.name == CHECK_NAME
        && r.value.value.text == CHECK_NAME + ": " + CHECK_TEXT
        && r.value.value.elements == old(BadCells(solution.value)) && r.value.value.values == {}
    {
      if nValues == 0 {
        assert solution.Some? ==> BadCells(solution.value) == [];
        return Success(None);
      }
      if solution.None? {
        return Failure(NullPointer);
      }
      var hint := CollectBadCells(solution.value);
      if |hint.elements| > 0 {
        hint.AddText(CHECK_TEXT);
        r := Success(Some(hint));
      } else {
        r := Success(None);
      }
    }

    /**
     * The hint checkPuzzle builds and its loops (sudoku/SuDoku.java:253-272): the bad
     * cells, added in row-major order.
     */
    method CollectBadCells(sol: array2<Option<Value>>) returns (hint: Hint)
      requires Indexed() && sol.Length0 >= nValues && sol.Length1 >= nValues
      ensures fresh(hint) && hint.Valid() && hint.name == CHECK_NAME && hint.text == CHECK_NAME + ": "
      ensures hint.elements == old(BadCells(sol)) && hint.values == {}
    {
      hint := new Hint(CHECK_NAME);
      for r := 0 to nValues
        invariant hint.Valid() && hint.name == CHECK_NAME && hint.text == CHECK_NAME + ": " && hint.values == {}
        invariant hint.elements == old(BadInRows(sol, r))
      {
        for c := 0 to nValues
          invariant hint.Valid() && hint.name == CHECK_NAME && hint.text == CHECK_NAME + ": " && hint.values == {}
          invariant hint.elements == old(BadInRows(sol, r)) + old(BadInRow(sol, r, c))
        {
          var cell := cells[r, c];
          assert old(cell.value) == cell.value && old(cell.crossedOff) == cell.crossedOff;
          assert old(cell in Cells());
          assert old(BadInRow(sol, r, c + 1)) == old(BadInRow(sol, r, c)) + if old(Bad(sol, r, c)) then [CellElement(cell)] else [];
          var value := cell.value;
          if value.Some? {
            if value != sol[r, c] {
              hint.AddElement(CellElement(cell));
            }
          } else if sol[r, c].Some? && sol[r, c].value in cell.crossedOff {
            hint.AddElement(CellElement(cell));
          }
        }
      }
    }
  }
}
