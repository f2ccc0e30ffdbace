/**
 * The grid's building blocks (package sudoku): cells, and the rows, columns and boxes
 * that group them (Cell.java, CellGroup.java, Row.java, Column.java, Box.java,
 * Element.java).
 */
module SuDokuGrid {
  import opened Wrappers
  import opened Values

  /** Element.CELL, ROW, COLUMN and BOX (sudoku/Element.java:9-12). */
  datatype ElementType = CELL | ROW | COLUMN | BOX

  /** What a hint can point at: a cell or a cell group (both implement Element). */
  datatype Element = CellElement(cell: Cell) | GroupElement(group: CellGroup)

  /**
   * CellGroup and its three sub-classes: a row, a column or a box, identified by its
   * type and index, and the cells it holds in the order they were added.
   */
  class CellGroup {
    const kind: ElementType
    const index: seq<int>
    var cells: seq<Cell>

    /** Row(row) (sudoku/Row.java:9-15). */
    constructor Row(row: int)
      ensures kind == ROW && index == [row] && cells == []
    {
      kind := ROW;
      index := [row];
      cells := [];
    }

    /** Column(col) (sudoku/Column.java:9-15). */
    constructor Column(col: int)
      ensures kind == COLUMN && index == [col] && cells == []
    {
      kind := COLUMN;
      index := [col];
      cells := [];
    }

    /** Box(row, col): the box in band `row` and stack `col` (sudoku/Box.java:10-17). */
    constructor Box(row: int, col: int)
      ensures kind == BOX && index == [row, col] && cells == []
    {
      kind := BOX;
      index := [row, col];
      cells := [];
    }

    /** addCell (sudoku/CellGroup.java:57-60): iteration then visits the cells in insertion order. */
    method AddCell(cell: Cell)
      modifies this`cells
      ensures cells == old(cells) + [cell]
    {
      cells := cells + [cell];
    }

    /** The values the loop of getValues has collected after visiting the first k cells. */
    function ValuesUpTo(k: nat): (r: set<Value>)
      requires k <= |cells|
      reads this, cells
      ensures |r| <= k
      ensures forall x :: x in r <==> exists i :: 0 <= i < k && cells[i].value == Some(x)
    {
      if k == 0 then {}
      else
        var earlier := ValuesUpTo(k - 1);
        var c := cells[k - 1];
        if c.value.Some? then earlier + {c.value.value} else earlier
    }

    /**
     * getValues (sudoku/CellGroup.java:45-55): exactly the values the group's cells hold,
     * so no more values than cells.
     */
    function Values(): (r: set<Value>)
      reads this, cells
      ensures |r| <= |cells|
      ensures forall x :: x in r <==> exists c :: c in cells && c.value == Some(x)
    {
      var r := ValuesUpTo(|cells|);
      assert forall x :: (exists c :: c in cells && c.value == Some(x)) ==> x in r by {
        forall x, c | c in cells && c.value == Some(x) ensures x in r {
          var i :| 0 <= i < |cells| && cells[i] == c;
        }
      }
      r
    }
  }

  /**
   * A cell of the grid (sudoku/Cell.java). The back-reference to the SuDoku is replaced
   * by the one thing the cell reads through it, the puzzle's value set, which the SuDoku
   * never changes.
   */
  class Cell {
    const row: CellGroup
    const column: CellGroup
    const box: CellGroup
    const valueSet: set<Value>
    /** [row index, column index]. */
    const index: seq<int>
    var value: Option<Value>
    var crossedOff: set<Value>

    /** Cell(row, column, box, suDoku) (sudoku/Cell.java:21-31). */
    constructor (row: CellGroup, column: CellGroup, box: CellGroup, valueSet: set<Value>)
      requires row.kind == ROW && column.kind == COLUMN && box.kind == BOX
      requires |row.index| == 1 && |column.index| == 1
      ensures this.row == row && this.column == column && this.box == box && this.valueSet == valueSet
      ensures index == [row.index[0], column.index[0]]
      ensures value == None && crossedOff == {}
    {
      this.row := row;
      this.column := column;
      this.box := box;
      this.valueSet := valueSet;
      index := [row.index[0], column.index[0]];
      value := None;
      crossedOff := {};
    }

    /** reset (sudoku/Cell.java:50-54). */
    method Reset()
      modifies this`value, this`crossedOff
      ensures value == None && crossedOff == {}
    {
      value := None;
      crossedOff := {};
    }

    /** setValue (sudoku/Cell.java:58-61); a null argument blanks the cell. */
    method SetValue(v: Option<Value>)
      modifies this`value
      ensures value == v
    {
      value := v;
    }

    /** eraseValue (sudoku/Cell.java:65-68). */
    method EraseValue()
      modifies this`value
      ensures value == None
    {
      value := None;
    }

    /** crossOffCandidate (sudoku/Cell.java:79-82). */
    method CrossOffCandidate(x: Value)
      modifies this`crossedOff
      ensures crossedOff == old(crossedOff) + {x}
    {
      crossedOff := crossedOff + {x};
    }

    /** reinstateCandidate (sudoku/Cell.java:86-89). */
    method ReinstateCandidate(x: Value)
      modifies this`crossedOff
      ensures crossedOff == old(crossedOff) - {x}
    {
      crossedOff := crossedOff - {x};
    }

    /** Some cell of the cell's row, column or box holds x. */
    ghost predicate Taken(x: Value)
      reads this, row, column, box, row.cells, column.cells, box.cells
    {
      || (exists c :: c in row.cells && c.value == Some(x))
      || (exists c :: c in column.cells && c.value == Some(x))
      || (exists c :: c in box.cells && c.value == Some(x))
    }

    /**
     * getCandidates (sudoku/Cell.java:102-115): a filled cell's only candidate is its
     * value; a blank cell's candidates are the values no cell of its row, column or box
     * holds.
     */
    function Candidates(): (r: set<Value>)
      reads this, row, column, box, row.cells, column.cells, box.cells
      ensures value.Some? ==> r == {value.value}
      ensures value.None? ==> forall x :: x in r <==> x in valueSet && !Taken(x)
    {
      if value.None? then valueSet - row.Values() - column.Values() - box.Values()
      else {value.value}
    }

    /**
     * getRemainingCandidates (sudoku/Cell.java:121-126): the candidates not crossed off.
     * A filled cell's candidate set is the immutable Collections.singleton, and removing
     * its one element from it throws, which happens exactly when the value is crossed off.
     */
    function RemainingCandidates(): (r: Result<set<Value>>)
      reads this, row, column, box, row.cells, column.cells, box.cells
      ensures r.Failure? <==> value.Some? && value.value in crossedOff
      ensures r.Failure? ==> r.error == UnsupportedOperation
      ensures r.Success? && value.Some? ==> r.value == {value.value}
      ensures r.Success? && value.None? ==> forall x :: x in r.value <==> x in valueSet && !Taken(x) && x !in crossedOff
    {
      var candidates := Candidates();
      if value.Some? && value.value in crossedOff then Failure(UnsupportedOperation)
      else Success(candidates - crossedOff)
    }
  }
}
