/**
 * The hint strategies (package sudoku.strategy): SingletonStrategy and
 * HiddenSingleStrategy, and SuDoku.getHint, which consults them after checking the
 * user's entries. A strategy reaches the puzzle through the accessors of SuDoku.Strategy
 * (sudoku/SuDoku.java:291-358), which hand out the puzzle's own arrays; here it is
 * given the SuDoku and reads the same fields.
 */
module Strategies {
  import opened Wrappers
  import opened Values
  import opened SuDokuGrid
  import opened Hints
  import opened SuDokuPuzzle

  /** The strategy names and hint texts (sudoku/strategy/SingletonStrategy.java:43-44, HiddenSingleStrategy.java:94-95). */
  const SINGLETON_NAME: string := "SINGLETON"
  const SINGLETON_TEXT: string := "The cell highlighted can only contain the value "
  const HIDDEN_SINGLE_NAME: string := "HIDDEN SINGLE"
  const HIDDEN_SINGLE_TEXT: string := "Within this cell group, only one cell can contain the value "

  // -------------------------------------------------------------------------------
  // Singletons

  /**
   * v is the one value a blank cell can still take: the only value of the set that no
   * cell of its row, column or box holds and that the user has not crossed off.
   */
  ghost predicate OnlyCandidate(cell: Cell, v: Value)
    reads cell, cell.row, cell.column, cell.box, cell.row.cells, cell.column.cells, cell.box.cells
  {
    && cell.value.None?
    && forall x :: x in cell.valueSet && !cell.Taken(x) && x !in cell.crossedOff <==> x == v
  }

  /** A blank cell has v as its only candidate exactly when its remaining candidates are {v}. */
  lemma OnlyCandidateMeaning(cell: Cell)
    requires cell.value.None?
    ensures cell.RemainingCandidates().Success?
    ensures forall v :: OnlyCandidate(cell, v) <==> cell.RemainingCandidates().value == {v}
  {
    forall v | OnlyCandidate(cell, v) ensures cell.RemainingCandidates().value == {v} {
      var rc := cell.RemainingCandidates().value;
      assert forall x :: x in rc <==> x == v;
    }
  }

  lemma SingleElement(c: set<Value>)
    requires |c| == 1
    ensures forall x, y :: x in c && y in c ==> x == y
  {
    forall x, y | x in c && y in c ensures x == y {
      var rest := c - {x};
      assert |rest| == 0;
      assert y !in rest;
    }
  }

  /**
   * checkForSingleton (sudoku/strategy/SingletonStrategy.java:29-40): the value a blank
   * cell is left with when exactly one candidate remains, and nothing for a filled cell
   * or a blank one with several candidates or none.
   */
  function CheckForSingleton(cell: Cell): (r: Option<Value>)
    reads cell, cell.row, cell.column, cell.box, cell.row.cells, cell.column.cells, cell.box.cells
    ensures r.Some? ==> OnlyCandidate(cell, r.value)
    ensures r.None? ==> forall v :: !OnlyCandidate(cell, v)
  {
    if cell.value.None? then
      OnlyCandidateMeaning(cell);
      var candidates := cell.RemainingCandidates().value;
      if |candidates| == 1 then
        SingleElement(candidates);
        var v :| v in candidates;
        Some(v)
      else
        None
    else
      None
  }

  /** The cell at (r, c) of the grid is a singleton. */
  ghost predicate SingletonAt(s: SuDoku, r: nat, c: nat)
    requires s.Indexed() && r < s.nValues && c < s.nValues
    reads s.cells, s.cells[r, c], s.cells[r, c].row, s.cells[r, c].column, s.cells[r, c].box
    reads s.cells[r, c].row.cells, s.cells[r, c].column.cells, s.cells[r, c].box.cells
  {
    CheckForSingleton(s.cells[r, c]).Some?
  }

  /**
   * The loops of getHint (sudoku/strategy/SingletonStrategy.java:18-26): the first
   * singleton in row-major order, with its value, or none when no cell is one.
   */
  method FindSingleton(s: SuDoku) returns (r: Option<(nat, nat, Value)>)
    requires s.Indexed()
    ensures r.None? <==> forall x, y :: 0 <= x < s.nValues && 0 <= y < s.nValues ==> old(!SingletonAt(s, x, y))
    ensures r.Some? ==>
      && r.value.0 < s.nValues && r.value.1 < s.nValues
      && old(CheckForSingleton(s.cells[r.value.0, r.value.1])) == Some(r.value.2)
      && forall x, y :: 0 <= x < s.nValues && 0 <= y < s.nValues && Before(x, y, r.value.0, r.value.1) ==> old(!SingletonAt(s, x, y))
  {
    var n := s.nValues;
    for row := 0 to n
      invariant forall x, y :: 0 <= x < row && 0 <= y < n ==> !SingletonAt(s, x, y)
    {
      for col := 0 to n
        invariant forall x, y :: 0 <= x < n && 0 <= y < n && Before(x, y, row, col) ==> !SingletonAt(s, x, y)
      {
        var value := CheckForSingleton(s.cells[row, col]);
        if value.Some? {
          assert SingletonAt(s, row, col);
          return Some((row, col, value.value));
        }
        forall x, y | 0 <= x < n && 0 <= y < n && Before(x, y, row, col + 1) ensures !SingletonAt(s, x, y) {
          if x == row && y == col {
            assert !SingletonAt(s, row, col);
          }
        }
      }
    }
    return None;
  }

  /** h is the hint constructHint builds for a singleton value v in cell. */
  ghost predicate IsSingletonHint(h: Hint, v: Value, cell: Cell)
    reads h
  {
    && h.Valid() && h.name == SINGLETON_NAME
    && h.text == SINGLETON_NAME + ": " + SINGLETON_TEXT + v
    && h.elements == [CellElement(cell)] && h.values == {v}
  }

  /** constructHint (sudoku/strategy/SingletonStrategy.java:41-49). */
  method SingletonConstructHint(v: Value, cell: Cell) returns (hint: Hint)
    ensures fresh(hint) && IsSingletonHint(hint, v, cell)
  {
    hint := new Hint(SINGLETON_NAME);
    hint.AddText(SINGLETON_TEXT);
    hint.AddText(v);
    hint.AddElement(CellElement(cell));
    hint.AddValue(v);
  }

  /**
   * getHint of SingletonStrategy (sudoku/strategy/SingletonStrategy.java:14-27): a hint
   * naming the first singleton in row-major order and its value, or none when the grid
   * has no singleton.
   */
  method SingletonHint(s: SuDoku) returns (hint: Option<Hint>, ghost row: nat, ghost col: nat)
    requires s.Indexed()
    ensures hint.None? <==> forall x, y :: 0 <= x < s.nValues && 0 <= y < s.nValues ==> old(!SingletonAt(s, x, y))
    ensures hint.Some? ==>
      && row < s.nValues && col < s.nValues && fresh(hint.value)
      && old(SingletonAt(s, row, col))
      && IsSingletonHint(hint.value, old(CheckForSingleton(s.cells[row, col])).value, s.cells[row, col])
      && forall x, y :: 0 <= x < s.nValues && 0 <= y < s.nValues && Before(x, y, row, col) ==> old(!SingletonAt(s, x, y))
  {
    var found := FindSingleton(s);
    if found.None? {
      return None, 0, 0;
    }
    var (r, c, v) := found.value;
    var h := SingletonConstructHint(v, s.cells[r, c]);
    return Some(h), r, c;
  }

  // -------------------------------------------------------------------------------
  // Hidden singles

  /** What getRemainingCandidates gives for each of the first k cells of cs. */
  function RemainingOf(cs: seq<Cell>, k: nat): (r: seq<Result<set<Value>>>)
    requires k <= |cs|
    reads cs, (set c | c in cs :: c.row), (set c | c in cs :: c.column), (set c | c in cs :: c.box)
    reads (set c, i | c in cs && 0 <= i < |c.row.cells| :: c.row.cells[i])
    reads (set c, i | c in cs && 0 <= i < |c.column.cells| :: c.column.cells[i])
    reads (set c, i | c in cs && 0 <= i < |c.box.cells| :: c.box.cells[i])
    ensures |r| == k
  {
    if k == 0 then []
    else
      var c := cs[k - 1];
      assert c in cs;
      RemainingOf(cs, k - 1) + [c.RemainingCandidates()]
  }

  /** The cell whose remaining candidates are rc offers v. */
  predicate Offers(rc: Result<set<Value>>, v: Value)
  {
    rc.Success? && v in rc.value
  }

  /** How many of the first k cells offer v. */
  function Count(rcs: seq<Result<set<Value>>>, v: Value, k: nat): (r: nat)
    requires k <= |rcs|
    ensures r <= k
  {
    if k == 0 then 0 else Count(rcs, v, k - 1) + if Offers(rcs[k - 1], v) then 1 else 0
  }

  /** The position of the last cell among the first k that offers v, or -1. */
  function Last(rcs: seq<Result<set<Value>>>, v: Value, k: nat): (r: int)
    requires k <= |rcs|
    ensures -1 <= r < k
    ensures r == -1 <==> Count(rcs, v, k) == 0
    ensures r >= 0 ==> Offers(rcs[r], v) && forall j :: r < j < k ==> !Offers(rcs[j], v)
  {
    if k == 0 then -1 else if Offers(rcs[k - 1], v) then k - 1 else Last(rcs, v, k - 1)
  }

  /** No cell among the first k offers v exactly when the count is zero. */
  lemma {:induction false} CountZero(rcs: seq<Result<set<Value>>>, v: Value, k: nat)
    requires k <= |rcs|
    ensures Count(rcs, v, k) == 0 <==> forall j :: 0 <= j < k ==> !Offers(rcs[j], v)
  {
    if k > 0 {
      CountZero(rcs, v, k - 1);
    }
  }

  /** With a count of one, the last offering cell is the only one. */
  lemma {:induction false} CountOne(rcs: seq<Result<set<Value>>>, v: Value, k: nat)
    requires k <= |rcs| && Count(rcs, v, k) == 1
    ensures forall j :: 0 <= j < k && j != Last(rcs, v, k) ==> !Offers(rcs[j], v)
  {
    if Offers(rcs[k - 1], v) {
      CountZero(rcs, v, k - 1);
    } else {
      CountOne(rcs, v, k - 1);
    }
  }

  /** A cell that alone offers v among the first k makes the count one. */
  lemma {:induction false} CountAlone(rcs: seq<Result<set<Value>>>, v: Value, k: nat, i: nat)
    requires i < k <= |rcs| && Offers(rcs[i], v)
    requires forall j :: 0 <= j < k && j != i ==> !Offers(rcs[j], v)
    ensures Count(rcs, v, k) == 1 && Last(rcs, v, k) == i
  {
    if i == k - 1 {
      CountZero(rcs, v, k - 1);
    } else {
      CountAlone(rcs, v, k - 1, i);
    }
  }

  /** The count only grows as the search moves along. */
  lemma {:induction false} CountGrows(rcs: seq<Result<set<Value>>>, v: Value, a: nat, b: nat)
    requires a <= b <= |rcs|
    ensures Count(rcs, v, a) <= Count(rcs, v, b)
    decreases b
  {
    if a < b {
      CountGrows(rcs, v, a, b - 1);
    }
  }

  /**
   * What checkForHiddenSingle (sudoku/strategy/HiddenSingleStrategy.java:74-90) answers
   * for cells whose remaining candidates are rcs: the loop stops at the second cell that
   * offers v, answering none; before that, a cell whose candidates cannot be computed
   * throws; after the whole group, it answers the position of the one cell offering v,
   * if there is one.
   */
  function HiddenSingleOf(rcs: seq<Result<set<Value>>>, v: Value): (r: Result<Option<nat>>)
    ensures r.Success? && r.value.Some? ==> r.value.value < |rcs|
  {
    if exists j :: 0 <= j < |rcs| && rcs[j].Failure? && Count(rcs, v, j) <= 1 then
      Failure(UnsupportedOperation)
    else if Count(rcs, v, |rcs|) == 1 then
      Success(Some(Last(rcs, v, |rcs|)))
    else
      Success(None)
  }

  /**
   * When every cell's candidates can be computed, the answer is the position of the only
   * cell offering v, and none when no cell or several cells offer it.
   */
  lemma HiddenSingleMeaning(rcs: seq<Result<set<Value>>>, v: Value)
    requires forall j :: 0 <= j < |rcs| ==> rcs[j].Success?
    ensures HiddenSingleOf(rcs, v).Success?
    ensures forall i :: HiddenSingleOf(rcs, v) == Success(Some(i)) <==>
      0 <= i < |rcs| && Offers(rcs[i], v) && forall j :: 0 <= j < |rcs| && j != i ==> !Offers(rcs[j], v)
  {
    forall i ensures HiddenSingleOf(rcs, v) == Success(Some(i)) <==>
      0 <= i < |rcs| && Offers(rcs[i], v) && forall j :: 0 <= j < |rcs| && j != i ==> !Offers(rcs[j], v)
    {
      if HiddenSingleOf(rcs, v) == Success(Some(i)) {
        CountOne(rcs, v, |rcs|);
      }
      if 0 <= i < |rcs| && Offers(rcs[i], v) && forall j :: 0 <= j < |rcs| && j != i ==> !Offers(rcs[j], v) {
        CountAlone(rcs, v, |rcs|, i);
      }
    }
  }

  /** The loop of checkForHiddenSingle throws at a cell it reaches whose candidates cannot be computed. */
  lemma HiddenSingleThrows(rcs: seq<Result<set<Value>>>, v: Value, i: nat)
    requires i < |rcs| && rcs[i].Failure? && Count(rcs, v, i) <= 1
    ensures HiddenSingleOf(rcs, v) == Failure(UnsupportedOperation)
  {
  }

  /** The loop of checkForHiddenSingle answers none at the second cell offering v. */
  lemma HiddenSingleSecondHit(rcs: seq<Result<set<Value>>>, v: Value, i: nat)
    requires i < |rcs| && Offers(rcs[i], v) && Count(rcs, v, i) == 1
    requires forall j :: 0 <= j <= i ==> !(rcs[j].Failure? && Count(rcs, v, j) <= 1)
    ensures HiddenSingleOf(rcs, v) == Success(None)
  {
    forall j | i < j <= |rcs| ensures Count(rcs, v, j) >= 2 {
      CountGrows(rcs, v, i + 1, j);
    }
  }

  /** What the loop of checkForHiddenSingle has established when it runs to the end. */
  lemma HiddenSingleAtEnd(rcs: seq<Result<set<Value>>>, v: Value, possible: Option<nat>)
    requires forall j :: 0 <= j < |rcs| ==> !(rcs[j].Failure? && Count(rcs, v, j) <= 1)
    requires Count(rcs, v, |rcs|) <= 1
    requires possible.None? <==> Count(rcs, v, |rcs|) == 0
    requires possible.Some? ==> Count(rcs, v, |rcs|) == 1 && possible.value == Last(rcs, v, |rcs|)
    ensures HiddenSingleOf(rcs, v) == Success(possible)
  {
  }

  /**
   * checkForHiddenSingle (sudoku/strategy/HiddenSingleStrategy.java:74-90), given the
   * remaining candidates of the group's cells in order: it stops with none at the second
   * cell offering v, throws at a cell whose candidates cannot be computed, and otherwise
   * answers the position of the cell offering v, if any.
   */
  method CheckForHiddenSingle(rcs: seq<Result<set<Value>>>, v: Value) returns (r: Result<Option<nat>>)
    ensures r == HiddenSingleOf(rcs, v)
  {
    var possible: Option<nat> := None;
    for i := 0 to |rcs|
      invariant forall j :: 0 <= j < i ==> !(rcs[j].Failure? && Count(rcs, v, j) <= 1)
      invariant Count(rcs, v, i) <= 1
      invariant possible.None? <==> Count(rcs, v, i) == 0
      invariant possible.Some? ==> Count(rcs, v, i) == 1 && possible.value == Last(rcs, v, i)
    {
      var candidates := rcs[i];
      if candidates.Failure? {
        HiddenSingleThrows(rcs, v, i);
        return Failure(UnsupportedOperation);
      }
      if v in candidates.value {
        if possible.Some? {
          HiddenSingleSecondHit(rcs, v, i);
          return Success(None);
        }
        possible := Some(i);
      }
    }
    HiddenSingleAtEnd(rcs, v, possible);
    return Success(possible);
  }

  /** Position k of RemainingOf is what getRemainingCandidates gives for cell k. */
  lemma {:induction false} RemainingOfAt(cs: seq<Cell>, k: nat, i: nat)
    requires i < k <= |cs|
    ensures RemainingOf(cs, k)[i] == cs[i].RemainingCandidates()
  {
    if i < k - 1 {
      RemainingOfAt(cs, k - 1, i);
    }
  }

  /** RemainingOf lists what getRemainingCandidates gives for every cell, in order. */
  lemma RemainingOfAll(cs: seq<Cell>)
    ensures forall j :: 0 <= j < |cs| ==> RemainingOf(cs, |cs|)[j] == cs[j].RemainingCandidates()
  {
    forall j | 0 <= j < |cs|
      ensures RemainingOf(cs, |cs|)[j] == cs[j].RemainingCandidates()
    {
      RemainingOfAt(cs, |cs|, j);
    }
  }

  // -------------------------------------------------------------------------------
  // Hidden singles in the cell groups

  /**
   * What checkCellGroup works from: the group's cells, the values of the value set that
   * no cell of the group holds, and the remaining candidates of the cells in order.
   */
  datatype View = View(cells: seq<Cell>, untried: set<Value>, remaining: seq<Result<set<Value>>>)

  /** The view of group g in the puzzle with value set valueSet. */
  function ViewOf(valueSet: set<Value>, g: CellGroup): (w: View)
    reads g, g.cells, (set c | c in g.cells :: c.row), (set c | c in g.cells :: c.column), (set c | c in g.cells :: c.box)
    reads (set c, i | c in g.cells && 0 <= i < |c.row.cells| :: c.row.cells[i])
    reads (set c, i | c in g.cells && 0 <= i < |c.column.cells| :: c.column.cells[i])
    reads (set c, i | c in g.cells && 0 <= i < |c.box.cells| :: c.box.cells[i])
    ensures w.cells == g.cells && |w.remaining| == |g.cells|
    ensures forall v :: v in w.untried <==> v in valueSet && forall c :: c in g.cells ==> c.value != Some(v)
  {
    View(g.cells, valueSet - g.Values(), RemainingOf(g.cells, |g.cells|))
  }

  /** No untried value of the view has a hidden single or throws. */
  predicate ViewQuiet(w: View)
  {
    forall v :: v in w.untried ==> HiddenSingleOf(w.remaining, v) == Success(None)
  }

  /** The untried value v of view w has its hidden single at position i. */
  predicate ViewAnswers(w: View, v: Value, i: nat)
  {
    v in w.untried && HiddenSingleOf(w.remaining, v) == Success(Some(i))
  }

  /** Some untried value of view w throws. */
  predicate ViewBreaks(w: View)
  {
    exists v :: v in w.untried && HiddenSingleOf(w.remaining, v).Failure?
  }

  /**
   * What checkCellGroup may answer for view w: nothing exactly when the view is quiet,
   * an untried value with the position of its hidden single, or the exception of an
   * untried value that throws.
   */
  predicate ViewReports(w: View, answer: Result<Option<(Value, nat)>>)
  {
    && (answer == Success(None) <==> ViewQuiet(w))
    && (answer.Success? && answer.value.Some? ==> ViewAnswers(w, answer.value.value.0, answer.value.value.1))
    && (answer.Failure? ==> answer.error == UnsupportedOperation && ViewBreaks(w))
  }

  /** Group g is quiet: checkCellGroup finds nothing in it. */
  ghost predicate Quiet(valueSet: set<Value>, g: CellGroup)
    reads g, g.cells, (set c | c in g.cells :: c.row), (set c | c in g.cells :: c.column), (set c | c in g.cells :: c.box)
    reads (set c, i | c in g.cells && 0 <= i < |c.row.cells| :: c.row.cells[i])
    reads (set c, i | c in g.cells && 0 <= i < |c.column.cells| :: c.column.cells[i])
    reads (set c, i | c in g.cells && 0 <= i < |c.box.cells| :: c.box.cells[i])
  {
    ViewQuiet(ViewOf(valueSet, g))
  }

  /** checkCellGroup can answer the hidden single of v at position i of group g. */
  ghost predicate Answers(valueSet: set<Value>, g: CellGroup, v: Value, i: nat)
    reads g, g.cells, (set c | c in g.cells :: c.row), (set c | c in g.cells :: c.column), (set c | c in g.cells :: c.box)
    reads (set c, i | c in g.cells && 0 <= i < |c.row.cells| :: c.row.cells[i])
    reads (set c, i | c in g.cells && 0 <= i < |c.column.cells| :: c.column.cells[i])
    reads (set c, i | c in g.cells && 0 <= i < |c.box.cells| :: c.box.cells[i])
  {
    ViewAnswers(ViewOf(valueSet, g), v, i)
  }

  /** checkCellGroup can throw on group g. */
  ghost predicate Breaks(valueSet: set<Value>, g: CellGroup)
    reads g, g.cells, (set c | c in g.cells :: c.row), (set c | c in g.cells :: c.column), (set c | c in g.cells :: c.box)
    reads (set c, i | c in g.cells && 0 <= i < |c.row.cells| :: c.row.cells[i])
    reads (set c, i | c in g.cells && 0 <= i < |c.column.cells| :: c.column.cells[i])
    reads (set c, i | c in g.cells && 0 <= i < |c.box.cells| :: c.box.cells[i])
  {
    ViewBreaks(ViewOf(valueSet, g))
  }

  /** Cell i of g is the one cell of g that still has v among its remaining candidates. */
  ghost predicate OnlyCellFor(g: CellGroup, v: Value, i: nat)
    reads g, g.cells, (set c | c in g.cells :: c.row), (set c | c in g.cells :: c.column), (set c | c in g.cells :: c.box)
    reads (set c, i | c in g.cells && 0 <= i < |c.row.cells| :: c.row.cells[i])
    reads (set c, i | c in g.cells && 0 <= i < |c.column.cells| :: c.column.cells[i])
    reads (set c, i | c in g.cells && 0 <= i < |c.box.cells| :: c.box.cells[i])
  {
    && i < |g.cells| && Offers(g.cells[i].RemainingCandidates(), v)
    && forall j :: 0 <= j < |g.cells| && j != i ==> !Offers(g.cells[j].RemainingCandidates(), v)
  }

  /**
   * The meaning of an answer: when no cell of g throws, checkCellGroup can answer v at
   * position i exactly when no cell of g holds v and cell i is the only cell of g with
   * v among its remaining candidates; and v never throws.
   */
  lemma HiddenSingleInGroup(valueSet: set<Value>, g: CellGroup, v: Value)
    requires forall c :: c in g.cells ==> c.RemainingCandidates().Success?
    ensures HiddenSingleOf(ViewOf(valueSet, g).remaining, v).Success?
    ensures forall i :: Answers(valueSet, g, v, i) <==>
      v in valueSet && (forall c :: c in g.cells ==> c.value != Some(v)) && OnlyCellFor(g, v, i)
  {
    var w := ViewOf(valueSet, g);
    var cs := g.cells;
    RemainingOfAll(cs);
    HiddenSingleMeaning(w.remaining, v);
    forall i: nat
      ensures Answers(valueSet, g, v, i) <==>
        v in valueSet && (forall c :: c in cs ==> c.value != Some(v)) && OnlyCellFor(g, v, i)
    {
      assert Answers(valueSet, g, v, i) <==> v in w.untried && HiddenSingleOf(w.remaining, v) == Success(Some(i));
      assert OnlyCellFor(g, v, i) <==>
        && i < |w.remaining| && Offers(w.remaining[i], v)
        && forall j :: 0 <= j < |w.remaining| && j != i ==> !Offers(w.remaining[j], v);
    }
  }

  /**
   * checkCellGroup (sudoku/strategy/HiddenSingleStrategy.java:62-73), on the view of
   * the group: the untried values are tried one by one, in the HashSet's iteration
   * order, which is left open here; the first value with a hidden single is answered
   * with the position of its cell, and a value that throws ends the search.
   */
  method CheckCellGroup(w: View) returns (answer: Result<Option<(Value, nat)>>)
    ensures ViewReports(w, answer)
  {
    var untried := w.untried;
    while untried != {}
      invariant untried <= w.untried
      invariant forall v :: v in w.untried - untried ==> HiddenSingleOf(w.remaining, v) == Success(None)
      decreases |untried|
    {
      var v :| v in untried;
      var found := CheckForHiddenSingle(w.remaining, v);
      if found.Failure? {
        return Failure(found.error);
      }
      if found.value.Some? {
        return Success(Some((v, found.value.value)));
      }
      untried := untried - {v};
    }
    return Success(None);
  }

  /** h is the hint constructHint builds for the hidden single value v in cell of group g. */
  ghost predicate IsHiddenSingleHint(h: Hint, g: CellGroup, v: Value, cell: Cell)
    reads h
  {
    && h.Valid() && h.name == HIDDEN_SINGLE_NAME
    && h.text == HIDDEN_SINGLE_NAME + ": " + HIDDEN_SINGLE_TEXT + v
    && h.elements == [GroupElement(g), CellElement(cell)] && h.values == {v}
  }

  /** constructHint (sudoku/strategy/HiddenSingleStrategy.java:92-101). */
  method HiddenSingleConstructHint(v: Value, cell: Cell, cellGroup: CellGroup) returns (hint: Hint)
    ensures fresh(hint) && IsHiddenSingleHint(hint, cellGroup, v, cell)
  {
    hint := new Hint(HIDDEN_SINGLE_NAME);
    hint.AddText(HIDDEN_SINGLE_TEXT);
    hint.AddText(v);
    hint.AddElement(GroupElement(cellGroup));
    hint.AddValue(v);
    hint.AddElement(CellElement(cell));
  }

  // -------------------------------------------------------------------------------
  // The order in which getHint visits the cell groups

  /** A cell group of the grid: the box in band and stack, a row or a column. */
  datatype Place = BoxAt(band: nat, stack: nat) | RowAt(row: nat) | ColumnAt(column: nat)

  /** p names a group of s. */
  predicate OnGrid(s: SuDoku, p: Place)
  {
    match p
    case BoxAt(b, c) => b < s.nBands && c < s.nStacks
    case RowAt(i) => i < s.nValues
    case ColumnAt(j) => j < s.nValues
  }

  /** The group p names. */
  function GroupAt(s: SuDoku, p: Place): CellGroup
    requires s.Shaped() && OnGrid(s, p)
  {
    match p
    case BoxAt(b, c) => s.boxes[b][c]
    case RowAt(i) => s.rows[i]
    case ColumnAt(j) => s.columns[j]
  }

  /**
   * getHint (sudoku/strategy/HiddenSingleStrategy.java:16-25) visits p before q: all
   * boxes, band by band and stack by stack, then the rows, then the columns.
   */
  predicate Earlier(p: Place, q: Place)
  {
    match (p, q)
    case (BoxAt(b, c), BoxAt(b', c')) => Before(b, c, b', c')
    case (BoxAt(_, _), _) => true
    case (RowAt(i), RowAt(j)) => i < j
    case (RowAt(_), ColumnAt(_)) => true
    case (ColumnAt(i), ColumnAt(j)) => i < j
    case _ => false
  }

  /** The visiting order is a strict total order on places. */
  lemma EarlierOrder(p: Place, q: Place, o: Place)
    ensures !Earlier(p, p)
    ensures Earlier(p, q) && Earlier(q, o) ==> Earlier(p, o)
    ensures p != q ==> Earlier(p, q) || Earlier(q, p)
  {
  }

  /** The places of s. */
  function Places(s: SuDoku): (r: set<Place>)
    ensures forall p :: p in r <==> OnGrid(s, p)
  {
    (set b, c | 0 <= b < s.nBands && 0 <= c < s.nStacks :: BoxAt(b, c))
    + (set i | 0 <= i < s.nValues :: RowAt(i))
    + (set j | 0 <= j < s.nValues :: ColumnAt(j))
  }

  /** checkBoxes (sudoku/strategy/HiddenSingleStrategy.java:27-41): the boxes band by band, stack by stack. */
  method CheckBoxes(s: SuDoku, views: map<Place, View>) returns (at: Place, answer: Result<Option<(Value, nat)>>)
    requires forall b, c :: 0 <= b < s.nBands && 0 <= c < s.nStacks ==> BoxAt(b, c) in views
    ensures answer == Success(None) ==> forall b, c :: 0 <= b < s.nBands && 0 <= c < s.nStacks ==> ViewQuiet(views[BoxAt(b, c)])
    ensures answer != Success(None) ==>
      && at.BoxAt? && OnGrid(s, at) && ViewReports(views[at], answer)
      && forall b, c :: 0 <= b < s.nBands && 0 <= c < s.nStacks && Before(b, c, at.band, at.stack) ==> ViewQuiet(views[BoxAt(b, c)])
  {
    for band := 0 to s.nBands
      invariant forall b, c :: 0 <= b < band && 0 <= c < s.nStacks ==> ViewQuiet(views[BoxAt(b, c)])
    {
      for stack := 0 to s.nStacks
        invariant forall b, c :: 0 <= b < s.nBands && 0 <= c < s.nStacks && Before(b, c, band, stack) ==> ViewQuiet(views[BoxAt(b, c)])
      {
        answer := CheckCellGroup(views[BoxAt(band, stack)]);
        if answer != Success(None) {
          return BoxAt(band, stack), answer;
        }
      }
    }
    return BoxAt(0, 0), Success(None);
  }

  /** checkRows (sudoku/strategy/HiddenSingleStrategy.java:42-51): the rows from the top. */
  method CheckRows(s: SuDoku, views: map<Place, View>) returns (at: Place, answer: Result<Option<(Value, nat)>>)
    requires forall i :: 0 <= i < s.nValues ==> RowAt(i) in views
    ensures answer == Success(None) ==> forall i :: 0 <= i < s.nValues ==> ViewQuiet(views[RowAt(i)])
    ensures answer != Success(None) ==>
      && at.RowAt? && OnGrid(s, at) && ViewReports(views[at], answer)
      && forall i :: 0 <= i < at.row ==> ViewQuiet(views[RowAt(i)])
  {
    for row := 0 to s.nValues
      invariant forall i :: 0 <= i < row ==> ViewQuiet(views[RowAt(i)])
    {
      answer := CheckCellGroup(views[RowAt(row)]);
      if answer != Success(None) {
        return RowAt(row), answer;
      }
    }
    return RowAt(0), Success(None);
  }

  /** checkColumns (sudoku/strategy/HiddenSingleStrategy.java:52-61): the columns from the left. */
  method CheckColumns(s: SuDoku, views: map<Place, View>) returns (at: Place, answer: Result<Option<(Value, nat)>>)
    requires forall j :: 0 <= j < s.nValues ==> ColumnAt(j) in views
    ensures answer == Success(None) ==> forall j :: 0 <= j < s.nValues ==> ViewQuiet(views[ColumnAt(j)])
    ensures answer != Success(None) ==>
      && at.ColumnAt? && OnGrid(s, at) && ViewReports(views[at], answer)
      && forall j :: 0 <= j < at.column ==> ViewQuiet(views[ColumnAt(j)])
  {
    for column := 0 to s.nValues
      invariant forall j :: 0 <= j < column ==> ViewQuiet(views[ColumnAt(j)])
    {
      answer := CheckCellGroup(views[ColumnAt(column)]);
      if answer != Success(None) {
        return ColumnAt(column), answer;
      }
    }
    return ColumnAt(0), Success(None);
  }

  /**
   * getHint (sudoku/strategy/HiddenSingleStrategy.java:16-25) on the views of the
   * groups: the boxes, then the rows, then the columns. Nothing is found exactly when
   * every group is quiet; otherwise the answer belongs to the first group in visiting
   * order that is not quiet.
   */
  method FindHiddenSingle(s: SuDoku, views: map<Place, View>) returns (at: Place, answer: Result<Option<(Value, nat)>>)
    requires Places(s) <= views.Keys
    ensures answer == Success(None) <==> forall p :: OnGrid(s, p) ==> ViewQuiet(views[p])
    ensures answer != Success(None) ==>
      && OnGrid(s, at) && ViewReports(views[at], answer)
      && forall p :: OnGrid(s, p) && Earlier(p, at) ==> ViewQuiet(views[p])
  {
    at, answer := CheckBoxes(s, views);
    if answer != Success(None) {
      forall p | OnGrid(s, p) && Earlier(p, at) ensures ViewQuiet(views[p]) {
        assert p == BoxAt(p.band, p.stack);
      }
      return;
    }
    at, answer := CheckRows(s, views);
    if answer != Success(None) {
      forall p | OnGrid(s, p) && Earlier(p, at) ensures ViewQuiet(views[p]) {
        if p.BoxAt? {
          assert p == BoxAt(p.band, p.stack);
        } else {
          assert p == RowAt(p.row);
        }
      }
      return;
    }
    at, answer := CheckColumns(s, views);
    forall p | OnGrid(s, p) && (answer == Success(None) || Earlier(p, at)) ensures ViewQuiet(views[p]) {
      if p.BoxAt? {
        assert p == BoxAt(p.band, p.stack);
      } else if p.RowAt? {
        assert p == RowAt(p.row);
      } else {
        assert p == ColumnAt(p.column);
      }
    }
  }

  /**
   * getHint (sudoku/strategy/HiddenSingleStrategy.java:16-25), with constructHint
   * (lines 92-101) applied to the first hidden single found. The views of all groups
   * are taken once at the start; the search changes nothing they depend on.
   */
  method HiddenSingleHint(s: SuDoku) returns (r: Result<Option<Hint>>, ghost at: Place, ghost answer: Result<Option<(Value, nat)>>)
    requires s.Shaped()
    ensures answer == Success(None) <==> forall p :: OnGrid(s, p) ==> old(Quiet(s.valueSet, GroupAt(s, p)))
    ensures answer != Success(None) ==>
      && OnGrid(s, at) && !old(Quiet(s.valueSet, GroupAt(s, at)))
      && forall p :: OnGrid(s, p) && Earlier(p, at) ==> old(Quiet(s.valueSet, GroupAt(s, p)))
    ensures answer.Success? && answer.value.Some? ==>
      var (v, i) := answer.value.value;
      && old(Answers(s.valueSet, GroupAt(s, at), v, i)) && r.Success? && r.value.Some? && fresh(r.value.value)
      && IsHiddenSingleHint(r.value.value, GroupAt(s, at), v, old(GroupAt(s, at).cells[i]))
    ensures answer.Failure? ==>
      && answer.error == UnsupportedOperation && old(Breaks(s.valueSet, GroupAt(s, at)))
      && r == Failure(answer.error)
    ensures answer == Success(None) <==> r == Success(None)
  {
    var views := map p | p in Places(s) :: ViewOf(s.valueSet, GroupAt(s, p));
    assert forall p :: p in views ==> views[p] == ViewOf(s.valueSet, GroupAt(s, p));
    var place, found := FindHiddenSingle(s, views);
    at, answer := place, found;
    if found == Success(None) {
      return Success(None), at, answer;
    }
    if found.Failure? {
      return Failure(found.error), at, answer;
    }
    var (v, i) := found.value.value;
    var hint := HiddenSingleConstructHint(v, views[place].cells[i], GroupAt(s, place));
    return Success(Some(hint)), at, answer;
  }

  // -------------------------------------------------------------------------------
  // SuDoku.getHint

  /** The strategy name the hints of strategy k carry. */
  function StrategyName(k: StrategyKind): (name: string)
    ensures name != CHECK_NAME
  {
    match k
    case Singleton => SINGLETON_NAME
    case HiddenSingle => HIDDEN_SINGLE_NAME
  }

  /** The grid's cells are linked in place, and their groups and the groups' cells are the grid's own. */
  ghost predicate Closed(s: SuDoku)
    reads s.cells, s.Groups()
  {
    s.Shaped() && s.CellsLinked() && s.CellGroupsKnown() && s.GroupCellsKnown()
  }

  lemma ClosedIndexed(s: SuDoku)
    requires Closed(s)
    ensures s.Indexed()
  {
    forall r, c | 0 <= r < s.nValues && 0 <= c < s.nValues ensures s.cells[r, c] != null && s.cells[r, c].index == [r, c] {
      assert s.LinkedAt(s.cells[r, c], r, c);
    }
  }

  /** No cell of the grid is a singleton: SingletonStrategy finds nothing. */
  ghost predicate NoSingleton(s: SuDoku)
    requires Closed(s)
    reads s.cells, s.Cells(), s.Groups()
  {
    ClosedIndexed(s);
    forall x, y :: 0 <= x < s.nValues && 0 <= y < s.nValues ==> !SingletonAt(s, x, y)
  }

  /** What checkCellGroup reads of a group of a closed grid belongs to the grid. */
  lemma GroupFootprint(s: SuDoku, p: Place)
    requires Closed(s) && OnGrid(s, p)
    ensures GroupAt(s, p) in s.Groups()
    ensures forall c :: c in GroupAt(s, p).cells ==> c in s.Cells() && c.row in s.Groups() && c.column in s.Groups() && c.box in s.Groups()
    ensures forall c, i :: c in GroupAt(s, p).cells && 0 <= i < |c.row.cells| ==> c.row.cells[i] in s.Cells()
    ensures forall c, i :: c in GroupAt(s, p).cells && 0 <= i < |c.column.cells| ==> c.column.cells[i] in s.Cells()
    ensures forall c, i :: c in GroupAt(s, p).cells && 0 <= i < |c.box.cells| ==> c.box.cells[i] in s.Cells()
  {
    match p
    case BoxAt(b, c) => assert s.boxes[b][c] in s.BoxObjects();
    case RowAt(i) => assert s.rows[i] in s.RowObjects();
    case ColumnAt(j) => assert s.columns[j] in s.ColumnObjects();
  }

  /** The group p names is quiet. */
  ghost predicate QuietAt(s: SuDoku, p: Place)
    requires Closed(s) && OnGrid(s, p)
    reads s.cells, s.Cells(), s.Groups()
  {
    GroupFootprint(s, p);
    Quiet(s.valueSet, GroupAt(s, p))
  }

  /** Every cell group of the grid is quiet: HiddenSingleStrategy finds nothing. */
  ghost predicate AllQuiet(s: SuDoku)
    requires Closed(s)
    reads s.cells, s.Cells(), s.Groups()
  {
    forall p :: OnGrid(s, p) ==> QuietAt(s, p)
  }

  /** Strategy i is the first in the list of s that finds something. */
  ghost predicate FirstToFind(s: SuDoku, i: nat)
    requires Closed(s)
    reads s.cells, s.Cells(), s.Groups()
  {
    FirstKind(s.strategies, i, NoSingleton(s), AllQuiet(s))
  }

  /** Strategy k finds nothing in the grid of s. */
  ghost predicate StrategyQuiet(s: SuDoku, k: StrategyKind)
    requires Closed(s)
    reads s.cells, s.Cells(), s.Groups()
  {
    QuietKind(k, NoSingleton(s), AllQuiet(s))
  }

  /** Whether strategy k is quiet, given whether each kind of strategy is. */
  function QuietKind(k: StrategyKind, noSingleton: bool, allQuiet: bool): bool
  {
    match k
    case Singleton => noSingleton
    case HiddenSingle => allQuiet
  }

  /** The first i strategies of ks are quiet. */
  predicate QuietPrefix(ks: seq<StrategyKind>, i: nat, noSingleton: bool, allQuiet: bool)
  {
    forall j :: 0 <= j < i && j < |ks| ==> QuietKind(ks[j], noSingleton, allQuiet)
  }

  /** Strategy i of ks is the first that is not quiet. */
  predicate FirstKind(ks: seq<StrategyKind>, i: nat, noSingleton: bool, allQuiet: bool)
  {
    && i < |ks| && !QuietKind(ks[i], noSingleton, allQuiet)
    && forall j :: 0 <= j < i ==> QuietKind(ks[j], noSingleton, allQuiet)
  }

  /** What a strategy that finds something gives: its own hint, or a hidden single's exception. */
  ghost predicate GivenBy(k: StrategyKind, r: Result<Option<Hint>>)
    reads if r.Success? && r.value.Some? then {r.value.value} else {}
  {
    && r != Success(None)
    && (r.Success? ==> r.value.value.Valid() && r.value.value.name == StrategyName(k))
    && (r.Failure? ==> k == HiddenSingle && r.error == UnsupportedOperation)
  }

  /** checkPuzzle finds nothing: every entry agrees with the solution, or the grid is empty and there is none. */
  ghost predicate CheckPasses(s: SuDoku)
    requires s.Valid()
    reads s, s.cells, s.Cells(), s.Groups(), if s.solution.Some? then {s.solution.value} else {}
  {
    s.ValidIndexed();
    if s.solution.Some? then s.BadCells(s.solution.value) == [] else s.nValues == 0
  }

  lemma GroupsAllocated(s: SuDoku)
    ensures forall g :: g in s.Groups() ==> allocated(g)
    ensures forall c :: c in s.Cells() ==> allocated(c)
  {
  }

  /** strategies[i].getHint() (sudoku/SuDoku.java:239): the strategy's answer, which is nothing exactly when it is quiet. */
  method Consult(s: SuDoku, k: StrategyKind, ghost noSingleton: bool, ghost allQuiet: bool) returns (r: Result<Option<Hint>>)
    requires Closed(s) && NoSingleton(s) == noSingleton && AllQuiet(s) == allQuiet
    ensures r == Success(None) <==> QuietKind(k, noSingleton, allQuiet)
    ensures r != Success(None) ==> GivenBy(k, r)
    ensures r.Success? && r.value.Some? ==> fresh(r.value.value)
    ensures Closed(s) && NoSingleton(s) == noSingleton && AllQuiet(s) == allQuiet
  {
    GroupsAllocated(s);
    match k {
      case Singleton => r := ConsultSingleton(s, noSingleton);
      case HiddenSingle => r := ConsultHiddenSingle(s, allQuiet);
    }
    assert unchanged(s.cells) && s.Cells() == old(s.Cells());
    assert unchanged(s.Cells()) && unchanged(s.Groups());
  }

  /** The singleton strategy's getHint, answering nothing exactly when no cell has a singleton. */
  method ConsultSingleton(s: SuDoku, ghost noSingleton: bool) returns (r: Result<Option<Hint>>)
    requires Closed(s) && NoSingleton(s) == noSingleton
    ensures r == Success(None) <==> noSingleton
    ensures r != Success(None) ==> GivenBy(Singleton, r)
    ensures r.Success? && r.value.Some? ==> fresh(r.value.value)
  {
    ClosedIndexed(s);
    var hint, row, col := SingletonHint(s);
    r := Success(hint);
  }

  /** The hidden single strategy's getHint, answering nothing exactly when every group is quiet. */
  method ConsultHiddenSingle(s: SuDoku, ghost allQuiet: bool) returns (r: Result<Option<Hint>>)
    requires Closed(s) && AllQuiet(s) == allQuiet
    ensures r == Success(None) <==> allQuiet
    ensures r != Success(None) ==> GivenBy(HiddenSingle, r)
    ensures r.Success? && r.value.Some? ==> fresh(r.value.value)
  {
    ClosedIndexed(s);
    var hint, at, answer := HiddenSingleHint(s);
    r := hint;
  }

  /**
   * getHint (sudoku/SuDoku.java:234-242): the user's entries are checked against the
   * solution first, and a "BOO BOO" hint for the bad cells wins; otherwise the strategies
   * are consulted in their order until one gives a hint. Without a solution the check
   * dereferences null, and a hidden single search may throw. Nothing is found exactly
   * when the check passes and every strategy is quiet; otherwise, once the check has
   * passed, the answer is that of the first strategy that finds something. Nothing in
   * the grid changes, so which strategies are quiet is read off the grid as it is left.
   */
  method GetHint(s: SuDoku) returns (r: Result<Option<Hint>>)
    requires s.Valid()
    ensures r == Failure(NullPointer) <==> s.solution.None? && s.nValues > 0
    ensures r.Failure? ==> r.error == NullPointer || (r.error == UnsupportedOperation && HiddenSingle in s.strategies)
    ensures s.solution.Some? && old(s.BadCells(s.solution.value)) != [] ==>
      && r.Success? && r.value.Some? && r.value.value.name == CHECK_NAME
      && r.value.value.text == CHECK_NAME + ": " + CHECK_TEXT
      && r.value.value.elements == old(s.BadCells(s.solution.value))
    ensures r.Success? && r.value.Some? ==>
      && fresh(r.value.value) && r.value.value.Valid()
      && (r.value.value.name == CHECK_NAME || exists k :: k in s.strategies && r.value.value.name == StrategyName(k))
    ensures r.Success? && r.value.Some? && r.value.value.name != CHECK_NAME ==>
      s.solution.None? || old(s.BadCells(s.solution.value)) == []
    ensures r == Success(None) ==> old(CheckPasses(s))
    ensures old(CheckPasses(s)) ==>
      Closed(s) && (r == Success(None) <==> forall j :: 0 <= j < |s.strategies| ==> StrategyQuiet(s, s.strategies[j]))
    ensures old(CheckPasses(s)) && r != Success(None) ==>
      Closed(s) && exists i: nat :: FirstToFind(s, i) && GivenBy(s.strategies[i], r)
  {
    s.ValidIndexed();
    GroupsAllocated(s);
    r := s.CheckPuzzle();
    if r != Success(None) {
      return;
    }
    assert unchanged(s.cells) && unchanged(s.Groups());
    ghost var single, hidden;
    r, single, hidden := ConsultAll(s);
  }

  /**
   * The loop of getHint (sudoku/SuDoku.java:237-240): the strategies in their order
   * until one gives a hint or throws.
   */
  method ConsultAll(s: SuDoku) returns (r: Result<Option<Hint>>, ghost noSingleton: bool, ghost allQuiet: bool)
    requires Closed(s)
    ensures noSingleton == old(NoSingleton(s)) && allQuiet == old(AllQuiet(s))
    ensures Closed(s) && NoSingleton(s) == noSingleton && AllQuiet(s) == allQuiet
    ensures r == Success(None) <==> forall j :: 0 <= j < |s.strategies| ==> QuietKind(s.strategies[j], noSingleton, allQuiet)
    ensures r != Success(None) ==> exists i: nat :: FirstKind(s.strategies, i, noSingleton, allQuiet) && GivenBy(s.strategies[i], r)
    ensures r.Success? && r.value.Some? ==> fresh(r.value.value)
    ensures r.Failure? ==> r.error == UnsupportedOperation && HiddenSingle in s.strategies
    ensures r.Success? && r.value.Some? ==>
      r.value.value.Valid() && exists k :: k in s.strategies && r.value.value.name == StrategyName(k)
  {
    noSingleton, allQuiet := NoSingleton(s), AllQuiet(s);
    r := Success(None);
    var i := 0;
    while i < |s.strategies| && r == Success(None)
      invariant i <= |s.strategies|
      invariant Closed(s) && NoSingleton(s) == noSingleton && AllQuiet(s) == allQuiet
      invariant r == Success(None) ==> QuietPrefix(s.strategies, i, noSingleton, allQuiet)
      invariant r != Success(None) ==> 0 < i && FirstKind(s.strategies, i - 1, noSingleton, allQuiet) && GivenBy(s.strategies[i - 1], r)
      invariant r.Success? && r.value.Some? ==> fresh(r.value.value)
    {
      r := Consult(s, s.strategies[i], noSingleton, allQuiet);
      if r == Success(None) {
        QuietPrefixStep(s.strategies, i, noSingleton, allQuiet);
      } else {
        FirstKindStep(s.strategies, i, noSingleton, allQuiet);
      }
      i := i + 1;
    }
    if r != Success(None) {
      assert s.strategies[i - 1] in s.strategies;
    }
  }

  lemma QuietPrefixStep(ks: seq<StrategyKind>, i: nat, noSingleton: bool, allQuiet: bool)
    requires QuietPrefix(ks, i, noSingleton, allQuiet) && i < |ks| && QuietKind(ks[i], noSingleton, allQuiet)
    ensures QuietPrefix(ks, i + 1, noSingleton, allQuiet)
  {
  }

  lemma FirstKindStep(ks: seq<StrategyKind>, i: nat, noSingleton: bool, allQuiet: bool)
    requires QuietPrefix(ks, i, noSingleton, allQuiet) && i < |ks| && !QuietKind(ks[i], noSingleton, allQuiet)
    ensures FirstKind(ks, i, noSingleton, allQuiet)
  {
  }
}
