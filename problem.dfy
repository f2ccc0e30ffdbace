/**
 * SuDokuProblem (sudoku/solver/SuDokuProblem.java): translates an n x n puzzle,
 * n = nBands * nStacks, into a ConstrainedProblem and its solution back into a grid.
 * A candidate's identity is its position in candidateList; `candidates[r, c, v]` holds
 * the position of the candidate for row r, column c and value v.
 */
module SuDokuProblems {
  import opened Wrappers
  import opened Values
  import opened Partitions
  import opened Network
  import opened Solver
  import opened SuDokuCandidates
  import opened SuDokuConstraints

  /**
   * valueSet.toArray(): the elements of a set, each once, in an order the set chooses.
   */
  method ToArray(valueSet: set<Value>) returns (r: seq<Value>)
    ensures |r| == |valueSet|
    ensures forall x :: x in r <==> x in valueSet
    ensures forall i, j :: 0 <= i < j < |r| ==> r[i] != r[j]
  {
    r := [];
    var rest := valueSet;
    while rest != {}
      invariant rest <= valueSet
      invariant |r| + |rest| == |valueSet|
      invariant forall x :: x in r <==> x in valueSet - rest
      invariant forall i :: 0 <= i < |r| ==> r[i] !in rest
      invariant forall i, j :: 0 <= i < j < |r| ==> r[i] != r[j]
      decreases |rest|
    {
      var x :| x in rest;
      r := r + [x];
      rest := rest - {x};
    }
  }

  /** candidates[r, c, v] holds the position of candidate (r, c, v) for every candidate below position k. */
  ghost predicate Indexed(a: array3<Cand>, n: nat, k: nat)
    reads a
  {
    && a.Length0 == n && a.Length1 == n && a.Length2 == n
    && forall x :: InGrid(n, x) && IdOf(n, x) < k ==> a[x.row, x.column, x.value] == IdOf(n, x)
  }

  /** Constraints whose members lie below N hold candidates of the list 0 .. N - 1 only. */
  lemma WithinIds(l: seq<set<Cand>>, N: nat, ids: seq<Cand>)
    requires AllBelow(l, N) && Elems(ids) == Ids(N)
    ensures forall j :: 0 <= j < |l| ==> l[j] <= Elems(ids)
  {
  }

  /**
   * new ConstrainedProblem(candidateList, constraintList, givenList) (SuDokuProblem.java:59):
   * the candidates are the ids 0 .. n - 1, listed in order.
   */
  method NewProblem(n: nat, constraintList: seq<set<Cand>>, givenList: seq<Cand>) returns (p: ConstrainedProblem)
    requires AllBelow(constraintList, n) && forall g :: g in givenList ==> g < n
    ensures fresh(p) && fresh(p.constraints)
    ensures p.Valid() && p.Active() && p.SolutionOwned() && p.owners.Keys == Ids(n)
    ensures p.parts[Problem] == Partition(Ids(n) - Elems(givenList), Elems(givenList))
    ensures p.currentSolution == None
    ensures p.nSubs == |constraintList| && p.constraints.elems == Ids(|constraintList|)
    ensures p.owners == StartOwners(Ids(n), constraintList)
    ensures p.NetOf() == Start(Ids(n), constraintList, {}, Elems(givenList))
  {
    var ids := seq(n, (i: int) requires 0 <= i => i as Cand);
    assert Elems(ids) == Ids(n) by {
      forall i | i in Ids(n) ensures i in Elems(ids) {
        assert ids[i] == i;
      }
    }
    WithinIds(constraintList, n, ids);
    forall g | g in givenList ensures g in ids {
      assert ids[g] == g;
    }
    p := new ConstrainedProblem(ids, constraintList, {}, givenList);
  }

  /**
   * Propagation on a new problem over the candidates 0 .. N - 1, the sub-constraints l and
   * the givens g: whether it succeeds, the state it leaves and the constraints it resolves.
   */
  ghost function StartPropagation(N: nat, l: seq<set<Cand>>, g: set<Cand>): (bool, Net, set<nat>)
  {
    Propagation(StartOwners(Ids(N), l), |l|, Start(Ids(N), l, {}, g))
  }

  class SuDokuProblem {
    const nBands: nat
    const nStacks: nat
    const nValues: nat
    const values: seq<Value>
    /** The caller's grid of givens, kept by reference; None is a blank cell. */
    const puzzle: array2<Option<Value>>
    var candidates: array3<Cand>
    var candidateList: seq<SuDokuCandidate>
    var constraintList: seq<set<Cand>>
    var givenList: seq<Cand>
    /** Null until the constructor has built the constrained problem. */
    var problem: ConstrainedProblem?

    /** Candidate id is a given: the puzzle holds, at the candidate's cell, the candidate's value. */
    ghost predicate Given(id: Cand)
      reads this, puzzle
    {
      && id < |candidateList|
      && var x := candidateList[id];
      && x.row < puzzle.Length0 && x.column < puzzle.Length1 && x.value < |values|
      && puzzle[x.row, x.column] == Some(values[x.value])
    }

    ghost predicate Valid()
      reads this, problem, if problem == null then {} else {problem.constraints}
    {
      && problem != null
      && nValues == nBands * nStacks
      && |values| >= nValues
      && Listed(candidateList, nValues, nValues * nValues * nValues)
      && constraintList == ConstraintList(nBands, nStacks)
      && problem.Valid() && problem.Active() && problem.SolutionOwned()
      && problem.owners.Keys == Ids(|candidateList|)
    }

    /**
     * SuDokuProblem(nBands, nStacks, valueSet, puzzle) (SuDokuProblem.java:49-60): a
     * problem whose candidates are every (row, column, value) of the grid, whose
     * constraints are the cell, row, column and box rules, and whose givens are the
     * candidates the puzzle fills in.
     */
    constructor (nBands: nat, nStacks: nat, valueSet: set<Value>, puzzle: array2<Option<Value>>)
      requires |valueSet| >= nBands * nStacks
      requires puzzle.Length0 >= nBands * nStacks && puzzle.Length1 >= nBands * nStacks
      ensures Valid()
      ensures this.nBands == nBands && this.nStacks == nStacks && this.puzzle == puzzle
      ensures |values| == |valueSet| && forall x :: x in values <==> x in valueSet
      ensures forall id: nat :: id in givenList <==> Given(id)
      ensures problem.parts[Problem] == Partition(Ids(|candidateList|) - Elems(givenList), Elems(givenList))
      ensures problem.currentSolution == None
      ensures fresh(problem) && fresh(problem.constraints)
      ensures AtStart()
    {
      this.nBands := nBands;
      this.nStacks := nStacks;
      nValues := nBands * nStacks;
      this.puzzle := puzzle;
      var vs := ToArray(valueSet);
      values := vs;
      candidates := new Cand[0, 0, 0];
      candidateList := [];
      constraintList := [];
      givenList := [];
      problem := null;
      new;
      InitCandidates();
      InitConstraints();
      InitGivens();
      ConstraintsWithin(nBands, nStacks);
      problem := NewProblem(|candidateList|, constraintList, givenList);
    }

    /** The constrained problem is as its constructor leaves it (ConstrainedProblem.java:44-67). */
    ghost predicate AtStart()
      reads this, problem, if problem == null then {} else {problem.constraints}
    {
      && problem != null
      && problem.nSubs == |constraintList| && problem.constraints.elems == Ids(|constraintList|)
      && problem.owners == StartOwners(Ids(|candidateList|), constraintList)
      && problem.NetOf() == Start(Ids(|candidateList|), constraintList, {}, Elems(givenList))
    }

    /**
     * A cell the puzzle fills with a value of the value set has its given candidate listed:
     * when the set has exactly nValues values, every given is one of the candidates.
     */
    lemma GivenListed(row: nat, col: nat)
      requires Valid() && |values| == nValues
      requires row < nValues && col < nValues && row < puzzle.Length0 && col < puzzle.Length1
      requires forall id: nat :: id in givenList <==> Given(id)
      requires puzzle[row, col].Some? && puzzle[row, col].value in values
      ensures exists id :: id in givenList && id < |candidateList| && candidateList[id].row == row && candidateList[id].column == col
    {
      var k :| 0 <= k < |values| && values[k] == puzzle[row, col].value;
      var x := SuDokuCandidate(row, col, k);
      IdBound(nValues, x);
      assert candidateList[IdOf(nValues, x)] == x;
      assert Given(IdOf(nValues, x));
    }

    /**
     * When the value set has exactly nValues values, the givens cover every cell the
     * puzzle fills from it, and so does every solution that keeps the givens.
     */
    lemma GivensCover()
      requires Valid() && |values| == nValues
      requires puzzle.Length0 >= nValues && puzzle.Length1 >= nValues
      requires forall id: nat :: id in givenList <==> Given(id)
      ensures forall row: nat, col: nat :: row < nValues && col < nValues && puzzle[row, col].Some? && puzzle[row, col].value in values ==>
        Covers(Elems(givenList), row, col)
    {
      forall row: nat, col: nat | row < nValues && col < nValues && puzzle[row, col].Some? && puzzle[row, col].value in values
        ensures Covers(Elems(givenList), row, col)
      {
        GivenListed(row, col);
        var id :| id in givenList && id < |candidateList| && candidateList[id].row == row && candidateList[id].column == col;
        assert id in Elems(givenList);
      }
    }

    /**
     * When the value set has exactly nValues values, a grid that shows a solution which
     * keeps the givens fills every cell the puzzle fills from the set.
     */
    lemma GivensShown(grid: array2<Option<Value>>, sol: set<Cand>)
      requires Valid() && |values| == nValues
      requires puzzle.Length0 >= nValues && puzzle.Length1 >= nValues
      requires grid.Length0 == nValues && grid.Length1 == nValues
      requires forall id: nat :: id in givenList <==> Given(id)
      requires Elems(givenList) <= sol && Shows(grid, sol)
      ensures forall row, col :: 0 <= row < nValues && 0 <= col < nValues && puzzle[row, col].Some? && puzzle[row, col].value in values ==>
        grid[row, col].Some?
    {
      GivensCover();
      forall row, col | 0 <= row < nValues && 0 <= col < nValues && puzzle[row, col].Some? && puzzle[row, col].value in values
        ensures grid[row, col].Some?
      {
        var s :| s in Elems(givenList) && s < |candidateList| && candidateList[s].row == row && candidateList[s].column == col;
        assert s in sol;
        assert ShowsAt(grid[row, col], sol, row, col);
      }
    }

    /** solve() (SuDokuProblem.java:65-68): the constrained problem's search, unchanged. */
    method Solve() returns (r: int)
      requires Valid()
      modifies problem, problem.constraints
      ensures Valid()
      ensures r == problem.nSolutions
      ensures r == 0 || r == 1 || r == UNKNOWN_NO_SOLUTIONS
      ensures r == 0 ==> problem.currentSolution == old(problem.currentSolution)
      ensures r != 0 ==> problem.currentSolution.Some? && old(problem.parts[Problem].definite) <= problem.currentSolution.value
      ensures Settles(problem.owners, problem.nSubs, old(problem.NetOf()), old(problem.constraints.elems), r)
      ensures Leaf(problem.owners, problem.nSubs, old(problem.NetOf()), old(problem.constraints.elems)) ==>
        problem.currentSolution == Some(Definites(Propagation(problem.owners, problem.nSubs, old(problem.NetOf())).1))
      ensures unchanged(this) && forall id: nat :: Given(id) <==> old(Given(id))
      ensures old(AtStart()) ==> var p := StartPropagation(|candidateList|, constraintList, Elems(givenList));
        && (!p.0 ==> r == 0)
        && (p.0 && Ids(|constraintList|) <= p.2 ==> r == 1 && problem.currentSolution == Some(Definites(p.1)))
    {
      r := problem.Solve();
    }

    /** Whether the solution holds a candidate for cell (row, col), and one with value x there. */
    ghost predicate Covers(sol: set<Cand>, row: nat, col: nat)
      reads this
    {
      exists s :: s in sol && s < |candidateList| && candidateList[s].row == row && candidateList[s].column == col
    }

    ghost predicate Supplies(sol: set<Cand>, row: nat, col: nat, x: Value)
      reads this
    {
      exists s :: s in sol && s < |candidateList| && candidateList[s].row == row && candidateList[s].column == col
        && candidateList[s].value < |values| && values[candidateList[s].value] == x
    }

    /**
     * The n x n grid shows the candidates sol: a cell is blank exactly when no candidate of
     * sol sits in it, and otherwise holds the value of one that does.
     */
    ghost predicate Shows(grid: array2<Option<Value>>, sol: set<Cand>)
      reads this, grid
    {
      forall row, col :: 0 <= row < nValues && 0 <= col < nValues && row < grid.Length0 && col < grid.Length1 ==>
        ShowsAt(grid[row, col], sol, row, col)
    }

    /** Cell (row, col) holding v shows the candidates sol. */
    ghost predicate ShowsAt(v: Option<Value>, sol: set<Cand>, row: nat, col: nat)
      reads this
    {
      && (v.None? <==> !Covers(sol, row, col))
      && (v.Some? ==> Supplies(sol, row, col, v.value))
    }

    /** Adding a candidate that sits in another cell leaves what the cell shows unchanged. */
    lemma ShowsElsewhere(v: Option<Value>, sol: set<Cand>, s: Cand, row: nat, col: nat)
      requires s < |candidateList| && (candidateList[s].row != row || candidateList[s].column != col)
      requires ShowsAt(v, sol, row, col)
      ensures ShowsAt(v, sol + {s}, row, col)
    {
      if Covers(sol + {s}, row, col) {
        var t :| t in sol + {s} && t < |candidateList| && candidateList[t].row == row && candidateList[t].column == col;
        assert t in sol;
      }
      if v.Some? {
        var t :| t in sol && t < |candidateList| && candidateList[t].row == row && candidateList[t].column == col
          && candidateList[t].value < |values| && values[candidateList[t].value] == v.value;
        assert t in sol + {s};
      }
    }

    /** The cell a candidate sits in shows it once it holds the candidate's value. */
    lemma ShowsPlaced(sol: set<Cand>, s: Cand)
      requires s < |candidateList| && candidateList[s].value < |values|
      ensures ShowsAt(Some(values[candidateList[s].value]), sol + {s}, candidateList[s].row, candidateList[s].column)
    {
      assert s in sol + {s};
    }

    /**
     * getSolution() (SuDokuProblem.java:73-83): a fresh n x n grid holding, at each
     * cell a solution candidate sits in, the value of such a candidate, and blank
     * elsewhere. With no recorded solution the loop dereferences null.
     */
    method GetSolution() returns (r: Result<array2<Option<Value>>>)
      requires Valid()
      ensures r.Failure? <==> problem.currentSolution.None?
      ensures r.Failure? ==> r.error == NullPointer
      ensures r.Success? ==> fresh(r.value) && r.value.Length0 == nValues && r.value.Length1 == nValues
      ensures r.Success? ==> Shows(r.value, problem.currentSolution.value)
      ensures r.Success? ==> forall row, col :: 0 <= row < nValues && 0 <= col < nValues && r.value[row, col].Some? ==>
        r.value[row, col].value in values
    {
      if problem.currentSolution.None? {
        return Failure(NullPointer);
      }
      var sol := problem.currentSolution.value;
      var solution := Fill(sol);
      forall row, col | 0 <= row < nValues && 0 <= col < nValues && solution[row, col].Some?
        ensures solution[row, col].value in values
      {
        assert ShowsAt(solution[row, col], sol, row, col);
      }
      r := Success(solution);
    }

    /**
     * The grid and the loop of getSolution (SuDokuProblem.java:75-81): a fresh n x n grid,
     * blank at first, that each candidate of sol writes its value into.
     */
    method Fill(sol: set<Cand>) returns (solution: array2<Option<Value>>)
      requires forall s :: s in sol ==> s < |candidateList| && InGrid(nValues, candidateList[s])
      requires |values| >= nValues
      ensures fresh(solution) && solution.Length0 == nValues && solution.Length1 == nValues
      ensures Shows(solution, sol)
    {
      solution := new Option<Value>[nValues, nValues]((i, j) => None);
      var rest := sol;
      while rest != {}
        invariant rest <= sol
        invariant Shows(solution, sol - rest)
        decreases |rest|
      {
        var s :| s in rest;
        var element := candidateList[s];
        solution[element.row, element.column] := Some(values[element.value]);
        assert sol - (rest - {s}) == (sol - rest) + {s};
        forall row, col | 0 <= row < nValues && 0 <= col < nValues
          ensures ShowsAt(solution[row, col], (sol - rest) + {s}, row, col)
        {
          if row == element.row && col == element.column {
            ShowsPlaced(sol - rest, s);
          } else {
            ShowsElsewhere(solution[row, col], sol - rest, s, row, col);
          }
        }
        rest := rest - {s};
      }
    }

    /** initCandidates() (SuDokuProblem.java:85-101): one candidate per row, column and value, listed in that order. */
    method InitCandidates()
      requires nValues == nBands * nStacks
      modifies this`candidates, this`candidateList
      ensures fresh(candidates)
      ensures Listed(candidateList, nValues, nValues * nValues * nValues)
      ensures Indexed(candidates, nValues, nValues * nValues * nValues)
    {
      var n := nValues;
      candidateList := [];
      candidates := new Cand[n, n, n];
      for r := 0 to n
        invariant fresh(candidates)
        invariant Listed(candidateList, n, Id(n, r, 0, 0)) && Indexed(candidates, n, Id(n, r, 0, 0))
      {
        for c := 0 to n
          invariant fresh(candidates)
          invariant Listed(candidateList, n, Id(n, r, c, 0)) && Indexed(candidates, n, Id(n, r, c, 0))
        {
          for v := 0 to n
            invariant fresh(candidates)
            invariant Listed(candidateList, n, Id(n, r, c, v)) && Indexed(candidates, n, Id(n, r, c, v))
          {
            AddCandidate(r, c, v);
          }
          IdCarry(n, r, c);
        }
        IdCarry(n, r, 0);
      }
      IdCarry(n, 0, 0);
    }

    /** candidates[r][c][v] = new SuDokuCandidate(r, c, v); candidateList.add(candidates[r][c][v]). */
    method AddCandidate(r: nat, c: nat, v: nat)
      requires r < nValues && c < nValues && v < nValues
      requires Listed(candidateList, nValues, Id(nValues, r, c, v)) && Indexed(candidates, nValues, Id(nValues, r, c, v))
      modifies this`candidateList, candidates
      ensures candidateList == old(candidateList) + [SuDokuCandidate(r, c, v)]
      ensures Listed(candidateList, nValues, Id(nValues, r, c, v) + 1) && Indexed(candidates, nValues, Id(nValues, r, c, v) + 1)
    {
      var n := nValues;
      var x := SuDokuCandidate(r, c, v);
      var k := Id(n, r, c, v);
      candidates[r, c, v] := k;
      ListedStep(candidateList, n, x);
      candidateList := candidateList + [x];
      forall y | InGrid(n, y) && IdOf(n, y) < k + 1
        ensures candidates[y.row, y.column, y.value] == IdOf(n, y)
      {
        if IdOf(n, y) == k {
          IdInjective(n, x, y);
        } else if y != x {
          assert candidates[y.row, y.column, y.value] == old(candidates[y.row, y.column, y.value]);
        }
      }
    }

    /** initConstraints() (SuDokuProblem.java:102-109): cell, row, column, then box constraints. */
    method InitConstraints()
      requires nValues == nBands * nStacks
      requires Indexed(candidates, nValues, nValues * nValues * nValues)
      modifies this`constraintList
      ensures constraintList == ConstraintList(nBands, nStacks)
    {
      constraintList := [];
      InitLineConstraints(CellKind);
      InitLineConstraints(RowKind);
      InitLineConstraints(ColumnKind);
      InitBoxConstraints();
    }

    /**
     * initCellConstraints, initRowConstraints and initColumnConstraints
     * (SuDokuProblem.java:110-157): for each outer index i and middle index j, one
     * constraint holding the n candidates the innermost loop picks.
     */
    method InitLineConstraints(kind: Kind)
      requires Indexed(candidates, nValues, nValues * nValues * nValues)
      modifies this`constraintList
      ensures constraintList == old(constraintList) + Table(nValues, kind, nValues)
    {
      var n := nValues;
      for i := 0 to n
        invariant constraintList == old(constraintList) + Table(n, kind, i)
      {
        for j := 0 to n
          invariant constraintList == old(constraintList) + Table(n, kind, i) + Line(n, kind, i)[..j]
        {
          var members := LineConstraint(kind, i, j);
          assert Line(n, kind, i)[..j + 1] == Line(n, kind, i)[..j] + [members];
          constraintList := constraintList + [members];
        }
        assert Line(n, kind, i)[..n] == Line(n, kind, i);
      }
    }

    /** The members the innermost loop adds to constraint (kind, i, j). */
    method LineConstraint(kind: Kind, i: nat, j: nat) returns (members: set<Cand>)
      requires i < nValues && j < nValues
      requires Indexed(candidates, nValues, nValues * nValues * nValues)
      ensures members == SuDokuConstraints.Members(nValues, kind, i, j)
    {
      var n := nValues;
      members := {};
      for t := 0 to n
        invariant members == MembersUpTo(n, kind, i, j, t)
      {
        var x := PickOf(kind, i, j, t);
        PickAgrees(n, kind, i, j, t);
        IdBound(n, x);
        MembersUpToStep(n, kind, i, j, t);
        members := members + {candidates[x.row, x.column, x.value]};
      }
    }

    /**
     * initBoxConstraints() (SuDokuProblem.java:158-182) with the inner loops corrected
     * to r < nStacks and c < nBands: one constraint per box and value.
     */
    method InitBoxConstraints()
      requires nValues == nBands * nStacks
      requires Indexed(candidates, nValues, nValues * nValues * nValues)
      modifies this`constraintList
      ensures constraintList == old(constraintList) + BoxTable(nBands, nStacks, nBands)
    {
      for br := 0 to nBands
        invariant constraintList == old(constraintList) + BoxTable(nBands, nStacks, br)
      {
        for bc := 0 to nStacks
          invariant constraintList == old(constraintList) + BoxTable(nBands, nStacks, br) + BoxBand(nBands, nStacks, br, bc)
        {
          for v := 0 to nValues
            invariant constraintList == old(constraintList) + BoxTable(nBands, nStacks, br)
              + BoxBand(nBands, nStacks, br, bc) + BoxLine(nBands, nStacks, br, bc)[..v]
          {
            var members := BoxConstraint(br, bc, v);
            assert BoxLine(nBands, nStacks, br, bc)[..v + 1] == BoxLine(nBands, nStacks, br, bc)[..v] + [members];
            constraintList := constraintList + [members];
          }
          assert BoxLine(nBands, nStacks, br, bc)[..nValues] == BoxLine(nBands, nStacks, br, bc);
        }
      }
    }

    /** The members the two innermost box loops add to constraint (br, bc, v). */
    method BoxConstraint(br: nat, bc: nat, v: nat) returns (members: set<Cand>)
      requires nValues == nBands * nStacks && br < nBands && bc < nStacks && v < nValues
      requires Indexed(candidates, nValues, nValues * nValues * nValues)
      ensures members == BoxMembers(nBands, nStacks, br, bc, v)
    {
      var rStart := br * nStacks;
      var cStart := bc * nBands;
      members := {};
      for r := 0 to nStacks
        invariant members == BoxMembersUpTo(nBands, nStacks, br, bc, v, r, nBands)
      {
        for c := 0 to nBands
          invariant members == BoxMembersUpTo(nBands, nStacks, br, bc, v, r, nBands) + BoxRowUpTo(nBands, nStacks, br, bc, v, r, c)
        {
          BoxCellInGrid(nBands, nStacks, br, bc, r, c);
          IdBound(nValues, SuDokuCandidate(rStart + r, cStart + c, v));
          BoxRowStep(nBands, nStacks, br, bc, v, r, c);
          members := members + {candidates[rStart + r, cStart + c, v]};
        }
        BoxRowDone(nBands, nStacks, br, bc, v, r);
      }
    }

    /**
     * initGivens() (SuDokuProblem.java:183-200): for each non-blank cell, the
     * candidates of that cell whose value equals the cell's content.
     */
    method InitGivens()
      requires nValues == nBands * nStacks && |values| >= nValues
      requires puzzle.Length0 >= nValues && puzzle.Length1 >= nValues
      requires Listed(candidateList, nValues, nValues * nValues * nValues)
      requires Indexed(candidates, nValues, nValues * nValues * nValues)
      modifies this`givenList
      ensures forall id: nat :: id in givenList <==> Given(id)
    {
      var n := nValues;
      givenList := [];
      for r := 0 to n
        invariant forall id: nat :: id in givenList <==> id < Id(n, r, 0, 0) && Given(id)
      {
        for c := 0 to n
          invariant forall id: nat :: id in givenList <==> id < Id(n, r, c, 0) && Given(id)
        {
          if puzzle[r, c] != None {
            for v := 0 to n
              invariant forall id: nat :: id in givenList <==> id < Id(n, r, c, v) && Given(id)
            {
              ListedAt(candidateList, n, r, c, v);
              IdBound(n, SuDokuCandidate(r, c, v));
              if puzzle[r, c] == Some(values[v]) {
                givenList := givenList + [candidates[r, c, v]];
              }
            }
          } else {
            BlankCellNoGivens(r, c);
          }
          IdCarry(n, r, c);
        }
        IdCarry(n, r, 0);
      }
      IdCarry(n, 0, 0);
      forall id: nat | Given(id) ensures id < Id(n, n, 0, 0) { }
    }

    /** None of the candidates of a blank cell is a given. */
    lemma BlankCellNoGivens(r: nat, c: nat)
      requires r < nValues && c < nValues && puzzle.Length0 >= nValues && puzzle.Length1 >= nValues
      requires Listed(candidateList, nValues, nValues * nValues * nValues)
      requires puzzle[r, c] == None
      ensures forall id :: Id(nValues, r, c, 0) <= id < Id(nValues, r, c, nValues) ==> !Given(id)
    {
      var n := nValues;
      forall id | Id(n, r, c, 0) <= id < Id(n, r, c, n)
        ensures !Given(id)
      {
        var v := id - Id(n, r, c, 0);
        ListedAt(candidateList, n, r, c, v);
      }
    }
  }
}
