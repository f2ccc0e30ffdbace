/**
 * The shape of the constrained problem SuDokuProblem builds for an n x n grid, n = nBands * nStacks
 * (sudoku/solver/SuDokuProblem.java:85-182): where each candidate sits in the candidate
 * list, and which candidates each single-candidate constraint holds, in the order the
 * constraints are listed.
 */
module SuDokuConstraints {
  import opened Partitions
  import opened SuDokuCandidates

  // ---------------------------------------------------------------------------------
  // Candidate positions

  /** initCandidates adds candidates row by row, column by column, value by value. */
  function Id(n: nat, r: nat, c: nat, v: nat): nat
  {
    (r * n + c) * n + v
  }

  function IdOf(n: nat, x: SuDokuCandidate): nat
  {
    Id(n, x.row, x.column, x.value)
  }

  predicate InGrid(n: nat, x: SuDokuCandidate)
  {
    x.row < n && x.column < n && x.value < n
  }

  lemma MulMono(a: int, b: int, n: int)
    requires a <= b && n >= 0
    ensures a * n <= b * n
  {
    var d := b - a;
    assert b * n == a * n + d * n;
    assert d * n >= 0;
  }

  lemma MulSucc(a: int, n: int)
    ensures (a + 1) * n == a * n + n
  {
  }

  lemma MulAssoc(a: int, b: int, c: int)
    ensures a * (b * c) == (a * b) * c
  {
  }

  /** a * n + b with b < n determines a and b. */
  lemma Unpair(a1: int, b1: int, a2: int, b2: int, n: int)
    requires 0 <= b1 < n && 0 <= b2 < n && a1 * n + b1 == a2 * n + b2
    ensures a1 == a2 && b1 == b2
  {
    if a1 < a2 {
      MulSucc(a1, n);
      MulMono(a1 + 1, a2, n);
    } else if a2 < a1 {
      MulSucc(a2, n);
      MulMono(a2 + 1, a1, n);
    }
  }

  /** No two candidates of the grid share a position. */
  lemma IdInjective(n: nat, x: SuDokuCandidate, y: SuDokuCandidate)
    requires InGrid(n, x) && InGrid(n, y) && IdOf(n, x) == IdOf(n, y)
    ensures x == y
  {
    var a, b := x.row * n + x.column, y.row * n + y.column;
    assert IdOf(n, x) == a * n + x.value && IdOf(n, y) == b * n + y.value;
    Unpair(a, x.value, b, y.value, n);
    Unpair(x.row, x.column, y.row, y.column, n);
  }

  /** Every candidate of the grid sits among the first n^3 positions. */
  lemma IdBound(n: nat, x: SuDokuCandidate)
    requires InGrid(n, x)
    ensures IdOf(n, x) < n * n * n
  {
    var a := x.row * n + x.column;
    MulSucc(x.row, n);
    MulMono(x.row + 1, n, n);
    MulSucc(a, n);
    MulMono(a + 1, n * n, n);
  }

  /** Finishing a column (value n) is starting the next; finishing a row is starting the next. */
  lemma IdCarry(n: nat, r: nat, c: nat)
    ensures Id(n, r, c, n) == Id(n, r, c + 1, 0)
    ensures Id(n, r, n, 0) == Id(n, r + 1, 0, 0)
    ensures Id(n, n, 0, 0) == n * n * n
  {
    MulSucc(r * n + c, n);
    MulSucc(r, n);
  }

  /**
   * The first k entries of candidateList: the entry at position i is the grid candidate
   * whose position is i, and every grid candidate with position below k is listed there.
   */
  ghost predicate Listed(recs: seq<SuDokuCandidate>, n: nat, k: nat)
  {
    && |recs| == k
    && (forall i :: 0 <= i < k ==> InGrid(n, recs[i]) && IdOf(n, recs[i]) == i)
    && (forall x :: InGrid(n, x) && IdOf(n, x) < k ==> recs[IdOf(n, x)] == x)
  }

  /** Appending the candidate at the next position keeps the list in order. */
  lemma ListedStep(recs: seq<SuDokuCandidate>, n: nat, x: SuDokuCandidate)
    requires InGrid(n, x) && Listed(recs, n, IdOf(n, x))
    ensures Listed(recs + [x], n, IdOf(n, x) + 1)
  {
    forall y | InGrid(n, y) && IdOf(n, y) < IdOf(n, x) + 1
      ensures (recs + [x])[IdOf(n, y)] == y
    {
      if IdOf(n, y) == IdOf(n, x) {
        IdInjective(n, x, y);
      }
    }
  }

  /** The candidate of cell (r, c) with value v is listed at its position. */
  lemma ListedAt(recs: seq<SuDokuCandidate>, n: nat, r: nat, c: nat, v: nat)
    requires Listed(recs, n, n * n * n) && r < n && c < n && v < n
    ensures Id(n, r, c, v) < |recs| && recs[Id(n, r, c, v)] == SuDokuCandidate(r, c, v)
  {
    IdBound(n, SuDokuCandidate(r, c, v));
  }

  // ---------------------------------------------------------------------------------
  // The line constraints: cells, rows and columns

  /**
   * The three kinds of constraint with one free index (SuDokuProblem.java:110-157):
   * Cell(i, j) is "cell [i, j] holds one value", Row(i, j) is "row i holds value j once",
   * Column(i, j) is "column i holds value j once".
   */
  datatype Kind = CellKind | RowKind | ColumnKind

  /** The candidate the innermost loop adds at step t. */
  function Pick(n: nat, kind: Kind, i: nat, j: nat, t: nat): nat
  {
    match kind
    case CellKind => Id(n, i, j, t)
    case RowKind => Id(n, i, t, j)
    case ColumnKind => Id(n, t, i, j)
  }

  /** The candidate added at step t, as a record. */
  function PickOf(kind: Kind, i: nat, j: nat, t: nat): SuDokuCandidate
  {
    match kind
    case CellKind => SuDokuCandidate(i, j, t)
    case RowKind => SuDokuCandidate(i, t, j)
    case ColumnKind => SuDokuCandidate(t, i, j)
  }

  /** The members after the first k steps of the innermost loop. */
  function MembersUpTo(n: nat, kind: Kind, i: nat, j: nat, k: nat): set<Cand>
  {
    set t | 0 <= t < k :: Pick(n, kind, i, j, t)
  }

  /** One more step of the innermost loop adds one more candidate. */
  lemma MembersUpToStep(n: nat, kind: Kind, i: nat, j: nat, k: nat)
    ensures MembersUpTo(n, kind, i, j, k + 1) == MembersUpTo(n, kind, i, j, k) + {Pick(n, kind, i, j, k)}
  {
  }

  /** The candidate picked at step t is the record PickOf names. */
  lemma PickAgrees(n: nat, kind: Kind, i: nat, j: nat, t: nat)
    requires i < n && j < n && t < n
    ensures InGrid(n, PickOf(kind, i, j, t)) && IdOf(n, PickOf(kind, i, j, t)) == Pick(n, kind, i, j, t)
  {
  }

  function Members(n: nat, kind: Kind, i: nat, j: nat): set<Cand>
  {
    MembersUpTo(n, kind, i, j, n)
  }

  /** Whether a candidate record belongs to constraint (kind, i, j). */
  predicate Matches(kind: Kind, i: nat, j: nat, x: SuDokuCandidate)
  {
    match kind
    case CellKind => x.row == i && x.column == j
    case RowKind => x.row == i && x.value == j
    case ColumnKind => x.column == i && x.value == j
  }

  /** The constraints one pass of the middle loop adds, in order. */
  function Line(n: nat, kind: Kind, i: nat): seq<set<Cand>>
  {
    seq(n, (j: int) requires 0 <= j < n => Members(n, kind, i, j))
  }

  /** The constraints the first k passes of the outer loop add, in order. */
  function Table(n: nat, kind: Kind, k: nat): seq<set<Cand>>
  {
    if k == 0 then [] else Table(n, kind, k - 1) + Line(n, kind, k - 1)
  }

  /**
   * A line constraint holds exactly the candidates whose record matches it: the n
   * values of one cell, or the n cells of one line with one value.
   */
  lemma MembersMeaning(recs: seq<SuDokuCandidate>, n: nat, kind: Kind, i: nat, j: nat)
    requires Listed(recs, n, n * n * n) && i < n && j < n
    ensures forall id: nat :: id in Members(n, kind, i, j) <==> id < |recs| && Matches(kind, i, j, recs[id])
  {
    forall id | id in Members(n, kind, i, j)
      ensures id < |recs| && Matches(kind, i, j, recs[id])
    {
      var t :| 0 <= t < n && id == Pick(n, kind, i, j, t);
      var x := PickOf(kind, i, j, t);
      assert IdOf(n, x) == id;
      IdBound(n, x);
    }
    forall id: nat | id < |recs| && Matches(kind, i, j, recs[id])
      ensures id in Members(n, kind, i, j)
    {
      var x := recs[id];
      var t := match kind case CellKind => x.value case RowKind => x.column case ColumnKind => x.row;
      assert PickOf(kind, i, j, t) == x;
      assert Pick(n, kind, i, j, t) == id;
    }
  }

  /** The innermost loop adds a new candidate at every step, so a finished line constraint has n members. */
  lemma {:induction false} MembersUpToSize(n: nat, kind: Kind, i: nat, j: nat, k: nat)
    requires i < n && j < n && k <= n
    ensures |MembersUpTo(n, kind, i, j, k)| == k
  {
    if k > 0 {
      MembersUpToSize(n, kind, i, j, k - 1);
      var s := MembersUpTo(n, kind, i, j, k - 1);
      var p := Pick(n, kind, i, j, k - 1);
      assert MembersUpTo(n, kind, i, j, k) == s + {p};
      if p in s {
        var t :| 0 <= t < k - 1 && p == Pick(n, kind, i, j, t);
        assert IdOf(n, PickOf(kind, i, j, t)) == IdOf(n, PickOf(kind, i, j, k - 1));
        IdInjective(n, PickOf(kind, i, j, t), PickOf(kind, i, j, k - 1));
      }
    }
  }

  lemma {:induction false} TableLength(n: nat, kind: Kind, k: nat)
    ensures |Table(n, kind, k)| == k * n
  {
    if k > 0 {
      TableLength(n, kind, k - 1);
      MulSucc(k - 1, n);
    }
  }

  /** The constraint at position i * n + j of a table is (kind, i, j). */
  lemma {:induction false} TableAt(n: nat, kind: Kind, k: nat, i: nat, j: nat)
    requires i < k && j < n
    ensures i * n + j < |Table(n, kind, k)| && Table(n, kind, k)[i * n + j] == Members(n, kind, i, j)
  {
    TableLength(n, kind, k - 1);
    MulSucc(k - 1, n);
    if i < k - 1 {
      TableAt(n, kind, k - 1, i, j);
    } else {
      assert i * n + j == |Table(n, kind, k - 1)| + j;
    }
  }

  // ---------------------------------------------------------------------------------
  // The box constraints

  /**
   * The members of box constraint (br, bc, v), corrected: the rows br * nStacks ..
   * br * nStacks + nStacks - 1 and the columns bc * nBands .. bc * nBands + nBands - 1,
   * the box SuDoku.java:132 puts cell (r, c) in when r / nStacks == br and c / nBands == bc.
   */
  function BoxMembersUpTo(nB: nat, nS: nat, br: nat, bc: nat, v: nat, rows: nat, cols: nat): set<Cand>
  {
    set r, c | 0 <= r < rows && 0 <= c < cols :: BoxId(nB, nS, br, bc, v, r, c)
  }

  /** The candidate with value v in row r, column c of box (br, bc), counted within the box. */
  function BoxId(nB: nat, nS: nat, br: nat, bc: nat, v: nat, r: nat, c: nat): Cand
  {
    Id(nB * nS, br * nS + r, bc * nB + c, v)
  }

  /** The members one pass of the innermost loop adds: row r of the box, its first k columns. */
  function BoxRowUpTo(nB: nat, nS: nat, br: nat, bc: nat, v: nat, r: nat, k: nat): set<Cand>
  {
    set c | 0 <= c < k :: BoxId(nB, nS, br, bc, v, r, c)
  }

  /** One more step of the innermost box loop adds one more candidate. */
  lemma BoxRowStep(nB: nat, nS: nat, br: nat, bc: nat, v: nat, r: nat, k: nat)
    ensures BoxRowUpTo(nB, nS, br, bc, v, r, k + 1) == BoxRowUpTo(nB, nS, br, bc, v, r, k) + {BoxId(nB, nS, br, bc, v, r, k)}
  {
  }

  function BoxMembers(nB: nat, nS: nat, br: nat, bc: nat, v: nat): set<Cand>
  {
    BoxMembersUpTo(nB, nS, br, bc, v, nS, nB)
  }

  /** A finished row of the box joins the rows before it. */
  lemma BoxRowDone(nB: nat, nS: nat, br: nat, bc: nat, v: nat, r: nat)
    ensures BoxMembersUpTo(nB, nS, br, bc, v, r, nB) + BoxRowUpTo(nB, nS, br, bc, v, r, nB)
         == BoxMembersUpTo(nB, nS, br, bc, v, r + 1, nB)
  {
    var n := nB * nS;
    forall id | id in BoxMembersUpTo(nB, nS, br, bc, v, r + 1, nB)
      ensures id in BoxMembersUpTo(nB, nS, br, bc, v, r, nB) + BoxRowUpTo(nB, nS, br, bc, v, r, nB)
    {
      var r', c' :| 0 <= r' < r + 1 && 0 <= c' < nB && id == BoxId(nB, nS, br, bc, v, r', c');
      if r' == r {
        assert id in BoxRowUpTo(nB, nS, br, bc, v, r, nB);
      }
    }
  }

  /** The constraints for band br: for each stack, one per value. */
  function BoxLine(nB: nat, nS: nat, br: nat, bc: nat): seq<set<Cand>>
  {
    seq(nB * nS, (v: int) requires 0 <= v < nB * nS => BoxMembers(nB, nS, br, bc, v))
  }

  function BoxBand(nB: nat, nS: nat, br: nat, k: nat): seq<set<Cand>>
  {
    if k == 0 then [] else BoxBand(nB, nS, br, k - 1) + BoxLine(nB, nS, br, k - 1)
  }

  function BoxTable(nB: nat, nS: nat, k: nat): seq<set<Cand>>
  {
    if k == 0 then [] else BoxTable(nB, nS, k - 1) + BoxBand(nB, nS, k - 1, nS)
  }

  /** Division by a positive m places x in block q exactly when q * m <= x < q * m + m. */
  lemma DivBlock(x: nat, m: nat, q: nat)
    requires m > 0
    ensures x / m == q <==> q * m <= x < q * m + m
  {
    var d, r := x / m, x % m;
    assert x == d * m + r;
    if q * m <= x < q * m + m {
      Unpair(d, r, q, x - q * m, m);
    }
  }

  /** A cell of box (br, bc) lies on the grid. */
  lemma BoxCellInGrid(nB: nat, nS: nat, br: nat, bc: nat, r: nat, c: nat)
    requires br < nB && bc < nS && r < nS && c < nB
    ensures 0 <= br * nS + r < nB * nS && 0 <= bc * nB + c < nB * nS
  {
    MulMono(0, br, nS);
    MulMono(0, bc, nB);
    MulSucc(br, nS);
    MulMono(br + 1, nB, nS);
    MulSucc(bc, nB);
    MulMono(bc + 1, nS, nB);
  }

  /**
   * A box constraint holds exactly the candidates with its value in the cells the grid
   * puts in box (br, bc).
   */
  lemma BoxMeaning(recs: seq<SuDokuCandidate>, nB: nat, nS: nat, br: nat, bc: nat, v: nat)
    requires Listed(recs, nB * nS, (nB * nS) * (nB * nS) * (nB * nS))
    requires br < nB && bc < nS && v < nB * nS
    ensures forall id: nat :: id in BoxMembers(nB, nS, br, bc, v) <==>
      id < |recs| && recs[id].row / nS == br && recs[id].column / nB == bc && recs[id].value == v
  {
    var n := nB * nS;
    forall id | id in BoxMembers(nB, nS, br, bc, v)
      ensures id < |recs| && recs[id].row / nS == br && recs[id].column / nB == bc && recs[id].value == v
    {
      var r, c :| 0 <= r < nS && 0 <= c < nB && id == BoxId(nB, nS, br, bc, v, r, c);
      BoxCellInGrid(nB, nS, br, bc, r, c);
      var x := SuDokuCandidate(br * nS + r, bc * nB + c, v);
      IdBound(n, x);
      DivBlock(x.row, nS, br);
      DivBlock(x.column, nB, bc);
    }
    forall id: nat | id < |recs| && recs[id].row / nS == br && recs[id].column / nB == bc && recs[id].value == v
      ensures id in BoxMembers(nB, nS, br, bc, v)
    {
      var x := recs[id];
      DivBlock(x.row, nS, br);
      DivBlock(x.column, nB, bc);
      var r, c := x.row - br * nS, x.column - bc * nB;
      assert id == BoxId(nB, nS, br, bc, v, r, c);
    }
  }

  lemma {:induction false} BoxBandLength(nB: nat, nS: nat, br: nat, k: nat)
    ensures |BoxBand(nB, nS, br, k)| == k * (nB * nS)
  {
    if k > 0 {
      BoxBandLength(nB, nS, br, k - 1);
      MulSucc(k - 1, nB * nS);
    }
  }

  lemma {:induction false} BoxTableLength(nB: nat, nS: nat, k: nat)
    ensures |BoxTable(nB, nS, k)| == k * (nS * (nB * nS))
  {
    if k > 0 {
      BoxTableLength(nB, nS, k - 1);
      BoxBandLength(nB, nS, k - 1, nS);
      var m := nS * (nB * nS);
      MulSucc(k - 1, m);
    }
  }

  // ---------------------------------------------------------------------------------
  // The whole list

  /** initConstraints: cell, then row, then column, then box constraints (SuDokuProblem.java:102-109). */
  function ConstraintList(nB: nat, nS: nat): seq<set<Cand>>
  {
    var n := nB * nS;
    Table(n, CellKind, n) + Table(n, RowKind, n) + Table(n, ColumnKind, n) + BoxTable(nB, nS, nB)
  }

  /** There are n^2 constraints of each of the four kinds, 4 n^2 in all. */
  lemma ConstraintCount(nB: nat, nS: nat)
    ensures |ConstraintList(nB, nS)| == 4 * ((nB * nS) * (nB * nS))
  {
    var n := nB * nS;
    TableLength(n, CellKind, n);
    TableLength(n, RowKind, n);
    TableLength(n, ColumnKind, n);
    BoxTableLength(nB, nS, nB);
    MulAssoc(nB, nS, n);
  }

  /** Every constraint of l holds candidates at positions below N only. */
  ghost predicate AllBelow(l: seq<set<Cand>>, N: nat)
  {
    forall t :: 0 <= t < |l| ==> forall id :: id in l[t] ==> id < N
  }

  lemma MembersWithin(n: nat, kind: Kind, i: nat, j: nat)
    requires i < n && j < n
    ensures forall id :: id in Members(n, kind, i, j) ==> id < n * n * n
  {
    forall id | id in Members(n, kind, i, j)
      ensures id < n * n * n
    {
      var t :| 0 <= t < n && id == Pick(n, kind, i, j, t);
      IdBound(n, PickOf(kind, i, j, t));
    }
  }

  lemma BoxMembersWithin(nB: nat, nS: nat, br: nat, bc: nat, v: nat)
    requires br < nB && bc < nS && v < nB * nS
    ensures forall id :: id in BoxMembers(nB, nS, br, bc, v) ==> id < (nB * nS) * (nB * nS) * (nB * nS)
  {
    forall id | id in BoxMembers(nB, nS, br, bc, v)
      ensures id < (nB * nS) * (nB * nS) * (nB * nS)
    {
      var r, c :| 0 <= r < nS && 0 <= c < nB && id == BoxId(nB, nS, br, bc, v, r, c);
      BoxCellInGrid(nB, nS, br, bc, r, c);
      IdBound(nB * nS, SuDokuCandidate(br * nS + r, bc * nB + c, v));
    }
  }

  /** Every line constraint holds candidates of the grid only. */
  lemma {:induction false} TableWithin(n: nat, kind: Kind, k: nat)
    requires k <= n
    ensures AllBelow(Table(n, kind, k), n * n * n)
  {
    if k > 0 {
      var i := k - 1;
      TableWithin(n, kind, i);
      forall j | 0 <= j < n
        ensures forall id :: id in Line(n, kind, i)[j] ==> id < n * n * n
      {
        MembersWithin(n, kind, i, j);
      }
    }
  }

  lemma {:induction false} BoxBandWithin(nB: nat, nS: nat, br: nat, k: nat)
    requires br < nB && k <= nS
    ensures AllBelow(BoxBand(nB, nS, br, k), (nB * nS) * (nB * nS) * (nB * nS))
  {
    if k > 0 {
      var bc := k - 1;
      BoxBandWithin(nB, nS, br, bc);
      forall v | 0 <= v < nB * nS
        ensures forall id :: id in BoxLine(nB, nS, br, bc)[v] ==> id < (nB * nS) * (nB * nS) * (nB * nS)
      {
        BoxMembersWithin(nB, nS, br, bc, v);
      }
    }
  }

  /** Every box constraint holds candidates of the grid only. */
  lemma {:induction false} BoxTableWithin(nB: nat, nS: nat, k: nat)
    requires k <= nB
    ensures AllBelow(BoxTable(nB, nS, k), (nB * nS) * (nB * nS) * (nB * nS))
  {
    if k > 0 {
      BoxTableWithin(nB, nS, k - 1);
      BoxBandWithin(nB, nS, k - 1, nS);
    }
  }

  /** The whole list holds candidates of the grid only. */
  lemma ConstraintsWithin(nB: nat, nS: nat)
    ensures AllBelow(ConstraintList(nB, nS), (nB * nS) * (nB * nS) * (nB * nS))
  {
    var n := nB * nS;
    TableWithin(n, CellKind, n);
    TableWithin(n, RowKind, n);
    TableWithin(n, ColumnKind, n);
    BoxTableWithin(nB, nS, nB);
  }

  // ---------------------------------------------------------------------------------
  // The box loops as written

  /**
   * The cells the box loops as written visit for box (br, bc): rows br * nStacks + r for
   * r < nBands and columns bc * nBands + c for c < nStacks (SuDokuProblem.java:164-175).
   */
  function AsWrittenBoxCells(nB: nat, nS: nat, br: nat, bc: nat): set<(nat, nat)>
  {
    set r, c | 0 <= r < nB && 0 <= c < nS :: AsWrittenCell(nB, nS, br, bc, r, c)
  }

  /** candidates[rStart + r][cStart + c] with rStart = br * nStacks and cStart = bc * nBands. */
  function AsWrittenCell(nB: nat, nS: nat, br: nat, bc: nat, r: nat, c: nat): (nat, nat)
  {
    (br * nS + r, bc * nB + c)
  }

  /** Whether every cell the loops as written visit lies on the n x n grid. */
  ghost predicate AsWrittenInGrid(nB: nat, nS: nat)
  {
    forall br: nat, bc: nat, p :: br < nB && bc < nS && p in AsWrittenBoxCells(nB, nS, br, bc) ==>
      p.0 < nB * nS && p.1 < nB * nS
  }

  /**
   * The loops as written stay on the grid exactly when the boxes are square; for any
   * other shape candidates[rStart + r][cStart + c] is indexed off the grid.
   */
  lemma AsWrittenInGridIffSquare(nB: nat, nS: nat)
    requires nB > 0 && nS > 0
    ensures AsWrittenInGrid(nB, nS) <==> nB == nS
  {
    if nB == nS {
      forall br: nat, bc: nat, p | br < nB && bc < nS && p in AsWrittenBoxCells(nB, nS, br, bc)
        ensures p.0 < nB * nS && p.1 < nB * nS
      {
        var r, c :| 0 <= r < nB && 0 <= c < nS && p == AsWrittenCell(nB, nS, br, bc, r, c);
        BoxCellInGrid(nB, nS, br, bc, r, c);
      }
    } else if nB > nS {
      var p := AsWrittenCell(nB, nS, nB - 1, 0, nB - 1, 0);
      assert p in AsWrittenBoxCells(nB, nS, nB - 1, 0);
      MulSucc(nB - 1, nS);
    } else {
      var p := AsWrittenCell(nB, nS, 0, nS - 1, 0, nS - 1);
      assert p in AsWrittenBoxCells(nB, nS, 0, nS - 1);
      MulSucc(nS - 1, nB);
    }
  }

  /** On a 2 x 3 grid of boxes (6 x 6 cells) the third box of the first band reaches column 6. */
  lemma AsWrittenOffGrid()
    ensures (0, 6) in AsWrittenBoxCells(2, 3, 0, 2) && 6 >= 2 * 3
  {
    assert (0, 6) == AsWrittenCell(2, 3, 0, 2, 0, 2);
  }

  /** For square boxes the loops as written visit exactly the corrected box. */
  lemma AsWrittenSquareAgrees(m: nat, br: nat, bc: nat, v: nat)
    ensures BoxMembers(m, m, br, bc, v) ==
      set p | p in AsWrittenBoxCells(m, m, br, bc) :: Id(m * m, p.0, p.1, v)
  {
    var written := set p | p in AsWrittenBoxCells(m, m, br, bc) :: Id(m * m, p.0, p.1, v);
    forall id | id in BoxMembers(m, m, br, bc, v)
      ensures id in written
    {
      var r, c :| 0 <= r < m && 0 <= c < m && id == BoxId(m, m, br, bc, v, r, c);
      assert AsWrittenCell(m, m, br, bc, r, c) in AsWrittenBoxCells(m, m, br, bc);
    }
    forall id | id in written
      ensures id in BoxMembers(m, m, br, bc, v)
    {
      var p :| p in AsWrittenBoxCells(m, m, br, bc) && id == Id(m * m, p.0, p.1, v);
      var r, c :| 0 <= r < m && 0 <= c < m && p == AsWrittenCell(m, m, br, bc, r, c);
      assert id == BoxId(m, m, br, bc, v, r, c);
    }
  }
}
