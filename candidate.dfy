/**
 * SuDokuCandidate (sudoku/solver/SuDokuCandidate.java): the solution candidate "value v in
 * the cell at row r, column c", and the label it hands to Candidate.
 */
module SuDokuCandidates {

  /** The (row, column, value) record; the getters are its fields. */
  datatype SuDokuCandidate = SuDokuCandidate(row: nat, column: nat, value: nat)

  function DigitChar(d: nat): (ch: char)
    requires d < 10
    ensures '0' <= ch <= '9'
  {
    (48 + d) as char
  }

  predicate IsDigit(ch: char)
  {
    '0' <= ch <= '9'
  }

  predicate AllDigits(s: string)
  {
    forall i :: 0 <= i < |s| ==> IsDigit(s[i])
  }

  /** The decimal form Java's string concatenation gives a non-negative int. */
  function Decimal(n: nat): (s: string)
    decreases n
    ensures |s| >= 1 && AllDigits(s)
  {
    if n < 10 then [DigitChar(n)] else Decimal(n / 10) + [DigitChar(n % 10)]
  }

  /** Reads a run of decimal digits back as a number. */
  function ParseDecimal(s: string): nat
    requires AllDigits(s)
  {
    if |s| == 0 then 0 else 10 * ParseDecimal(s[..|s| - 1]) + (s[|s| - 1] as int - 48)
  }

  /** Reading the decimal form gives the number back, so no two numbers print alike. */
  lemma {:induction false} DecimalRoundTrip(n: nat)
    ensures ParseDecimal(Decimal(n)) == n
    decreases n
  {
    var s := Decimal(n);
    if n >= 10 {
      DecimalRoundTrip(n / 10);
      assert s[..|s| - 1] == Decimal(n / 10);
    }
  }

  /** The label of SuDokuCandidate.java:18, "Row: r, Col: c, Val: v". */
  function Label(x: SuDokuCandidate): string
  {
    "Row: " + (Decimal(x.row) + ColumnPart(x))
  }

  function ColumnPart(x: SuDokuCandidate): string
  {
    ", Col: " + (Decimal(x.column) + ValuePart(x))
  }

  function ValuePart(x: SuDokuCandidate): string
  {
    ", Val: " + Decimal(x.value)
  }

  /** A common prefix can be dropped from both sides of an equation. */
  lemma DropPrefix(p: string, s: string, t: string)
    requires p + s == p + t
    ensures s == t
  {
    assert s == (p + s)[|p|..] && t == (p + t)[|p|..];
  }

  /** In a digit run followed by a non-digit, the first non-digit sits right after the run. */
  lemma RunEnd(a: string, x: string)
    requires AllDigits(a) && |x| > 0 && !IsDigit(x[0])
    ensures forall i :: 0 <= i < |a| ==> IsDigit((a + x)[i])
    ensures !IsDigit((a + x)[|a|])
  {
  }

  /** Two digit runs, each followed by text that does not start with a digit, split alike. */
  lemma DigitRunsAlign(a: string, x: string, b: string, y: string)
    requires AllDigits(a) && AllDigits(b)
    requires |x| > 0 && !IsDigit(x[0]) && |y| > 0 && !IsDigit(y[0])
    requires a + x == b + y
    ensures a == b && x == y
  {
    RunEnd(a, x);
    RunEnd(b, y);
    assert |a| == |b|;
    assert a == (a + x)[..|a|] && b == (b + y)[..|b|];
    assert x == (a + x)[|a|..] && y == (b + y)[|b|..];
  }

  /** The label identifies the candidate: distinct candidates carry distinct labels. */
  lemma LabelIdentifies(x: SuDokuCandidate, y: SuDokuCandidate)
    requires Label(x) == Label(y)
    ensures x == y
  {
    DropPrefix("Row: ", Decimal(x.row) + ColumnPart(x), Decimal(y.row) + ColumnPart(y));
    DigitRunsAlign(Decimal(x.row), ColumnPart(x), Decimal(y.row), ColumnPart(y));
    DropPrefix(", Col: ", Decimal(x.column) + ValuePart(x), Decimal(y.column) + ValuePart(y));
    DigitRunsAlign(Decimal(x.column), ValuePart(x), Decimal(y.column), ValuePart(y));
    DropPrefix(", Val: ", Decimal(x.value), Decimal(y.value));
    DecimalRoundTrip(x.row);
    DecimalRoundTrip(y.row);
    DecimalRoundTrip(x.column);
    DecimalRoundTrip(y.column);
    DecimalRoundTrip(x.value);
    DecimalRoundTrip(y.value);
  }
}
