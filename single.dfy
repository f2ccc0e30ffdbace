/**
 * The rule of SingleCandidateConstraint, "exactly one of these candidates is part of the
 * solution", as a function of the constraint's partition
 * (sudoku/solver/SingleCandidateConstraint.java).
 */
module SingleCandidate {
  import opened Partitions
  import opened Wrappers

  /** What apply() asks the constraint to do with its own candidates. */
  datatype Action = Keep | EliminateAll(cs: set<Cand>) | IncludeAll(cs: set<Cand>)

  /** The nSolutions value apply() records, and the action it takes. */
  datatype Verdict = Verdict(nSolutions: nat, action: Action)

  /** The candidates an action moves. */
  function Moved(a: Action): set<Cand>
  {
    if a.Keep? then {} else a.cs
  }

  /** The move an action makes; Keep moves nothing, whatever the move. */
  function MoveOf(a: Action): Move
  {
    if a.IncludeAll? then Include else Eliminate
  }

  /** The constraint's own partition once the action has been carried out. */
  function Effect(p: Partition, a: Action): Partition
  {
    match a
    case Keep => p
    case EliminateAll(cs) => p.Apply(Eliminate, cs)
    case IncludeAll(cs) => p.Apply(Include, cs)
  }

  /** SingleCandidateConstraint.apply on partition p. */
  function Rule(p: Partition): (v: Verdict)
    // only live candidates are ever moved
    ensures v.action.Keep? || (v.action.cs != {} && v.action.cs <= p.live)
  {
    if |p.definite| > 1 then
      Verdict(0, Keep)
    else if |p.definite| == 1 then
      Verdict(1, if |p.live| > 0 then EliminateAll(p.live) else Keep)
    else if |p.live| > 1 then
      Verdict(|p.live|, Keep)
    else if |p.live| == 1 then
      Verdict(1, IncludeAll(p.live))
    else
      Verdict(0, Keep)
  }

  /** What the verdict of the rule means, case by case. */
  lemma RuleMeaning(p: Partition, v: Verdict)
    requires v == Rule(p)
    // no solution: two confirmed candidates, or nothing left at all
    ensures v.nSolutions == 0 <==> |p.definite| > 1 || (p.definite == {} && p.live == {})
    ensures v.nSolutions == 0 ==> v.action == Keep
    // solved: one confirmed, or exactly one live candidate left
    ensures v.nSolutions == 1 <==> |p.definite| == 1 || (p.definite == {} && |p.live| == 1)
    ensures v.nSolutions == 1 && p.Disjoint() ==>
      var q := Effect(p, v.action);
      q.live == {} && |q.definite| == 1 && q.definite <= p.live + p.definite
    ensures v.nSolutions == 1 && p.Disjoint() && p.definite != {} ==> Effect(p, v.action).definite == p.definite
    ensures v.nSolutions == 1 && p.definite == {} ==> Effect(p, v.action).definite == p.live
    // still open: one possible solution per live candidate, nothing moved
    ensures v.nSolutions > 1 ==> v.action == Keep && p.definite == {} && v.nSolutions == |p.live|
  {
  }

  /** SingleCandidateConstraint.getSolution: the definite set when solved, null otherwise. */
  function Solution(p: Partition, nSolutions: int): (r: Option<set<Cand>>)
    ensures r.Some? <==> nSolutions == 1
    ensures r.Some? ==> r.value == p.definite
  {
    if nSolutions == 1 then Some(p.definite) else None
  }

  /** SingleCandidateConstraint.getPossibleSolutions: one singleton per live candidate. */
  function PossibleSolutions(p: Partition): (r: set<set<Cand>>)
    ensures forall s :: s in r ==> |s| == 1 && s <= p.live
  {
    Singletons(p.live)
  }

  /** Every live candidate, and only a live candidate, is a possible solution on its own. */
  lemma PossibleSolutionsExact(p: Partition)
    ensures forall c :: c in p.live <==> {c} in PossibleSolutions(p)
  {
    forall c | {c} in PossibleSolutions(p)
      ensures c in p.live
    {
      var x :| x in p.live && {x} == {c};
      assert x in {c};
    }
  }

  function Singletons(s: set<Cand>): set<set<Cand>>
  {
    set c | c in s :: {c}
  }

  /**
   * Applying the constraint a second time, with no candidate moved in between, changes
   * nothing and reports the same number of solutions and the same solution.
   */
  lemma {:induction false} RuleIdempotent(p: Partition)
    requires p.Disjoint()
    ensures var v := Rule(p);
            var q := Effect(p, v.action);
            var w := Rule(q);
            && w.nSolutions == v.nSolutions
            && Effect(q, w.action) == q
            && Solution(Effect(q, w.action), w.nSolutions) == Solution(q, v.nSolutions)
  {
    var v := Rule(p);
    var q := Effect(p, v.action);
    if v.nSolutions == 1 {
      assert q.live == {} && |q.definite| == 1;
    } else {
      assert q == p;
    }
  }

  /** After apply, a solved constraint reports exactly one of its own candidates as its solution. */
  lemma {:induction false} SolvedHasOneCandidate(p: Partition)
    requires p.Disjoint()
    ensures var v := Rule(p);
            var s := Solution(Effect(p, v.action), v.nSolutions);
            s.Some? ==> |s.value| == 1 && s.value <= p.live + p.definite
  {
  }

  /** There are as many possible solutions as live candidates. */
  lemma PossibleSolutionsCount(p: Partition)
    ensures |PossibleSolutions(p)| == |p.live|
  {
    SingletonsCount(p.live);
  }

  lemma {:induction false} SingletonsCount(s: set<Cand>)
    ensures |Singletons(s)| == |s|
    decreases |s|
  {
    if s != {} {
      var x :| x in s;
      var rest := s - {x};
      SingletonsCount(rest);
      assert Singletons(s) == Singletons(rest) + {{x}};
    }
  }
}
