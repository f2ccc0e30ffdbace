/**
 * The constraint-propagation and backtracking engine (sudoku/solver): Constraint,
 * Candidate, SingleCandidateConstraint and ConstrainedProblem, modelled as one arena
 * of integer ids owned by the problem. Candidate objects become ids with an entry in
 * `owners`; constraint objects become refs with an entry in `parts` (their live and
 * definite sets) and in `flags` (their CLEAN/DIRTY state).
 */
module Solver {
  import opened Wrappers
  import opened Partitions
  import opened Network
  import SingleCandidate

  /** Constraint.UNKNOWN_NO_SOLUTIONS, Integer.MAX_VALUE. */
  const UNKNOWN_NO_SOLUTIONS: int := 0x7fff_ffff

  function Sum(s: seq<nat>): nat
  {
    if s == [] then 0 else Sum(s[..|s| - 1]) + s[|s| - 1]
  }

  lemma SumSnoc(s: seq<nat>, x: nat)
    ensures Sum(s + [x]) == Sum(s) + x
  {
    assert (s + [x])[..|s|] == s;
  }

  /** While the counts so far sum to less than two, every prefix of one more count does too. */
  lemma PrefixSumsStayBelow(counts: seq<nat>, r: nat)
    requires forall j :: 0 <= j < |counts| ==> Sum(counts[..j]) < 2
    requires Sum(counts) < 2
    ensures Sum(counts + [r]) == Sum(counts) + r
    ensures forall j :: 0 <= j < |counts + [r]| ==> Sum((counts + [r])[..j]) < 2
  {
    SumSnoc(counts, r);
    forall j | 0 <= j < |counts| + 1
      ensures Sum((counts + [r])[..j]) < 2
    {
      assert (counts + [r])[..j] == counts[..j];
    }
  }

  lemma RemoveOneSmaller(s: set<set<Cand>>, x: set<Cand>)
    requires x in s
    ensures |s - {x}| == |s| - 1
  {
  }

  lemma OneElement(s: set<Cand>, c: Cand)
    requires |s| == 1 && c in s
    ensures s == {c}
  {
    assert |s - {c}| == 0;
  }

  lemma ProperSubsetSmaller(a: set<Cand>, b: set<Cand>)
    requires a < b
    ensures |a| < |b|
  {
    assert b == a + (b - a);
    assert a * (b - a) == {};
    assert |b - a| != 0;
  }

  lemma {:induction false} SubsetNotLarger(a: set<Cand>, b: set<Cand>)
    requires a <= b
    ensures |a| <= |b|
    decreases |b|
  {
    if a != {} {
      var x :| x in a;
      SubsetNotLarger(a - {x}, b - {x});
    }
  }

  /** The ids 0 .. n - 1. */
  function Ids(n: nat): (r: set<nat>)
    ensures forall i :: i in r <==> 0 <= i < n
  {
    if n == 0 then {} else Ids(n - 1) + {n - 1}
  }

  /** The refs of a problem with n sub-constraints. */
  function RefsOf(n: nat): set<Ref>
  {
    {Problem} + set i | 0 <= i < n :: Single(i)
  }

  function Elems(s: seq<Cand>): set<Cand>
  {
    set c | c in s
  }

  /** The sub-constraints that candidate c was added to, when constraint j has members l[j]. */
  function MembershipOf(l: seq<set<Cand>>, c: Cand): set<Ref>
  {
    set j | 0 <= j < |l| && c in l[j] :: Single(j)
  }

  /** The CLEAN/DIRTY flag of each of the n sub-constraints agrees with the problem's dirty set. */
  ghost predicate SyncedFlags(flags: Flags, dirty: set<nat>, n: nat)
  {
    && (forall i :: 0 <= i < n ==> Single(i) in flags && (flags[Single(i)] == Dirty <==> i in dirty))
    && (forall i :: i in dirty ==> i < n)
  }

  /**
   * What reinstating cs leaves behind: every constraint that shares one of them with the
   * problem is flagged dirty, and every such sub-constraint is queued.
   */
  ghost predicate Restored(owners: Owners, flags: Flags, dirty: set<nat>, cs: set<Cand>)
  {
    var d := Dirtied(owners, cs, Problem);
    && (forall k :: k in d && k in flags ==> flags[k] == Dirty)
    && SubIds(d) <= dirty
  }

  /** Marking constraints dirty adds exactly the marked sub-constraints to the dirty set. */
  lemma MarkKeepsSynced(flags: Flags, dirty: set<nat>, n: nat, d: set<Ref>)
    requires SyncedFlags(flags, dirty, n)
    requires d <= RefsOf(n)
    ensures SyncedFlags(MarkDirty(flags, d), dirty + SubIds(d), n)
  {
  }

  /** Marking one sub-constraint clean removes exactly it from the dirty set. */
  lemma CleanKeepsSynced(flags: Flags, dirty: set<nat>, n: nat, i: nat)
    requires SyncedFlags(flags, dirty, n) && Single(i) in flags
    ensures SyncedFlags(flags[Single(i) := Clean], dirty - {i}, n)
  {
  }

  /**
   * A sub-constraint moving some of its own live candidates, other than by reinstating
   * them, keeps the network consistent and makes progress on the problem: the problem
   * loses live candidates unless nothing moved.
   */
  lemma {:induction false} SubMoveProgresses(owners: Owners, parts: Parts, i: nat, cs: set<Cand>, m: Move)
    requires Consistent(owners, parts) && Single(i) in parts
    requires cs <= parts[Single(i)].live && m != Reinstate
    ensures var r := Spread(parts, owners, cs, Single(i), m);
      && Consistent(owners, r)
      && Progressed(parts[Problem], r[Problem])
      && (cs != {} ==> r[Problem].live < parts[Problem].live)
      && (cs == {} ==> r == parts)
  {
    LiveOwned(owners, parts, Single(i));
    WithinProblem(owners, parts, Single(i));
    SpreadKeepsConsistent(owners, parts, cs, Single(i), m);
    SpreadAtProblem(parts, owners, cs, Single(i), m);
    ApplyOnLiveProgresses(parts[Problem], m, cs);
    if cs == {} {
      SpreadNothing(parts, owners, Single(i), m);
    } else {
      var c :| c in cs;
      assert c !in Spread(parts, owners, cs, Single(i), m)[Problem].live;
    }
  }

  /**
   * One Constraint.solve on sub-constraint i, as values: the rule's moves spread through
   * the network, every dirtied constraint is flagged, and i is marked clean. The network
   * stays consistent, the flags stay in step with the dirty set, and either the problem
   * loses live candidates or nothing moved and i simply leaves the dirty set.
   */
  lemma SolveStep(owners: Owners, parts: Parts, flags: Flags, dirty: set<nat>, n: nat, i: nat,
                  parts': Parts, flags': Flags, dirty': set<nat>)
    requires Consistent(owners, parts) && Single(i) in parts && parts.Keys == RefsOf(n)
    requires SyncedFlags(flags, dirty, n) && i < n
    requires var v := SingleCandidate.Rule(parts[Single(i)]);
      var cs := SingleCandidate.Moved(v.action);
      var d := Dirtied(owners, cs, Single(i));
      && parts' == Spread(parts, owners, cs, Single(i), SingleCandidate.MoveOf(v.action))
      && flags' == MarkDirty(flags, d)[Single(i) := Clean]
      && dirty' == dirty + SubIds(d) - {i}
    ensures Consistent(owners, parts')
    ensures Progressed(parts[Problem], parts'[Problem])
    ensures SyncedFlags(flags', dirty', n)
    ensures parts'[Problem].live < parts[Problem].live || (parts' == parts && dirty' == dirty - {i})
  {
    var v := SingleCandidate.Rule(parts[Single(i)]);
    var cs := SingleCandidate.Moved(v.action);
    var d := Dirtied(owners, cs, Single(i));
    SubMoveProgresses(owners, parts, i, cs, SingleCandidate.MoveOf(v.action));
    NothingDirtied(owners, flags, Single(i));
    MarkKeepsSynced(flags, dirty, n, d);
    CleanKeepsSynced(MarkDirty(flags, d), dirty + SubIds(d), n, i);
  }

  /** Including one live candidate of the problem in the solution: one trial of the branching loop. */
  lemma {:induction false} TrialProgresses(owners: Owners, parts: Parts, c: Cand)
    requires Consistent(owners, parts) && c in parts[Problem].live
    ensures var r := Spread(parts, owners, {c}, Problem, Include);
      && Consistent(owners, r)
      && Progressed(parts[Problem], r[Problem])
      && r[Problem].live < parts[Problem].live
      && |r[Problem].live| < |parts[Problem].live|
  {
    LiveOwned(owners, parts, Problem);
    SpreadKeepsConsistent(owners, parts, {c}, Problem, Include);
    SpreadAtProblem(parts, owners, {c}, Problem, Include);
    ApplyOnLiveProgresses(parts[Problem], Include, {c});
    var r := Spread(parts, owners, {c}, Problem, Include);
    ProperSubsetSmaller(r[Problem].live, parts[Problem].live);
  }

  /**
   * restoreState undoes a trial exactly: from any consistent state that has only made
   * progress since the snapshot, reinstating the snapshot's live candidates gives back
   * the partition of every constraint.
   */
  lemma {:induction false} RestoreExact(owners: Owners, snap: Parts, tried: Parts)
    requires Consistent(owners, snap) && Consistent(owners, tried) && snap.Keys == tried.Keys
    requires Progressed(snap[Problem], tried[Problem])
    ensures Spread(tried, owners, snap[Problem].live, Problem, Reinstate) == snap
  {
    var r := Spread(tried, owners, snap[Problem].live, Problem, Reinstate);
    LiveOwned(owners, snap, Problem);
    SpreadKeepsConsistent(owners, tried, snap[Problem].live, Problem, Reinstate);
    SpreadAtProblem(tried, owners, snap[Problem].live, Problem, Reinstate);
    ReinstateUndoesProgress(snap[Problem], tried[Problem]);
    ConsistentDetermined(owners, r, snap);
  }

  /** The solver's changing state, as values: partitions, flags, the dirty set and every nSolutions. */
  datatype Net = Net(parts: Parts, flags: Flags, dirty: set<nat>, nSol: map<nat, int>)

  /** The shape a state of a problem with n sub-constraints keeps throughout. */
  ghost predicate Sound(owners: Owners, n: nat, s: Net)
  {
    && s.parts.Keys == s.flags.Keys
    && (forall c :: c in owners ==> owners[c] <= s.parts.Keys)
    && s.parts.Keys == RefsOf(n)
    && (forall i :: i in s.nSol <==> 0 <= i < n)
    && Consistent(owners, s.parts)
    && SyncedFlags(s.flags, s.dirty, n)
  }

  /** The smallest id of a non-empty set. */
  ghost function Least(s: set<nat>): (m: nat)
    requires s != {}
    ensures m in s && forall j :: j in s ==> m <= j
  {
    var x :| x in s;
    if s == {x} then x else
      var m := Least(s - {x});
      assert forall j :: j in s ==> j == x || j in s - {x};
      if x < m then x else m
  }

  /** Constraint.solve on sub-constraint i, from state s: the rule's moves, the dirtied owners, i clean. */
  ghost function Solved(owners: Owners, s: Net, i: nat): Net
    requires Single(i) in s.parts
  {
    var v := SingleCandidate.Rule(s.parts[Single(i)]);
    var d := Dirtied(owners, SingleCandidate.Moved(v.action), Single(i));
    Net(Spread(s.parts, owners, SingleCandidate.Moved(v.action), Single(i), SingleCandidate.MoveOf(v.action)),
        MarkDirty(s.flags, d)[Single(i) := Clean], s.dirty + SubIds(d) - {i}, s.nSol[i := v.nSolutions])
  }

  /** A state with Solved's four parts is Solved. */
  lemma SolvedIs(owners: Owners, s: Net, i: nat, t: Net)
    requires Single(i) in s.parts
    requires var v := SingleCandidate.Rule(s.parts[Single(i)]);
      var d := Dirtied(owners, SingleCandidate.Moved(v.action), Single(i));
      && t.parts == Spread(s.parts, owners, SingleCandidate.Moved(v.action), Single(i), SingleCandidate.MoveOf(v.action))
      && t.flags == MarkDirty(s.flags, d)[Single(i) := Clean]
      && t.dirty == s.dirty + SubIds(d) - {i}
      && t.nSol == s.nSol[i := v.nSolutions]
    ensures t == Solved(owners, s, i)
  {
  }

  /** Solving any sub-constraint keeps the state sound; unless the problem shrinks, only i's flag changes. */
  lemma SolvedKeeps(owners: Owners, n: nat, s: Net, i: nat)
    requires Sound(owners, n, s) && i < n
    ensures Single(i) in s.parts
    ensures var t := Solved(owners, s, i);
      && Sound(owners, n, t)
      && Progressed(s.parts[Problem], t.parts[Problem])
      && (t.parts[Problem].live < s.parts[Problem].live || (t.parts == s.parts && t.dirty == s.dirty - {i}))
  {
    var t := Solved(owners, s, i);
    SolveStep(owners, s.parts, s.flags, s.dirty, n, i, t.parts, t.flags, t.dirty);
  }

  /** Solving a dirty sub-constraint keeps the state sound and either shrinks the problem or the dirty set. */
  lemma SolvedSound(owners: Owners, n: nat, s: Net, i: nat)
    requires Sound(owners, n, s) && i in s.dirty
    ensures var t := Solved(owners, s, i);
      && Sound(owners, n, t)
      && Progressed(s.parts[Problem], t.parts[Problem])
      && (|t.parts[Problem].live| < |s.parts[Problem].live| || (t.parts == s.parts && |t.dirty| < |s.dirty|))
  {
    var t := Solved(owners, s, i);
    SolvedKeeps(owners, n, s, i);
    if t.parts[Problem].live < s.parts[Problem].live {
      ProperSubsetSmaller(t.parts[Problem].live, s.parts[Problem].live);
    }
  }

  /** The number of the problem's live candidates: what propagation wears down. */
  function LiveCount(s: Net): nat
  {
    if Problem in s.parts then |s.parts[Problem].live| else 0
  }

  /** Whether a step from s to t made progress: fewer live candidates, or as many and a shorter queue. */
  predicate Advances(s: Net, t: Net)
  {
    LiveCount(t) < LiveCount(s) || (LiveCount(t) == LiveCount(s) && |t.dirty| < |s.dirty|)
  }

  /**
   * The propagation loop of solveRecurse (ConstrainedProblem.java:124-134) from state s,
   * taking the smallest dirty id each time: whether it ran out of dirty constraints
   * (rather than meeting one with no solution), the state it leaves, and the
   * sub-constraints it resolved, which leave the active set.
   */
  ghost function Propagation(owners: Owners, n: nat, s: Net): (bool, Net, set<nat>)
    decreases LiveCount(s), |s.dirty|, 1
  {
    if s.dirty == {} then (true, s, {}) else PropagationFrom(owners, n, s, Least(s.dirty))
  }

  /**
   * Propagation from s when the constraint it solves first is Single(i). From a sound
   * state every step advances (SolvedSound), so the two guarded branches are never taken
   * there; they only keep the function total.
   */
  ghost function PropagationFrom(owners: Owners, n: nat, s: Net, i: nat): (bool, Net, set<nat>)
    decreases LiveCount(s), |s.dirty|, 0
  {
    if Single(i) !in s.parts then (false, s, {})
    else
      var t := Solved(owners, s, i);
      if t.nSol[i] == 0 || !Advances(s, t) then (false, t, {})
      else
        var p := Propagation(owners, n, t);
        (p.0, p.1, p.2 + if t.nSol[i] == 1 then {i} else {})
  }

  /** Propagation from a state with a dirty sub-constraint: solve the smallest, then go on unless it failed. */
  lemma PropagationUnfold(owners: Owners, n: nat, s: Net)
    requires Sound(owners, n, s) && s.dirty != {}
    ensures var i := Least(s.dirty);
      var t := Solved(owners, s, i);
      && Sound(owners, n, t)
      && Advances(s, t)
      && Propagation(owners, n, s) == if t.nSol[i] == 0 then (false, t, {}) else
        var p := Propagation(owners, n, t);
        (p.0, p.1, p.2 + if t.nSol[i] == 1 then {i} else {})
  {
    SolvedSound(owners, n, s, Least(s.dirty));
  }

  /** One round of propagation: from prev, solve the smallest dirty id, reaching cur; stop if it has no solution. */
  lemma PropagationStep(owners: Owners, n: nat, prev: Net, cur: Net, i: nat)
    requires Sound(owners, n, prev) && prev.dirty != {} && i == Least(prev.dirty) && cur == Solved(owners, prev, i)
    ensures Sound(owners, n, cur)
    ensures cur.nSol[i] == 0 ==> Propagation(owners, n, prev) == (false, cur, {})
    ensures cur.nSol[i] != 0 ==>
      var p := Propagation(owners, n, cur);
      Propagation(owners, n, prev) == (p.0, p.1, p.2 + if cur.nSol[i] == 1 then {i} else {})
  {
    PropagationUnfold(owners, n, prev);
  }

  /**
   * One round of propagation from a sound state, solving the smallest dirty constraint:
   * everything the state after it keeps, and how Propagation from before relates to
   * Propagation from after.
   */
  lemma RoundStep(owners: Owners, n: nat, prev: Net, i: nat)
    requires Sound(owners, n, prev) && prev.dirty != {} && i == Least(prev.dirty)
    ensures i < n && Single(i) in prev.parts
    ensures var cur := Solved(owners, prev, i);
      && Sound(owners, n, cur)
      && cur.flags[Single(i)] == Clean
      && Progressed(prev.parts[Problem], cur.parts[Problem])
      && (|| |cur.parts[Problem].live| < |prev.parts[Problem].live|
          || (|cur.parts[Problem].live| == |prev.parts[Problem].live| && |cur.dirty| < |prev.dirty|))
      && (cur.nSol[i] == 0 ==> Propagation(owners, n, prev) == (false, cur, {}))
      && (cur.nSol[i] != 0 ==>
            var p := Propagation(owners, n, cur);
            Propagation(owners, n, prev) == (p.0, p.1, p.2 + if cur.nSol[i] == 1 then {i} else {}))
  {
    SolvedSound(owners, n, prev, i);
    PropagationStep(owners, n, prev, Solved(owners, prev, i), i);
  }

  /** The element of s that Least names, found by a scan (the dirty set's iterator order is not modelled). */
  method Smallest(s: set<nat>) returns (m: nat)
    requires s != {}
    ensures m == Least(s)
  {
    m :| m in s;
    var rest := s - {m};
    while rest != {}
      invariant rest <= s && m in s
      invariant forall j :: j in s - rest ==> m <= j
      decreases |rest|
    {
      var x :| x in rest;
      assert s - (rest - {x}) == (s - rest) + {x};
      if x < m {
        m := x;
      }
      rest := rest - {x};
    }
    assert s - rest == s;
  }

  /** The ids resolved so far and the ids one more round resolves add up. */
  lemma Regroup(goal: (bool, Net, set<nat>), a: (bool, Net, set<nat>), b: (bool, Net, set<nat>), resolved: set<nat>, x: set<nat>)
    requires goal.0 == a.0 && goal.1 == a.1 && goal.2 == a.2 + resolved
    requires a == (b.0, b.1, b.2 + x)
    ensures goal.0 == b.0 && goal.1 == b.1 && goal.2 == b.2 + (resolved + x)
  {
  }

  /** Once propagation stops, with outcome ok in state cur, the goal is reached. */
  lemma Reached(goal: (bool, Net, set<nat>), a: (bool, Net, set<nat>), resolved: set<nat>, ok: bool, cur: Net)
    requires goal.0 == a.0 && goal.1 == a.1 && goal.2 == a.2 + resolved
    requires a == (ok, cur, {})
    ensures goal.0 == ok && goal.1 == cur && goal.2 == resolved
  {
  }

  /** Taking out r and then x is taking out both at once. */
  lemma RemoveInTwo(a: set<nat>, r: set<nat>, x: set<nat>)
    ensures a - (r + x) == (a - r) - x
    ensures x == {} ==> a - (r + x) == a - r
  {
  }

  /**
   * One solved constraint carries the loop's goal over: if goal is what Propagation gives
   * from prev with resolved already taken out, it is what Propagation gives from the next
   * state with the solved constraint's id taken out as well when it was resolved.
   */
  lemma GoalStep(owners: Owners, n: nat, goal: (bool, Net, set<nat>), resolved: set<nat>, prev: Net, cur: Net, i: nat)
    requires Sound(owners, n, prev) && prev.dirty != {} && i == Least(prev.dirty)
    requires cur == Solved(owners, prev, i) && cur.nSol[i] != 0
    requires var p := Propagation(owners, n, prev); goal.0 == p.0 && goal.1 == p.1 && goal.2 == p.2 + resolved
    ensures Sound(owners, n, cur)
    ensures var p := Propagation(owners, n, cur);
      && goal.0 == p.0 && goal.1 == p.1 && goal.2 == p.2 + (resolved + if cur.nSol[i] == 1 then {i} else {})
  {
    PropagationStep(owners, n, prev, cur, i);
    Regroup(goal, Propagation(owners, n, prev), Propagation(owners, n, cur), resolved, if cur.nSol[i] == 1 then {i} else {});
  }

  /** The problem including candidate c in the solution, from state s: the first step of a trial. */
  ghost function Included(owners: Owners, s: Net, c: Cand): Net
  {
    var d := Dirtied(owners, {c}, Problem);
    Net(Spread(s.parts, owners, {c}, Problem, Include), MarkDirty(s.flags, d), s.dirty + SubIds(d), s.nSol)
  }

  /** A state with Included's four parts is Included. */
  lemma IncludedIs(owners: Owners, s: Net, c: Cand, t: Net)
    requires t.parts == Spread(s.parts, owners, {c}, Problem, Include)
    requires t.flags == MarkDirty(s.flags, Dirtied(owners, {c}, Problem))
    requires t.dirty == s.dirty + SubIds(Dirtied(owners, {c}, Problem)) && t.nSol == s.nSol
    ensures t == Included(owners, s, c)
  {
  }

  lemma IncludedSound(owners: Owners, n: nat, s: Net, c: Cand)
    requires Sound(owners, n, s) && c in s.parts[Problem].live
    ensures Sound(owners, n, Included(owners, s, c))
  {
    TrialProgresses(owners, s.parts, c);
    MarkKeepsSynced(s.flags, s.dirty, n, Dirtied(owners, {c}, Problem));
  }

  /** The candidates the problem holds as definite in state s. */
  function Definites(s: Net): set<Cand>
  {
    if Problem in s.parts then s.parts[Problem].definite else {}
  }

  /** Propagation from s reaches a state in which no sub-constraint of `active` is left unresolved. */
  ghost predicate Leaf(owners: Owners, n: nat, s: Net, active: set<nat>)
  {
    var p := Propagation(owners, n, s);
    p.0 && active <= p.2
  }

  /**
   * What a search from state s, with active sub-constraints `active`, may count: nothing
   * when propagation meets a constraint with no solution, and exactly one when
   * propagation resolves every active sub-constraint.
   */
  ghost predicate Settles(owners: Owners, n: nat, s: Net, active: set<nat>, r: int)
  {
    && (!Propagation(owners, n, s).0 ==> r == 0)
    && (Leaf(owners, n, s, active) ==> r == 1)
  }

  /**
   * The shape of the branching loop's record so far, from state s with active set
   * `active`: trial j included tried[j], one of the candidates live, starting from
   * starts[j] (the first from s itself, the later ones with s's partitions restored)
   * with active set actives[j]. The candidates are distinct.
   */
  ghost predicate TrialsShape(s: Net, active: set<nat>, live: set<Cand>,
                              tried: seq<Cand>, starts: seq<Net>, actives: seq<set<nat>>, counts: seq<nat>)
  {
    && |tried| == |starts| == |actives| == |counts|
    && (forall j :: 0 <= j < |tried| ==> tried[j] in live)
    && (forall j, j' :: 0 <= j < j' < |tried| ==> tried[j] != tried[j'])
    && (|starts| > 0 ==> starts[0] == s && actives[0] == active)
    && (forall j :: 0 <= j < |starts| ==> starts[j].parts == s.parts && actives[j] <= active)
  }

  /**
   * The counts of the branching loop's record so far: trial j counted counts[j], as
   * Settles allows for its start, candidate and active set, and the loop went on only
   * while the sum was below 2.
   */
  ghost predicate TrialsCounted(owners: Owners, n: nat,
                                tried: seq<Cand>, starts: seq<Net>, actives: seq<set<nat>>, counts: seq<nat>)
    requires |tried| == |starts| == |actives| == |counts|
  {
    && (forall j :: 0 <= j < |counts| ==> Settles(owners, n, Included(owners, starts[j], tried[j]), actives[j], counts[j]))
    && (forall j :: 0 <= j < |counts| ==> Sum(counts[..j]) < 2)
  }

  /** One more trial, of an untried live candidate from a state like s, extends the shape. */
  lemma ShapeStep(s: Net, active: set<nat>, live: set<Cand>,
                  tried: seq<Cand>, starts: seq<Net>, actives: seq<set<nat>>, counts: seq<nat>,
                  c: Cand, start: Net, act: set<nat>, r: nat)
    requires TrialsShape(s, active, live, tried, starts, actives, counts)
    requires c in live && c !in tried
    requires |starts| == 0 ==> start == s && act == active
    requires start.parts == s.parts && act <= active
    ensures TrialsShape(s, active, live, tried + [c], starts + [start], actives + [act], counts + [r])
  {
    var tried' := tried + [c];
    forall j, j' | 0 <= j < j' < |tried'|
      ensures tried'[j] != tried'[j']
    {
      if j' == |tried| {
        assert tried'[j] == tried[j];
      }
    }
  }

  /** One more trial whose count Settles allows, taken while the sum is below 2, extends the counts. */
  lemma CountedStep(owners: Owners, n: nat,
                    tried: seq<Cand>, starts: seq<Net>, actives: seq<set<nat>>, counts: seq<nat>,
                    c: Cand, start: Net, act: set<nat>, r: nat)
    requires |tried| == |starts| == |actives| == |counts|
    requires TrialsCounted(owners, n, tried, starts, actives, counts)
    requires Settles(owners, n, Included(owners, start, c), act, r)
    requires Sum(counts) < 2
    ensures TrialsCounted(owners, n, tried + [c], starts + [start], actives + [act], counts + [r])
    ensures Sum(counts + [r]) == Sum(counts) + r
  {
    PrefixSumsStayBelow(counts, r);
    var tried', starts', actives', counts' := tried + [c], starts + [start], actives + [act], counts + [r];
    forall j | 0 <= j < |counts'|
      ensures Settles(owners, n, Included(owners, starts'[j], tried'[j]), actives'[j], counts'[j])
    {
      if j < |counts| {
        assert starts'[j] == starts[j] && tried'[j] == tried[j] && actives'[j] == actives[j] && counts'[j] == counts[j];
      }
    }
  }

  /**
   * The branching loop's whole record: the possibilities still to try are singletons of
   * live candidates, every live candidate is either still to try or tried, and the
   * count so far is the sum of the trials' counts.
   */
  ghost predicate Record(owners: Owners, n: nat, s: Net, active: set<nat>, live: set<Cand>,
                         possibles: set<set<Cand>>, tried: seq<Cand>, starts: seq<Net>,
                         actives: seq<set<nat>>, counts: seq<nat>, sum: nat)
  {
    && (forall x :: x in possibles ==> |x| == 1 && x <= live)
    && TrialsShape(s, active, live, tried, starts, actives, counts)
    && TrialsCounted(owners, n, tried, starts, actives, counts)
    && (forall c :: c in live ==> {c} in possibles || c in tried)
    && (forall c :: c in tried ==> {c} !in possibles)
    && sum == Sum(counts)
  }

  /** A record whose possibilities ran out, or whose count reached two, is the whole loop's. */
  lemma RecordExplored(owners: Owners, n: nat, s: Net, active: set<nat>, k: nat, possibles: set<set<Cand>>,
                       tried: seq<Cand>, starts: seq<Net>, actives: seq<set<nat>>, counts: seq<nat>, r: nat)
    requires k in active && Single(k) in s.parts
    requires Record(owners, n, s, active, s.parts[Single(k)].live, possibles, tried, starts, actives, counts, r)
    requires possibles == {} || r >= 2
    ensures Explored(owners, n, s, active, k, r, tried, starts, actives, counts)
  {
  }

  /** Taking the possibility {c} out of the untried ones moves c to the tried ones. */
  lemma CoverStep(live: set<Cand>, possibles: set<set<Cand>>, tried: seq<Cand>, c: Cand)
    requires forall x :: x in live ==> {x} in possibles || x in tried
    requires forall x :: x in tried ==> {x} !in possibles
    requires {c} in possibles
    ensures c !in tried
    ensures forall x :: x in live ==> {x} in possibles - {{c}} || x in tried + [c]
    ensures forall x :: x in tried + [c] ==> {x} !in possibles - {{c}}
  {
    forall x | x in live
      ensures {x} in possibles - {{c}} || x in tried + [c]
    {
      if {x} == {c} {
        assert x in {c};
      }
    }
  }

  /**
   * The branching loop of solveRecurse, run from state s with active set `active` on
   * sub-constraint k, counted r: the record of its trials over k's live candidates, whose
   * counts add up to r, and which covers every live candidate unless r reached 2.
   */
  ghost predicate Explored(owners: Owners, n: nat, s: Net, active: set<nat>, k: nat, r: int,
                           tried: seq<Cand>, starts: seq<Net>, actives: seq<set<nat>>, counts: seq<nat>)
  {
    && k in active && Single(k) in s.parts
    && TrialsShape(s, active, s.parts[Single(k)].live, tried, starts, actives, counts)
    && TrialsCounted(owners, n, tried, starts, actives, counts)
    && r == Sum(counts)
    && (r < 2 ==> forall c :: c in s.parts[Single(k)].live ==> c in tried)
  }

  /**
   * What solveRecurse counts from state s with active set `active`: Settles, and when
   * propagation leaves active sub-constraints unresolved, the count of the branching loop
   * on one of them, from the state propagation left.
   */
  ghost predicate Counted(owners: Owners, n: nat, s: Net, active: set<nat>, r: int, k: nat,
                          tried: seq<Cand>, starts: seq<Net>, actives: seq<set<nat>>, counts: seq<nat>)
  {
    && Settles(owners, n, s, active, r)
    && var p := Propagation(owners, n, s);
      (p.0 && !(active <= p.2) ==> Explored(owners, n, p.1, active - p.2, k, r, tried, starts, actives, counts))
  }

  /** A set minus b is empty exactly when it lies within b. */
  lemma DifferenceEmpty(a: set<nat>, b: set<nat>)
    ensures a - b == {} <==> a <= b
  {
    if a - b == {} {
      forall x | x in a
        ensures x in b
      {
        assert x !in a - b;
      }
    }
  }

  /**
   * The graph a new problem starts from: sub-constraint j holds the candidates
   * constraintList[j], and the problem holds every candidate and owns it.
   */
  lemma InitiallyConsistent(candidates: seq<Cand>, l: seq<set<Cand>>, owners: Owners, parts: Parts)
    requires forall j :: 0 <= j < |l| ==> l[j] <= Elems(candidates)
    requires owners.Keys == Elems(candidates)
    requires forall c :: c in owners ==> owners[c] == MembershipOf(l, c) + {Problem}
    requires parts.Keys == RefsOf(|l|) && parts[Problem] == Partition(Elems(candidates), {})
    requires forall j :: 0 <= j < |l| ==> parts[Single(j)] == Partition(l[j], {})
    ensures Consistent(owners, parts)
    ensures forall j :: 0 <= j < |l| ==> Members(owners, Single(j)) == l[j]
  {
    forall k | k in parts
      ensures parts[k] == parts[Problem].Restrict(Members(owners, k))
    {
      if k.Single? {
        assert Members(owners, k) == l[k.id];
      } else {
        assert Members(owners, k) == Elems(candidates);
      }
    }
  }

  /** Candidate.constraints once a problem over candidates cs and sub-constraints l is built. */
  function StartOwners(cs: set<Cand>, l: seq<set<Cand>>): Owners
  {
    map c | c in cs :: MembershipOf(l, c) + {Problem}
  }

  /**
   * The state ConstrainedProblem(candidates, l, givens) leaves: the givens g are definite
   * everywhere, the sub-constraints that came DIRTY or hold a given are dirty, and no
   * sub-constraint has been solved (nSolutions is the empty constraint's count, 0).
   */
  function Start(cs: set<Cand>, l: seq<set<Cand>>, dirtyAtStart: set<nat>, g: set<Cand>): Net
  {
    var dirty := set j | 0 <= j < |l| && (j in dirtyAtStart || l[j] * g != {});
    Net(map k | k in RefsOf(|l|) :: if k.Single? && k.id < |l| then Partition(l[k.id] - g, l[k.id] * g) else Partition(cs - g, g),
        map k | k in RefsOf(|l|) :: if k.Single? && k.id in dirty then Dirty else Clean,
        dirty,
        map i | i in Ids(|l|) :: 0)
  }

  /** A state with the partitions, flags, queue and counts the constructor sets up is Start. */
  lemma StartIs(cs: set<Cand>, l: seq<set<Cand>>, dirtyAtStart: set<nat>, g: set<Cand>, t: Net)
    requires t.parts.Keys == RefsOf(|l|) && t.flags.Keys == RefsOf(|l|)
    requires t.parts[Problem] == Partition(cs - g, g)
    requires forall j :: 0 <= j < |l| ==> t.parts[Single(j)] == Partition(l[j] - g, l[j] * g)
    requires forall j :: 0 <= j < |l| ==> (j in t.dirty <==> j in dirtyAtStart || l[j] * g != {})
    requires SyncedFlags(t.flags, t.dirty, |l|) && t.flags[Problem] == Clean
    requires forall i :: i in t.nSol <==> 0 <= i < |l|
    requires forall i :: i in t.nSol ==> t.nSol[i] == 0
    ensures t == Start(cs, l, dirtyAtStart, g)
  {
    var s := Start(cs, l, dirtyAtStart, g);
    assert t.dirty == s.dirty;
    forall k | k in RefsOf(|l|)
      ensures t.parts[k] == s.parts[k] && t.flags[k] == s.flags[k]
    {
      if k.Single? {
        assert k == Single(k.id) && k.id < |l|;
      }
    }
    assert t.parts == s.parts;
    assert t.flags == s.flags;
    assert t.nSol == s.nSol;
  }

  /** Including the givens g in a new problem: where each constraint's candidates go, and which are dirtied. */
  lemma GivensIncluded(candidates: seq<Cand>, l: seq<set<Cand>>, owners: Owners, parts: Parts, g: set<Cand>)
    requires Consistent(owners, parts) && parts.Keys == RefsOf(|l|)
    requires parts[Problem] == Partition(Elems(candidates), {}) && g <= Elems(candidates)
    requires forall j :: 0 <= j < |l| ==> Members(owners, Single(j)) == l[j] && l[j] <= Elems(candidates)
    ensures var r := Spread(parts, owners, g, Problem, Include);
      && Consistent(owners, r)
      && r[Problem] == Partition(Elems(candidates) - g, g)
      && forall j :: 0 <= j < |l| ==> r[Single(j)] == Partition(l[j] - g, l[j] * g)
    ensures Dirtied(owners, g, Problem) <= RefsOf(|l|)
    ensures SubIds(Dirtied(owners, g, Problem)) == set j | 0 <= j < |l| && l[j] * g != {}
  {
    SpreadKeepsConsistent(owners, parts, g, Problem, Include);
    SpreadAtProblem(parts, owners, g, Problem, Include);
    var r := Spread(parts, owners, g, Problem, Include);
    forall j | 0 <= j < |l|
      ensures r[Single(j)] == Partition(l[j] - g, l[j] * g)
    {
      assert r[Single(j)] == r[Problem].Restrict(l[j]);
    }
    var d := Dirtied(owners, g, Problem);
    forall j | 0 <= j < |l|
      ensures j in SubIds(d) <==> l[j] * g != {}
    {
      if l[j] * g != {} {
        var c :| c in l[j] * g;
        assert Single(j) in owners[c];
      }
    }
  }

  /**
   * The built graph s, with the sub-constraints that came DIRTY queued, reaches Start
   * once the problem includes the givens g.
   */
  lemma GivensStart(candidates: seq<Cand>, l: seq<set<Cand>>, dirtyAtStart: set<nat>, owners: Owners, s: Net, g: set<Cand>)
    requires forall j :: 0 <= j < |l| ==> l[j] <= Elems(candidates)
    requires g <= Elems(candidates)
    requires owners.Keys == Elems(candidates) && forall c :: c in owners ==> owners[c] == MembershipOf(l, c) + {Problem}
    requires s.parts.Keys == RefsOf(|l|) && s.parts[Problem] == Partition(Elems(candidates), {})
    requires forall j :: 0 <= j < |l| ==> s.parts[Single(j)] == Partition(l[j], {})
    requires s.flags.Keys == RefsOf(|l|) && s.flags[Problem] == Clean
    requires forall j :: 0 <= j < |l| ==> s.flags[Single(j)] == if j in dirtyAtStart then Dirty else Clean
    requires forall i :: i in s.dirty <==> i in dirtyAtStart && i < |l|
    requires forall i :: i in s.nSol <==> 0 <= i < |l|
    requires forall i :: i in s.nSol ==> s.nSol[i] == 0
    ensures Consistent(owners, s.parts) && SyncedFlags(s.flags, s.dirty, |l|)
    ensures Dirtied(owners, g, Problem) <= RefsOf(|l|)
    ensures var d := Dirtied(owners, g, Problem);
      Net(Spread(s.parts, owners, g, Problem, Include), MarkDirty(s.flags, d), s.dirty + SubIds(d), s.nSol)
        == Start(Elems(candidates), l, dirtyAtStart, g)
  {
    InitiallyConsistent(candidates, l, owners, s.parts);
    GivensIncluded(candidates, l, owners, s.parts, g);
    var d := Dirtied(owners, g, Problem);
    MarkKeepsSynced(s.flags, s.dirty, |l|, d);
    StartIs(Elems(candidates), l, dirtyAtStart, g, Net(Spread(s.parts, owners, g, Problem, Include), MarkDirty(s.flags, d), s.dirty + SubIds(d), s.nSol));
  }

  /**
   * The java.util.Set<Constraint> object that ConstrainedProblem.constraints refers to.
   * It is an object of its own because restoreState makes the field share it with a
   * snapshot (ConstrainedProblem.java:168).
   */
  class ActiveSet {
    var elems: set<nat>

    constructor (s: set<nat>)
      ensures elems == s
    {
      elems := s;
    }
  }

  /** ConstrainedProblem.State: the problem's live candidates and a copy of the active set. */
  datatype State = State(candidatesCopy: set<Cand>, constraintsCopy: ActiveSet)

  class ConstrainedProblem {
    /** The sub-constraints are Single(0) .. Single(nSubs - 1). */
    const nSubs: nat
    /** Candidate.constraints of every candidate of the problem, fixed once the problem is built. */
    const owners: Owners
    /** Constraint.candidates and Constraint.definites of every constraint, the problem included. */
    var parts: Parts
    /** Constraint.state of every constraint. */
    var flags: Flags
    /** SingleCandidateConstraint.nSolutions of every sub-constraint. */
    var nSol: map<nat, int>
    /** ConstrainedProblem.constraints: the sub-constraints still unresolved on the current path. */
    var constraints: ActiveSet
    var dirtyConstraints: set<nat>
    var currentSolution: Option<set<Cand>>
    var nSolutions: int

    /**
     * ConstrainedProblem(candidates, constraints, givens) (ConstrainedProblem.java:44-67).
     * Sub-constraint j arrives with members constraintList[j], the candidates its add
     * calls associated with it, and DIRTY exactly when j is in dirtyAtStart.
     */
    constructor (candidates: seq<Cand>, constraintList: seq<set<Cand>>, dirtyAtStart: set<nat>, givens: seq<Cand>)
      requires forall j :: 0 <= j < |constraintList| ==> constraintList[j] <= Elems(candidates)
      requires forall g :: g in givens ==> g in candidates
      ensures Valid() && Active()
      ensures nSubs == |constraintList|
      ensures owners == StartOwners(Elems(candidates), constraintList)
      ensures NetOf() == Start(Elems(candidates), constraintList, dirtyAtStart, Elems(givens))
      ensures constraints.elems == Ids(nSubs)
      ensures nSolutions == UNKNOWN_NO_SOLUTIONS && currentSolution == None
      ensures fresh(constraints)
    {
      var n := |constraintList|;
      nSubs := n;
      var o, p, f, ns := BuiltGraph(candidates, constraintList, dirtyAtStart);
      owners, parts, flags, nSol := o, p, f, ns;
      constraints := new ActiveSet(Ids(n));
      dirtyConstraints := {};
      currentSolution := None;
      nSolutions := UNKNOWN_NO_SOLUTIONS;
      new;
      Initialise(candidates, constraintList, dirtyAtStart, givens);
    }

    /**
     * The constructor once the fields exist: the rest of the two-argument constructor,
     * then the givens (ConstrainedProblem.java:46-47).
     */
    method Initialise(candidates: seq<Cand>, l: seq<set<Cand>>, dirtyAtStart: set<nat>, givens: seq<Cand>)
      requires forall j :: 0 <= j < |l| ==> l[j] <= Elems(candidates)
      requires forall g :: g in givens ==> g in candidates
      requires nSubs == |l| && dirtyConstraints == {}
      requires owners.Keys == Elems(candidates) && forall c :: c in owners ==> owners[c] == MembershipOf(l, c) + {Problem}
      requires parts.Keys == RefsOf(|l|) && parts[Problem] == Partition(Elems(candidates), {})
      requires forall j :: 0 <= j < |l| ==> parts[Single(j)] == Partition(l[j], {})
      requires flags.Keys == RefsOf(|l|) && flags[Problem] == Clean
      requires forall j :: 0 <= j < |l| ==> flags[Single(j)] == if j in dirtyAtStart then Dirty else Clean
      requires forall i :: i in nSol <==> 0 <= i < |l|
      requires forall i :: i in nSol ==> nSol[i] == 0
      requires Active() && constraints.elems == Ids(nSubs)
      requires nSolutions == UNKNOWN_NO_SOLUTIONS && currentSolution == None
      modifies this`parts, this`flags, this`dirtyConstraints
      ensures Valid() && Active()
      ensures NetOf() == Start(Elems(candidates), l, dirtyAtStart, Elems(givens))
      ensures constraints == old(constraints) && constraints.elems == Ids(nSubs)
      ensures nSolutions == UNKNOWN_NO_SOLUTIONS && currentSolution == None
    {
      CollectDirty(dirtyAtStart);
      var g := Elems(givens);
      GivensStart(candidates, l, dirtyAtStart, owners, NetOf(), g);
      IncludeInProblem(g);
    }

    /**
     * The problem includes candidates it owns in the solution (its own includeInSolution
     * on a collection): the network stays consistent and the flags stay in step.
     */
    method IncludeInProblem(cs: set<Cand>)
      requires Valid() && OwnedBy(owners, cs, Problem)
      modifies this`parts, this`flags, this`dirtyConstraints
      ensures Valid()
      ensures parts == Spread(old(parts), owners, cs, Problem, Include)
      ensures flags == MarkDirty(old(flags), Dirtied(owners, cs, Problem))
      ensures dirtyConstraints == old(dirtyConstraints) + SubIds(Dirtied(owners, cs, Problem))
      ensures constraints == old(constraints) && constraints.elems == old(constraints.elems)
      ensures nSolutions == old(nSolutions) && currentSolution == old(currentSolution)
    {
      IncludeAllInSolution(Problem, cs);
      assert Consistent(owners, parts) by {
        SpreadKeepsConsistent(owners, old(parts), cs, Problem, Include);
      }
      assert SyncedFlags(flags, dirtyConstraints, nSubs) by {
        MarkKeepsSynced(old(flags), old(dirtyConstraints), nSubs, Dirtied(owners, cs, Problem));
      }
    }

    /** The loop of ConstrainedProblem.java:60-64: every sub-constraint already DIRTY joins the dirty set. */
    method CollectDirty(ghost dirtyAtStart: set<nat>)
      requires dirtyConstraints == {}
      requires forall j :: 0 <= j < nSubs ==> Single(j) in flags && (flags[Single(j)] == Dirty <==> j in dirtyAtStart)
      modifies this`dirtyConstraints
      ensures forall i :: i in dirtyConstraints <==> i in dirtyAtStart && i < nSubs
      ensures constraints == old(constraints) && constraints.elems == old(constraints.elems)
      ensures nSolutions == old(nSolutions) && currentSolution == old(currentSolution)
    {
      for j := 0 to nSubs
        invariant forall i :: i in dirtyConstraints <==> i in dirtyAtStart && i < j
      {
        if IsDirty(Single(j)) {
          AddDirtyConstraint(j);
        }
      }
    }

    /**
     * The graph the constructor starts from, before the problem's own add calls: every
     * sub-constraint holds its members and has no solution count yet.
     */
    static method InitialGraph(candidates: seq<Cand>, l: seq<set<Cand>>, dirtyAtStart: set<nat>)
      returns (owners: Owners, parts: Parts, flags: Flags, nSol: map<nat, int>)
      ensures owners.Keys == Elems(candidates) && forall c :: c in owners ==> owners[c] == MembershipOf(l, c)
      ensures parts.Keys == RefsOf(|l|) && parts[Problem] == Partition({}, {})
      ensures forall j :: 0 <= j < |l| ==> parts[Single(j)] == Partition(l[j], {})
      ensures flags.Keys == RefsOf(|l|) && flags[Problem] == Clean
      ensures forall j :: 0 <= j < |l| ==> flags[Single(j)] == if j in dirtyAtStart then Dirty else Clean
      ensures forall i :: i in nSol <==> 0 <= i < |l|
      ensures forall i :: i in nSol ==> nSol[i] == 0
    {
      var n := |l|;
      owners := map c | c in Elems(candidates) :: MembershipOf(l, c);
      parts := map k | k in RefsOf(n) :: if k.Single? && k.id < n then Partition(l[k.id], {}) else Partition({}, {});
      flags := map k | k in RefsOf(n) :: if k.Single? && k.id in dirtyAtStart then Dirty else Clean;
      nSol := map i | i in Ids(n) :: 0;
    }

    /**
     * The graph once the problem's own add calls (ConstrainedProblem.java:66) have run:
     * the problem holds every candidate live and owns it besides its sub-constraints.
     */
    static method BuiltGraph(candidates: seq<Cand>, l: seq<set<Cand>>, dirtyAtStart: set<nat>)
      returns (owners: Owners, parts: Parts, flags: Flags, nSol: map<nat, int>)
      ensures owners.Keys == Elems(candidates) && forall c :: c in owners ==> owners[c] == MembershipOf(l, c) + {Problem}
      ensures parts.Keys == RefsOf(|l|) && parts[Problem] == Partition(Elems(candidates), {})
      ensures forall j :: 0 <= j < |l| ==> parts[Single(j)] == Partition(l[j], {})
      ensures flags.Keys == RefsOf(|l|) && flags[Problem] == Clean
      ensures forall j :: 0 <= j < |l| ==> flags[Single(j)] == if j in dirtyAtStart then Dirty else Clean
      ensures forall i :: i in nSol <==> 0 <= i < |l|
      ensures forall i :: i in nSol ==> nSol[i] == 0
      ensures owners == StartOwners(Elems(candidates), l)
    {
      owners, parts, flags, nSol := InitialGraph(candidates, l, dirtyAtStart);
      ghost var o := owners;
      parts, owners := AddCandidates(Problem, candidates, parts, owners);
      assert forall c :: c in owners ==> c in o;
    }

    /** apply: search, and report two or more solutions as UNKNOWN_NO_SOLUTIONS (ConstrainedProblem.java:80-84). */
    method Apply()
      requires Valid() && Active() && SolutionOwned()
      modifies this`parts, this`flags, this`dirtyConstraints, this`nSol, this`constraints, this`currentSolution, this`nSolutions, constraints
      ensures Valid() && Active() && SolutionOwned()
      ensures nSolutions == 0 || nSolutions == 1 || nSolutions == UNKNOWN_NO_SOLUTIONS
      ensures Settles(owners, nSubs, old(NetOf()), old(constraints.elems), nSolutions)
      ensures Leaf(owners, nSubs, old(NetOf()), old(constraints.elems)) ==>
        currentSolution == Some(Definites(old(Propagation(owners, nSubs, NetOf())).1))
      ensures nSolutions == 0 ==> currentSolution == old(currentSolution)
      ensures nSolutions != 0 ==> currentSolution.Some? && old(parts[Problem].definite) <= currentSolution.value
    {
      ghost var k, tried, starts, actives, counts;
      var n;
      n, k, tried, starts, actives, counts := SolveRecurse();
      nSolutions := n;
      if nSolutions > 1 {
        nSolutions := UNKNOWN_NO_SOLUTIONS;
      }
    }

    /** solve, inherited from Constraint: apply, mark the problem clean, report the count. */
    method Solve() returns (r: int)
      requires Valid() && Active() && SolutionOwned()
      modifies this`parts, this`flags, this`dirtyConstraints, this`nSol, this`constraints, this`currentSolution, this`nSolutions, constraints
      ensures Valid() && Active() && SolutionOwned()
      ensures r == nSolutions && flags[Problem] == Clean
      ensures r == 0 || r == 1 || r == UNKNOWN_NO_SOLUTIONS
      ensures Settles(owners, nSubs, old(NetOf()), old(constraints.elems), r)
      ensures Leaf(owners, nSubs, old(NetOf()), old(constraints.elems)) ==>
        currentSolution == Some(Definites(old(Propagation(owners, nSubs, NetOf())).1))
      ensures r == 0 ==> currentSolution == old(currentSolution)
      ensures r != 0 ==> currentSolution.Some? && old(parts[Problem].definite) <= currentSolution.value
    {
      Apply();
      SetClean(Problem);
      r := nSolutions;
    }

    /** What the status-change operations need: every owner of a candidate has a partition and a flag. */
    ghost predicate Framed()
      reads this
    {
      && parts.Keys == flags.Keys
      && forall c :: c in owners ==> owners[c] <= parts.Keys
    }

    /** The constraints are the problem and its sub-constraints. */
    ghost predicate WellFormed()
      reads this
    {
      && Framed()
      && parts.Keys == RefsOf(nSubs)
    }

    /** The active set holds sub-constraints only. */
    ghost predicate Active()
      reads this`constraints, constraints
    {
      forall i :: i in constraints.elems ==> i < nSubs
    }

    ghost predicate Valid()
      reads this
    {
      && WellFormed()
      && (forall i :: i in nSol <==> 0 <= i < nSubs)
      && Consistent(owners, parts)
      && SyncedFlags(flags, dirtyConstraints, nSubs)
    }

    /** The part of the state that propagation reads and writes, as a value. */
    ghost function NetOf(): Net
      reads this
    {
      Net(parts, flags, dirtyConstraints, nSol)
    }

    /** The invariant of the class is soundness of its state as a value. */
    lemma ValidSound()
      requires Valid()
      ensures Sound(owners, nSubs, NetOf())
    {
    }

    /** Soundness of the state as a value is the invariant of the class. */
    lemma SoundValid(t: Net)
      requires Sound(owners, nSubs, t) && t == NetOf()
      ensures Valid()
    {
    }

    /** A recorded solution consists of candidates of the problem. */
    ghost predicate SolutionOwned()
      reads this
    {
      currentSolution.Some? ==> currentSolution.value <= owners.Keys
    }

    // ---------------------------------------------------------------------------------
    // Constraint: the private partition operations (Constraint.java:195-209)

    method PrivateEliminate(k: Ref, c: Cand)
      requires k in parts
      modifies this`parts
      ensures parts == old(parts)[k := old(parts[k]).Apply(Move.Eliminate, {c})]
    {
      parts := parts[k := Partition(parts[k].live - {c}, parts[k].definite - {c})];
    }

    method PrivateReinstate(k: Ref, c: Cand)
      requires k in parts
      modifies this`parts
      ensures parts == old(parts)[k := old(parts[k]).Apply(Move.Reinstate, {c})]
    {
      parts := parts[k := Partition(parts[k].live + {c}, parts[k].definite - {c})];
    }

    method PrivateIncludeInSolution(k: Ref, c: Cand)
      requires k in parts
      modifies this`parts
      ensures parts == old(parts)[k := old(parts[k]).Apply(Include, {c})]
    {
      parts := parts[k := Partition(parts[k].live - {c}, parts[k].definite + {c})];
    }

    method PrivateMove(k: Ref, c: Cand, m: Move)
      requires k in parts
      modifies this`parts
      ensures parts == old(parts)[k := old(parts[k]).Apply(m, {c})]
    {
      match m
      case Eliminate => PrivateEliminate(k, c);
      case Include => PrivateIncludeInSolution(k, c);
      case Reinstate => PrivateReinstate(k, c);
    }

    // ---------------------------------------------------------------------------------
    // Constraint: CLEAN/DIRTY and the parent's dirty set (Constraint.java:121-142,
    // ConstrainedProblem.java:108-115)

    method AddDirtyConstraint(i: nat)
      modifies this`dirtyConstraints
      ensures dirtyConstraints == old(dirtyConstraints) + {i}
    {
      dirtyConstraints := dirtyConstraints + {i};
    }

    method RemoveDirtyConstraint(i: nat)
      modifies this`dirtyConstraints
      ensures dirtyConstraints == old(dirtyConstraints) - {i}
    {
      dirtyConstraints := dirtyConstraints - {i};
    }

    method SetDirty(k: Ref)
      requires k in flags
      modifies this`flags, this`dirtyConstraints
      ensures flags == old(flags)[k := Dirty]
      ensures dirtyConstraints == if k.Single? then old(dirtyConstraints) + {k.id} else old(dirtyConstraints)
    {
      flags := flags[k := Dirty];
      if k.Single? {
        AddDirtyConstraint(k.id);
      }
    }

    method SetClean(k: Ref)
      requires k in flags
      modifies this`flags, this`dirtyConstraints
      ensures flags == old(flags)[k := Clean]
      ensures dirtyConstraints == if k.Single? then old(dirtyConstraints) - {k.id} else old(dirtyConstraints)
    {
      flags := flags[k := Clean];
      if k.Single? {
        RemoveDirtyConstraint(k.id);
      }
    }

    function IsDirty(k: Ref): bool
      reads this
      requires k in flags
    {
      flags[k] == Dirty
    }

    // ---------------------------------------------------------------------------------
    // Candidate: the fan-out of a status change to every other owner (Candidate.java:46-80)

    /** One step of the fan-out: the private operation on k, then k.setDirty(). */
    method Notify(k: Ref, c: Cand, m: Move)
      requires k in parts && k in flags
      modifies this`parts, this`flags, this`dirtyConstraints
      ensures parts == old(parts)[k := old(parts[k]).Apply(m, {c})]
      ensures flags == old(flags)[k := Dirty]
      ensures dirtyConstraints == old(dirtyConstraints) + SubIds({k})
    {
      PrivateMove(k, c, m);
      SetDirty(k);
    }

    method Fan(c: Cand, origin: Ref, m: Move)
      requires c in owners && owners[c] <= parts.Keys && owners[c] <= flags.Keys
      modifies this`parts, this`flags, this`dirtyConstraints
      ensures parts == Touch(old(parts), owners[c] - {origin}, {c}, m)
      ensures flags == MarkDirty(old(flags), owners[c] - {origin})
      ensures dirtyConstraints == old(dirtyConstraints) + SubIds(owners[c] - {origin})
    {
      var todo := owners[c];
      while todo != {}
        invariant todo <= owners[c]
        invariant parts == Touch(old(parts), owners[c] - todo - {origin}, {c}, m)
        invariant flags == MarkDirty(old(flags), owners[c] - todo - {origin})
        invariant dirtyConstraints == old(dirtyConstraints) + SubIds(owners[c] - todo - {origin})
        decreases todo
      {
        var k :| k in todo;
        ghost var done := owners[c] - todo - {origin};
        if k != origin {
          TouchOneMore(old(parts), done, k, {c}, m);
          MarkDirtyOneMore(old(flags), done, k);
          SubIdsUnion(done, {k});
          Notify(k, c, m);
          assert owners[c] - (todo - {k}) - {origin} == done + {k};
        } else {
          assert owners[c] - (todo - {k}) - {origin} == done;
        }
        todo := todo - {k};
      }
    }

    method CandidateEliminate(c: Cand, origin: Ref)
      requires Framed() && c in owners
      modifies this`parts, this`flags, this`dirtyConstraints
      ensures parts == Touch(old(parts), owners[c] - {origin}, {c}, Move.Eliminate)
      ensures flags == MarkDirty(old(flags), owners[c] - {origin})
      ensures dirtyConstraints == old(dirtyConstraints) + SubIds(owners[c] - {origin})
    {
      Fan(c, origin, Move.Eliminate);
    }

    method CandidateIncludeInSolution(c: Cand, origin: Ref)
      requires Framed() && c in owners
      modifies this`parts, this`flags, this`dirtyConstraints
      ensures parts == Touch(old(parts), owners[c] - {origin}, {c}, Include)
      ensures flags == MarkDirty(old(flags), owners[c] - {origin})
      ensures dirtyConstraints == old(dirtyConstraints) + SubIds(owners[c] - {origin})
    {
      Fan(c, origin, Include);
    }

    method CandidateReinstate(c: Cand, origin: Ref)
      requires Framed() && c in owners
      modifies this`parts, this`flags, this`dirtyConstraints
      ensures parts == Touch(old(parts), owners[c] - {origin}, {c}, Move.Reinstate)
      ensures flags == MarkDirty(old(flags), owners[c] - {origin})
      ensures dirtyConstraints == old(dirtyConstraints) + SubIds(owners[c] - {origin})
    {
      Fan(c, origin, Move.Reinstate);
    }
  
    // ---------------------------------------------------------------------------------
    // Constraint: the single-candidate and collection operations (Constraint.java:146-187)

    method Eliminate(k: Ref, c: Cand)
      requires Framed() && k in parts && c in owners
      modifies this`parts, this`flags, this`dirtyConstraints
      ensures parts == Spread(old(parts), owners, {c}, k, Move.Eliminate)
      ensures flags == MarkDirty(old(flags), Dirtied(owners, {c}, k))
      ensures dirtyConstraints == old(dirtyConstraints) + SubIds(Dirtied(owners, {c}, k))
    {
      PrivateEliminate(k, c);
      TouchSingle(old(parts), k, {c}, Move.Eliminate);
      CandidateEliminate(c, k);
      SpreadOne(old(parts), owners, c, k, Move.Eliminate);
      DirtiedOne(owners, c, k);
    }

    method IncludeInSolution(k: Ref, c: Cand)
      requires Framed() && k in parts && c in owners
      modifies this`parts, this`flags, this`dirtyConstraints
      ensures parts == Spread(old(parts), owners, {c}, k, Include)
      ensures flags == MarkDirty(old(flags), Dirtied(owners, {c}, k))
      ensures dirtyConstraints == old(dirtyConstraints) + SubIds(Dirtied(owners, {c}, k))
    {
      PrivateIncludeInSolution(k, c);
      TouchSingle(old(parts), k, {c}, Include);
      CandidateIncludeInSolution(c, k);
      SpreadOne(old(parts), owners, c, k, Include);
      DirtiedOne(owners, c, k);
    }

    method Reinstate(k: Ref, c: Cand)
      requires Framed() && k in parts && c in owners
      modifies this`parts, this`flags, this`dirtyConstraints
      ensures parts == Spread(old(parts), owners, {c}, k, Move.Reinstate)
      ensures flags == MarkDirty(old(flags), Dirtied(owners, {c}, k))
      ensures dirtyConstraints == old(dirtyConstraints) + SubIds(Dirtied(owners, {c}, k))
    {
      PrivateReinstate(k, c);
      TouchSingle(old(parts), k, {c}, Move.Reinstate);
      CandidateReinstate(c, k);
      SpreadOne(old(parts), owners, c, k, Move.Reinstate);
      DirtiedOne(owners, c, k);
    }

    method MoveOne(k: Ref, c: Cand, m: Move)
      requires Framed() && k in parts && c in owners
      modifies this`parts, this`flags, this`dirtyConstraints
      ensures parts == Spread(old(parts), owners, {c}, k, m)
      ensures flags == MarkDirty(old(flags), Dirtied(owners, {c}, k))
      ensures dirtyConstraints == old(dirtyConstraints) + SubIds(Dirtied(owners, {c}, k))
    {
      match m
      case Eliminate => Eliminate(k, c);
      case Include => IncludeInSolution(k, c);
      case Reinstate => Reinstate(k, c);
    }

    /** One turn of the collection loop: the moves of done so far, then those of c. */
    method MoveStep(k: Ref, c: Cand, m: Move, ghost p0: Parts, ghost f0: Flags, ghost d0: set<nat>, ghost done: set<Cand>)
      requires Framed() && k in parts && c in owners
      requires parts == Spread(p0, owners, done, k, m)
      requires flags == MarkDirty(f0, Dirtied(owners, done, k))
      requires dirtyConstraints == d0 + SubIds(Dirtied(owners, done, k))
      modifies this`parts, this`flags, this`dirtyConstraints
      ensures Framed()
      ensures parts == Spread(p0, owners, done + {c}, k, m)
      ensures flags == MarkDirty(f0, Dirtied(owners, done + {c}, k))
      ensures dirtyConstraints == d0 + SubIds(Dirtied(owners, done + {c}, k))
    {
      MoveOne(k, c, m);
      SpreadTwice(p0, owners, done, {c}, k, m);
      DirtiedUnion(owners, done, {c}, k);
      MarkDirtyTwice(f0, Dirtied(owners, done, k), Dirtied(owners, {c}, k));
      SubIdsUnion(Dirtied(owners, done, k), Dirtied(owners, {c}, k));
    }

    /** Moving c from the candidates still to do to those done keeps them apart. */
    static lemma TakeOne(cs: set<Cand>, todo: set<Cand>, done: set<Cand>, c: Cand)
      requires todo <= cs && done == cs - todo && c in todo
      ensures todo - {c} <= cs && done + {c} == cs - (todo - {c})
    {
    }

    static lemma NoneLeft(cs: set<Cand>, done: set<Cand>)
      requires done == cs - {}
      ensures done == cs
    {
    }

    /** The loop shared by the three collection operations, one candidate at a time. */
    method MoveEach(k: Ref, cs: set<Cand>, m: Move)
      requires Framed() && k in parts && forall c :: c in cs ==> c in owners
      modifies this`parts, this`flags, this`dirtyConstraints
      ensures parts == Spread(old(parts), owners, cs, k, m)
      ensures flags == MarkDirty(old(flags), Dirtied(owners, cs, k))
      ensures dirtyConstraints == old(dirtyConstraints) + SubIds(Dirtied(owners, cs, k))
    {
      var todo := cs;
      ghost var done: set<Cand> := {};
      SpreadNothing(parts, owners, k, m);
      NothingDirtied(owners, flags, k);
      while todo != {}
        invariant todo <= cs && done == cs - todo
        invariant Framed() && k in parts
        invariant parts == Spread(old(parts), owners, done, k, m)
        invariant flags == MarkDirty(old(flags), Dirtied(owners, done, k))
        invariant dirtyConstraints == old(dirtyConstraints) + SubIds(Dirtied(owners, done, k))
        decreases todo
      {
        var c :| c in todo;
        MoveStep(k, c, m, old(parts), old(flags), old(dirtyConstraints), done);
        TakeOne(cs, todo, done, c);
        todo := todo - {c};
        done := done + {c};
      }
      NoneLeft(cs, done);
    }

    method EliminateAll(k: Ref, cs: set<Cand>)
      requires Framed() && k in parts && forall c :: c in cs ==> c in owners
      modifies this`parts, this`flags, this`dirtyConstraints
      ensures parts == Spread(old(parts), owners, cs, k, Move.Eliminate)
      ensures flags == MarkDirty(old(flags), Dirtied(owners, cs, k))
      ensures dirtyConstraints == old(dirtyConstraints) + SubIds(Dirtied(owners, cs, k))
    {
      MoveEach(k, cs, Move.Eliminate);
    }

    method IncludeAllInSolution(k: Ref, cs: set<Cand>)
      requires Framed() && k in parts && forall c :: c in cs ==> c in owners
      modifies this`parts, this`flags, this`dirtyConstraints
      ensures parts == Spread(old(parts), owners, cs, k, Include)
      ensures flags == MarkDirty(old(flags), Dirtied(owners, cs, k))
      ensures dirtyConstraints == old(dirtyConstraints) + SubIds(Dirtied(owners, cs, k))
    {
      MoveEach(k, cs, Include);
    }

    method ReinstateAll(k: Ref, cs: set<Cand>)
      requires Framed() && k in parts && forall c :: c in cs ==> c in owners
      modifies this`parts, this`flags, this`dirtyConstraints
      ensures parts == Spread(old(parts), owners, cs, k, Move.Reinstate)
      ensures flags == MarkDirty(old(flags), Dirtied(owners, cs, k))
      ensures dirtyConstraints == old(dirtyConstraints) + SubIds(Dirtied(owners, cs, k))
    {
      MoveEach(k, cs, Move.Reinstate);
    }

    /**
     * Constraint.add, with Candidate.add: c becomes a live candidate of k, and k an owner
     * of c. The graph is a value here because every add call happens while the problem
     * is being built.
     */
    static method Add(k: Ref, c: Cand, p: Parts, o: Owners) returns (parts: Parts, owners: Owners)
      requires k in p
      ensures parts == p[k := Partition(p[k].live + {c}, p[k].definite)]
      ensures owners == o[c := (if c in o then o[c] else {}) + {k}]
    {
      parts := p[k := Partition(p[k].live + {c}, p[k].definite)];
      owners := o[c := (if c in o then o[c] else {}) + {k}];
    }

    /** One more add call of the loop below: the owners of the first t + 1 candidates gain k. */
    static lemma OwnersStep(k: Ref, cs: seq<Cand>, t: nat, o: Owners, owners: Owners)
      requires t < |cs|
      requires owners.Keys == o.Keys + Elems(cs[..t])
      requires forall c :: c in owners ==>
        owners[c] == (if c in o then o[c] else {}) + (if c in cs[..t] then {k} else {})
      ensures var next := owners[cs[t] := (if cs[t] in owners then owners[cs[t]] else {}) + {k}];
        && next.Keys == o.Keys + Elems(cs[..t + 1])
        && forall c :: c in next ==>
             next[c] == (if c in o then o[c] else {}) + (if c in cs[..t + 1] then {k} else {})
    {
      assert cs[..t + 1] == cs[..t] + [cs[t]];
      assert Elems(cs[..t + 1]) == Elems(cs[..t]) + {cs[t]};
      var next := owners[cs[t] := (if cs[t] in owners then owners[cs[t]] else {}) + {k}];
      forall c | c in next
        ensures next[c] == (if c in o then o[c] else {}) + (if c in cs[..t + 1] then {k} else {})
      {
        if c != cs[t] {
          assert c in cs[..t + 1] <==> c in cs[..t];
        }
      }
    }

    /** The loop of ConstrainedProblem.java:66: add every candidate of cs to k, in order. */
    static method AddCandidates(k: Ref, cs: seq<Cand>, p: Parts, o: Owners) returns (parts: Parts, owners: Owners)
      requires k in p
      ensures parts == p[k := Partition(p[k].live + Elems(cs), p[k].definite)]
      ensures owners.Keys == o.Keys + Elems(cs)
      ensures forall c :: c in owners ==>
        owners[c] == (if c in o then o[c] else {}) + (if c in cs then {k} else {})
    {
      parts, owners := p, o;
      assert p[k].live + Elems(cs[..0]) == p[k].live;
      assert Partition(p[k].live + Elems(cs[..0]), p[k].definite) == p[k];
      for t := 0 to |cs|
        invariant parts == p[k := Partition(p[k].live + Elems(cs[..t]), p[k].definite)]
        invariant owners.Keys == o.Keys + Elems(cs[..t])
        invariant forall c :: c in owners ==>
          owners[c] == (if c in o then o[c] else {}) + (if c in cs[..t] then {k} else {})
      {
        assert cs[..t + 1] == cs[..t] + [cs[t]];
        assert Elems(cs[..t + 1]) == Elems(cs[..t]) + {cs[t]};
        OwnersStep(k, cs, t, o, owners);
        parts, owners := Add(k, cs[t], parts, owners);
        assert p[k].live + Elems(cs[..t]) + {cs[t]} == p[k].live + Elems(cs[..t + 1]);
      }
      assert cs[..|cs|] == cs;
    }

    // ---------------------------------------------------------------------------------
    // SingleCandidateConstraint.apply and Constraint.solve on sub-constraint i

    /** SingleCandidateConstraint.apply on sub-constraint i: the rule, carried out through the network. */
    method ApplySingle(i: nat)
      requires Framed() && Single(i) in parts
      requires OwnedBy(owners, parts[Single(i)].live, Single(i))
      modifies this`parts, this`flags, this`dirtyConstraints, this`nSol
      ensures var v := SingleCandidate.Rule(old(parts[Single(i)]));
        && nSol == old(nSol)[i := v.nSolutions]
        && parts == Spread(old(parts), owners, SingleCandidate.Moved(v.action), Single(i), SingleCandidate.MoveOf(v.action))
        && flags == MarkDirty(old(flags), Dirtied(owners, SingleCandidate.Moved(v.action), Single(i)))
        && dirtyConstraints == old(dirtyConstraints) + SubIds(Dirtied(owners, SingleCandidate.Moved(v.action), Single(i)))
    {
      var p := parts[Single(i)];
      SpreadNothing(parts, owners, Single(i), Move.Eliminate);
      NothingDirtied(owners, flags, Single(i));
      if |p.definite| > 1 {
        nSol := nSol[i := 0];
      } else if |p.definite| == 1 {
        if |p.live| > 0 {
          EliminateAll(Single(i), p.live);
        }
        nSol := nSol[i := 1];
      } else {
        if |p.live| > 1 {
          nSol := nSol[i := |p.live|];
        } else if |p.live| == 1 {
          IncludeAllInSolution(Single(i), p.live);
          nSol := nSol[i := 1];
        } else {
          nSol := nSol[i := 0];
        }
      }
    }

    /**
     * Constraint.solve on sub-constraint i: apply, mark clean, report the count. Either
     * the problem loses live candidates, or nothing moves and i leaves the dirty set.
     */
    method SolveConstraint(i: nat) returns (r: int)
      requires Valid() && i < nSubs
      modifies this`parts, this`flags, this`dirtyConstraints, this`nSol
      ensures i in nSol && r == SingleCandidate.Rule(old(parts[Single(i)])).nSolutions == nSol[i]
      ensures NetOf() == Solved(owners, old(NetOf()), i)
    {
      ghost var s0 := NetOf();
      LiveOwned(owners, parts, Single(i));
      ApplySingle(i);
      SetClean(Single(i));
      r := nSol[i];
      SolvedIs(owners, s0, i, NetOf());
    }

    /**
     * One round of the propagation loop (ConstrainedProblem.java:125-128): solve the
     * smallest dirty constraint. The round is the first step of Propagation from the state
     * before it.
     */
    method SolveNext() returns (i: nat, r: int)
      requires Valid() && Active() && dirtyConstraints != {}
      modifies this`parts, this`flags, this`dirtyConstraints, this`nSol
      ensures Valid() && Active()
      ensures constraints == old(constraints) && constraints.elems == old(constraints.elems)
      ensures i == Least(old(dirtyConstraints)) && i < nSubs && r == nSol[i]
      ensures NetOf() == Solved(owners, old(NetOf()), i)
    {
      i := Smallest(dirtyConstraints);
      ghost var prev := NetOf();
      ValidSound();
      SolvedKeeps(owners, nSubs, prev, i);
      r := SolveConstraint(i);
      SoundValid(Solved(owners, prev, i));
    }

    /** constraints.remove: a resolved sub-constraint leaves the active set (ConstrainedProblem.java:130-133). */
    method Resolve(i: nat)
      requires Valid() && Active()
      modifies constraints
      ensures Valid() && Active()
      ensures constraints == old(constraints) && constraints.elems == old(constraints.elems) - {i}
      ensures parts == old(parts) && NetOf() == old(NetOf())
    {
      constraints.elems := constraints.elems - {i};
    }

    /**
     * One pass through the body of the propagation loop (ConstrainedProblem.java:125-133),
     * with the loop's bookkeeping: before it, goal is what Propagation gives with resolved
     * already out of the active set start; after it, the same holds of the new state with
     * done, unless the solved constraint had no solution, in which case goal is reached.
     */
    method Round(ghost goal: (bool, Net, set<nat>), ghost start: set<nat>, ghost resolved: set<nat>)
      returns (r: int, ghost done: set<nat>)
      requires Valid() && Active() && dirtyConstraints != {}
      requires constraints.elems == start - resolved
      requires var p := Propagation(owners, nSubs, NetOf()); goal.0 == p.0 && goal.1 == p.1 && goal.2 == p.2 + resolved
      modifies this`parts, this`flags, this`dirtyConstraints, this`nSol, constraints
      ensures Valid() && Active()
      ensures constraints == old(constraints)
      ensures Progressed(old(parts[Problem]), parts[Problem])
      ensures || |parts[Problem].live| < |old(parts[Problem].live)|
              || (|parts[Problem].live| == |old(parts[Problem].live)| && |dirtyConstraints| < |old(dirtyConstraints)|)
      ensures constraints.elems == start - done
      ensures r == 0 ==> !goal.0 && goal.1 == NetOf() && goal.2 == done
      ensures r == 0 ==> exists i :: 0 <= i < nSubs && nSol[i] == 0 && flags[Single(i)] == Clean
      ensures r != 0 ==> var p := Propagation(owners, nSubs, NetOf()); goal.0 == p.0 && goal.1 == p.1 && goal.2 == p.2 + done
    {
      ghost var prev := NetOf();
      ghost var before := Propagation(owners, nSubs, prev);
      ValidSound();
      var i;
      i, r := SolveNext();
      RoundStep(owners, nSubs, prev, i);
      if r == 0 {
        Reached(goal, before, resolved, false, NetOf());
        done := resolved;
        return;
      }
      ghost var x: set<nat> := if r == 1 then {i} else {};
      Regroup(goal, before, Propagation(owners, nSubs, NetOf()), resolved, x);
      RemoveInTwo(start, resolved, x);
      done := resolved + x;
      if r == 1 {
        Resolve(i);
      }
    }

    /**
     * The propagation loop at the head of solveRecurse (ConstrainedProblem.java:124-134):
     * solve dirty constraints, the smallest id first, until none is left or one has no
     * solution, dropping the constraints that are resolved from the active set. It does
     * exactly what Propagation says.
     */
    method Propagate() returns (ok: bool)
      requires Valid() && Active()
      modifies this`parts, this`flags, this`dirtyConstraints, this`nSol, constraints
      ensures Valid() && Active()
      ensures var p := old(Propagation(owners, nSubs, NetOf()));
        && ok == p.0
        && NetOf() == p.1
        && constraints.elems == old(constraints.elems) - p.2
      ensures ok ==> dirtyConstraints == {}
      ensures constraints == old(constraints)
      ensures !ok ==> exists i :: 0 <= i < nSubs && nSol[i] == 0 && flags[Single(i)] == Clean
      ensures Progressed(old(parts[Problem]), parts[Problem])
    {
      ghost var goal := Propagation(owners, nSubs, NetOf());
      ghost var resolved: set<nat> := {};
      while dirtyConstraints != {}
        invariant Valid() && Active()
        invariant constraints == old(constraints) && constraints.elems == old(constraints.elems) - resolved
        invariant var p := Propagation(owners, nSubs, NetOf()); goal.0 == p.0 && goal.1 == p.1 && goal.2 == p.2 + resolved
        invariant Progressed(old(parts[Problem]), parts[Problem])
        decreases |parts[Problem].live|, |dirtyConstraints|
      {
        ghost var mid := parts[Problem];
        var r;
        r, resolved := Round(goal, old(constraints.elems), resolved);
        ProgressedTransitive(old(parts[Problem]), mid, parts[Problem]);
        if r == 0 {
          return false;
        }
      }
      Reached(goal, Propagation(owners, nSubs, NetOf()), resolved, true, NetOf());
      return true;
    }

    // ---------------------------------------------------------------------------------
    // ConstrainedProblem: search (ConstrainedProblem.java:117-169)

    /** getState: a copy of the problem's live candidates and of the active set. */
    method GetState() returns (s: State)
      requires Problem in parts
      ensures s.candidatesCopy == parts[Problem].live
      ensures fresh(s.constraintsCopy) && s.constraintsCopy.elems == constraints.elems
    {
      var copy := new ActiveSet(constraints.elems);
      s := State(parts[Problem].live, copy);
    }

    /**
     * restoreState: reinstate every candidate of the snapshot, then let the active-set
     * field refer to the snapshot's own set object.
     */
    method RestoreState(s: State)
      requires Valid()
      requires OwnedBy(owners, s.candidatesCopy, Problem)
      requires forall i :: i in s.constraintsCopy.elems ==> i < nSubs
      modifies this`parts, this`flags, this`dirtyConstraints, this`constraints
      ensures Valid() && Active()
      ensures parts == Spread(old(parts), owners, s.candidatesCopy, Problem, Move.Reinstate)
      ensures constraints == s.constraintsCopy
      ensures flags == MarkDirty(old(flags), Dirtied(owners, s.candidatesCopy, Problem))
      ensures dirtyConstraints == old(dirtyConstraints) + SubIds(Dirtied(owners, s.candidatesCopy, Problem))
      ensures currentSolution == old(currentSolution)
    {
      ReinstateAll(Problem, s.candidatesCopy);
      constraints := s.constraintsCopy;
      SpreadKeepsConsistent(owners, old(parts), s.candidatesCopy, Problem, Move.Reinstate);
      MarkKeepsSynced(old(flags), old(dirtyConstraints), nSubs, Dirtied(owners, s.candidatesCopy, Problem));
    }

    /**
     * solveRecurse: propagate; if no active constraint is left, record the problem's
     * definites as the solution and count one; otherwise branch on an active constraint.
     * The count is what Counted allows; the ghost results are the branching loop's record.
     */
    method SolveRecurse() returns (n: nat, ghost k: nat, ghost tried: seq<Cand>, ghost starts: seq<Net>,
                                   ghost actives: seq<set<nat>>, ghost counts: seq<nat>)
      requires Valid() && Active() && SolutionOwned()
      modifies this`parts, this`flags, this`dirtyConstraints, this`nSol, this`constraints, this`currentSolution, constraints
      decreases |parts[Problem].live|, 5
      ensures Valid() && Active() && SolutionOwned()
      ensures Progressed(old(parts[Problem]), parts[Problem])
      ensures old(constraints).elems <= old(constraints.elems)
      ensures Counted(owners, nSubs, old(NetOf()), old(constraints.elems), n, k, tried, starts, actives, counts)
      ensures Leaf(owners, nSubs, old(NetOf()), old(constraints.elems)) ==>
        currentSolution == Some(Definites(old(Propagation(owners, nSubs, NetOf())).1))
      ensures n == 0 ==> currentSolution == old(currentSolution)
      ensures n > 0 ==> currentSolution.Some? && old(parts[Problem].definite) <= currentSolution.value
    {
      ghost var s0, a0 := NetOf(), constraints.elems;
      ValidSound();
      var ok := Propagate();
      ghost var p := Propagation(owners, nSubs, s0);
      k, tried, starts, actives, counts := 0, [], [], [], [];
      assert Leaf(owners, nSubs, s0, a0) <==> p.0 && a0 <= p.2;
      if !ok {
        return 0, k, tried, starts, actives, counts;
      }
      DifferenceEmpty(a0, p.2);
      SubsetNotLarger(parts[Problem].live, old(parts[Problem].live));
      n, k, tried, starts, actives, counts := Conclude();
    }

    /**
     * The end of solveRecurse once propagation succeeded (ConstrainedProblem.java:137-157):
     * with no active constraint left the problem's definites are the solution, counted
     * once; otherwise the count is the branching loop's on an active constraint k.
     */
    method Conclude() returns (n: nat, ghost k: nat, ghost tried: seq<Cand>, ghost starts: seq<Net>,
                               ghost actives: seq<set<nat>>, ghost counts: seq<nat>)
      requires Valid() && Active() && SolutionOwned()
      modifies this`parts, this`flags, this`dirtyConstraints, this`nSol, this`constraints, this`currentSolution, constraints
      decreases |parts[Problem].live|, 4
      ensures Valid() && Active() && SolutionOwned()
      ensures Progressed(old(parts[Problem]), parts[Problem])
      ensures old(constraints).elems <= old(constraints.elems)
      ensures old(constraints.elems) == {} ==> n == 1 && currentSolution == Some(Definites(old(NetOf())))
      ensures old(constraints.elems) != {} ==>
        Explored(owners, nSubs, old(NetOf()), old(constraints.elems), k, n, tried, starts, actives, counts)
      ensures n == 0 ==> currentSolution == old(currentSolution)
      ensures n > 0 ==> currentSolution.Some? && old(parts[Problem].definite) <= currentSolution.value
    {
      k, tried, starts, actives, counts := 0, [], [], [], [];
      if constraints.elems == {} {
        n := 1;
        currentSolution := Some(parts[Problem].definite);
      } else {
        var pick :| pick in constraints.elems;
        k := pick;
        n, tried, starts, actives, counts := Branch(pick);
      }
    }

    /**
     * One trial of the branching loop (ConstrainedProblem.java:146-155): include c, search,
     * and restore the snapshot taken before the loop. The partitions come back exactly;
     * the active set becomes the snapshot's own set object.
     */
    method Trial(c: Cand, state: State, ghost outer: ActiveSet) returns (r: nat)
      requires Valid() && Active() && SolutionOwned() && c in parts[Problem].live
      requires state.candidatesCopy == parts[Problem].live
      requires forall i :: i in state.constraintsCopy.elems ==> i < nSubs
      requires forall i :: i in outer.elems ==> i < nSubs
      modifies this`parts, this`flags, this`dirtyConstraints, this`nSol, this`constraints, this`currentSolution, constraints
      decreases |parts[Problem].live|, 1
      ensures Valid() && Active() && SolutionOwned() && parts == old(parts)
      ensures constraints == state.constraintsCopy
      ensures Restored(owners, flags, dirtyConstraints, state.candidatesCopy)
      ensures outer.elems <= old(outer.elems) && state.constraintsCopy.elems <= old(state.constraintsCopy.elems)
      ensures Settles(owners, nSubs, Included(owners, old(NetOf()), c), old(constraints.elems), r)
      ensures r == 0 ==> currentSolution == old(currentSolution)
      ensures r > 0 ==> currentSolution.Some? && old(parts[Problem].definite) <= currentSolution.value
    {
      ghost var snap := parts;
      ghost var current, copy := constraints, state.constraintsCopy;
      ghost var copied, kept := copy.elems, outer.elems;
      r := Search(c);
      if copy != current {
        assert copy.elems == copied;
      }
      if outer != current {
        assert outer.elems == kept;
      }
      RestoreExact(owners, snap, parts);
      LiveOwned(owners, snap, Problem);
      RestoreState(state);
    }

    /** The inclusion that starts a trial (ConstrainedProblem.java:147): the state becomes Included. */
    method IncludeTrial(c: Cand)
      requires Valid() && Active() && c in parts[Problem].live
      modifies this`parts, this`flags, this`dirtyConstraints
      ensures Valid()
      ensures NetOf() == Included(owners, old(NetOf()), c)
      ensures Progressed(old(parts[Problem]), parts[Problem])
      ensures |parts[Problem].live| < |old(parts[Problem].live)|
    {
      ghost var snap, s0 := parts, NetOf();
      TrialProgresses(owners, snap, c);
      LiveOwned(owners, snap, Problem);
      IncludeInProblem({c});
      IncludedIs(owners, s0, c, NetOf());
    }

    /** The search part of a trial: include c, then solveRecurse; the problem only makes progress. */
    method Search(c: Cand) returns (r: nat)
      requires Valid() && Active() && SolutionOwned() && c in parts[Problem].live
      modifies this`parts, this`flags, this`dirtyConstraints, this`nSol, this`constraints, this`currentSolution, constraints
      decreases |parts[Problem].live|, 0
      ensures Valid() && Active() && SolutionOwned() && parts.Keys == old(parts).Keys
      ensures Progressed(old(parts[Problem]), parts[Problem])
      ensures old(constraints).elems <= old(constraints.elems)
      ensures Settles(owners, nSubs, Included(owners, old(NetOf()), c), old(constraints.elems), r)
      ensures r == 0 ==> currentSolution == old(currentSolution)
      ensures r > 0 ==> currentSolution.Some? && old(parts[Problem].definite) <= currentSolution.value
    {
      ghost var snap := parts;
      IncludeTrial(c);
      ghost var mid := parts[Problem];
      ghost var k, tried, starts, actives, counts;
      r, k, tried, starts, actives, counts := SolveRecurse();
      ProgressedTransitive(snap[Problem], mid, parts[Problem]);
    }

    /**
     * The branching loop of solveRecurse (ConstrainedProblem.java:142-157): each possible
     * solution of sub-constraint k is included in turn, searched and undone, until two
     * solutions are counted. The ghost results record each trial, as Explored describes.
     */
    method Branch(k: nat) returns (n: nat, ghost tried: seq<Cand>, ghost starts: seq<Net>,
                                   ghost actives: seq<set<nat>>, ghost counts: seq<nat>)
      requires Valid() && Active() && SolutionOwned() && k in constraints.elems
      modifies this`parts, this`flags, this`dirtyConstraints, this`nSol, this`constraints, this`currentSolution, constraints
      decreases |parts[Problem].live|, 3
      ensures Valid() && Active() && SolutionOwned()
      ensures parts == old(parts)
      ensures old(constraints).elems <= old(constraints.elems)
      ensures Explored(owners, nSubs, old(NetOf()), old(constraints.elems), k, n, tried, starts, actives, counts)
      ensures n == 0 ==> currentSolution == old(currentSolution)
      ensures n > 0 ==> currentSolution.Some? && old(parts[Problem].definite) <= currentSolution.value
    {
      var possibles := SingleCandidate.PossibleSolutions(parts[Single(k)]);
      ghost var live := parts[Single(k)].live;
      SingleCandidate.PossibleSolutionsExact(parts[Single(k)]);
      WithinProblem(owners, parts, Single(k));
      var state := GetState();
      ghost var snap, a0, outer, s0, sol0 := parts, constraints.elems, constraints, NetOf(), currentSolution;
      n := 0;
      tried, starts, actives, counts := [], [], [], [];
      while possibles != {} && n < 2
        invariant Valid() && Active() && SolutionOwned()
        invariant parts == snap
        invariant Record(owners, nSubs, s0, a0, live, possibles, tried, starts, actives, counts, n)
        invariant |starts| == 0 ==> NetOf() == s0 && constraints == outer && outer.elems == a0
        invariant n >= 2 ==> |counts| > 0
        invariant state.candidatesCopy == snap[Problem].live
        invariant fresh(state.constraintsCopy)
        invariant state.constraintsCopy.elems <= a0 && outer.elems <= a0
        invariant forall i :: i in a0 ==> i < nSubs
        invariant constraints == outer || constraints == state.constraintsCopy
        invariant n == 0 ==> currentSolution == sol0
        invariant n > 0 ==> currentSolution.Some? && snap[Problem].definite <= currentSolution.value
        decreases possibles
      {
        possibles, n, tried, starts, actives, counts :=
          BranchStep(state, outer, possibles, n, s0, a0, live, sol0, tried, starts, actives, counts);
      }
      RecordExplored(owners, nSubs, s0, a0, k, possibles, tried, starts, actives, counts, n);
    }

    /**
     * One turn of the branching loop (ConstrainedProblem.java:144-156): take one possible
     * solution {c} out of the untried ones, run its trial and add its count to the record.
     */
    method BranchStep(state: State, ghost outer: ActiveSet, possibles: set<set<Cand>>, n: nat,
                      ghost s0: Net, ghost a0: set<nat>, ghost live: set<Cand>, ghost sol0: Option<set<Cand>>,
                      ghost tried: seq<Cand>, ghost starts: seq<Net>, ghost actives: seq<set<nat>>, ghost counts: seq<nat>)
      returns (possibles': set<set<Cand>>, n': nat,
               ghost tried': seq<Cand>, ghost starts': seq<Net>, ghost actives': seq<set<nat>>, ghost counts': seq<nat>)
      requires Valid() && Active() && SolutionOwned() && possibles != {} && n < 2
      requires s0.parts == parts && live <= parts[Problem].live
      requires forall i :: i in a0 ==> i < nSubs
      requires Record(owners, nSubs, s0, a0, live, possibles, tried, starts, actives, counts, n)
      requires |starts| == 0 ==> NetOf() == s0 && constraints.elems == a0
      requires state.candidatesCopy == parts[Problem].live
      requires state.constraintsCopy.elems <= a0 && outer.elems <= a0
      requires constraints.elems <= a0
      requires n == 0 ==> currentSolution == sol0
      requires n > 0 ==> currentSolution.Some? && parts[Problem].definite <= currentSolution.value
      modifies this`parts, this`flags, this`dirtyConstraints, this`nSol, this`constraints, this`currentSolution, constraints
      decreases |parts[Problem].live|, 2
      ensures Valid() && Active() && SolutionOwned() && parts == old(parts)
      ensures possibles' < possibles
      ensures Record(owners, nSubs, s0, a0, live, possibles', tried', starts', actives', counts', n')
      ensures |starts'| > 0 && |counts'| > 0
      ensures constraints == state.constraintsCopy
      ensures Restored(owners, flags, dirtyConstraints, state.candidatesCopy)
      ensures state.constraintsCopy.elems <= a0 && outer.elems <= a0
      ensures n' == 0 ==> currentSolution == sol0
      ensures n' > 0 ==> currentSolution.Some? && parts[Problem].definite <= currentSolution.value
    {
      var s :| s in possibles;
      var c :| c in s;
      OneElement(s, c);
      CoverStep(live, possibles, tried, c);
      ghost var start, active := NetOf(), constraints.elems;
      var r := Trial(c, state, outer);
      ShapeStep(s0, a0, live, tried, starts, actives, counts, c, start, active, r);
      CountedStep(owners, nSubs, tried, starts, actives, counts, c, start, active, r);
      n' := n + r;
      tried', starts', actives', counts' := tried + [c], starts + [start], actives + [active], counts + [r];
      possibles' := possibles - {s};
    }
  }
}
