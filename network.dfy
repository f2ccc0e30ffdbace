/**
 * The candidate/constraint graph of a constrained problem, as values: every constraint's
 * partition, keyed by the constraint, and every candidate's set of owning constraints
 * (Candidate.constraints, sudoku/solver/Candidate.java:11). The invariants of the graph
 * and the effect of a status change that fans out through it are stated here.
 */
module Network {
  import opened Partitions

  /** A constraint of the graph: the problem itself, or one of its sub-constraints. */
  datatype Ref = Problem | Single(id: nat)

  /** The CLEAN/DIRTY state of a constraint (sudoku/solver/Constraint.java:14-15). */
  datatype Flag = Clean | Dirty

  type Owners = map<Cand, set<Ref>>
  type Parts = map<Ref, Partition>
  type Flags = map<Ref, Flag>

  /**
   * Whether constraint k takes part when constraint origin changes the status of c:
   * origin changes its own partition, and the candidate updates every owner of c.
   */
  predicate Reaches(owners: Owners, c: Cand, origin: Ref, k: Ref)
  {
    k == origin || (c in owners && k in owners[c])
  }

  /** The candidates of cs whose status change reaches k. */
  function Affected(owners: Owners, cs: set<Cand>, origin: Ref, k: Ref): set<Cand>
  {
    set c | c in cs && Reaches(owners, c, origin, k)
  }

  /**
   * Constraint origin applies move m to every candidate of cs: each time its own private
   * operation, then the candidate's fan-out to every other owning constraint.
   */
  function Spread(parts: Parts, owners: Owners, cs: set<Cand>, origin: Ref, m: Move): (r: Parts)
    ensures r.Keys == parts.Keys
  {
    map k | k in parts :: parts[k].Apply(m, Affected(owners, cs, origin, k))
  }

  /** The constraints such a status change marks dirty: every owner of a moved candidate but origin. */
  function Dirtied(owners: Owners, cs: set<Cand>, origin: Ref): (d: set<Ref>)
    ensures forall c, k :: c in cs && c in owners && k in owners[c] && k != origin ==> k in d
    ensures origin !in d
  {
    set c, k | c in cs && c in owners && k in owners[c] && k != origin :: k
  }

  function MarkDirty(flags: Flags, d: set<Ref>): (r: Flags)
    ensures r.Keys == flags.Keys
    ensures forall k :: k in r ==> r[k] == if k in d then Dirty else flags[k]
  {
    map k | k in flags :: if k in d then Dirty else flags[k]
  }

  /** The ids of the sub-constraints among d. */
  function SubIds(d: set<Ref>): (r: set<nat>)
    ensures forall i :: i in r <==> Single(i) in d
  {
    set k | k in d && k.Single? :: k.id
  }

  /** The candidates constraint k was added to: those that have k among their owners. */
  function Members(owners: Owners, k: Ref): set<Cand>
  {
    set c | c in owners && k in owners[c]
  }

  /** The problem owns every candidate, and every owner of a candidate is a constraint of the graph. */
  ghost predicate Closed(owners: Owners, parts: Parts)
  {
    && Problem in parts
    && forall c :: c in owners ==> Problem in owners[c] && owners[c] <= parts.Keys
  }

  /**
   * The invariant of the graph: every constraint sees exactly the problem's partition,
   * restricted to its own members. It says at once that a constraint tracks only its
   * members, that every owner of a candidate gives it the status the problem gives it,
   * and that no candidate is both live and definite anywhere.
   */
  ghost predicate Consistent(owners: Owners, parts: Parts)
  {
    && Closed(owners, parts)
    && parts[Problem].Disjoint()
    && forall k :: k in parts ==> parts[k] == parts[Problem].Restrict(Members(owners, k))
  }

  /** Whether every candidate of cs is owned by origin, so that a move of origin's reaches all its owners. */
  ghost predicate OwnedBy(owners: Owners, cs: set<Cand>, origin: Ref)
  {
    forall c :: c in cs ==> c in owners && origin in owners[c]
  }

  /** The candidates of cs a move by their owner origin reaches at k are the members of k among them. */
  lemma AffectedMembers(owners: Owners, cs: set<Cand>, origin: Ref, k: Ref)
    requires OwnedBy(owners, cs, origin)
    ensures Affected(owners, cs, origin, k) == cs * Members(owners, k)
  {
  }

  /**
   * A status change made by an owner of the candidates moves them in the problem, and
   * every constraint goes on seeing the problem's new partition restricted to its members.
   */
  lemma {:induction false} SpreadKeepsConsistent(owners: Owners, parts: Parts, cs: set<Cand>, origin: Ref, m: Move)
    requires Consistent(owners, parts)
    requires OwnedBy(owners, cs, origin)
    ensures var r := Spread(parts, owners, cs, origin, m);
      && Consistent(owners, r)
      && r[Problem] == parts[Problem].Apply(m, cs)
  {
    var r := Spread(parts, owners, cs, origin, m);
    var p := parts[Problem];
    AffectedMembers(owners, cs, origin, Problem);
    assert cs * Members(owners, Problem) == cs;
    ApplyStatus(p, m, cs);
    forall k | k in r ensures r[k] == r[Problem].Restrict(Members(owners, k)) {
      AffectedMembers(owners, cs, origin, k);
      RestrictApply(p, Members(owners, k), m, cs);
    }
  }

  /** In a consistent graph the problem's partition determines every other constraint's. */
  lemma ConsistentDetermined(owners: Owners, p: Parts, q: Parts)
    requires Consistent(owners, p) && Consistent(owners, q)
    requires p.Keys == q.Keys && p[Problem] == q[Problem]
    ensures p == q
  {
  }

  /** Moving A and then B is moving A + B. */
  lemma SpreadTwice(parts: Parts, owners: Owners, a: set<Cand>, b: set<Cand>, origin: Ref, m: Move)
    ensures Spread(Spread(parts, owners, a, origin, m), owners, b, origin, m) == Spread(parts, owners, a + b, origin, m)
  {
    var l := Spread(Spread(parts, owners, a, origin, m), owners, b, origin, m);
    var r := Spread(parts, owners, a + b, origin, m);
    forall k | k in parts ensures l[k] == r[k] {
      assert Affected(owners, a, origin, k) + Affected(owners, b, origin, k) == Affected(owners, a + b, origin, k);
      ApplyTwice(parts[k], m, Affected(owners, a, origin, k), Affected(owners, b, origin, k));
    }
  }

  /** A move of candidates the problem owns reaches the problem as a plain move of exactly those candidates. */
  lemma SpreadAtProblem(parts: Parts, owners: Owners, cs: set<Cand>, origin: Ref, m: Move)
    requires Closed(owners, parts)
    requires forall c :: c in cs ==> c in owners
    ensures Spread(parts, owners, cs, origin, m)[Problem] == parts[Problem].Apply(m, cs)
  {
    assert Affected(owners, cs, origin, Problem) == cs;
  }

  /** What a sub-constraint tracks, the problem tracks with the same status. */
  lemma WithinProblem(owners: Owners, parts: Parts, k: Ref)
    requires Consistent(owners, parts) && k in parts
    ensures parts[k].live <= parts[Problem].live
    ensures parts[k].definite <= parts[Problem].definite
  {
  }

  /** Move m applied to the candidates cs in exactly the constraints targets. */
  function Touch(parts: Parts, targets: set<Ref>, cs: set<Cand>, m: Move): (r: Parts)
    ensures r.Keys == parts.Keys
  {
    map k | k in parts :: if k in targets then parts[k].Apply(m, cs) else parts[k]
  }

  /**
   * One status change of one candidate: origin's private operation followed by the
   * candidate's fan-out to its other owners is the spread of that candidate.
   */
  lemma SpreadOne(parts: Parts, owners: Owners, c: Cand, origin: Ref, m: Move)
    requires c in owners && origin in parts
    ensures Spread(parts, owners, {c}, origin, m) == Touch(Touch(parts, {origin}, {c}, m), owners[c] - {origin}, {c}, m)
  {
    var l := Spread(parts, owners, {c}, origin, m);
    var r := Touch(Touch(parts, {origin}, {c}, m), owners[c] - {origin}, {c}, m);
    forall k | k in parts ensures l[k] == r[k] {
      SpreadOneAt(parts, owners, c, origin, m, k);
    }
    assert l.Keys == r.Keys;
  }

  lemma SpreadOneAt(parts: Parts, owners: Owners, c: Cand, origin: Ref, m: Move, k: Ref)
    requires c in owners && origin in parts && k in parts
    ensures Spread(parts, owners, {c}, origin, m)[k] == Touch(Touch(parts, {origin}, {c}, m), owners[c] - {origin}, {c}, m)[k]
  {
    AffectedOne(owners, c, origin, k);
    assert parts[k].Apply(m, {}) == parts[k];
  }

  lemma AffectedOne(owners: Owners, c: Cand, origin: Ref, k: Ref)
    ensures Affected(owners, {c}, origin, k) == if Reaches(owners, c, origin, k) then {c} else {}
  {
  }

  lemma SpreadNothing(parts: Parts, owners: Owners, origin: Ref, m: Move)
    ensures Spread(parts, owners, {}, origin, m) == parts
  {
    var l := Spread(parts, owners, {}, origin, m);
    forall k | k in parts ensures l[k] == parts[k] {
      assert Affected(owners, {}, origin, k) == {};
      assert parts[k].Apply(m, {}) == parts[k];
    }
  }

  lemma DirtiedOne(owners: Owners, c: Cand, origin: Ref)
    requires c in owners
    ensures Dirtied(owners, {c}, origin) == owners[c] - {origin}
  {
  }

  lemma DirtiedUnion(owners: Owners, a: set<Cand>, b: set<Cand>, origin: Ref)
    ensures Dirtied(owners, a, origin) + Dirtied(owners, b, origin) == Dirtied(owners, a + b, origin)
  {
  }

  lemma MarkDirtyTwice(flags: Flags, a: set<Ref>, b: set<Ref>)
    ensures MarkDirty(MarkDirty(flags, a), b) == MarkDirty(flags, a + b)
  {
  }

  lemma SubIdsUnion(a: set<Ref>, b: set<Ref>)
    ensures SubIds(a) + SubIds(b) == SubIds(a + b)
  {
  }

  lemma NothingDirtied(owners: Owners, flags: Flags, origin: Ref)
    ensures Dirtied(owners, {}, origin) == {}
    ensures MarkDirty(flags, {}) == flags
  {
  }

  /** The live candidates of a constraint are owned by it. */
  lemma LiveOwned(owners: Owners, parts: Parts, k: Ref)
    requires Consistent(owners, parts) && k in parts
    ensures OwnedBy(owners, parts[k].live, k)
  {
  }

  /** Touching one constraint is the private operation on that constraint alone. */
  lemma TouchSingle(parts: Parts, k: Ref, cs: set<Cand>, m: Move)
    requires k in parts
    ensures Touch(parts, {k}, cs, m) == parts[k := parts[k].Apply(m, cs)]
  {
  }

  lemma TouchOneMore(parts: Parts, targets: set<Ref>, k: Ref, cs: set<Cand>, m: Move)
    requires k in parts && k !in targets
    ensures Touch(parts, targets + {k}, cs, m) == Touch(parts, targets, cs, m)[k := parts[k].Apply(m, cs)]
  {
  }

  lemma MarkDirtyOneMore(flags: Flags, d: set<Ref>, k: Ref)
    requires k in flags
    ensures MarkDirty(flags, d + {k}) == MarkDirty(flags, d)[k := Dirty]
  {
  }
}
