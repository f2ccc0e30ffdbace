/**
 * The split a constraint keeps of its own members: the `candidates` set (live, still
 * undecided), the `definites` set (confirmed as part of the solution), and the members in
 * neither set, which the constraint has eliminated (sudoku/solver/Constraint.java:17-18).
 */
module Partitions {

  /** A candidate is identified by its position in the problem's candidate collection. */
  type Cand = nat

  /** The status a constraint gives one of its members. */
  datatype Status = Live | Definite | Eliminated

  /** The three status changes of Constraint.privateEliminate/IncludeInSolution/Reinstate. */
  datatype Move = Eliminate | Include | Reinstate

  /** The status a candidate has once a move has been applied to it. */
  function Target(m: Move): Status
  {
    match m
    case Eliminate => Eliminated
    case Include => Definite
    case Reinstate => Live
  }

  datatype Partition = Partition(live: set<Cand>, definite: set<Cand>) {

    /** The invariant every constraint keeps: no candidate is both live and definite. */
    predicate Disjoint()
    {
      live !! definite
    }

    function StatusOf(c: Cand): Status
    {
      if c in live then Live else if c in definite then Definite else Eliminated
    }

    /** The partition as seen by a constraint whose members are ms. */
    function Restrict(ms: set<Cand>): Partition
    {
      Partition(live * ms, definite * ms)
    }

    /** Applies move m to every candidate of cs and to no other candidate. */
    function Apply(m: Move, cs: set<Cand>): Partition
    {
      match m
      case Eliminate => Partition(live - cs, definite - cs)
      case Include => Partition(live - cs, definite + cs)
      case Reinstate => Partition(live + cs, definite - cs)
    }
  }

  /**
   * A move gives exactly the candidates of cs the move's target status, keeps a
   * partition disjoint, and removes the candidates of cs from the members only when it
   * eliminates them.
   */
  lemma ApplyStatus(p: Partition, m: Move, cs: set<Cand>)
    ensures var r := p.Apply(m, cs);
      && (forall c :: r.StatusOf(c) == if c in cs then Target(m) else p.StatusOf(c))
      && (p.Disjoint() ==> r.Disjoint())
      && r.live + r.definite == if m == Eliminate then (p.live + p.definite) - cs else p.live + p.definite + cs
  {
  }

  /** A move seen through a restriction is the move of the members it concerns. */
  lemma RestrictApply(p: Partition, ms: set<Cand>, m: Move, cs: set<Cand>)
    ensures p.Apply(m, cs).Restrict(ms) == p.Restrict(ms).Apply(m, cs * ms)
  {
  }

  /** A move of no candidate changes nothing. */
  lemma ApplyNothing(p: Partition, m: Move)
    ensures p.Apply(m, {}) == p
  {
  }

  /** Two disjoint partitions that give every candidate the same status are equal. */
  lemma StatusDetermines(p: Partition, q: Partition)
    requires p.Disjoint() && q.Disjoint()
    requires forall c :: p.StatusOf(c) == q.StatusOf(c)
    ensures p == q
  {
    forall c | c in p.live ensures c in q.live { assert p.StatusOf(c) == Live; }
    forall c | c in q.live ensures c in p.live { assert q.StatusOf(c) == Live; }
    forall c | c in p.definite ensures c in q.definite { assert p.StatusOf(c) == Definite; }
    forall c | c in q.definite ensures c in p.definite { assert q.StatusOf(c) == Definite; }
  }

  /** Applying a move to A and then to B is applying it to A + B. */
  lemma ApplyTwice(p: Partition, m: Move, a: set<Cand>, b: set<Cand>)
    ensures p.Apply(m, a).Apply(m, b) == p.Apply(m, a + b)
  {
  }

  /**
   * How the problem's own partition may evolve along one search path: live candidates may
   * be eliminated or confirmed, but confirmed and eliminated candidates stay where they are.
   */
  predicate Progressed(before: Partition, after: Partition)
  {
    && after.live <= before.live
    && before.definite <= after.definite
    && after.definite <= before.live + before.definite
  }

  lemma ProgressedTransitive(a: Partition, b: Partition, c: Partition)
    requires Progressed(a, b) && Progressed(b, c)
    ensures Progressed(a, c)
  {
  }

  /** Any move applied only to live candidates is progress. */
  lemma ApplyOnLiveProgresses(p: Partition, m: Move, cs: set<Cand>)
    requires p.Disjoint() && cs <= p.live && m != Reinstate
    ensures Progressed(p, p.Apply(m, cs))
  {
  }

  /**
   * The undo step of backtracking: reinstating the candidates that were live at snapshot
   * time restores the snapshot exactly, whatever progress was made since.
   */
  lemma {:induction false} ReinstateUndoesProgress(snap: Partition, now: Partition)
    requires snap.Disjoint() && now.Disjoint()
    requires Progressed(snap, now)
    ensures now.Apply(Reinstate, snap.live) == snap
  {
    var r := now.Apply(Reinstate, snap.live);
    forall c ensures r.StatusOf(c) == snap.StatusOf(c) {
      if c !in snap.live {
        assert r.StatusOf(c) == now.StatusOf(c);
        if c in snap.definite {
          assert c in now.definite && c !in now.live;
        } else {
          assert c !in now.live && c !in now.definite;
        }
      }
    }
    StatusDetermines(r, snap);
  }
}
