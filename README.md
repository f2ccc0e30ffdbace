# SuDokuMate core in Dafny

SuDokuMate is a Java Sudoku helper. This project models three parts of it:

- **The solver** (`sudoku/solver/`). It is a generic constraint engine. Candidates are facts that may be true. Constraints are `SingleCandidateConstraint` rules, each saying that exactly one of its candidates holds. A `ConstrainedProblem` owns every candidate and constraint. It propagates eliminations and confirmations through the candidate-to-constraint graph, using a dirty queue, until nothing changes. It then branches on an unresolved constraint. Each branch is undone with a snapshot restore. The answer is a solution count of 0, 1, or `UNKNOWN_NO_SOLUTIONS` (0x7fffffff, meaning "more than one").
- **The Sudoku adapter** (`SuDokuProblem`, `SuDokuCandidate`).
  - It has one candidate per (row, column, value).
  - It has one constraint per cell, per (row, value), per (column, value) and per (box, value).
  - The puzzle's filled cells are the givens.
- **The grid** (`Cell`, `CellGroup`, `Row`, `Column`, `Box`, `SuDoku`, `Hint`) and two hint strategies, **Singleton** and **HiddenSingle**.

The files follow the program's structure:

| file | module | models |
|---|---|---|
| `wrappers.dfy` | `Wrappers`, `Values` | `Option`, `Result` and the Java exceptions the core can raise. A puzzle value is a string. |
| `partition.dfy` | `Partitions` | A constraint's `candidates`/`definites` sets. Its three private status changes are `Apply`. |
| `single.dfy` | `SingleCandidate` | `SingleCandidateConstraint.apply`, `getSolution` and `getPossibleSolutions`, as functions on a partition. |
| `network.dfy` | `Network` | The candidate/constraint graph as values: who owns which candidate, and how one status change spreads to the other owners and marks them dirty. |
| `solver.dfy` | `Solver` | `ConstrainedProblem` as a class: the graph, the dirty queue, the active constraint set, propagation, branching and snapshot/restore. |
| `candidate.dfy` | `SuDokuCandidates` | `SuDokuCandidate` and its label. |
| `tables.dfy` | `SuDokuConstraints` | Which candidates each Sudoku constraint holds. |
| `problem.dfy` | `SuDokuProblems` | `SuDokuProblem`: building candidates, constraints and givens, solving, and reading the solution back. |
| `grid.dfy` | `SuDokuGrid` | `Cell` and `CellGroup`. `Row`, `Column` and `Box` are `CellGroup` constructors. |
| `hint.dfy` | `Hints` | `Hint`. |
| `sudoku.dfy` | `SuDokuPuzzle` | `SuDoku`: building and wiring the grid, checking solutions, `getCell`, `reset`, `checkPuzzle`. |
| `strategies.dfy` | `Strategies` | `SingletonStrategy`, `HiddenSingleStrategy` and `SuDoku.getHint`. |

### How the solver state is modelled

The solver's object graph is held as maps in the `ConstrainedProblem` class:

- `owners` gives, for each candidate, the constraints it belongs to. This is `Candidate.constraints`.
- `parts` gives, for each constraint, its live and definite sets.
- `flags` gives each constraint's `CLEAN`/`DIRTY` state.
- `nSol` gives each sub-constraint's `nSolutions`.

A reference is `Problem` or `Single(i)`. The problem's `HashSet` of active constraints is an `ActiveSet` object. That is why the alias created at `ConstrainedProblem.java:168` is kept.

The central invariant is `Network.Consistent`: the problem's live and definite sets are disjoint, and every sub-constraint's partition is the problem's partition restricted to that constraint's members. `Valid` adds these facts:

- the constraints are the problem and sub-constraints `0 .. nSubs - 1`, each with a flag, and each sub-constraint has an `nSolutions` entry;
- each flag is `DIRTY` exactly when its id is in `dirtyConstraints`.

`Active` states separately that `constraints` holds only sub-constraint ids, because the active set is an object of its own. Every method preserves these facts.

### How the search is specified

`Solver.Propagation` is an independent definition of the propagation loop on values: solve the smallest dirty sub-constraint, stop on a count of 0, and drop each constraint solved with count 1 from the active set. `Solver.ConstrainedProblem.Propagate` is proved to compute exactly that. The count of `solveRecurse` is tied to it from the state on entry:

- `Solver.Settles` says that the count is 0 when propagation meets a constraint with no solution. It also says that the count is 1 when propagation resolves every active constraint, and then the recorded solution is the problem's definites after propagation.
- `Solver.Explored` describes the branching loop otherwise. Each trial's candidate is one of the branch constraint's live candidates, and the candidates are distinct. Each trial's count is what `Settles` allows for the state in which it starts, after its candidate is included. The loop went on only while the sum was below 2. The total is the sum. Below 2, every live candidate was tried.

### How the code behaves

The model follows the code in both cases below.

- **Restore aliases the snapshot's set.** `restoreState` assigns the snapshot's set without copying (`ConstrainedProblem.java:168`). The next trial removes resolved constraints from that same set (line 132). Only one snapshot is taken per branch (line 148). So the second possibility starts from an exact copy, but from the third possibility on, the restored set is the one the previous trial shrank. `Solver.ConstrainedProblem.Trial` ensures `constraints == state.constraintsCopy`, which is object identity. The candidate half of the restore is exact, and `Solver.RestoreExact` proves it.
- **The solution accessor can return a partial solution.** The class comment of `SuDokuProblem` (`SuDokuProblem.java:26-27`) says that `getSolution` retrieves the solution when there is only one. `ConstrainedProblem.getSolution` (`ConstrainedProblem.java:95-98`) returns whatever `currentSolution` holds, and every leaf of the search overwrites it (line 141). After a "many" result, it holds the last leaf's set. The model keeps this: `Solver.ConstrainedProblem.Apply` promises `currentSolution.Some?` whenever the count is not 0. `SuDokuPuzzle.SuDoku.CheckSolutions` reads the solution only when the count is 1, as `SuDoku.java:196-202` does.

## Model

| member | source | states |
|---|---|---|
| `Partitions.ApplyStatus` | sudoku/solver/Constraint.java:195-209 | Each private status change gives exactly the named candidates the target status (eliminated, definite, or live). Every other candidate's status is left alone. Live and definite stay disjoint. Only elimination removes members. |
| `Partitions.ReinstateUndoesProgress` | sudoku/solver/ConstrainedProblem.java:165-169 | After any sequence of eliminations and confirmations of live candidates, reinstating the snapshot's live set restores the snapshot partition exactly. |
| `Partitions.ApplyOnLiveProgresses` | sudoku/solver/SingleCandidateConstraint.java:44-54 | Eliminating or confirming live candidates only moves candidates forward: nothing becomes live again, and definites stay definite. |
| `SingleCandidate.Rule` | sudoku/solver/SingleCandidateConstraint.java:40-57 | `apply` moves only live candidates, and when it moves, it moves at least one. |
| `SingleCandidate.RuleMeaning` | sudoku/solver/SingleCandidateConstraint.java:42-54 | No solution exactly when two candidates are confirmed or nothing is left. Solved exactly when one is confirmed or one live candidate is left; the solved partition has no live candidates and one definite. Otherwise nothing moves and the count is the number of live candidates. |
| `SingleCandidate.RuleIdempotent` | sudoku/solver/SingleCandidateConstraint.java:40-57 | Applying the rule a second time gives the same count and the same solution, and moves nothing. |
| `SingleCandidate.SolvedHasOneCandidate` | sudoku/solver/SingleCandidateConstraint.java:40-79 | After `apply`, a solved constraint's solution is one of its candidates. |
| `SingleCandidate.Solution` | sudoku/solver/SingleCandidateConstraint.java:72-79 | `getSolution` is present exactly when the count is 1, and it is then the definite set. |
| `SingleCandidate.PossibleSolutionsExact` | sudoku/solver/SingleCandidateConstraint.java:83-91 | `{c}` is a possible solution exactly when `c` is live. |
| `SingleCandidate.PossibleSolutionsCount` | sudoku/solver/SingleCandidateConstraint.java:83-91 | There are as many possible solutions as live candidates. |
| `Network.Dirtied` | sudoku/solver/Candidate.java:48-54 | Every owner of a moved candidate other than the one making the change is dirtied. The one making the change is never dirtied. |
| `Network.MarkDirty` | sudoku/solver/Constraint.java:121-125 | The named constraints become `DIRTY`; every other flag is unchanged. |
| `Network.SpreadKeepsConsistent` | sudoku/solver/Candidate.java:46-80 | When an owner changes candidates it owns and the change spreads to the co-owners, every constraint still sees the problem's partition restricted to its members. In the problem, exactly those candidates move. |
| `Network.SpreadOne` | sudoku/solver/Constraint.java:167-187 | A public status change is the constraint's private change followed by the candidate's fan-out to the other owners. |
| `Network.DirtiedOne` | sudoku/solver/Candidate.java:48-54 | One candidate's change dirties exactly its owners other than the origin. |
| `Network.SpreadTwice` | sudoku/solver/Constraint.java:146-163 | Moving set A and then set B is the same as moving A and B together, so the order in which the collection loop visits the set does not matter. |
| `Network.WithinProblem` | sudoku/solver/ConstrainedProblem.java:66 | In a consistent graph, whatever a sub-constraint holds as live or definite, the problem holds as well. |
| `Network.LiveOwned` | sudoku/solver/Constraint.java:45-49 | In a consistent graph, a constraint owns each of its live candidates. |
| `Network.ConsistentDetermined` | sudoku/solver/ConstrainedProblem.java:165-169 | In a consistent graph, the problem's partition determines every sub-constraint's partition. |
| `Solver.MarkKeepsSynced` | sudoku/solver/Constraint.java:121-125 | `setDirty` keeps "flag is `DIRTY` exactly when the id is in the dirty queue". |
| `Solver.CleanKeepsSynced` | sudoku/solver/Constraint.java:131-135 | `setClean` keeps the same correspondence. |
| `Solver.SubMoveProgresses` | sudoku/solver/SingleCandidateConstraint.java:44-54 | A sub-constraint eliminating or confirming its live candidates keeps the graph consistent. The problem makes progress and loses live candidates whenever anything moved. |
| `Solver.SolveStep` | sudoku/solver/Constraint.java:189-194 | One `solve` of a dirty constraint keeps consistency and the flag/queue correspondence. Either the problem's live set shrinks, or nothing changed except that the constraint left the queue. This is why propagation terminates. |
| `Solver.TrialProgresses` | sudoku/solver/ConstrainedProblem.java:153 | Speculatively confirming a live candidate keeps the graph consistent and strictly shrinks the problem's live set. |
| `Solver.RestoreExact` | sudoku/solver/ConstrainedProblem.java:165-169 | Restoring the snapshot's live candidates after any progress gives back every constraint's partition as it was at the snapshot. |
| `Solver.InitiallyConsistent` | sudoku/solver/ConstrainedProblem.java:55-67 | After every candidate is added to the problem, the graph is consistent, and each sub-constraint's members are the candidates it was given. |
| `Solver.GivensIncluded` | sudoku/solver/ConstrainedProblem.java:44-48 | Confirming the givens makes them definite in the problem and in every sub-constraint. The constraints dirtied are exactly those sharing a given. |
| `Solver.ConstrainedProblem.constructor` | sudoku/solver/ConstrainedProblem.java:44-67 | Every candidate is owned by the problem and by the constraints listing it (`Solver.StartOwners`). The state is `Solver.Start`: the givens are definite and the rest is live, in the problem and in each constraint. A constraint is dirty exactly when it started dirty or shares a given. Every sub-constraint is active, no solution is recorded, and the count is `UNKNOWN_NO_SOLUTIONS`. |
| `Solver.ConstrainedProblem.Initialise` | sudoku/solver/ConstrainedProblem.java:46-66 | From the built graph, queueing the constraints that came dirty and then confirming the givens yields `Solver.Start`. The active set and the count are untouched. |
| `Solver.ConstrainedProblem.IncludeInProblem` | sudoku/solver/ConstrainedProblem.java:47 | Confirming a set of candidates at the problem level spreads to every co-owner and dirties exactly them. |
| `Solver.ConstrainedProblem.CollectDirty` | sudoku/solver/ConstrainedProblem.java:60-64 | The dirty queue gets exactly the constraints whose flag is `DIRTY`. |
| `Solver.ConstrainedProblem.InitialGraph` | sudoku/solver/SuDokuProblem.java:110-182 | The graph before the problem's own add calls: each sub-constraint holds its listed candidates as live and owns them, its flag is as it came, and its count is 0. |
| `Solver.ConstrainedProblem.BuiltGraph` | sudoku/solver/ConstrainedProblem.java:55-67 | After the problem adds every candidate, the problem holds them all as live and owns them, on top of the initial graph. |
| `Solver.StartIs` | sudoku/solver/ConstrainedProblem.java:44-67 | A state with the constructor's partitions, flags, queue and counts is `Solver.Start`. |
| `Solver.GivensStart` | sudoku/solver/ConstrainedProblem.java:46-47 | From the built graph with the dirty constraints queued, including the givens keeps the graph consistent, dirties only sub-constraints, and yields `Solver.Start`. |
| `Solver.ConstrainedProblem.Apply` | sudoku/solver/ConstrainedProblem.java:80-84 | The count is 0, 1 or `UNKNOWN_NO_SOLUTIONS`, and it meets `Solver.Settles` for the state on entry: 0 when propagation fails, and 1 when propagation resolves every active constraint, with the definites after propagation as the recorded solution. With no solution the recorded solution is untouched; otherwise one is recorded that extends the definites present before the call. The graph stays valid. |
| `Solver.ConstrainedProblem.Solve` | sudoku/solver/Constraint.java:189-194 | The problem's `solve` returns the count `apply` recorded, marks the problem clean, and carries the same guarantees, `Solver.Settles` included. |
| `Solver.ConstrainedProblem.PrivateEliminate` | sudoku/solver/Constraint.java:195-199 | The candidate leaves the named constraint's sets; nothing else changes. |
| `Solver.ConstrainedProblem.PrivateReinstate` | sudoku/solver/Constraint.java:200-204 | The candidate becomes live again in the named constraint only. |
| `Solver.ConstrainedProblem.PrivateIncludeInSolution` | sudoku/solver/Constraint.java:205-209 | The candidate becomes definite in the named constraint only. |
| `Solver.ConstrainedProblem.AddDirtyConstraint` | sudoku/solver/ConstrainedProblem.java:108-111 | The queue gains the id. |
| `Solver.ConstrainedProblem.RemoveDirtyConstraint` | sudoku/solver/ConstrainedProblem.java:112-115 | The queue loses the id. |
| `Solver.ConstrainedProblem.SetDirty` | sudoku/solver/Constraint.java:121-125 | The flag becomes `DIRTY`. A sub-constraint enters its parent's queue; the problem has no parent, so nothing else changes for it. |
| `Solver.ConstrainedProblem.SetClean` | sudoku/solver/Constraint.java:131-135 | The flag becomes `CLEAN`, and a sub-constraint leaves the queue. |
| `Solver.ConstrainedProblem.Notify` | sudoku/solver/Candidate.java:52-53 | One co-owner's private change, followed by `setDirty` on it. |
| `Solver.ConstrainedProblem.Fan` | sudoku/solver/Candidate.java:48-54 | Every owner other than the origin applies the change, becomes dirty and is queued. |
| `Solver.ConstrainedProblem.CandidateEliminate` | sudoku/solver/Candidate.java:46-56 | `Candidate.eliminate`: the other owners drop the candidate and are dirtied. |
| `Solver.ConstrainedProblem.CandidateIncludeInSolution` | sudoku/solver/Candidate.java:58-68 | `Candidate.includeInSolution`: the other owners confirm the candidate and are dirtied. |
| `Solver.ConstrainedProblem.CandidateReinstate` | sudoku/solver/Candidate.java:70-80 | `Candidate.reinstate`: the other owners make the candidate live and are dirtied. |
| `Solver.ConstrainedProblem.Eliminate` | sudoku/solver/Constraint.java:167-171 | The whole graph takes the spread of eliminating the candidate from the named constraint. Exactly the other owners are dirtied. |
| `Solver.ConstrainedProblem.Reinstate` | sudoku/solver/Constraint.java:175-179 | The same, for reinstating. |
| `Solver.ConstrainedProblem.IncludeInSolution` | sudoku/solver/Constraint.java:183-187 | The same, for confirming. |
| `Solver.ConstrainedProblem.MoveEach` | sudoku/solver/Constraint.java:146-163 | Moving each candidate of a set in turn equals the spread of the whole set, whatever order the set is visited in. |
| `Solver.ConstrainedProblem.EliminateAll` | sudoku/solver/Constraint.java:146-149 | `eliminate(Collection)` is the spread of eliminating the whole collection. |
| `Solver.ConstrainedProblem.IncludeAllInSolution` | sudoku/solver/Constraint.java:153-156 | `includeInSolution(Collection)` is the spread of confirming the whole collection. |
| `Solver.ConstrainedProblem.ReinstateAll` | sudoku/solver/Constraint.java:160-163 | `reinstate(Collection)` is the spread of reinstating the whole collection. |
| `Solver.ConstrainedProblem.Add` | sudoku/solver/Constraint.java:45-49 | The constraint gains a live candidate, and the candidate gains the constraint as an owner; nothing else changes. |
| `Solver.ConstrainedProblem.AddCandidates` | sudoku/solver/ConstrainedProblem.java:66 | The problem gains every listed candidate as live and becomes its owner. |
| `Solver.ConstrainedProblem.ApplySingle` | sudoku/solver/SingleCandidateConstraint.java:40-57 | The constraint records the rule's count, and the rule's moves spread through the graph, dirtying exactly the co-owners. |
| `Solver.ConstrainedProblem.SolveConstraint` | sudoku/solver/Constraint.java:189-194 | `solve` of a sub-constraint returns the rule's count and records it. The new state is `Solver.Solved`: the rule's moves spread through the graph, the co-owners are dirtied, and the constraint is clean and out of the queue. |
| `Solver.SolvedKeeps` | sudoku/solver/Constraint.java:189-194 | Solving any sub-constraint from a sound state keeps it sound and makes progress. Either the problem loses live candidates, or the partitions are unchanged and only the constraint leaves the queue. |
| `Solver.SolvedSound` | sudoku/solver/ConstrainedProblem.java:124-128 | Solving a dirty sub-constraint keeps the state sound, and it shrinks either the problem's live set or the queue. This is why `Solver.Propagation` terminates. |
| `Solver.PropagationUnfold` | sudoku/solver/ConstrainedProblem.java:124-134 | From a sound state with a dirty constraint, propagation solves the smallest dirty id and advances. It stops with failure if that count is 0; otherwise it continues, adding the id to the resolved set when the count is 1. |
| `Solver.RoundStep` | sudoku/solver/ConstrainedProblem.java:125-133 | One round from a sound state keeps soundness, leaves the solved constraint clean, and makes progress. It relates propagation before the round to propagation after it. |
| `Solver.ConstrainedProblem.SolveNext` | sudoku/solver/ConstrainedProblem.java:125-128 | Solves the smallest dirty sub-constraint. The new state is `Solver.Solved` of the old one, and the active set is untouched. |
| `Solver.Smallest` | sudoku/solver/ConstrainedProblem.java:126 | Returns the smallest element of a non-empty set: an element no other element undercuts. |
| `Solver.ConstrainedProblem.Resolve` | sudoku/solver/ConstrainedProblem.java:130-133 | The active set loses the id; the graph is unchanged. |
| `Solver.ConstrainedProblem.Round` | sudoku/solver/ConstrainedProblem.java:125-133 | One pass of the loop body. It carries the loop's goal: either the round failed and the goal is reached, or the goal is `Solver.Propagation` of the new state with the resolved ids taken out of the active set. Each round makes progress. |
| `Solver.ConstrainedProblem.Propagate` | sudoku/solver/ConstrainedProblem.java:124-134 | The loop computes `Solver.Propagation` exactly: the outcome, the new state, and the active set minus exactly the resolved constraints. A normal exit leaves the dirty queue empty. An early exit means some clean constraint has no solution. The problem only makes progress. |
| `Solver.ConstrainedProblem.GetState` | sudoku/solver/ConstrainedProblem.java:161-180 | The snapshot holds the problem's live set and a fresh copy of the active set. |
| `Solver.ConstrainedProblem.RestoreState` | sudoku/solver/ConstrainedProblem.java:165-169 | The snapshot's live candidates are reinstated through the graph. The flags become those of marking dirty every constraint, other than the problem, that owns a reinstated candidate, and exactly the sub-constraints among them join the dirty set. The active set becomes the snapshot's copy itself, which is the alias. |
| `Solver.ConstrainedProblem.SolveRecurse` | sudoku/solver/ConstrainedProblem.java:117-160 | The count meets `Solver.Counted` for the state on entry. It is 0 when propagation fails (line 129). It is 1 when propagation resolves every active constraint, and then the recorded solution is the definites after propagation (137-141). Otherwise it is the branching loop's count, as `Solver.Explored` describes. A zero count leaves the recorded solution alone; a positive one records a solution extending the starting definites. The problem only makes progress. |
| `Solver.ConstrainedProblem.Conclude` | sudoku/solver/ConstrainedProblem.java:136-157 | With no active constraint, the count is 1 and the recorded solution is the problem's definites. Otherwise the count is the branching loop's, as `Solver.Explored` describes. |
| `Solver.ConstrainedProblem.Trial` | sudoku/solver/ConstrainedProblem.java:146-155 | One possibility: confirm it, recurse and restore. Afterwards every partition is exactly as before the trial, and the active set is the snapshot's object. Every constraint sharing a snapshot candidate with the problem is flagged dirty and, if a sub-constraint, queued (`Solver.Restored`). |
| `Solver.ConstrainedProblem.IncludeTrial` | sudoku/solver/ConstrainedProblem.java:153 | The state becomes `Solver.Included` of the old one, and the problem's live set shrinks. |
| `Solver.IncludedIs` | sudoku/solver/ConstrainedProblem.java:153 | A state with the inclusion's partitions, flags and queue is `Solver.Included`. |
| `Solver.ConstrainedProblem.Search` | sudoku/solver/ConstrainedProblem.java:153-154 | Confirming one live candidate and recursing keeps the graph valid and carries the solution guarantees. |
| `Solver.ConstrainedProblem.Branch` | sudoku/solver/ConstrainedProblem.java:142-157 | The loop meets `Solver.Explored`. The trials include distinct live candidates of the branch constraint. Each trial's count is what `Solver.Settles` allows from its start, and the loop went on only while the sum was below 2. The count is the sum, and below 2 every live candidate was tried. Every partition is restored. |
| `Solver.ConstrainedProblem.BranchStep` | sudoku/solver/ConstrainedProblem.java:150-156 | One turn: one untried possibility is taken out, and its trial extends the loop's record (`Solver.Record`). The partitions are restored, and the restore's dirty marks are in place (`Solver.Restored`). |
| `Solver.ShapeStep` | sudoku/solver/ConstrainedProblem.java:150-156 | A trial of an untried live candidate from a state with the branch's partitions extends `Solver.TrialsShape`; the tried candidates stay distinct. |
| `Solver.CountedStep` | sudoku/solver/ConstrainedProblem.java:150-154 | A trial whose count `Solver.Settles` allows, taken while the sum is below 2, extends `Solver.TrialsCounted`, and the sum grows by its count. |
| `Solver.CoverStep` | sudoku/solver/ConstrainedProblem.java:150-152 | Taking one possibility out moves its candidate from the untried to the tried ones, and every live candidate is still one or the other. |
| `Solver.RecordExplored` | sudoku/solver/ConstrainedProblem.java:150 | When the possibilities run out or the count reaches 2, the loop's record is `Solver.Explored`. |
| `SuDokuCandidates.DecimalRoundTrip` | sudoku/solver/SuDokuCandidate.java:18 | The decimal digits written into a label read back as the same number. |
| `SuDokuCandidates.LabelIdentifies` | sudoku/solver/SuDokuCandidate.java:18 | Two candidates with the same label `Row: <row>, Col: <col>, Val: <value>` are the same candidate. |
| `SuDokuConstraints.IdInjective` | sudoku/solver/SuDokuProblem.java:85-101 | No two grid candidates share a position in the candidate list. |
| `SuDokuConstraints.IdBound` | sudoku/solver/SuDokuProblem.java:85-101 | Every grid candidate's position is below n³. |
| `SuDokuConstraints.ListedAt` | sudoku/solver/SuDokuProblem.java:96-97 | Candidate (r, c, v) sits at position (r·n + c)·n + v. |
| `SuDokuConstraints.MembersMeaning` | sudoku/solver/SuDokuProblem.java:110-157 | A cell, row or column constraint holds exactly its matching candidates: the cell's values, or one value along the row or column. |
| `SuDokuConstraints.MembersUpToSize` | sudoku/solver/SuDokuProblem.java:110-157 | Each line constraint has n members. |
| `SuDokuConstraints.TableLength` | sudoku/solver/SuDokuProblem.java:110-157 | Each kind contributes n² constraints. |
| `SuDokuConstraints.TableAt` | sudoku/solver/SuDokuProblem.java:110-157 | Constraint i·n + j of a kind is the one for (i, j). |
| `SuDokuConstraints.BoxMeaning` | sudoku/solver/SuDokuProblem.java:158-182 | A box constraint for box (br, bc) and value v holds exactly the candidates with value v whose row is in band br (row / nStacks = br) and whose column is in stack bc (column / nBands = bc). This is the layout `SuDoku` uses. |
| `SuDokuConstraints.BoxTableLength` | sudoku/solver/SuDokuProblem.java:158-182 | The box constraints number nBands · nStacks · n. |
| `SuDokuConstraints.ConstraintCount` | sudoku/solver/SuDokuProblem.java:102-109 | There are 4·n² constraints in all. |
| `SuDokuConstraints.ConstraintsWithin` | sudoku/solver/SuDokuProblem.java:102-182 | Every constraint holds only candidates of the grid. |
| `SuDokuConstraints.AsWrittenInGridIffSquare` | sudoku/solver/SuDokuProblem.java:171-175 | The box loops as written stay inside the grid exactly when nBands equals nStacks. |
| `SuDokuConstraints.AsWrittenOffGrid` | sudoku/solver/SuDokuProblem.java:171-175 | With nBands = 2 and nStacks = 3, box (0, 2) as written visits column 6 of a 6×6 grid. |
| `SuDokuConstraints.AsWrittenSquareAgrees` | sudoku/solver/SuDokuProblem.java:171-175 | For square boxes, the loops as written and the corrected ones build the same constraint. |
| `SuDokuProblems.ToArray` | sudoku/solver/SuDokuProblem.java:55 | `valueSet.toArray()` lists each value of the set exactly once. |
| `SuDokuProblems.NewProblem` | sudoku/solver/SuDokuProblem.java:59 | The engine is built over the candidate ids `0 .. n - 1`. It is in the state `Solver.Start` for the constraint list, no dirty-at-start ids and the givens, with every sub-constraint active. |
| `SuDokuProblems.SuDokuProblem.constructor` | sudoku/solver/SuDokuProblem.java:49-60 | The given list holds exactly the candidates whose cell is filled with that value. The engine is as its constructor leaves it (`AtStart`): the givens are definite and the rest is live. No solution is recorded. |
| `SuDokuProblems.SuDokuProblem.GivenListed` | sudoku/solver/SuDokuProblem.java:183-200 | A filled cell whose value is in the value set has a given candidate at that cell. |
| `SuDokuProblems.SuDokuProblem.GivensCover` | sudoku/solver/SuDokuProblem.java:183-200 | The givens cover every filled cell. |
| `SuDokuProblems.SuDokuProblem.BlankCellNoGivens` | sudoku/solver/SuDokuProblem.java:191 | A blank cell contributes no given. |
| `SuDokuProblems.SuDokuProblem.Solve` | sudoku/solver/SuDokuProblem.java:65-68 | Returns the engine's count, with the engine's guarantees, `Solver.Settles` included. On a problem as its constructor leaves it, the count is 0 when propagation from the givens fails. It is 1 when that propagation resolves every constraint, and the recorded solution is then the definites propagation leaves. The adapter itself is unchanged. |
| `SuDokuProblems.SuDokuProblem.GetSolution` | sudoku/solver/SuDokuProblem.java:73-83 | Fails with a null dereference exactly when no solution is recorded. Otherwise it returns a fresh n×n grid that `Shows` the recorded solution: a cell is blank exactly when no recorded candidate sits in it, and a filled cell holds the value of a recorded candidate in it. |
| `SuDokuProblems.SuDokuProblem.Fill` | sudoku/solver/SuDokuProblem.java:75-81 | A fresh n×n grid that `Shows` the given candidates, whatever order the loop visits them in. |
| `SuDokuProblems.SuDokuProblem.ShowsPlaced` | sudoku/solver/SuDokuProblem.java:80 | A cell that holds a candidate's value shows the solution with that candidate added. |
| `SuDokuProblems.SuDokuProblem.ShowsElsewhere` | sudoku/solver/SuDokuProblem.java:77-81 | Adding a candidate in another cell does not change what a cell shows. |
| `SuDokuProblems.SuDokuProblem.GivensShown` | sudoku/solver/SuDokuProblem.java:183-200 | With exactly n values, a grid that shows a solution keeping the givens fills every cell the puzzle fills from the value set. |
| `SuDokuProblems.SuDokuProblem.InitCandidates` | sudoku/solver/SuDokuProblem.java:85-101 | Creates all n³ candidates in (row, column, value) order. |
| `SuDokuProblems.SuDokuProblem.AddCandidate` | sudoku/solver/SuDokuProblem.java:96-97 | Appends candidate (r, c, v) at its position. |
| `SuDokuProblems.SuDokuProblem.InitConstraints` | sudoku/solver/SuDokuProblem.java:102-109 | Builds the full constraint list: cells, rows, columns, then boxes. |
| `SuDokuProblems.SuDokuProblem.InitLineConstraints` | sudoku/solver/SuDokuProblem.java:110-157 | Appends all n² constraints of one kind, in order. |
| `SuDokuProblems.SuDokuProblem.LineConstraint` | sudoku/solver/SuDokuProblem.java:110-157 | One line constraint's member set. |
| `SuDokuProblems.SuDokuProblem.InitBoxConstraints` | sudoku/solver/SuDokuProblem.java:158-182 | Appends the box constraints, with the corrected loop bounds. |
| `SuDokuProblems.SuDokuProblem.BoxConstraint` | sudoku/solver/SuDokuProblem.java:170-178 | One box constraint's member set, with the corrected bounds. |
| `SuDokuProblems.SuDokuProblem.InitGivens` | sudoku/solver/SuDokuProblem.java:183-200 | A candidate is a given exactly when its cell holds its value. |
| `SuDokuGrid.CellGroup.Row` | sudoku/Row.java:9-15 | An empty row with its index. |
| `SuDokuGrid.CellGroup.Column` | sudoku/Column.java:9-15 | An empty column with its index. |
| `SuDokuGrid.CellGroup.Box` | sudoku/Box.java:10-17 | An empty box with its band and stack. |
| `SuDokuGrid.CellGroup.AddCell` | sudoku/CellGroup.java:57-60 | Appends the cell, so iteration follows insertion order. |
| `SuDokuGrid.CellGroup.Values` | sudoku/CellGroup.java:45-55 | Exactly the values some cell of the group holds, and no more values than cells. |
| `SuDokuGrid.Cell.constructor` | sudoku/Cell.java:21-31 | A blank cell with nothing crossed off, linked to its row, column and box, and indexed by them. |
| `SuDokuGrid.Cell.Reset` | sudoku/Cell.java:50-54 | Blank, with nothing crossed off. |
| `SuDokuGrid.Cell.SetValue` | sudoku/Cell.java:58-61 | The cell holds the value; a null value blanks it. |
| `SuDokuGrid.Cell.EraseValue` | sudoku/Cell.java:65-68 | Blank. |
| `SuDokuGrid.Cell.CrossOffCandidate` | sudoku/Cell.java:79-82 | Adds the value to the crossed-off set. |
| `SuDokuGrid.Cell.ReinstateCandidate` | sudoku/Cell.java:86-89 | Removes the value from the crossed-off set. |
| `SuDokuGrid.Cell.Candidates` | sudoku/Cell.java:102-115 | A filled cell's only candidate is its value. A blank cell's candidates are the values no cell of its row, column or box holds. |
| `SuDokuGrid.Cell.RemainingCandidates` | sudoku/Cell.java:121-126 | Fails with `UnsupportedOperation` exactly when the cell is filled and its value is crossed off. Otherwise the result is the candidates minus the crossed-off ones. |
| `Hints.Hint.constructor` | sudoku/Hint.java:21-26 | The text starts with the strategy name and ": ", and there are no elements or values. |
| `Hints.Hint.AddText` | sudoku/Hint.java:36-39 | Appends, and the text still starts with the name. |
| `Hints.Hint.AddValue` | sudoku/Hint.java:44-47 | Set insertion. |
| `Hints.Hint.AddElement` | sudoku/Hint.java:52-63 | List append, keeping order and duplicates. |
| `SuDokuPuzzle.BlockOf` | sudoku/SuDoku.java:132 | The block index of a row or column is in range, and the block contains it. |
| `SuDokuPuzzle.SuDoku.PlaceCell` | sudoku/SuDoku.java:131-137 | Creates one cell holding the puzzle's value. It is stored at its position and appended to its row, its column and its box; every other position is unchanged. |
| `SuDokuPuzzle.SuDoku.SweepRow` | sudoku/SuDoku.java:129-138 | After one row of the sweep, the grid and groups are built up to the end of that row. |
| `SuDokuPuzzle.SuDoku.InitCells` | sudoku/SuDoku.java:119-140 | Every cell is linked to its row, column and box. Each group holds exactly its cells, in row-major order. Each cell holds the given value with nothing crossed off. |
| `SuDokuPuzzle.SuDoku.InitRows` | sudoku/SuDoku.java:162-170 | One empty row per index. |
| `SuDokuPuzzle.SuDoku.InitColumns` | sudoku/SuDoku.java:153-161 | One empty column per index. |
| `SuDokuPuzzle.SuDoku.InitBoxes` | sudoku/SuDoku.java:141-152 | One empty box per band and stack. |
| `SuDokuPuzzle.SuDoku.CopyPuzzle` | sudoku/SuDoku.java:104-111 | A fresh copy of the puzzle's n×n values. |
| `SuDokuPuzzle.SuDoku.constructor` | sudoku/SuDoku.java:98-117 | A fully wired grid whose cells hold the puzzle's values, with no solution yet. |
| `SuDokuPuzzle.SuDoku.SolveGivens` | sudoku/SuDoku.java:194-201 | The count is 0, 1 or many, and a grid is returned exactly when it is 1. The count is 0 when propagation from the givens fails. It is 1 when that propagation resolves every constraint, and the grid then shows the definites propagation leaves. The grid's values come from the value set. When the set has exactly n values, the grid fills every given cell. |
| `SuDokuPuzzle.SuDoku.CheckSolutions` | sudoku/SuDoku.java:189-204 | Returns `NO_SOLUTION`, `SINGLE_SOLUTION` or `MANY_SOLUTIONS`. It is `NO_SOLUTION` when propagation from the givens fails. It is `SINGLE_SOLUTION` when that propagation resolves every constraint, and the new solution then shows the definites propagation leaves. The solution is replaced only on a single solution, by a fresh grid as stated for `SolveGivens`. The grid stays wired. |
| `SuDokuPuzzle.SuDoku.Recheck` | sudoku/SuDoku.java:191-202 | The body of `checkSolutions`, with the same guarantees except the grid's wiring. It leaves the cells and groups unchanged. |
| `SuDokuPuzzle.SuDoku.GetCell` | sudoku/SuDoku.java:208-211 | Fails with `IndexOutOfBounds` exactly when the position is off the grid. Otherwise it returns the cell at that position, in that row, column and box. |
| `SuDokuPuzzle.SuDoku.Reset` | sudoku/SuDoku.java:215-226 | Every cell is back to its given value with nothing crossed off, and the grid stays wired. |
| `SuDokuPuzzle.SuDoku.BadCellsMeaning` | sudoku/SuDoku.java:257-272 | The collected list holds exactly the bad cells: a filled cell whose value differs from the solution's, or a blank cell with the solution's value crossed off. It is empty exactly when there is no bad cell. |
| `SuDokuPuzzle.SuDoku.CollectBadCells` | sudoku/SuDoku.java:253-272 | The hint carries every bad cell, in row-major order. |
| `SuDokuPuzzle.SuDoku.CheckPuzzle` | sudoku/SuDoku.java:249-279 | Fails with a null dereference exactly when there is no solution and the grid is not empty. No hint means no bad cell. A hint is the "BOO BOO" hint listing exactly the bad cells. |
| `Strategies.OnlyCandidateMeaning` | sudoku/strategy/SingletonStrategy.java:29-40 | For a blank cell, v is its only candidate exactly when the remaining candidates are `{v}`. |
| `Strategies.CheckForSingleton` | sudoku/strategy/SingletonStrategy.java:29-40 | An answer is the cell's only candidate; no answer means there is none. |
| `Strategies.FindSingleton` | sudoku/strategy/SingletonStrategy.java:18-26 | Finds nothing exactly when no cell has a singleton. Otherwise it finds the first one in row-major order. |
| `Strategies.SingletonConstructHint` | sudoku/strategy/SingletonStrategy.java:41-49 | The hint names the strategy, explains the value, and points at the cell and the value. |
| `Strategies.SingletonHint` | sudoku/strategy/SingletonStrategy.java:14-27 | No hint exactly when no cell has a singleton. Otherwise it gives the hint for the first singleton cell in row-major order. |
| `Strategies.HiddenSingleOf` | sudoku/strategy/HiddenSingleStrategy.java:74-90 | Any cell the scan answers lies in the group. |
| `Strategies.HiddenSingleMeaning` | sudoku/strategy/HiddenSingleStrategy.java:74-90 | When no cell throws, the scan answers cell i exactly when i is the only cell of the group still offering v. |
| `Strategies.HiddenSingleThrows` | sudoku/strategy/HiddenSingleStrategy.java:79 | A filled, crossed-off cell reached before a second offer makes the scan throw `UnsupportedOperation`. |
| `Strategies.HiddenSingleSecondHit` | sudoku/strategy/HiddenSingleStrategy.java:84-85 | A second cell offering v stops the scan with no answer. |
| `Strategies.HiddenSingleAtEnd` | sudoku/strategy/HiddenSingleStrategy.java:89 | Reaching the end answers the one offering cell, or nothing when none offered v. |
| `Strategies.CheckForHiddenSingle` | sudoku/strategy/HiddenSingleStrategy.java:74-90 | The loop computes the scan defined by `HiddenSingleOf`. |
| `Strategies.ViewOf` | sudoku/strategy/HiddenSingleStrategy.java:65-66 | The values tried are exactly those of the set that no cell of the group holds. |
| `Strategies.HiddenSingleInGroup` | sudoku/strategy/HiddenSingleStrategy.java:62-90 | With no failing cell, a group answers (v, i) exactly when v is in the value set, no cell holds v, and cell i is the only one offering v. |
| `Strategies.CheckCellGroup` | sudoku/strategy/HiddenSingleStrategy.java:62-73 | Reports the first untried value with an answer or a failure, or nothing if there is none. |
| `Strategies.HiddenSingleConstructHint` | sudoku/strategy/HiddenSingleStrategy.java:92-101 | The hint names the strategy, explains the value, and points at the group, the cell and the value. |
| `Strategies.EarlierOrder` | sudoku/strategy/HiddenSingleStrategy.java:16-61 | The visiting order (boxes row-major, then rows, then columns) is a strict total order on groups. |
| `Strategies.CheckBoxes` | sudoku/strategy/HiddenSingleStrategy.java:27-41 | Nothing means every box is quiet. Otherwise it stops at the first box in band-major order that reports. |
| `Strategies.CheckRows` | sudoku/strategy/HiddenSingleStrategy.java:42-51 | The same, over the rows. |
| `Strategies.CheckColumns` | sudoku/strategy/HiddenSingleStrategy.java:52-61 | The same, over the columns. |
| `Strategies.FindHiddenSingle` | sudoku/strategy/HiddenSingleStrategy.java:16-25 | Nothing exactly when every group is quiet. Otherwise it stops at the first group that reports. |
| `Strategies.HiddenSingleHint` | sudoku/strategy/HiddenSingleStrategy.java:16-25 | No hint exactly when every group is quiet. An answer yields the hidden-single hint for the first reporting group's cell and value, and a failure is passed on. |
| `Strategies.Consult` | sudoku/SuDoku.java:239 | One strategy's answer is nothing exactly when that strategy is quiet: for the singleton strategy, no blank cell has a single remaining candidate; for the hidden single strategy, every group is quiet. Any other answer is that strategy's own hint, or a hidden-single `UnsupportedOperation`. The grid is left as it was. |
| `Strategies.ConsultSingleton` | sudoku/strategy/SingletonStrategy.java:14-27 | The singleton strategy answers nothing exactly when no blank cell has a single remaining candidate; otherwise its hint carries the strategy's name. |
| `Strategies.ConsultHiddenSingle` | sudoku/strategy/HiddenSingleStrategy.java:16-25 | The hidden single strategy answers nothing exactly when every group is quiet; otherwise its hint carries the strategy's name, or the search threw `UnsupportedOperation`. |
| `Strategies.ConsultAll` | sudoku/SuDoku.java:237-240 | The loop asks the strategies in list order. It ends with nothing exactly when every strategy is quiet. Otherwise its answer is that of the first strategy that is not quiet, and every strategy before it was quiet. |
| `Strategies.GetHint` | sudoku/SuDoku.java:234-242 | Fails with a null dereference exactly when there is no solution and the grid is not empty. Any other failure is a hidden-single `UnsupportedOperation`. If any cell is wrong, the "BOO BOO" hint wins. The result is nothing exactly when the check passes and every listed strategy is quiet. Once the check has passed, any answer is that of the first strategy in list order that is not quiet. |

## Left out

- `Strategies.HiddenSingleHint`: it takes each group's remaining-candidate sets once and then scans. This is equivalent to the Java, which recomputes them while scanning, because nothing changes the grid during the scan.
- `Solver.ConstrainedProblem.SolveRecurse`: the count is tied to `Solver.Propagation` and to the branching loop's record, not to an independent count of the solutions of the constraint system. When propagation neither fails nor resolves everything, the count is only 0, 1 or the sum of the trials' counts.
- `Solver.ConstrainedProblem.Branch`: the first trial's start is the branch's own state. A later trial's start is pinned only by its partitions, which are the branch's, and by an active set within the branch's. Its flags and dirty queue are not specified. Each turn (`Solver.ConstrainedProblem.BranchStep`) pins them only from below: every constraint the restore dirtied is flagged and queued (`Constraint.java:160-163`), but which others the trial's own search left dirty is not specified. Each trial's count is also tied to its start only through `Solver.Settles`.
- `Solver.ConstrainedProblem.Trial`: exact restore is proved for the candidate partitions only. The active constraint set is aliased, as the code does (see above). The flags and dirty set afterwards are only known to include what the restore marks, because the search before it leaves them unspecified.
- `SuDokuPuzzle.SuDoku.CheckSolutions`: it requires at least as many values as the grid is wide; with fewer, `SuDokuProblem.initGivens` indexes past the value array (`SuDokuProblem.java:195`) for a filled cell, and that error path is not modelled. The filled-givens guarantee is stated only when the set has exactly n values.
- `SuDokuPuzzle.SuDoku.constructor`: it requires the puzzle array to be at least n×n, where the Java would index out of bounds.
- `SuDokuProblems.SuDokuProblem.constructor`: it has the same requirements, and the same reason as `CheckSolutions`.
- `HashSet` iteration order is not modelled. A loop over a set picks any remaining element, and the contracts hold for every order. The branch constraint (`ConstrainedProblem.java:144`) is any active one, and the possibilities are tried in any order.
- `Solver.ConstrainedProblem.Propagate`: the next dirty constraint (`ConstrainedProblem.java:126`) is taken to be the one with the smallest id, so that `Solver.Propagation` is a function. The Java takes the first element in the `HashSet`'s iteration order, which depends on hash codes.
- The integer width of counts and ids is not modelled. Counts are at most 2 plus `UNKNOWN_NO_SOLUTIONS`. The number of candidates, n³, is taken as unbounded.
- `Constraint.isDirty`, `ConstrainedProblem.getNSolutions` and `getSolution` are field reads. The model reads the fields directly. What the flag means is `Solver.SyncedFlags`, kept by `Valid`.
- `ConstrainedProblem.getPossibleSolutions` is not modelled. It is marked "not yet implemented" in the source, and nothing uses it.
- `Constraint.getCandidates`, `getDefinites`, `getNCandidates` and `getNDefinites` are copies and sizes of the partition's sets. Copying is implicit, because the sets are values.
- `Constraint.setParent` and the parent reference are left implicit: every `Single(i)` belongs to the one problem.
- The constraint `label`s, every `toString`, and the GUI are not modelled, because they are presentation only. The candidate label is the exception. `SuDokuCandidate`'s constructor computes it from its coordinates (`SuDokuCandidate.java:18`), so `SuDokuCandidates.Label` models that computation, and `SuDokuCandidates.LabelIdentifies` shows that the label names one candidate.
- `Solver.ConstrainedProblem.InitialGraph`: the sub-constraints' `add` calls (`SuDokuProblem.java:120`, `136`, `152` and `175`, through `Constraint.java:45-49` and `Candidate.java:41-43`) are summarised by a precomputed membership map, `Solver.MembershipOf`. `Solver.ConstrainedProblem.Add` runs only for the problem's own add calls (`ConstrainedProblem.java:66`). The resulting graph is the same, because `add` marks nothing dirty. Both sets of add calls run on values before the problem object exists. From then on, the owners are fixed.
- `SuDokuProblem` always passes an empty dirty-at-start list. The engine takes the list as a parameter.
- `SuDoku.initStrategies` loads strategy classes by reflection and reports failures on standard error. The model takes a list of strategy kinds, `Singleton` and `HiddenSingle`.
- The `SuDoku` back-reference in `Cell` is replaced by the value set it reads through it.
- In the strategies, the accessor class for the grid's internals becomes module methods given the `SuDoku`.
- Cell groups are created once and never replaced, so a `SuDoku`'s rows, columns and boxes are constant sequences.
- Puzzle values are Java `String`s, modelled as `string`. Only equality on them is used.

## Findings

| source | as written | input that shows it | evidently intended | confidence | as-written member | corrected member |
|---|---|---|---|---|---|---|
| sudoku/solver/SuDokuProblem.java:171-175 | A box's rows run `r < nBands` from `br * nStacks`, and its columns run `c < nStacks` from `bc * nBands`. | nBands = 2, nStacks = 3 (a 6×6 grid): box (0, 2) starts at column 4 and visits columns 4, 5 and 6. Column 6 is outside the candidate array, so the constructor throws `ArrayIndexOutOfBoundsException`. | Each box is nStacks rows tall and nBands columns wide: `r < nStacks`, `c < nBands`. This matches `boxes[r/nStacks][c/nBands]` in `SuDoku.java:132`. | not executed | `SuDokuConstraints.AsWrittenInGridIffSquare` | `SuDokuConstraints.BoxMeaning` |
