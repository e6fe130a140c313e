/** Runs from the empty database that show the open races: a task of the same title made by hand, or the task deleted,
    between a read of an apply and its commit, which no apply alone would then have made; and an update between whose
    read and write an apply commits. */
module ApplyRaces {
  import opened Options
  import opened CandidateDb
  import opened ApplyProtocol
  import opened ApplyOnce

  ghost predicate Reachable(hash: KeyHash, s: Sys) {
    exists steps :: Reaches(hash, INITIAL, steps, s)
  }

  lemma ReachableIsInv(hash: KeyHash, s: Sys)
    requires Reachable(hash, s)
    ensures Inv(hash, s)
  {
    var steps :| Reaches(hash, INITIAL, steps, s);
    EveryRunKeeps(hash, INITIAL, steps);
  }

  lemma ReachableStep(hash: KeyHash, s: Sys, step: Step, next: Sys)
    requires Reachable(hash, s) && Enabled(hash, s, step) && Do(hash, s, step) == next
    ensures Reachable(hash, next)
  {
    var steps :| Reaches(hash, INITIAL, steps, s);
    ReachesOneMore(hash, INITIAL, steps, s, step);
  }

  lemma {:induction false} ReachableRun(hash: KeyHash, s: Sys, steps: seq<Step>, there: Sys)
    requires Reachable(hash, s) && Reaches(hash, s, steps, there)
    ensures Reachable(hash, there)
    decreases |steps|
  {
    if steps != [] {
      ReachableStep(hash, s, steps[0], Do(hash, s, steps[0]));
      ReachableRun(hash, Do(hash, s, steps[0]), steps[1..], there);
    }
  }

  /** The transaction goes on to its next stage and nothing else changes. */
  lemma ReachableStage(hash: KeyHash, s: Sys, t: TxnId, stage: Stage, step: Step, later: Stage)
    requires t in s.txns && Reachable(hash, Advance(s, t, stage))
    requires Enabled(hash, Advance(s, t, stage), step) && Do(hash, Advance(s, t, stage), step) == Advance(Advance(s, t, stage), t, later)
    ensures Reachable(hash, Advance(s, t, later))
  {
    AdvanceTwice(s, t, stage, later);
    ReachableStep(hash, Advance(s, t, stage), step, Advance(s, t, later));
  }

  // ----- one candidate, and an apply of it beside pending updates -----

  type Updates = map<UpdateId, PendingUpdate>

  function Started(row: Candidate, actor: Actor, updates: Updates): Sys {
    Sys(Db(map[0 := row], map[], map[], []), map[0 := Txn(0, Manual, actor, Begun)], updates, {})
  }

  lemma StartReachable(hash: KeyHash, row: Candidate, actor: Actor)
    requires row.status == Draft
    ensures Reachable(hash, Started(row, actor, map[]))
  {
    assert Reaches(hash, INITIAL, [], INITIAL);
    var created := Sys(Db(map[0 := row], map[], map[], []), map[], map[], {});
    ReachableStep(hash, INITIAL, CreateCandidate(0, row), created);
    ReachableStep(hash, created, Begin(0, 0, Manual, actor), Started(row, actor, map[]));
  }

  /** Nothing is in the way: the apply has seen no lineage and no open task of the title. */
  lemma SeesNothing(hash: KeyHash, row: Candidate, actor: Actor, updates: Updates)
    requires Reachable(hash, Started(row, actor, updates)) && row.status == Draft && NormalizeTitle(row.title) != ""
    ensures Reachable(hash, Advance(Started(row, actor, updates), 0, DuplicateAbsent(row)))
  {
    var s := Started(row, actor, updates);
    LocksBoth(hash, s, 0);
    ReachableRun(hash, s, [LockRow(0), LockKey(0)], Advance(s, 0, KeyLocked(row)));
    ReachableStage(hash, s, 0, KeyLocked(row), ReadLineage(0, None), LineageAbsent(row));
    ReachableStage(hash, s, 0, LineageAbsent(row), CheckDuplicate(0, None), DuplicateAbsent(row));
  }

  lemma InsertsAndStages(hash: KeyHash, s: Sys, t: TxnId, row: Candidate, task: TaskId, lineage: LineageId)
    requires t in s.txns && s.txns[t].mode == Manual && s.txns[t].stage.Begun?
    requires FreshTask(s, task) && FreshLineage(s, lineage)
    requires Reachable(hash, Advance(s, t, DuplicateAbsent(row)))
    ensures Reachable(hash, Advance(s, t, RowStaged(row, task, lineage)))
  {
    ReachableStage(hash, s, t, DuplicateAbsent(row), InsertTask(t, task), TaskInserted(row, task));
    ReachableStage(hash, s, t, TaskInserted(row, task), InsertLineage(t, lineage), LineageInserted(row, task, lineage));
    ReachableStage(hash, s, t, LineageInserted(row, task, lineage), StageRow(t), RowStaged(row, task, lineage));
  }

  // ----- a task made by hand -----

  /** The same with an open task of the candidate's title, which nobody applied. */
  function WithTask(row: Candidate, actor: Actor): Sys {
    Sys(Db(map[0 := row], map[0 := NewTask(row, Manual)], map[], []), map[0 := Txn(0, Manual, actor, Begun)], map[], {})
  }

  lemma MakesTask(hash: KeyHash, row: Candidate, actor: Actor)
    requires row.status == Draft && NormalizeTitle(row.title) != ""
    ensures Reachable(hash, Advance(WithTask(row, actor), 0, DuplicateAbsent(row)))
  {
    StartReachable(hash, row, actor);
    SeesNothing(hash, row, actor, map[]);
    ReachableStep(hash, Advance(Started(row, actor, map[]), 0, DuplicateAbsent(row)), CreateTask(0, NewTask(row, Manual)),
                  Advance(WithTask(row, actor), 0, DuplicateAbsent(row)));
  }

  /** Once the apply has looked for open tasks of its title, a client makes one: the commit then adds a second. */
  lemma HandMadeTaskBreaksAtomicity(hash: KeyHash, row: Candidate, actor: Actor, answered: bool, outcome: ApplyOutcome)
    requires row.status == Draft && NormalizeTitle(row.title) != ""
    ensures var s := Advance(WithTask(row, actor), 0, RowStaged(row, 1, 0));
            && Reachable(hash, s) && Enabled(hash, s, Commit(0, answered))
            && !AppliesTo(s.db, 0, Manual, actor, 1, 0, Do(hash, s, Commit(0, answered)).db, outcome)
  {
    MakesTask(hash, row, actor);
    InsertsAndStages(hash, WithTask(row, actor), 0, row, 1, 0);
    var s := Advance(WithTask(row, actor), 0, RowStaged(row, 1, 0));
    ReachableIsInv(hash, s);
    FirstApplyIsAtomic(hash, s, 0, answered);
    StoredTitleMatchesKey(row.title);
    assert OpenDuplicate(s.db, 0, s.txns[0].Project(), s.txns[0].Key());
  }

  // ----- a task deleted -----

  /** The candidate applied to task 1. */
  function Published(row: Candidate, actor: Actor, updates: Updates): Sys {
    var s := Started(row, actor, updates);
    s.(db := PublishApply(s.db, 0, row, Manual, actor, 1, 0), applied := {1})
  }

  function AppliedOnce(row: Candidate, actor: Actor, updates: Updates): Sys {
    Advance(Published(row, actor, updates), 0, Finished(Succeeded(AppliedRow(row, Manual), 1, 0, false)))
  }

  lemma AppliesOnce(hash: KeyHash, row: Candidate, actor: Actor, updates: Updates)
    requires Reachable(hash, Started(row, actor, updates)) && row.status == Draft && NormalizeTitle(row.title) != ""
    ensures Reachable(hash, AppliedOnce(row, actor, updates))
  {
    var s := Started(row, actor, updates);
    SeesNothing(hash, row, actor, updates);
    InsertsAndStages(hash, s, 0, row, 1, 0);
    CommitPublishes(hash, row, actor, updates);
    ReachableStep(hash, Advance(s, 0, RowStaged(row, 1, 0)), Commit(0, true), AppliedOnce(row, actor, updates));
  }

  lemma CommitPublishes(hash: KeyHash, row: Candidate, actor: Actor, updates: Updates)
    ensures var staged := Advance(Started(row, actor, updates), 0, RowStaged(row, 1, 0));
            Enabled(hash, staged, Commit(0, true)) && Do(hash, staged, Commit(0, true)) == AppliedOnce(row, actor, updates)
  {
    AdvanceTwice(Published(row, actor, updates), 0, RowStaged(row, 1, 0), Finished(Succeeded(AppliedRow(row, Manual), 1, 0, false)));
  }

  /** And a second apply that has begun. */
  function Again(row: Candidate, actor: Actor): Sys {
    var s := AppliedOnce(row, actor, map[]);
    s.(txns := s.txns[1 := Txn(0, Manual, actor, Begun)])
  }

  lemma ReadsTask(hash: KeyHash, row: Candidate, actor: Actor)
    requires row.status == Draft && NormalizeTitle(row.title) != ""
    ensures Reachable(hash, Advance(Again(row, actor), 1, TaskRead(AppliedRow(row, Manual), 0, 1)))
  {
    var again := Again(row, actor);
    StartReachable(hash, row, actor);
    AppliesOnce(hash, row, actor, map[]);
    ReachableStep(hash, AppliedOnce(row, actor, map[]), Begin(1, 0, Manual, actor), again);
    LocksBoth(hash, again, 1);
    assert LineageOf(again.db, 0, 0);
    FindsTask(hash, again, 1, [LockRow(1), LockKey(1)], AppliedRow(row, Manual), 0, 1);
    ReachableRun(hash, again, [LockRow(1), LockKey(1)] + [ReadLineage(1, Some(0))] + [ReadTask(1)],
                 Advance(again, 1, TaskRead(AppliedRow(row, Manual), 0, 1)));
  }

  /** Without tasks and lineage rows, an apply alone makes a task. */
  lemma LoneApplyMakesTask(db: Db, id: CandidateId, actor: Actor, task: TaskId, lineage: LineageId, after: Db, outcome: ApplyOutcome)
    requires id in db.candidates && NormalizeTitle(db.candidates[id].title) != "" && db.candidates[id].status != Rejected
    requires db.tasks == map[] && db.lineage == map[]
    ensures AppliesTo(db, id, Manual, actor, task, lineage, after, outcome) ==> task in after.tasks
  {
  }

  /** Once the second apply has read the task, a client deletes it: the commit still answers that task. */
  lemma DeletedTaskBreaksAtomicity(hash: KeyHash, row: Candidate, actor: Actor, task: TaskId, lineage: LineageId,
                                   answered: bool, outcome: ApplyOutcome)
    requires row.status == Draft && NormalizeTitle(row.title) != ""
    ensures var read := Advance(Again(row, actor), 1, TaskRead(AppliedRow(row, Manual), 0, 1));
            var s := read.(db := RemoveTask(read.db, 1));
            && Reachable(hash, s) && Enabled(hash, s, Commit(1, answered))
            && !AppliesTo(s.db, 0, Manual, actor, task, lineage, Do(hash, s, Commit(1, answered)).db, outcome)
  {
    ReadsTask(hash, row, actor);
    var read := Advance(Again(row, actor), 1, TaskRead(AppliedRow(row, Manual), 0, 1));
    var s := read.(db := RemoveTask(read.db, 1));
    ReachableStep(hash, read, DeleteTask(1), s);
    ReachableIsInv(hash, s);
    LoneApplyMakesTask(s.db, 0, actor, task, lineage, Do(hash, s, Commit(1, answered)).db, outcome);
  }

  // ----- an update that outlives an apply -----

  lemma PendingReachable(hash: KeyHash, row: Candidate, actor: Actor, request: UpdateRequest, catalog: set<string>, editor: Actor)
    requires row.status == Draft && PlanUpdate(row, request, catalog).Planned?
    ensures Reachable(hash, Started(row, actor, map[0 := PendingUpdate(0, PlanUpdate(row, request, catalog).patch, editor)]))
  {
    var pending := PendingUpdate(0, PlanUpdate(row, request, catalog).patch, editor);
    assert Reaches(hash, INITIAL, [], INITIAL);
    var created := Sys(Db(map[0 := row], map[], map[], []), map[], map[], {});
    ReachableStep(hash, INITIAL, CreateCandidate(0, row), created);
    ReachableStep(hash, created, UpdateRead(0, 0, request, catalog, editor), created.(updates := map[0 := pending]));
    ReachableStep(hash, created.(updates := map[0 := pending]), Begin(0, 0, Manual, actor), Started(row, actor, map[0 := pending]));
  }

  /** Any update that is read before an apply commits, and that the audit does not refuse, takes the status applied
      away when it is written after it. */
  lemma PendingUpdateRevertsStatus(hash: KeyHash, row: Candidate, actor: Actor, request: UpdateRequest, catalog: set<string>, editor: Actor)
    requires row.status == Draft && NormalizeTitle(row.title) != "" && PlanUpdate(row, request, catalog).Planned?
    requires PlanUpdate(row, request, catalog).patch.roleChanged ==> CheckActor(editor).None?
    ensures var s := AppliedOnce(row, actor, map[0 := PendingUpdate(0, PlanUpdate(row, request, catalog).patch, editor)]);
            && Reachable(hash, s) && Enabled(hash, s, UpdateWrite(0)) && s.db.candidates[0].status == Applied
            && var next := Do(hash, s, UpdateWrite(0));
            Reachable(hash, next) && AppliedTo(next.db, 0, 0, 1) && next.db.candidates[0].status != Applied
  {
    var updates := map[0 := PendingUpdate(0, PlanUpdate(row, request, catalog).patch, editor)];
    var s := AppliedOnce(row, actor, updates);
    PendingReachable(hash, row, actor, request, catalog, editor);
    AppliesOnce(hash, row, actor, updates);
    assert AppliedTo(s.db, 0, 0, 1);
    ReachableStep(hash, s, UpdateWrite(0), Do(hash, s, UpdateWrite(0)));
    StaleUpdateRevertsStatusIff(hash, s, 0, row, request, catalog, 0, 1);
  }
}
