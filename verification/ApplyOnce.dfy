/** What concurrent applies amount to: a commit does what an apply running alone would do, and once a
    candidate has a task, no later apply makes a second one, stale updates notwithstanding. */
module ApplyOnce {
  import opened Options
  import opened CandidateDb
  import opened ApplyProtocol

  // ----- the end of an apply is an atomic apply -----

  /** A first apply commits what it would have done alone at that moment, and answers so unless the answer gets
      lost, exactly when no one else (a client creating tasks by hand takes no title lock) has opened a task with this
      title meanwhile. */
  lemma FirstApplyIsAtomic(hash: KeyHash, s: Sys, t: TxnId, answered: bool)
    requires Inv(hash, s) && Enabled(hash, s, Commit(t, answered)) && s.txns[t].stage.RowStaged?
    ensures var txn, next := s.txns[t], Do(hash, s, Commit(t, answered));
            var outcome := Succeeded(AppliedRow(txn.stage.row, txn.mode), txn.stage.newTask, txn.stage.newLineage, false);
            && (AppliesTo(s.db, txn.id, txn.mode, txn.actor, txn.stage.newTask, txn.stage.newLineage, next.db, outcome)
                <==> NoOpenDuplicate(s.db, txn.Project(), txn.Key()))
            && next.txns[t].stage.outcome == Answer(answered, outcome)
  {
  }

  /** A repeated apply does, too, exactly when the task it found is still there. */
  lemma RepeatedApplyIsAtomic(hash: KeyHash, s: Sys, t: TxnId, task: TaskId, lineage: LineageId, answered: bool)
    requires Inv(hash, s) && Enabled(hash, s, Commit(t, answered)) && s.txns[t].stage.TaskRead?
    ensures var txn, next := s.txns[t], Do(hash, s, Commit(t, answered));
            var outcome := Succeeded(txn.stage.row.(status := Applied), txn.stage.task, txn.stage.lineage, true);
            && (AppliesTo(s.db, txn.id, txn.mode, txn.actor, task, lineage, next.db, outcome) <==> txn.stage.task in s.db.tasks)
            && next.txns[t].stage.outcome == Answer(answered, outcome)
  {
  }

  /** A statement that ends its apply without a commit. */
  ghost predicate Refuses(hash: KeyHash, s: Sys, step: Step) {
    && Enabled(hash, s, step) && step.OfApply() && !step.Commit? && !step.Abort?
    && Do(hash, s, step).txns[step.t].stage.Finished?
  }

  /** An apply that is refused gets the answer it would have got alone at that moment. Only the audit's refusal,
      which comes last, depends on there being no open task of the title by then. */
  lemma RefusalIsAtomic(hash: KeyHash, s: Sys, step: Step, task: TaskId, lineage: LineageId)
    requires Inv(hash, s) && Refuses(hash, s, step)
    ensures var txn, next := s.txns[step.t], Do(hash, s, step);
            AppliesTo(s.db, txn.id, txn.mode, txn.actor, task, lineage, next.db, next.txns[step.t].stage.outcome)
            <==> (step.StageRow? ==> NoOpenDuplicate(s.db, txn.Project(), txn.Key()))
  {
    assert TxnInv(s.db, s.applied, s.txns[step.t]);
  }

  // ----- no double apply -----

  /** The candidate has been applied to this task, and both rows are there. */
  ghost predicate AppliedTo(db: Db, id: CandidateId, lineage: LineageId, task: TaskId) {
    LineageOf(db, lineage, id) && db.lineage[lineage].task == task && task in db.tasks && id in db.candidates
  }

  /** The step is a statement of an apply of this candidate. */
  ghost predicate StatementOn(s: Sys, step: Step, id: CandidateId) {
    step.OfApply() && step.t in s.txns && s.txns[step.t].id == id
  }

  /** A statement fails, or the answer to a commit gets lost. */
  predicate StoreFails(step: Step) {
    step.Abort? || (step.Commit? && !step.answered)
  }

  /** How an apply of the candidate may end now: the store failed, its title has become blank, or it answers with
      the known task and lineage and leaves the candidate applied. */
  ghost predicate EndsWell(db: Db, next: Db, outcome: ApplyOutcome, failed: bool, id: CandidateId, lineage: LineageId, task: TaskId) {
    || (failed && outcome == Failed(StoreFailure))
    || (outcome == Failed(BlankTitle) && id in db.candidates && NormalizeTitle(db.candidates[id].title) == "")
    || (&& outcome.Succeeded? && outcome.task == task && outcome.lineage == lineage && outcome.alreadyApplied
        && id in next.candidates && next.candidates[id].status == Applied)
  }

  /** Such a statement adds no row anywhere, and if it is the last of its apply, that ends as above. */
  ghost predicate AddsNothing(s: Sys, next: Sys, step: Step, id: CandidateId, lineage: LineageId, task: TaskId)
    requires step.OfApply()
  {
    && next.db.tasks == s.db.tasks && next.db.lineage == s.db.lineage && next.db.audit == s.db.audit
    && next.applied == s.applied
    && step.t in s.txns && step.t in next.txns
    && (next.txns[step.t].stage.Finished? ==>
          EndsWell(s.db, next.db, next.txns[step.t].stage.outcome, StoreFails(step), id, lineage, task))
  }

  lemma StatementAddsNothing(hash: KeyHash, s: Sys, step: Step, id: CandidateId, lineage: LineageId, task: TaskId)
    requires Inv(hash, s) && Enabled(hash, s, step) && AppliedTo(s.db, id, lineage, task)
    requires step.OfApply() && s.txns[step.t].id == id
    ensures AddsNothing(s, Do(hash, s, step), step, id, lineage, task)
  {
    assert !NoLineage(s.db, id);
    assert TxnInv(s.db, s.applied, s.txns[step.t]);
  }

  /** The lineage row lasts as long as its task and its candidate do. */
  lemma LineageLasts(hash: KeyHash, s: Sys, step: Step, id: CandidateId, lineage: LineageId, task: TaskId)
    requires Inv(hash, s) && Enabled(hash, s, step) && AppliedTo(s.db, id, lineage, task)
    requires task in Do(hash, s, step).db.tasks && id in Do(hash, s, step).db.candidates
    ensures AppliedTo(Do(hash, s, step).db, id, lineage, task)
  {
    if step.Commit? {
      assert TxnInv(s.db, s.applied, s.txns[step.t]);
    }
  }

  /** Task and candidate are in every state of the run. */
  ghost predicate Survive(hash: KeyHash, s: Sys, steps: seq<Step>, id: CandidateId, task: TaskId)
    requires ValidRun(hash, s, steps)
    decreases |steps|
  {
    && task in s.db.tasks && id in s.db.candidates
    && (steps != [] ==> Survive(hash, Do(hash, s, steps[0]), steps[1..], id, task))
  }

  ghost predicate NeverAppliedAgain(hash: KeyHash, s: Sys, steps: seq<Step>, id: CandidateId, lineage: LineageId, task: TaskId)
    requires ValidRun(hash, s, steps)
    decreases |steps|
  {
    steps == [] ||
    (var next := Do(hash, s, steps[0]);
     && (StatementOn(s, steps[0], id) ==> AddsNothing(s, next, steps[0], id, lineage, task))
     && NeverAppliedAgain(hash, next, steps[1..], id, lineage, task))
  }

  /** While its task lives, an applied candidate is never applied twice, through any interleaving of applies (begun
      before or after), stale updates and everything else: each apply of it that ends, unless the store fails or
      the title is blank, answers with the one task and lineage and leaves it applied. */
  lemma {:induction false} NoDoubleApply(hash: KeyHash, s: Sys, steps: seq<Step>, id: CandidateId, lineage: LineageId, task: TaskId)
    requires Inv(hash, s) && AppliedTo(s.db, id, lineage, task)
    requires ValidRun(hash, s, steps) && Survive(hash, s, steps, id, task)
    ensures NeverAppliedAgain(hash, s, steps, id, lineage, task)
    ensures AppliedTo(RunAll(hash, s, steps).db, id, lineage, task)
    decreases |steps|
  {
    if steps != [] {
      var next := Do(hash, s, steps[0]);
      if StatementOn(s, steps[0], id) {
        StatementAddsNothing(hash, s, steps[0], id, lineage, task);
      }
      StepKeeps(hash, s, steps[0]);
      LineageLasts(hash, s, steps[0], id, lineage, task);
      NoDoubleApply(hash, next, steps[1..], id, lineage, task);
    }
  }

  // ----- a stale update -----

  /** A client's update that was read before the candidate was applied stores the status it planned, which is never
      applied: afterwards the candidate is in status applied exactly when it was and the audit refused the update.
      The lineage row and the task stay. */
  lemma StaleUpdateRevertsStatusIff(hash: KeyHash, s: Sys, u: UpdateId, read: Candidate, request: UpdateRequest,
                                    catalog: set<string>, lineage: LineageId, task: TaskId)
    requires Enabled(hash, s, UpdateWrite(u)) && AppliedTo(s.db, s.updates[u].id, lineage, task)
    requires PlanUpdate(read, request, catalog) == Planned(s.updates[u].patch)
    ensures var pending, next := s.updates[u], Do(hash, s, UpdateWrite(u));
            && AppliedTo(next.db, pending.id, lineage, task)
            && (next.db.candidates[pending.id].status == Applied <==>
                  && s.db.candidates[pending.id].status == Applied
                  && pending.patch.roleChanged && CheckActor(pending.actor).Some?)
  {
  }

  /** The statements of an apply that finds the candidate's lineage and task. */
  function Retry(t: TxnId, lineage: LineageId): seq<Step> {
    [LockRow(t), LockKey(t), ReadLineage(t, Some(lineage)), ReadTask(t), Commit(t, true)]
  }

  /** The steps can be taken from `s` one after the other and lead to `there`. */
  ghost predicate Reaches(hash: KeyHash, s: Sys, steps: seq<Step>, there: Sys) {
    ValidRun(hash, s, steps) && RunAll(hash, s, steps) == there
  }

  lemma {:induction false} ReachesOneMore(hash: KeyHash, s: Sys, steps: seq<Step>, here: Sys, step: Step)
    requires Reaches(hash, s, steps, here) && Enabled(hash, here, step)
    ensures Reaches(hash, s, steps + [step], Do(hash, here, step))
    decreases |steps|
  {
    var longer := steps + [step];
    if steps == [] {
      assert longer[1..] == [];
    } else {
      assert longer[1..] == steps[1..] + [step];
      ReachesOneMore(hash, Do(hash, s, steps[0]), steps[1..], here, step);
    }
  }

  lemma AdvanceTwice(s: Sys, t: TxnId, stage: Stage, later: Stage)
    requires t in s.txns
    ensures Advance(Advance(s, t, stage), t, later) == Advance(s, t, later)
  {
  }

  /** No other transaction holds the row of this one's candidate or the key of its title. */
  ghost predicate LocksFree(hash: KeyHash, s: Sys, t: TxnId)
    requires t in s.txns && s.txns[t].id in s.db.candidates
  {
    var row := s.db.candidates[s.txns[t].id];
    RowFree(s, s.txns[t].id) && KeyFree(hash, s, row.project, NormalizeTitle(row.title))
  }

  /** One statement after the locks are free for it: the transaction is in the next stage, nothing else has changed. */
  lemma LocksBoth(hash: KeyHash, s: Sys, t: TxnId)
    requires t in s.txns && s.txns[t].stage.Begun? && s.txns[t].id in s.db.candidates
    requires LocksFree(hash, s, t) && NormalizeTitle(s.db.candidates[s.txns[t].id].title) != ""
    ensures Reaches(hash, s, [LockRow(t), LockKey(t)], Advance(s, t, KeyLocked(s.db.candidates[s.txns[t].id])))
  {
    var row := s.db.candidates[s.txns[t].id];
    var locked := Advance(s, t, RowLocked(row));
    ReachesOneMore(hash, s, [], s, LockRow(t));
    AdvanceTwice(s, t, RowLocked(row), KeyLocked(row));
    assert [] + [LockRow(t)] == [LockRow(t)];
    ReachesOneMore(hash, s, [LockRow(t)], locked, LockKey(t));
    assert [LockRow(t)] + [LockKey(t)] == [LockRow(t), LockKey(t)];
  }

  lemma FindsTask(hash: KeyHash, s: Sys, t: TxnId, steps: seq<Step>, row: Candidate, lineage: LineageId, task: TaskId)
    requires t in s.txns && AppliedTo(s.db, s.txns[t].id, lineage, task)
    requires Reaches(hash, s, steps, Advance(s, t, KeyLocked(row)))
    ensures Reaches(hash, s, steps + [ReadLineage(t, Some(lineage))] + [ReadTask(t)], Advance(s, t, TaskRead(row, lineage, task)))
  {
    AdvanceTwice(s, t, KeyLocked(row), LineageRead(row, lineage, task));
    ReachesOneMore(hash, s, steps, Advance(s, t, KeyLocked(row)), ReadLineage(t, Some(lineage)));
    AdvanceTwice(s, t, LineageRead(row, lineage, task), TaskRead(row, lineage, task));
    ReachesOneMore(hash, s, steps + [ReadLineage(t, Some(lineage))], Advance(s, t, LineageRead(row, lineage, task)), ReadTask(t));
  }

  /** The next apply puts such an update right: with its locks free, its five statements can run and end with the
      known task and the candidate applied, whatever status it had. */
  lemma RetryRestoresApplied(hash: KeyHash, s: Sys, t: TxnId, lineage: LineageId, task: TaskId)
    requires t in s.txns && s.txns[t].stage.Begun? && AppliedTo(s.db, s.txns[t].id, lineage, task)
    requires LocksFree(hash, s, t) && NormalizeTitle(s.db.candidates[s.txns[t].id].title) != ""
    ensures var row := s.db.candidates[s.txns[t].id].(status := Applied);
            Reaches(hash, s, Retry(t, lineage),
                    Advance(s.(db := MarkApplied(s.db, s.txns[t].id)), t, Finished(Succeeded(row, task, lineage, true))))
  {
    var row := s.db.candidates[s.txns[t].id];
    var steps := [LockRow(t), LockKey(t)];
    LocksBoth(hash, s, t);
    FindsTask(hash, s, t, steps, row, lineage, task);
    var found := steps + [ReadLineage(t, Some(lineage))] + [ReadTask(t)];
    var read := Advance(s, t, TaskRead(row, lineage, task));
    ReachesOneMore(hash, s, found, read, Commit(t, true));
    assert found + [Commit(t, true)] == Retry(t, lineage);
    AdvanceTwice(s.(db := MarkApplied(s.db, s.txns[t].id)), t, TaskRead(row, lineage, task),
                 Finished(Succeeded(row.(status := Applied), task, lineage, true)));
  }
}
