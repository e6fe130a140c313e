/** ApplyToTaskWithMode run by many transactions at once, statement by statement, beside clients that
    update, create and delete candidates and tasks. Reads are READ COMMITTED: a statement sees what is
    committed when it runs. A transaction's own inserts and updates stay in its stage until it commits. */
module ApplyProtocol {
  import opened Options
  import opened CandidateDb

  type TxnId = nat
  type UpdateId = nat

  /** The advisory-lock key of (project, normalised title). Nothing is assumed of it: hashtext may
      collide. */
  type KeyHash = (string, string) -> int

  /** How far a transaction is. Every stage but the first and the last holds the candidate's row lock;
      every stage from KeyLocked on holds the title lock too. */
  datatype Stage =
    | Begun
    | RowLocked(row: Candidate)
    | KeyLocked(row: Candidate)
    | LineageRead(row: Candidate, lineage: LineageId, task: TaskId)
    | TaskRead(row: Candidate, lineage: LineageId, task: TaskId)
    | LineageAbsent(row: Candidate)
    | DuplicateAbsent(row: Candidate)
    | TaskInserted(row: Candidate, newTask: TaskId)
    | LineageInserted(row: Candidate, newTask: TaskId, newLineage: LineageId)
    | RowStaged(row: Candidate, newTask: TaskId, newLineage: LineageId)
    | Finished(outcome: ApplyOutcome)
  {
    predicate HoldsRow() {
      !Begun? && !Finished?
    }

    predicate HoldsKey() {
      HoldsRow() && !RowLocked?
    }

    predicate SawLineage() {
      LineageRead? || TaskRead?
    }

    predicate SawNoLineage() {
      LineageAbsent? || SawNoDuplicate()
    }

    predicate SawNoDuplicate() {
      DuplicateAbsent? || HasTask()
    }

    predicate HasTask() {
      TaskInserted? || HasLineage()
    }

    predicate HasLineage() {
      LineageInserted? || RowStaged?
    }
  }

  datatype Txn = Txn(id: CandidateId, mode: Mode, actor: Actor, stage: Stage)
  {
    function Project(): string
      requires stage.HoldsRow()
    {
      stage.row.project
    }

    function Key(): string
      requires stage.HoldsRow()
    {
      NormalizeTitle(stage.row.title)
    }
  }

  /** An Update between its read and its write. */
  datatype PendingUpdate = PendingUpdate(id: CandidateId, patch: Patch, actor: Actor)

  /** applied collects the tasks that committed applies have created. */
  datatype Sys = Sys(db: Db, txns: map<TxnId, Txn>, updates: map<UpdateId, PendingUpdate>, applied: set<TaskId>)

  datatype Step =
    // one statement of an apply
    | LockRow(t: TxnId)
    | LockKey(t: TxnId)
    | ReadLineage(t: TxnId, found: Option<LineageId>)
    | ReadTask(t: TxnId)
    | CheckDuplicate(t: TxnId, duplicate: Option<TaskId>)
    | InsertTask(t: TxnId, task: TaskId)
    | InsertLineage(t: TxnId, lineage: LineageId)
    | StageRow(t: TxnId)
    | Commit(t: TxnId, answered: bool)
    | Abort(t: TxnId)
    // everything else
    | Begin(t: TxnId, id: CandidateId, mode: Mode, actor: Actor)
    | UpdateRead(u: UpdateId, id: CandidateId, request: UpdateRequest, catalog: set<string>, actor: Actor)
    | UpdateWrite(u: UpdateId)
    | CreateCandidate(id: CandidateId, candidate: Candidate)
    | DeleteByPlanningRun(planningRun: nat)
    | CreateTask(task: TaskId, taskRow: Task)
    | SetTaskStatus(task: TaskId, status: TaskStatus)
    | DeleteTask(task: TaskId)
  {
    /** A statement of an apply that has begun. */
    predicate OfApply() {
      LockRow? || LockKey? || ReadLineage? || ReadTask? || CheckDuplicate? || InsertTask? || InsertLineage?
      || StageRow? || Commit? || Abort?
    }
  }

  // ----- locks -----

  /** SELECT ... FOR UPDATE can lock the row. SQLite has no row locks: there a transaction that meets another writer
      fails, which is Abort. */
  ghost predicate RowFree(s: Sys, id: CandidateId) {
    forall t :: t in s.txns && s.txns[t].stage.HoldsRow() ==> s.txns[t].id != id
  }

  ghost predicate KeyFree(hash: KeyHash, s: Sys, project: string, key: string) {
    forall t :: t in s.txns && s.txns[t].stage.HoldsKey() ==>
                  hash(s.txns[t].Project(), s.txns[t].Key()) != hash(project, key)
  }

  // ----- generated identifiers -----

  ghost predicate FreshTask(s: Sys, task: TaskId) {
    && task !in s.db.tasks && task !in s.applied
    && forall t :: t in s.txns && s.txns[t].stage.HasTask() ==> s.txns[t].stage.newTask != task
  }

  ghost predicate FreshLineage(s: Sys, lineage: LineageId) {
    && lineage !in s.db.lineage
    && forall t :: t in s.txns && s.txns[t].stage.HasLineage() ==> s.txns[t].stage.newLineage != lineage
  }

  // ----- steps -----

  ghost predicate Enabled(hash: KeyHash, s: Sys, step: Step) {
    match step
    case LockRow(t) =>
      t in s.txns && s.txns[t].stage.Begun? && RowFree(s, s.txns[t].id)
    case LockKey(t) =>
      t in s.txns && s.txns[t].stage.RowLocked? && KeyFree(hash, s, s.txns[t].Project(), s.txns[t].Key())
    case ReadLineage(t, found) =>
      t in s.txns && s.txns[t].stage.KeyLocked?
      && (if found.Some? then LineageOf(s.db, found.value, s.txns[t].id) else NoLineage(s.db, s.txns[t].id))
    case ReadTask(t) =>
      t in s.txns && s.txns[t].stage.LineageRead?
    case CheckDuplicate(t, duplicate) =>
      t in s.txns && s.txns[t].stage.LineageAbsent?
      && (if duplicate.Some? then
            OpenDuplicate(s.db, duplicate.value, s.txns[t].Project(), s.txns[t].Key())
          else
            s.txns[t].stage.row.status == Rejected
            || NoOpenDuplicate(s.db, s.txns[t].Project(), s.txns[t].Key()))
    case InsertTask(t, task) =>
      t in s.txns && s.txns[t].stage.DuplicateAbsent? && FreshTask(s, task)
    case InsertLineage(t, lineage) =>
      t in s.txns && s.txns[t].stage.TaskInserted? && FreshLineage(s, lineage)
    case StageRow(t) =>
      t in s.txns && s.txns[t].stage.LineageInserted?
    case Commit(t, _) =>
      t in s.txns && (s.txns[t].stage.TaskRead? || s.txns[t].stage.RowStaged?)
    case Abort(t) =>
      t in s.txns && !s.txns[t].stage.Finished?
    case Begin(t, id, mode, actor) =>
      t !in s.txns
    case UpdateRead(u, id, request, catalog, actor) =>
      u !in s.updates && id in s.db.candidates && PlanUpdate(s.db.candidates[id], request, catalog).Planned?
    case UpdateWrite(u) =>
      u in s.updates && RowFree(s, s.updates[u].id)
    case CreateCandidate(id, candidate) =>
      id !in s.db.candidates && candidate.status == Draft
    case DeleteByPlanningRun(planningRun) =>
      forall id :: id in s.db.candidates && s.db.candidates[id].planningRun == planningRun ==> RowFree(s, id)
    case CreateTask(task, row) =>
      FreshTask(s, task)
    case SetTaskStatus(task, status) =>
      task in s.db.tasks && (s.db.tasks[task].Open() || status == Done || status == Cancelled)
    case DeleteTask(task) =>
      task in s.db.tasks
  }

  function Advance(s: Sys, t: TxnId, stage: Stage): Sys
    requires t in s.txns
  {
    s.(txns := s.txns[t := s.txns[t].(stage := stage)])
  }

  function ForgetCandidates(db: Db, planningRun: nat): Db {
    var gone := set id | id in db.candidates && db.candidates[id].planningRun == planningRun;
    db.(candidates := db.candidates - gone,
        lineage := map l | l in db.lineage ::
          if db.lineage[l].candidate.Some? && db.lineage[l].candidate.value in gone
          then db.lineage[l].(candidate := None) else db.lineage[l])
  }

  function RemoveTask(db: Db, task: TaskId): Db {
    db.(tasks := db.tasks - {task},
        lineage := map l | l in db.lineage && db.lineage[l].task != task :: db.lineage[l])
  }

  ghost function Do(hash: KeyHash, s: Sys, step: Step): Sys
    requires Enabled(hash, s, step)
  {
    match step
    case LockRow(t) =>
      var id := s.txns[t].id;
      if id !in s.db.candidates then Advance(s, t, Finished(NoCandidate))
      else if NormalizeTitle(s.db.candidates[id].title) == "" then Advance(s, t, Finished(Failed(BlankTitle)))
      else Advance(s, t, RowLocked(s.db.candidates[id]))
    case LockKey(t) =>
      Advance(s, t, KeyLocked(s.txns[t].stage.row))
    case ReadLineage(t, found) =>
      if found.Some? then
        Advance(s, t, LineageRead(s.txns[t].stage.row, found.value, s.db.lineage[found.value].task))
      else
        Advance(s, t, LineageAbsent(s.txns[t].stage.row))
    case ReadTask(t) =>
      var stage := s.txns[t].stage;
      if stage.task in s.db.tasks then Advance(s, t, TaskRead(stage.row, stage.lineage, stage.task))
      else Advance(s, t, LineageAbsent(stage.row))
    case CheckDuplicate(t, duplicate) =>
      var row := s.txns[t].stage.row;
      if row.status == Rejected then Advance(s, t, Finished(Failed(NotApproved)))
      else if duplicate.Some? then Advance(s, t, Finished(Failed(TitleConflict(duplicate.value))))
      else Advance(s, t, DuplicateAbsent(row))
    case InsertTask(t, task) =>
      Advance(s, t, TaskInserted(s.txns[t].stage.row, task))
    case InsertLineage(t, lineage) =>
      Advance(s, t, LineageInserted(s.txns[t].stage.row, s.txns[t].stage.newTask, lineage))
    case StageRow(t) =>
      var stage := s.txns[t].stage;
      var refused := CheckActor(s.txns[t].actor);
      if ChangesRole(stage.row, s.txns[t].mode) && refused.Some? then
        Advance(s, t, Finished(Failed(AuditRejected(refused.value))))
      else
        Advance(s, t, RowStaged(stage.row, stage.newTask, stage.newLineage))
    case Commit(t, answered) =>
      var txn := s.txns[t];
      var stage := txn.stage;
      if stage.TaskRead? then
        Advance(s.(db := MarkApplied(s.db, txn.id)), t,
                Finished(Answer(answered, Succeeded(stage.row.(status := Applied), stage.task, stage.lineage, true))))
      else
        Advance(s.(db := PublishApply(s.db, txn.id, stage.row, txn.mode, txn.actor, stage.newTask, stage.newLineage),
                   applied := s.applied + {stage.newTask}), t,
                Finished(Answer(answered, Succeeded(AppliedRow(stage.row, txn.mode), stage.newTask, stage.newLineage, false))))
    case Abort(t) =>
      Advance(s, t, Finished(Failed(StoreFailure)))
    case Begin(t, id, mode, actor) =>
      s.(txns := s.txns[t := Txn(id, mode, actor, Begun)])
    case UpdateRead(u, id, request, catalog, actor) =>
      var patch := PlanUpdate(s.db.candidates[id], request, catalog).patch;
      s.(updates := s.updates[u := PendingUpdate(id, patch, actor)])
    case UpdateWrite(u) =>
      var pending := s.updates[u];
      s.(db := WriteUpdate(s.db, pending.id, pending.patch, pending.actor), updates := s.updates - {u})
    case CreateCandidate(id, candidate) =>
      s.(db := s.db.(candidates := s.db.candidates[id := candidate]))
    case DeleteByPlanningRun(planningRun) =>
      s.(db := ForgetCandidates(s.db, planningRun))
    case CreateTask(task, row) =>
      s.(db := s.db.(tasks := s.db.tasks[task := row]))
    case SetTaskStatus(task, status) =>
      s.(db := s.db.(tasks := s.db.tasks[task := s.db.tasks[task].(status := status)]))
    case DeleteTask(task) =>
      s.(db := RemoveTask(s.db, task))
  }

  /** What the caller of a commit is told: an error if the answer got lost, although the commit took effect. */
  function Answer(answered: bool, outcome: ApplyOutcome): ApplyOutcome {
    if answered then outcome else Failed(StoreFailure)
  }

  const INITIAL := Sys(Db(map[], map[], map[], []), map[], map[], {})

  /** A run: every step enabled where it is taken. */
  ghost predicate ValidRun(hash: KeyHash, s: Sys, steps: seq<Step>)
    decreases |steps|
  {
    steps == [] || (Enabled(hash, s, steps[0]) && ValidRun(hash, Do(hash, s, steps[0]), steps[1..]))
  }

  ghost function RunAll(hash: KeyHash, s: Sys, steps: seq<Step>): Sys
    requires ValidRun(hash, s, steps)
    decreases |steps|
  {
    if steps == [] then s else RunAll(hash, Do(hash, s, steps[0]), steps[1..])
  }

  // ----- the invariant -----

  /** No two open tasks that applies created share project and title key. */
  ghost predicate OpenAppliedUnique(db: Db, applied: set<TaskId>) {
    forall t1, t2, project, key ::
      t1 in applied && t2 in applied && OpenDuplicate(db, t1, project, key) && OpenDuplicate(db, t2, project, key)
      ==> t1 == t2
  }

  ghost predicate DbInv(db: Db, applied: set<TaskId>) {
    && LineageTasksExist(db)
    && LineageUnique(db)
    && OpenAppliedUnique(db, applied)
    && forall l :: l in db.lineage ==> db.lineage[l].task in applied
  }

  /** The row it read is still the committed row. */
  ghost predicate RowView(db: Db, txn: Txn) {
    txn.stage.HoldsRow() ==>
      txn.id in db.candidates && db.candidates[txn.id] == txn.stage.row && txn.Key() != ""
  }

  /** The lineage it saw is the candidate's only one, and goes with its task; if it saw none, there is none. */
  ghost predicate LineageView(db: Db, applied: set<TaskId>, txn: Txn) {
    && (txn.stage.SawLineage() ==>
          && txn.stage.task in applied
          && (txn.stage.task in db.tasks ==> LineageOf(db, txn.stage.lineage, txn.id))
          && forall l :: LineageOf(db, l, txn.id) ==> l == txn.stage.lineage && db.lineage[l].task == txn.stage.task)
    && (txn.stage.SawNoLineage() ==> NoLineage(db, txn.id))
  }

  ghost predicate DuplicateView(db: Db, applied: set<TaskId>, txn: Txn) {
    txn.stage.SawNoDuplicate() ==>
      && txn.stage.row.status != Rejected
      && forall t :: t in applied ==> !OpenDuplicate(db, t, txn.Project(), txn.Key())
  }

  /** What it has inserted is not yet visible, and its audit row was accepted. */
  ghost predicate StagedView(db: Db, applied: set<TaskId>, txn: Txn) {
    && (txn.stage.HasTask() ==> txn.stage.newTask !in db.tasks && txn.stage.newTask !in applied)
    && (txn.stage.HasLineage() ==> txn.stage.newLineage !in db.lineage)
    && (txn.stage.RowStaged? && ChangesRole(txn.stage.row, txn.mode) ==> CheckActor(txn.actor).None?)
  }

  /** While a transaction holds its locks, what its statements saw stays true of the committed rows. */
  ghost predicate TxnInv(db: Db, applied: set<TaskId>, txn: Txn) {
    RowView(db, txn) && LineageView(db, applied, txn) && DuplicateView(db, applied, txn) && StagedView(db, applied, txn)
  }

  ghost predicate Apart(hash: KeyHash, a: Txn, b: Txn) {
    && (a.stage.HoldsRow() && b.stage.HoldsRow() ==> a.id != b.id)
    && (a.stage.HoldsKey() && b.stage.HoldsKey() ==> hash(a.Project(), a.Key()) != hash(b.Project(), b.Key()))
    && (a.stage.HasTask() && b.stage.HasTask() ==> a.stage.newTask != b.stage.newTask)
    && (a.stage.HasLineage() && b.stage.HasLineage() ==> a.stage.newLineage != b.stage.newLineage)
  }

  ghost predicate Inv(hash: KeyHash, s: Sys) {
    && DbInv(s.db, s.applied)
    && (forall t :: t in s.txns ==> TxnInv(s.db, s.applied, s.txns[t]))
    && (forall t1, t2 :: t1 in s.txns && t2 in s.txns && t1 != t2 ==> Apart(hash, s.txns[t1], s.txns[t2]))
  }

  // ----- a step of one transaction -----

  lemma AdvanceKeeps(hash: KeyHash, s: Sys, t: TxnId, stage: Stage)
    requires t in s.txns
    requires DbInv(s.db, s.applied)
    requires forall o :: o in s.txns && o != t ==> TxnInv(s.db, s.applied, s.txns[o])
    requires forall o1, o2 :: o1 in s.txns && o2 in s.txns && o1 != o2 && o1 != t && o2 != t ==>
                                Apart(hash, s.txns[o1], s.txns[o2])
    requires TxnInv(s.db, s.applied, s.txns[t].(stage := stage))
    requires forall o :: o in s.txns && o != t ==> Apart(hash, s.txns[t].(stage := stage), s.txns[o])
    ensures Inv(hash, Advance(s, t, stage))
  {
  }

  lemma FinishKeeps(hash: KeyHash, s: Sys, t: TxnId, outcome: ApplyOutcome)
    requires Inv(hash, s) && t in s.txns
    ensures Inv(hash, Advance(s, t, Finished(outcome)))
  {
    AdvanceKeeps(hash, s, t, Finished(outcome));
  }

  lemma LockRowKeeps(hash: KeyHash, s: Sys, t: TxnId)
    requires Inv(hash, s) && Enabled(hash, s, LockRow(t))
    requires s.txns[t].id in s.db.candidates && NormalizeTitle(s.db.candidates[s.txns[t].id].title) != ""
    ensures Inv(hash, Advance(s, t, RowLocked(s.db.candidates[s.txns[t].id])))
  {
    AdvanceKeeps(hash, s, t, RowLocked(s.db.candidates[s.txns[t].id]));
  }

  lemma LockKeyKeeps(hash: KeyHash, s: Sys, t: TxnId)
    requires Inv(hash, s) && Enabled(hash, s, LockKey(t))
    ensures Inv(hash, Advance(s, t, KeyLocked(s.txns[t].stage.row)))
  {
    AdvanceKeeps(hash, s, t, KeyLocked(s.txns[t].stage.row));
  }

  /** A statement that keeps the locks and inserts nothing: only what it saw has to be true. */
  lemma ReadKeeps(hash: KeyHash, s: Sys, t: TxnId, stage: Stage)
    requires Inv(hash, s) && t in s.txns && s.txns[t].stage.HoldsKey() && !s.txns[t].stage.HasTask()
    requires stage.HoldsKey() && !stage.HasTask() && stage.row == s.txns[t].stage.row
    requires TxnInv(s.db, s.applied, s.txns[t].(stage := stage))
    ensures Inv(hash, Advance(s, t, stage))
  {
    AdvanceKeeps(hash, s, t, stage);
  }

  lemma ReadLineageKeeps(hash: KeyHash, s: Sys, t: TxnId, found: Option<LineageId>)
    requires Inv(hash, s) && Enabled(hash, s, ReadLineage(t, found))
    ensures Inv(hash, Do(hash, s, ReadLineage(t, found)))
  {
    var row := s.txns[t].stage.row;
    if found.Some? {
      ReadKeeps(hash, s, t, LineageRead(row, found.value, s.db.lineage[found.value].task));
    } else {
      ReadKeeps(hash, s, t, LineageAbsent(row));
    }
  }

  /** The only lineage row of the candidate named a task that is gone, so the cascade took the row too. */
  lemma ReadTaskKeeps(hash: KeyHash, s: Sys, t: TxnId)
    requires Inv(hash, s) && Enabled(hash, s, ReadTask(t))
    ensures Inv(hash, Do(hash, s, ReadTask(t)))
  {
    var stage := s.txns[t].stage;
    if stage.task in s.db.tasks {
      ReadKeeps(hash, s, t, TaskRead(stage.row, stage.lineage, stage.task));
    } else {
      ReadKeeps(hash, s, t, LineageAbsent(stage.row));
    }
  }

  lemma CheckDuplicateKeeps(hash: KeyHash, s: Sys, t: TxnId, duplicate: Option<TaskId>)
    requires Inv(hash, s) && Enabled(hash, s, CheckDuplicate(t, duplicate))
    ensures Inv(hash, Do(hash, s, CheckDuplicate(t, duplicate)))
  {
    var row := s.txns[t].stage.row;
    if row.status == Rejected {
      FinishKeeps(hash, s, t, Failed(NotApproved));
    } else if duplicate.Some? {
      FinishKeeps(hash, s, t, Failed(TitleConflict(duplicate.value)));
    } else {
      NoDuplicateAmongApplied(s, t);
      ReadKeeps(hash, s, t, DuplicateAbsent(row));
    }
  }

  lemma NoDuplicateAmongApplied(s: Sys, t: TxnId)
    requires t in s.txns && s.txns[t].stage.HoldsRow()
    requires NoOpenDuplicate(s.db, s.txns[t].Project(), s.txns[t].Key())
    ensures forall task :: task in s.applied ==> !OpenDuplicate(s.db, task, s.txns[t].Project(), s.txns[t].Key())
  {
  }

  lemma InsertTaskKeeps(hash: KeyHash, s: Sys, t: TxnId, task: TaskId)
    requires Inv(hash, s) && Enabled(hash, s, InsertTask(t, task))
    ensures Inv(hash, Do(hash, s, InsertTask(t, task)))
  {
    AdvanceKeeps(hash, s, t, TaskInserted(s.txns[t].stage.row, task));
  }

  lemma InsertLineageKeeps(hash: KeyHash, s: Sys, t: TxnId, lineage: LineageId)
    requires Inv(hash, s) && Enabled(hash, s, InsertLineage(t, lineage))
    ensures Inv(hash, Do(hash, s, InsertLineage(t, lineage)))
  {
    AdvanceKeeps(hash, s, t, LineageInserted(s.txns[t].stage.row, s.txns[t].stage.newTask, lineage));
  }

  lemma StageRowKeeps(hash: KeyHash, s: Sys, t: TxnId)
    requires Inv(hash, s) && Enabled(hash, s, StageRow(t))
    ensures Inv(hash, Do(hash, s, StageRow(t)))
  {
    var stage := s.txns[t].stage;
    var refused := CheckActor(s.txns[t].actor);
    if ChangesRole(stage.row, s.txns[t].mode) && refused.Some? {
      FinishKeeps(hash, s, t, Failed(AuditRejected(refused.value)));
    } else {
      AdvanceKeeps(hash, s, t, RowStaged(stage.row, stage.newTask, stage.newLineage));
    }
  }

  // ----- a commit -----

  /** A committed write of the database, when no other transaction can notice it. */
  lemma CommitKeeps(hash: KeyHash, s: Sys, t: TxnId, after: Db, applied: set<TaskId>, outcome: ApplyOutcome)
    requires Inv(hash, s) && t in s.txns && DbInv(after, applied)
    requires forall o :: o in s.txns && o != t ==> TxnInv(after, applied, s.txns[o])
    ensures Inv(hash, Advance(s.(db := after, applied := applied), t, Finished(outcome)))
  {
    AdvanceKeeps(hash, s.(db := after, applied := applied), t, Finished(outcome));
  }

  lemma MarkAppliedKeeps(hash: KeyHash, s: Sys, t: TxnId, answered: bool)
    requires Inv(hash, s) && Enabled(hash, s, Commit(t, answered)) && s.txns[t].stage.TaskRead?
    ensures Inv(hash, Do(hash, s, Commit(t, answered)))
  {
    var txn := s.txns[t];
    var db := MarkApplied(s.db, txn.id);
    forall o | o in s.txns && o != t
      ensures TxnInv(db, s.applied, s.txns[o])
    {
      OtherTxnKeeps(s, db, s.txns[o]);
    }
    SameTasksAndLineage(s.db, db, s.applied);
    CommitKeeps(hash, s, t, db, s.applied,
                Answer(answered, Succeeded(txn.stage.row.(status := Applied), txn.stage.task, txn.stage.lineage, true)));
  }

  lemma SameTasksAndLineage(db: Db, after: Db, applied: set<TaskId>)
    requires DbInv(db, applied) && after.tasks == db.tasks && after.lineage == db.lineage
    ensures DbInv(after, applied)
  {
    assert forall l, id :: LineageOf(after, l, id) == LineageOf(db, l, id);
    assert forall t, project, key :: OpenDuplicate(after, t, project, key) == OpenDuplicate(db, t, project, key);
  }

  /** Changing candidate rows that this transaction has not locked leaves what it saw true. */
  lemma OtherTxnKeeps(s: Sys, after: Db, txn: Txn)
    requires TxnInv(s.db, s.applied, txn)
    requires after.tasks == s.db.tasks && after.lineage == s.db.lineage
    requires txn.stage.HoldsRow() ==> txn.id in after.candidates && after.candidates[txn.id] == s.db.candidates[txn.id]
    ensures TxnInv(after, s.applied, txn)
  {
    assert forall l, id :: LineageOf(after, l, id) == LineageOf(s.db, l, id);
    assert forall t, project, key :: OpenDuplicate(after, t, project, key) == OpenDuplicate(s.db, t, project, key);
  }

  /** What publishing adds for others to see: one lineage row of this candidate, one open task with this key. */
  lemma PublishShowsLineage(db: Db, txn: Txn, after: Db)
    requires txn.stage.RowStaged? && txn.stage.newLineage !in db.lineage
    requires after == PublishApply(db, txn.id, txn.stage.row, txn.mode, txn.actor, txn.stage.newTask, txn.stage.newLineage)
    ensures forall l, id :: LineageOf(after, l, id) <==>
                              LineageOf(db, l, id) || (l == txn.stage.newLineage && id == txn.id)
  {
  }

  lemma PublishShowsTask(db: Db, txn: Txn, after: Db)
    requires txn.stage.RowStaged? && txn.stage.newTask !in db.tasks
    requires after == PublishApply(db, txn.id, txn.stage.row, txn.mode, txn.actor, txn.stage.newTask, txn.stage.newLineage)
    ensures forall task, project, key :: OpenDuplicate(after, task, project, key) <==>
                                           OpenDuplicate(db, task, project, key)
                                           || (task == txn.stage.newTask && project == txn.Project() && key == txn.Key())
  {
    StoredTitleMatchesKey(txn.stage.row.title);
  }

  lemma PublishKeepsDb(s: Sys, t: TxnId, after: Db)
    requires t in s.txns && s.txns[t].stage.RowStaged?
    requires DbInv(s.db, s.applied) && TxnInv(s.db, s.applied, s.txns[t])
    requires after == PublishApply(s.db, s.txns[t].id, s.txns[t].stage.row, s.txns[t].mode, s.txns[t].actor,
                                   s.txns[t].stage.newTask, s.txns[t].stage.newLineage)
    ensures DbInv(after, s.applied + {s.txns[t].stage.newTask})
  {
    PublishShowsLineage(s.db, s.txns[t], after);
    PublishShowsTask(s.db, s.txns[t], after);
  }

  lemma NewLineageHidden(db: Db, applied: set<TaskId>, txn: Txn, other: Txn, after: Db)
    requires txn.stage.RowStaged? && StagedView(db, applied, txn)
    requires other.stage.HoldsRow() ==> other.id != txn.id
    requires LineageView(db, applied, other)
    requires after == PublishApply(db, txn.id, txn.stage.row, txn.mode, txn.actor, txn.stage.newTask, txn.stage.newLineage)
    ensures LineageView(after, applied + {txn.stage.newTask}, other)
  {
    PublishShowsLineage(db, txn, after);
  }

  lemma NewTaskHidden(db: Db, applied: set<TaskId>, txn: Txn, other: Txn, after: Db)
    requires txn.stage.RowStaged? && StagedView(db, applied, txn)
    requires other.stage.HoldsKey() ==> (txn.Project(), txn.Key()) != (other.Project(), other.Key())
    requires DuplicateView(db, applied, other)
    requires after == PublishApply(db, txn.id, txn.stage.row, txn.mode, txn.actor, txn.stage.newTask, txn.stage.newLineage)
    ensures DuplicateView(after, applied + {txn.stage.newTask}, other)
  {
    PublishShowsTask(db, txn, after);
  }

  /** Another transaction holds another row lock, and another title lock if it holds one, so it sees nothing new. */
  lemma PublishKeepsOther(hash: KeyHash, s: Sys, t: TxnId, o: TxnId, after: Db)
    requires Inv(hash, s) && t in s.txns && o in s.txns && t != o && s.txns[t].stage.RowStaged?
    requires after == PublishApply(s.db, s.txns[t].id, s.txns[t].stage.row, s.txns[t].mode, s.txns[t].actor,
                                   s.txns[t].stage.newTask, s.txns[t].stage.newLineage)
    ensures TxnInv(after, s.applied + {s.txns[t].stage.newTask}, s.txns[o])
  {
    assert Apart(hash, s.txns[t], s.txns[o]) && TxnInv(s.db, s.applied, s.txns[o]);
    assert RowView(after, s.txns[o]);
    NewLineageHidden(s.db, s.applied, s.txns[t], s.txns[o], after);
    NewTaskHidden(s.db, s.applied, s.txns[t], s.txns[o], after);
    assert StagedView(after, s.applied + {s.txns[t].stage.newTask}, s.txns[o]);
  }

  lemma PublishKeeps(hash: KeyHash, s: Sys, t: TxnId, answered: bool)
    requires Inv(hash, s) && Enabled(hash, s, Commit(t, answered)) && s.txns[t].stage.RowStaged?
    ensures Inv(hash, Do(hash, s, Commit(t, answered)))
  {
    var txn := s.txns[t];
    var stage := txn.stage;
    var after := PublishApply(s.db, txn.id, stage.row, txn.mode, txn.actor, stage.newTask, stage.newLineage);
    forall o | o in s.txns && o != t
      ensures TxnInv(after, s.applied + {stage.newTask}, s.txns[o])
    {
      PublishKeepsOther(hash, s, t, o, after);
    }
    PublishKeepsDb(s, t, after);
    CommitKeeps(hash, s, t, after, s.applied + {stage.newTask},
                Answer(answered, Succeeded(AppliedRow(stage.row, txn.mode), stage.newTask, stage.newLineage, false)));
  }

  lemma RowStepKeeps(hash: KeyHash, s: Sys, t: TxnId)
    requires Inv(hash, s) && Enabled(hash, s, LockRow(t))
    ensures Inv(hash, Do(hash, s, LockRow(t)))
  {
    if s.txns[t].id !in s.db.candidates {
      FinishKeeps(hash, s, t, NoCandidate);
    } else if NormalizeTitle(s.db.candidates[s.txns[t].id].title) == "" {
      FinishKeeps(hash, s, t, Failed(BlankTitle));
    } else {
      LockRowKeeps(hash, s, t);
    }
  }

  lemma CommitStepKeeps(hash: KeyHash, s: Sys, t: TxnId, answered: bool)
    requires Inv(hash, s) && Enabled(hash, s, Commit(t, answered))
    ensures Inv(hash, Do(hash, s, Commit(t, answered)))
  {
    if s.txns[t].stage.TaskRead? {
      MarkAppliedKeeps(hash, s, t, answered);
    } else {
      PublishKeeps(hash, s, t, answered);
    }
  }

  lemma ApplyStepKeeps(hash: KeyHash, s: Sys, step: Step)
    requires Inv(hash, s) && Enabled(hash, s, step) && step.OfApply()
    ensures Inv(hash, Do(hash, s, step))
  {
    match step
    case LockRow(t) => RowStepKeeps(hash, s, t);
    case LockKey(t) => LockKeyKeeps(hash, s, t);
    case ReadLineage(t, found) => ReadLineageKeeps(hash, s, t, found);
    case ReadTask(t) => ReadTaskKeeps(hash, s, t);
    case CheckDuplicate(t, duplicate) => CheckDuplicateKeeps(hash, s, t, duplicate);
    case InsertTask(t, task) => InsertTaskKeeps(hash, s, t, task);
    case InsertLineage(t, lineage) => InsertLineageKeeps(hash, s, t, lineage);
    case StageRow(t) => StageRowKeeps(hash, s, t);
    case Commit(t, answered) => CommitStepKeeps(hash, s, t, answered);
    case Abort(t) => FinishKeeps(hash, s, t, Failed(StoreFailure));
  }

  // ----- everything else -----

  /** A write that no transaction's view can notice. */
  lemma DbStepKeeps(hash: KeyHash, s: Sys, after: Db)
    requires Inv(hash, s)
    requires DbInv(after, s.applied)
    requires forall t :: t in s.txns ==> TxnInv(after, s.applied, s.txns[t])
    ensures Inv(hash, s.(db := after))
  {
  }

  /** Storing unlocked candidate rows. */
  lemma CandidateWriteKeeps(hash: KeyHash, s: Sys, after: Db)
    requires Inv(hash, s)
    requires after.tasks == s.db.tasks && after.lineage == s.db.lineage
    requires forall t :: t in s.txns && s.txns[t].stage.HoldsRow() ==>
                           s.txns[t].id in after.candidates && after.candidates[s.txns[t].id] == s.db.candidates[s.txns[t].id]
    ensures Inv(hash, s.(db := after))
  {
    forall t | t in s.txns
      ensures TxnInv(after, s.applied, s.txns[t])
    {
      OtherTxnKeeps(s, after, s.txns[t]);
    }
    SameTasksAndLineage(s.db, after, s.applied);
    DbStepKeeps(hash, s, after);
  }

  lemma UpdateWriteKeeps(hash: KeyHash, s: Sys, u: UpdateId)
    requires Inv(hash, s) && Enabled(hash, s, UpdateWrite(u))
    ensures Inv(hash, Do(hash, s, UpdateWrite(u)))
  {
    var pending := s.updates[u];
    CandidateWriteKeeps(hash, s, WriteUpdate(s.db, pending.id, pending.patch, pending.actor));
  }

  lemma DeleteByPlanningRunKeeps(hash: KeyHash, s: Sys, planningRun: nat)
    requires Inv(hash, s) && Enabled(hash, s, DeleteByPlanningRun(planningRun))
    ensures Inv(hash, Do(hash, s, DeleteByPlanningRun(planningRun)))
  {
    var after := ForgetCandidates(s.db, planningRun);
    assert forall l, id :: LineageOf(after, l, id) ==> LineageOf(s.db, l, id);
    assert forall t, project, key :: OpenDuplicate(after, t, project, key) == OpenDuplicate(s.db, t, project, key);
    forall t | t in s.txns
      ensures TxnInv(after, s.applied, s.txns[t])
    {
    }
    DbStepKeeps(hash, s, after);
  }

  /** Task rows may appear, close or go, with their lineage; nothing else is asked of the step. */
  lemma TaskWriteKeeps(hash: KeyHash, s: Sys, after: Db)
    requires Inv(hash, s)
    requires after.candidates == s.db.candidates
    requires forall l :: l in after.lineage <==> l in s.db.lineage && s.db.lineage[l].task in after.tasks
    requires forall l :: l in after.lineage ==> after.lineage[l] == s.db.lineage[l]
    requires forall t :: t in after.tasks && t !in s.db.tasks ==> FreshTask(s, t)
    requires forall t, project, key :: t in s.db.tasks && OpenDuplicate(after, t, project, key) ==>
                                         OpenDuplicate(s.db, t, project, key)
    ensures Inv(hash, s.(db := after))
  {
    assert forall l, id :: LineageOf(after, l, id) ==> LineageOf(s.db, l, id);
    assert forall t, project, key :: t in s.applied && OpenDuplicate(after, t, project, key) ==>
                                       OpenDuplicate(s.db, t, project, key);
    forall t | t in s.txns
      ensures TxnInv(after, s.applied, s.txns[t])
    {
    }
    DbStepKeeps(hash, s, after);
  }

  lemma OtherStepKeeps(hash: KeyHash, s: Sys, step: Step)
    requires Inv(hash, s) && Enabled(hash, s, step) && !step.OfApply()
    ensures Inv(hash, Do(hash, s, step))
  {
    match step
    case Begin(t, id, mode, actor) =>
    case UpdateRead(u, id, request, catalog, actor) =>
    case UpdateWrite(u) => UpdateWriteKeeps(hash, s, u);
    case CreateCandidate(id, candidate) =>
      CandidateWriteKeeps(hash, s, s.db.(candidates := s.db.candidates[id := candidate]));
    case DeleteByPlanningRun(planningRun) => DeleteByPlanningRunKeeps(hash, s, planningRun);
    case CreateTask(task, row) =>
      TaskWriteKeeps(hash, s, s.db.(tasks := s.db.tasks[task := row]));
    case SetTaskStatus(task, status) =>
      TaskWriteKeeps(hash, s, s.db.(tasks := s.db.tasks[task := s.db.tasks[task].(status := status)]));
    case DeleteTask(task) =>
      TaskWriteKeeps(hash, s, RemoveTask(s.db, task));
  }

  lemma StepKeeps(hash: KeyHash, s: Sys, step: Step)
    requires Inv(hash, s) && Enabled(hash, s, step)
    ensures Inv(hash, Do(hash, s, step))
  {
    if step.OfApply() { ApplyStepKeeps(hash, s, step); } else { OtherStepKeeps(hash, s, step); }
  }

  /** Every reachable state, whatever the interleaving: a candidate has at most one lineage row, a lineage
      row's task exists, and no two open tasks created by applies share project and title key. */
  lemma {:induction false} EveryRunKeeps(hash: KeyHash, s: Sys, steps: seq<Step>)
    requires Inv(hash, s) && ValidRun(hash, s, steps)
    ensures Inv(hash, RunAll(hash, s, steps))
    decreases |steps|
  {
    if steps != [] {
      StepKeeps(hash, s, steps[0]);
      EveryRunKeeps(hash, Do(hash, s, steps[0]), steps[1..]);
    }
  }

  lemma ApplySafety(hash: KeyHash, steps: seq<Step>)
    requires ValidRun(hash, INITIAL, steps)
    ensures var s := RunAll(hash, INITIAL, steps);
            && LineageUnique(s.db)
            && LineageTasksExist(s.db)
            && forall t1, t2 :: t1 in s.applied * s.db.tasks.Keys && t2 in s.applied * s.db.tasks.Keys
                                && s.db.tasks[t1].Open() && s.db.tasks[t2].Open()
                                && s.db.tasks[t1].project == s.db.tasks[t2].project
                                && SqlTitleKey(s.db.tasks[t1].title) == SqlTitleKey(s.db.tasks[t2].title)
                                ==> t1 == t2
  {
    EveryRunKeeps(hash, INITIAL, steps);
    var s := RunAll(hash, INITIAL, steps);
    forall t1, t2 | t1 in s.applied * s.db.tasks.Keys && t2 in s.applied * s.db.tasks.Keys
                    && s.db.tasks[t1].Open() && s.db.tasks[t2].Open()
                    && s.db.tasks[t1].project == s.db.tasks[t2].project
                    && SqlTitleKey(s.db.tasks[t1].title) == SqlTitleKey(s.db.tasks[t2].title)
      ensures t1 == t2
    {
      var project, key := s.db.tasks[t1].project, SqlTitleKey(s.db.tasks[t1].title);
      assert OpenDuplicate(s.db, t1, project, key) && OpenDuplicate(s.db, t2, project, key);
    }
  }
}
