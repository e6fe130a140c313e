/** The rows that applying a backlog candidate reads and writes, and what Update and
    ApplyToTaskWithMode do to them when each runs alone. */
module CandidateDb {
  import opened Options
  import opened Text

  // Generated identifiers (UUIDs); only their distinctness matters.
  type CandidateId = nat
  type TaskId = nat
  type LineageId = nat

  datatype Status = Draft | Approved | Rejected | Applied

  datatype Candidate = Candidate(
    project: string,
    planningRun: nat,
    title: string,
    description: string,
    status: Status,
    role: Option<string>,
    feedbackKind: string,
    feedbackNote: string)

  datatype TaskStatus = Todo | InProgress | Done | Cancelled

  datatype Dispatch = NotDispatched | Queued

  datatype Task = Task(
    project: string,
    title: string,
    description: string,
    status: TaskStatus,
    source: string,
    dispatch: Dispatch)
  {
    predicate Open() {
      status.Todo? || status.InProgress?
    }
  }

  /** backlog_candidate_id is set to NULL when the candidate row goes; the row itself goes with its task. */
  datatype Lineage = Lineage(candidate: Option<CandidateId>, task: TaskId)

  datatype ActorKind = User | ApiKey | Router | System | Connector | Unrecognised(text: string)

  datatype Actor = Actor(kind: ActorKind, id: string, rationale: string, confidence: Option<real>)

  datatype AuditError = InvalidActorKind | InvalidConfidence | ConfidenceNotAllowed

  /** One actor_audit row about the execution_role field of a backlog candidate. */
  datatype RoleAudit = RoleAudit(candidate: CandidateId, oldValue: Option<string>, newValue: Option<string>, actor: Actor)

  datatype Db = Db(
    candidates: map<CandidateId, Candidate>,
    tasks: map<TaskId, Task>,
    lineage: map<LineageId, Lineage>,
    audit: seq<RoleAudit>)

  // ----- titles -----

  function NormalizeTitle(title: string): string {
    Lower(TrimSpace(title))
  }

  /** LOWER(TRIM(title)), the expression the duplicate query compares. */
  function SqlTitleKey(title: string): string {
    Lower(Trim(title, BLANKS))
  }

  /** A task stored with the trimmed title of a candidate is found by that candidate's own key,
      although SQL's TRIM and Go's TrimSpace cut different characters. */
  lemma StoredTitleMatchesKey(title: string)
    ensures SqlTitleKey(TrimSpace(title)) == NormalizeTitle(title)
  {
    TrimIsTrimmed(title, SPACES);
    TrimmedIsFixed(TrimSpace(title), BLANKS);
  }

  // ----- audit -----

  /** The checks of audit.Record, in its order. */
  function CheckActor(actor: Actor): Option<AuditError> {
    if actor.kind.Unrecognised? then
      Some(InvalidActorKind)
    else if actor.kind.Router? then
      if actor.confidence.None? || actor.confidence.value < 0.0 || actor.confidence.value > 1.0 then
        Some(InvalidConfidence)
      else None
    else if actor.confidence.Some? then
      Some(ConfidenceNotAllowed)
    else None
  }

  // ----- Update -----

  datatype UpdateError =
    | NotMutable | NoChanges | BlankUpdateTitle | BadStatus | UnknownUpdateRole | BadFeedbackKind
    | UpdateAuditRejected(error: AuditError)

  /** A status the client sends is text; the review statuses are draft, approved and rejected. */
  datatype UpdateRequest = UpdateRequest(
    title: Option<string>,
    description: Option<string>,
    status: Option<string>,
    role: Option<string>,
    feedbackKind: Option<string>,
    feedbackNote: Option<string>)

  const FEEDBACK_KINDS: set<string> :=
    {"", "good_fit", "modified", "fallback", "wrong_scope", "too_broad", "duplicate", "low_quality", "other"}

  function ReviewStatus(text: string): Option<Status> {
    if text == "draft" then Some(Draft)
    else if text == "approved" then Some(Approved)
    else if text == "rejected" then Some(Rejected)
    else None
  }

  /** What the read half of Update hands to its write half: the full column values to store. */
  datatype Patch = Patch(row: Candidate, roleChanged: bool, oldRole: Option<string>)

  datatype Planned = Planned(patch: Patch) | Refused(error: UpdateError)

  /** The role column after the request: empty text clears it. */
  function PatchedRole(row: Candidate, request: UpdateRequest): Option<string> {
    if request.role.None? then row.role
    else
      var trimmed := TrimSpace(request.role.value);
      if trimmed == "" then None else Some(trimmed)
  }

  /** Validation and merging, in the order of the checks in Update. */
  function PlanUpdate(row: Candidate, request: UpdateRequest, catalog: set<string>): Planned {
    var title := if request.title.Some? then TrimSpace(request.title.value) else row.title;
    var status := if request.status.Some? then ReviewStatus(TrimSpace(request.status.value)) else Some(row.status);
    var role := PatchedRole(row, request);
    if row.status == Applied then Refused(NotMutable)
    else if request.title.Some? && title == "" then Refused(BlankUpdateTitle)
    else if status.None? then Refused(BadStatus)
    else if request.role.Some? && role.Some? && role.value !in catalog then Refused(UnknownUpdateRole)
    else if request.feedbackKind.Some? && request.feedbackKind.value !in FEEDBACK_KINDS then Refused(BadFeedbackKind)
    else
      var patched := row.(
        title := title,
        description := if request.description.Some? then request.description.value else row.description,
        status := status.value,
        role := role,
        feedbackKind := if request.feedbackKind.Some? then request.feedbackKind.value else row.feedbackKind,
        feedbackNote := if request.feedbackNote.Some? then request.feedbackNote.value else row.feedbackNote);
      if patched == row then Refused(NoChanges)
      else Planned(Patch(patched, role != row.role, row.role))
  }

  /** The UPDATE statement: it stores every patched column in the row as it is now, if it is still there. */
  function StorePatch(db: Db, id: CandidateId, patch: Patch): Db {
    if id !in db.candidates then db
    else db.(candidates := db.candidates[id := patch.row.(
      project := db.candidates[id].project, planningRun := db.candidates[id].planningRun)])
  }

  /** The write half of Update: one statement, or a transaction with an audit row when the role changes. */
  function WriteUpdate(db: Db, id: CandidateId, patch: Patch, actor: Actor): Db {
    if !patch.roleChanged then StorePatch(db, id, patch)
    else if CheckActor(actor).Some? then db
    else
      var stored := StorePatch(db, id, patch);
      stored.(audit := stored.audit + [RoleAudit(id, patch.oldRole, patch.row.role, actor)])
  }

  // ----- Apply -----

  datatype Mode = Manual | RoleDispatch(role: string)

  datatype ApplyError =
    | InvalidMode | MissingRole | UnknownRole | BlankTitle | NotApproved
    | TitleConflict(task: TaskId)
    | AuditRejected(error: AuditError)
    | StoreFailure

  datatype ApplyOutcome =
    | NoCandidate
    | Failed(error: ApplyError)
    | Succeeded(candidate: Candidate, task: TaskId, lineage: LineageId, alreadyApplied: bool)

  datatype CheckedMode = Accepted(mode: Mode) | Rejecting(error: ApplyError)

  function CheckMode(executionMode: string, executionRole: string, catalog: set<string>): CheckedMode {
    var role := TrimSpace(executionRole);
    if executionMode == "" || executionMode == "manual" then Accepted(Manual)
    else if executionMode != "role_dispatch" then Rejecting(InvalidMode)
    else if role == "" then Rejecting(MissingRole)
    else if role !in catalog then Rejecting(UnknownRole)
    else Accepted(RoleDispatch(role))
  }

  const APPLIED_TASK_SOURCE := "agent:planning-orchestrator"

  function SourceFor(mode: Mode): string {
    match mode
    case Manual => APPLIED_TASK_SOURCE
    case RoleDispatch(role) =>
      var source := "role_dispatch:" + role;
      if |source| > 80 then source[..80] else source
  }

  function NewTask(row: Candidate, mode: Mode): Task {
    var trimmed := TrimSpace(SourceFor(mode));
    var source := if trimmed == "" then APPLIED_TASK_SOURCE else trimmed;
    Task(row.project, TrimSpace(row.title), TrimSpace(row.description), Todo, source,
         if HasPrefix(source, "role_dispatch") then Queued else NotDispatched)
  }

  /** An empty stored role counts as no role. */
  function KnownRole(role: Option<string>): Option<string> {
    if role.Some? && role.value == "" then None else role
  }

  /** Whether this apply writes the role column and an audit row. */
  predicate ChangesRole(row: Candidate, mode: Mode) {
    mode.RoleDispatch? && KnownRole(row.role) != Some(mode.role)
  }

  function AppliedRow(row: Candidate, mode: Mode): Candidate {
    row.(status := Applied, role := if ChangesRole(row, mode) then Some(mode.role) else row.role)
  }

  function AppliedAudit(id: CandidateId, row: Candidate, mode: Mode, actor: Actor): seq<RoleAudit> {
    if ChangesRole(row, mode) then [RoleAudit(id, KnownRole(row.role), Some(mode.role), actor)] else []
  }

  /** Everything a first apply writes, published at once by its commit. */
  function PublishApply(db: Db, id: CandidateId, row: Candidate, mode: Mode, actor: Actor,
                        task: TaskId, lineage: LineageId): Db {
    Db(db.candidates[id := AppliedRow(row, mode)],
       db.tasks[task := NewTask(row, mode)],
       db.lineage[lineage := Lineage(Some(id), task)],
       db.audit + AppliedAudit(id, row, mode, actor))
  }

  /** Setting the status column to applied. */
  function MarkApplied(db: Db, id: CandidateId): Db {
    if id !in db.candidates then db
    else db.(candidates := db.candidates[id := db.candidates[id].(status := Applied)])
  }

  predicate LineageOf(db: Db, lineage: LineageId, id: CandidateId) {
    lineage in db.lineage && db.lineage[lineage].candidate == Some(id)
  }

  predicate NoLineage(db: Db, id: CandidateId) {
    forall l :: l in db.lineage ==> !LineageOf(db, l, id)
  }

  /** The rows findOpenTaskByNormalizedTitle selects. */
  predicate OpenDuplicate(db: Db, task: TaskId, project: string, key: string) {
    && task in db.tasks
    && db.tasks[task].Open()
    && db.tasks[task].project == project
    && SqlTitleKey(db.tasks[task].title) == key
  }

  predicate NoOpenDuplicate(db: Db, project: string, key: string) {
    forall t :: t in db.tasks ==> !OpenDuplicate(db, t, project, key)
  }

  /** What one apply with accepted arguments does when nothing runs beside it: after is the database
      it leaves and outcome what it returns. task and lineage are the identifiers it would generate. */
  ghost predicate AppliesTo(db: Db, id: CandidateId, mode: Mode, actor: Actor, task: TaskId, lineage: LineageId,
                            after: Db, outcome: ApplyOutcome) {
    if id !in db.candidates then
      after == db && outcome == NoCandidate
    else
      var row := db.candidates[id];
      var key := NormalizeTitle(row.title);
      if key == "" then
        after == db && outcome == Failed(BlankTitle)
      else if !NoLineage(db, id) then
        && after == MarkApplied(db, id)
        && outcome.Succeeded? && outcome.alreadyApplied
        && LineageOf(db, outcome.lineage, id) && outcome.task == db.lineage[outcome.lineage].task
        && outcome.candidate == row.(status := Applied)
      else if row.status == Rejected then
        after == db && outcome == Failed(NotApproved)
      else if !NoOpenDuplicate(db, row.project, key) then
        && after == db
        && outcome.Failed? && outcome.error.TitleConflict?
        && OpenDuplicate(db, outcome.error.task, row.project, key)
      else if ChangesRole(row, mode) && CheckActor(actor).Some? then
        after == db && outcome == Failed(AuditRejected(CheckActor(actor).value))
      else
        && after == PublishApply(db, id, row, mode, actor, task, lineage)
        && outcome == Succeeded(AppliedRow(row, mode), task, lineage, false)
  }

  // ----- what every committed state keeps -----

  /** task_lineage.task_id references tasks, with cascading delete. */
  ghost predicate LineageTasksExist(db: Db) {
    forall l :: l in db.lineage ==> db.lineage[l].task in db.tasks
  }

  ghost predicate LineageUnique(db: Db) {
    forall l1, l2, id :: LineageOf(db, l1, id) && LineageOf(db, l2, id) ==> l1 == l2
  }
}
