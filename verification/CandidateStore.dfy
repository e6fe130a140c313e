/** BacklogCandidateStore with each call atomic: the imperative Update, ApplyToTaskWithMode and
    EnrichWithAuthoring, proved against what CandidateDb says they do. */
module CandidateStore {
  import opened Options
  import opened Text
  import opened CandidateDb

  datatype UpdateResult = Missing | NotUpdated(error: UpdateError) | Updated(row: Candidate) | StoreError

  /** What the database does in one call: it works; a read fails first; a write or the commit fails, and nothing is
      kept; or everything is kept but the answer is lost (the commit's, or of the read that follows an update). */
  datatype Fault = Works | ReadFails | WriteFails | AnswerLost

  /** Update, with nothing happening between its read and its write. */
  function UpdateAlone(db: Db, id: CandidateId, request: UpdateRequest, catalog: set<string>, actor: Actor)
    : (Db, UpdateResult)
  {
    if id !in db.candidates then (db, Missing)
    else
      var planned := PlanUpdate(db.candidates[id], request, catalog);
      if planned.Refused? then (db, NotUpdated(planned.error))
      else if planned.patch.roleChanged && CheckActor(actor).Some? then
        (db, NotUpdated(UpdateAuditRejected(CheckActor(actor).value)))
      else (WriteUpdate(db, id, planned.patch, actor), Updated(planned.patch.row))
  }

  /** The same when the database may fail. */
  function UpdateUnder(db: Db, id: CandidateId, request: UpdateRequest, catalog: set<string>, actor: Actor, fault: Fault)
    : (Db, UpdateResult)
  {
    var (after, result) := UpdateAlone(db, id, request, catalog, actor);
    if fault == ReadFails then (db, StoreError)
    else if !result.Updated? || fault == Works then (after, result)
    else if fault == WriteFails then (db, StoreError)
    else (after, StoreError)
  }

  /** An apply when the database may fail: what it would have done alone, or nothing. */
  ghost predicate AppliesUnder(db: Db, id: CandidateId, mode: Mode, actor: Actor, task: TaskId, lineage: LineageId, fault: Fault,
                               after: Db, outcome: ApplyOutcome) {
    exists alone, answer :: AppliesTo(db, id, mode, actor, task, lineage, alone, answer) && Settles(db, alone, answer, fault, after, outcome)
  }

  predicate Settles(db: Db, alone: Db, answer: ApplyOutcome, fault: Fault, after: Db, outcome: ApplyOutcome) {
    if fault == ReadFails then after == db && outcome == Failed(StoreFailure)
    else if !answer.Succeeded? || fault == Works then after == alone && outcome == answer
    else if fault == WriteFails then after == db && outcome == Failed(StoreFailure)
    else after == alone && outcome == Failed(StoreFailure)
  }

  /** The newest audit row of a candidate. Timestamps strictly increase, so rows stand in order. */
  function QueryLatest(audit: seq<RoleAudit>, id: CandidateId): Option<RoleAudit> {
    if audit == [] then None
    else if audit[|audit| - 1].candidate == id then Some(audit[|audit| - 1])
    else QueryLatest(audit[..|audit| - 1], id)
  }

  class BacklogCandidateStore {
    var db: Db
    const catalog: set<string>

    constructor (catalog: set<string>)
      ensures db == Db(map[], map[], map[], []) && this.catalog == catalog
    {
      db := Db(map[], map[], map[], []);
      this.catalog := catalog;
    }

    /** The validating and merging half of Update: the columns to store, or why there is nothing to store. */
    method Merge(candidate: Candidate, request: UpdateRequest) returns (planned: Planned)
      ensures planned == PlanUpdate(candidate, request, catalog)
    {
      if candidate.status == Applied {
        return Refused(NotMutable);
      }
      var title, description, status, role := candidate.title, candidate.description, candidate.status, candidate.role;
      var feedbackKind, feedbackNote := candidate.feedbackKind, candidate.feedbackNote;
      var changed, roleChanged := false, false;

      if request.title.Some? {
        var trimmed := TrimSpace(request.title.value);
        if trimmed == "" {
          return Refused(BlankUpdateTitle);
        }
        if trimmed != title {
          title, changed := trimmed, true;
        }
      }
      if request.description.Some? && request.description.value != description {
        description, changed := request.description.value, true;
      }
      if request.status.Some? {
        var review := ReviewStatus(TrimSpace(request.status.value));
        if review.None? {
          return Refused(BadStatus);
        }
        if review.value != status {
          status, changed := review.value, true;
        }
      }
      assert changed <==> (title, description, status) != (candidate.title, candidate.description, candidate.status);
      if request.role.Some? {
        var trimmed := TrimSpace(request.role.value);
        if trimmed != "" && trimmed !in catalog {
          return Refused(UnknownUpdateRole);
        }
        if trimmed == "" {
          if candidate.role.Some? {
            role, changed, roleChanged := None, true, true;
          }
        } else if candidate.role != Some(trimmed) {
          role, changed, roleChanged := Some(trimmed), true, true;
        }
      }
      assert role == PatchedRole(candidate, request) && (roleChanged <==> role != candidate.role);
      if request.feedbackKind.Some? {
        if request.feedbackKind.value !in FEEDBACK_KINDS {
          return Refused(BadFeedbackKind);
        }
        if request.feedbackKind.value != feedbackKind {
          feedbackKind, changed := request.feedbackKind.value, true;
        }
      }
      if request.feedbackNote.Some? && request.feedbackNote.value != feedbackNote {
        feedbackNote, changed := request.feedbackNote.value, true;
      }
      if !changed {
        return Refused(NoChanges);
      }
      planned := Planned(Patch(
        candidate.(title := title, description := description, status := status, role := role,
                   feedbackKind := feedbackKind, feedbackNote := feedbackNote),
        roleChanged, candidate.role));
    }

    method Update(id: CandidateId, request: UpdateRequest, actor: Actor, fault: Fault) returns (result: UpdateResult)
      modifies this
      ensures (db, result) == UpdateUnder(old(db), id, request, catalog, actor, fault)
    {
      if fault == ReadFails {
        return StoreError;
      }
      if id !in db.candidates {
        return Missing;
      }
      var planned := Merge(db.candidates[id], request);
      if planned.Refused? {
        return NotUpdated(planned.error);
      }
      var patch := planned.patch;
      var tx := StorePatch(db, id, patch);
      if patch.roleChanged {
        var refused := CheckActor(actor);
        if refused.Some? {
          return NotUpdated(UpdateAuditRejected(refused.value));   // rolled back
        }
        tx := tx.(audit := tx.audit + [RoleAudit(id, patch.oldRole, patch.row.role, actor)]);
      }
      if fault == WriteFails {
        return StoreError;
      }
      db := tx;
      result := if fault == AnswerLost then StoreError else Updated(patch.row);
    }

    /** task and lineage are the identifiers generated for this call. */
    method ApplyToTaskWithMode(id: CandidateId, executionMode: string, executionRole: string, actor: Actor,
                               task: TaskId, lineage: LineageId, fault: Fault) returns (outcome: ApplyOutcome)
      requires LineageTasksExist(db)
      requires task !in db.tasks && lineage !in db.lineage
      modifies this
      ensures match CheckMode(executionMode, executionRole, catalog)
              case Rejecting(error) => db == old(db) && outcome == Failed(error)
              case Accepted(mode) => AppliesUnder(old(db), id, mode, actor, task, lineage, fault, db, outcome)
      ensures LineageTasksExist(db)
    {
      var checked := CheckMode(executionMode, executionRole, catalog);
      if checked.Rejecting? {
        return Failed(checked.error);
      }
      var before := db;
      outcome := RunTransaction(id, checked.mode, actor, task, lineage);
      ghost var alone, answer := db, outcome;
      if fault == ReadFails || (outcome.Succeeded? && fault == WriteFails) {
        db, outcome := before, Failed(StoreFailure);               // rolled back
      } else if outcome.Succeeded? && fault == AnswerLost {
        outcome := Failed(StoreFailure);
      }
      assert Settles(before, alone, answer, fault, db, outcome);
    }

    /** The transaction, every statement of which works. */
    method RunTransaction(id: CandidateId, mode: Mode, actor: Actor, task: TaskId, lineage: LineageId) returns (outcome: ApplyOutcome)
      requires LineageTasksExist(db)
      requires task !in db.tasks && lineage !in db.lineage
      modifies this
      ensures AppliesTo(old(db), id, mode, actor, task, lineage, db, outcome)
      ensures LineageTasksExist(db)
    {
      if id !in db.candidates {
        return NoCandidate;
      }
      var row := db.candidates[id];
      var key := NormalizeTitle(row.title);
      if key == "" {
        return Failed(BlankTitle);
      }

      var rows := set l | l in db.lineage && LineageOf(db, l, id);
      if rows != {} {
        var found :| found in rows;
        var known := db.lineage[found].task;
        if row.status != Applied {
          db := MarkApplied(db, id);
        }
        return Succeeded(row.(status := Applied), known, found, true);
      }
      forall l | l in db.lineage ensures !LineageOf(db, l, id) { assert l !in rows; }

      if row.status == Rejected {
        return Failed(NotApproved);
      }
      var duplicates := set t | t in db.tasks && OpenDuplicate(db, t, row.project, key);
      if duplicates != {} {
        var duplicate :| duplicate in duplicates;
        return Failed(TitleConflict(duplicate));
      }
      forall t | t in db.tasks ensures !OpenDuplicate(db, t, row.project, key) { assert t !in duplicates; }

      outcome := InsertApplied(id, row, mode, actor, task, lineage);
    }

    /** The inserts and updates of a first apply, and its commit. */
    method InsertApplied(id: CandidateId, row: Candidate, mode: Mode, actor: Actor, task: TaskId, lineage: LineageId)
      returns (outcome: ApplyOutcome)
      modifies this
      ensures if ChangesRole(row, mode) && CheckActor(actor).Some? then
                db == old(db) && outcome == Failed(AuditRejected(CheckActor(actor).value))
              else
                && db == PublishApply(old(db), id, row, mode, actor, task, lineage)
                && outcome == Succeeded(AppliedRow(row, mode), task, lineage, false)
    {
      var tx := db;
      tx := tx.(tasks := tx.tasks[task := NewTask(row, mode)]);
      tx := tx.(lineage := tx.lineage[lineage := Lineage(Some(id), task)]);
      var applied := row.(status := Applied);
      tx := tx.(candidates := tx.candidates[id := applied]);
      if mode.RoleDispatch? {
        var oldRole := KnownRole(row.role);
        if oldRole.None? || oldRole.value != mode.role {
          applied := applied.(role := Some(mode.role));
          tx := tx.(candidates := tx.candidates[id := applied]);
          var refused := CheckActor(actor);
          if refused.Some? {
            return Failed(AuditRejected(refused.value));           // rolled back
          }
          tx := tx.(audit := tx.audit + [RoleAudit(id, oldRole, Some(mode.role), actor)]);
        }
      }
      assert applied == AppliedRow(row, mode);
      assert tx == PublishApply(db, id, row, mode, actor, task, lineage);
      db := tx;
      outcome := Succeeded(applied, task, lineage, false);
    }

    /** The authoring column of each listed candidate: the newest audit row, if the listed copy has a role, a row exists
        and it could be looked up. */
    method EnrichWithAuthoring(listed: seq<Listed>, works: CandidateId -> bool) returns (authoring: seq<Option<RoleAudit>>)
      ensures |authoring| == |listed|
      ensures forall i :: 0 <= i < |listed| ==> authoring[i] == AuthoringOf(db.audit, listed[i], works(listed[i].id))
    {
      authoring := [];
      for i := 0 to |listed|
        invariant |authoring| == i
        invariant forall j :: 0 <= j < i ==> authoring[j] == AuthoringOf(db.audit, listed[j], works(listed[j].id))
      {
        var candidate := listed[i];
        if candidate.role.None? || TrimSpace(candidate.role.value) == "" {
          authoring := authoring + [None];
          continue;
        }
        if !works(candidate.id) {
          authoring := authoring + [None];
          continue;
        }
        authoring := authoring + [QueryLatest(db.audit, candidate.id)];
      }
    }
  }

  /** A candidate as it was read for a list. */
  datatype Listed = Listed(id: CandidateId, role: Option<string>)

  function AuthoringOf(audit: seq<RoleAudit>, candidate: Listed, works: bool): Option<RoleAudit> {
    if candidate.role.None? || TrimSpace(candidate.role.value) == "" || !works then None
    else QueryLatest(audit, candidate.id)
  }

  // ----- the audit trail -----

  /** The store, and the role each candidate was drafted with. */
  datatype History = History(db: Db, drafts: map<CandidateId, Option<string>>)

  datatype Call =
    | Draft(id: CandidateId, candidate: Candidate)
    | Update(id: CandidateId, request: UpdateRequest, catalog: set<string>, actor: Actor, fault: Fault)
    | Apply(id: CandidateId, mode: Mode, actor: Actor, task: TaskId, lineage: LineageId, fault: Fault, outcome: ApplyOutcome)
    | DeleteCandidates(gone: set<CandidateId>)

  ghost predicate Calls(h: History, call: Call, next: History) {
    match call
    case Draft(id, candidate) =>
      && id !in h.drafts && candidate.status.Draft? && candidate.role != Some("")
      && next == History(h.db.(candidates := h.db.candidates[id := candidate]), h.drafts[id := candidate.role])
    case Update(id, request, catalog, actor, fault) =>
      next == h.(db := UpdateUnder(h.db, id, request, catalog, actor, fault).0)
    case Apply(id, mode, actor, task, lineage, fault, outcome) =>
      && next.drafts == h.drafts
      && (mode.RoleDispatch? ==> mode.role != "")
      && AppliesUnder(h.db, id, mode, actor, task, lineage, fault, next.db, outcome)
    case DeleteCandidates(gone) =>
      && next.drafts == h.drafts
      && next.db == h.db.(candidates := h.db.candidates - gone, lineage := next.db.lineage)
  }

  function RoleRows(audit: seq<RoleAudit>, id: CandidateId): seq<RoleAudit> {
    if audit == [] then []
    else RoleRows(audit[..|audit| - 1], id) +
         (if audit[|audit| - 1].candidate == id then [audit[|audit| - 1]] else [])
  }

  /** The rows lead from one role to another: each starts where the one before ended, and changes something. */
  predicate Chain(rows: seq<RoleAudit>, from: Option<string>, to: Option<string>) {
    if rows == [] then from == to
    else
      var last := rows[|rows| - 1];
      last.newValue == to && last.oldValue != to && Chain(rows[..|rows| - 1], from, last.oldValue)
  }

  /** The candidate's rows lead from its draft role to its current one. */
  predicate TrailOf(h: History, id: CandidateId)
    requires id in h.db.candidates
  {
    id in h.drafts && h.db.candidates[id].role != Some("") && Chain(RoleRows(h.db.audit, id), h.drafts[id], h.db.candidates[id].role)
  }

  ghost predicate TrailInv(h: History) {
    && (forall id :: id in h.db.candidates ==> TrailOf(h, id))
    && (forall i :: 0 <= i < |h.db.audit| ==> h.db.audit[i].candidate in h.drafts)
  }

  lemma ChainExtends(audit: seq<RoleAudit>, row: RoleAudit, id: CandidateId, from: Option<string>, to: Option<string>)
    requires Chain(RoleRows(audit, id), from, to)
    requires row.candidate == id ==> row.oldValue == to && row.newValue != to
    ensures Chain(RoleRows(audit + [row], id), from, if row.candidate == id then row.newValue else to)
  {
    assert (audit + [row])[..|audit|] == audit;
    var rows := RoleRows(audit, id);
    if row.candidate == id {
      assert RoleRows(audit + [row], id) == rows + [row];
      assert (rows + [row])[..|rows|] == rows;
    } else {
      assert RoleRows(audit + [row], id) == rows;
    }
  }

  lemma {:induction false} NoRowsOfNew(audit: seq<RoleAudit>, id: CandidateId)
    requires forall i :: 0 <= i < |audit| ==> audit[i].candidate != id
    ensures RoleRows(audit, id) == []
  {
    if audit != [] { NoRowsOfNew(audit[..|audit| - 1], id); }
  }

  /** One candidate's role and the log change together, or neither does. */
  lemma RoleWriteKeeps(h: History, next: History, id: CandidateId, row: RoleAudit)
    requires TrailInv(h) && next.drafts == h.drafts && id in h.db.candidates
    requires row.candidate == id && row.oldValue == h.db.candidates[id].role && row.newValue != row.oldValue
    requires next.db.candidates.Keys == h.db.candidates.Keys && next.db.audit == h.db.audit + [row]
    requires next.db.candidates[id].role == row.newValue && row.newValue != Some("")
    requires forall o :: o in h.db.candidates && o != id ==> next.db.candidates[o] == h.db.candidates[o]
    ensures TrailInv(next)
  {
    forall o | o in next.db.candidates ensures TrailOf(next, o) {
      assert TrailOf(h, o);
      TrailExtends(h, next, row, o);
    }
  }

  lemma TrailExtends(h: History, next: History, row: RoleAudit, id: CandidateId)
    requires id in h.db.candidates && id in next.db.candidates && next.drafts == h.drafts && TrailOf(h, id)
    requires next.db.audit == h.db.audit + [row] && next.db.candidates[id].role != Some("")
    requires if row.candidate == id then row.oldValue == h.db.candidates[id].role && row.newValue == next.db.candidates[id].role != row.oldValue
             else next.db.candidates[id].role == h.db.candidates[id].role
    ensures TrailOf(next, id)
  {
    ChainExtends(h.db.audit, row, id, h.drafts[id], h.db.candidates[id].role);
  }

  lemma QuietWriteKeeps(h: History, next: History)
    requires TrailInv(h) && next.drafts == h.drafts && next.db.audit == h.db.audit
    requires next.db.candidates.Keys <= h.db.candidates.Keys
    requires forall o :: o in next.db.candidates ==> next.db.candidates[o].role == h.db.candidates[o].role
    ensures TrailInv(next)
  {
  }

  lemma UpdateKeepsTrail(h: History, call: Call, next: History)
    requires TrailInv(h) && call.Update? && next == h.(db := UpdateAlone(h.db, call.id, call.request, call.catalog, call.actor).0)
    ensures TrailInv(next)
  {
    var id := call.id;
    if id in h.db.candidates {
      var planned := PlanUpdate(h.db.candidates[id], call.request, call.catalog);
      if planned.Planned? && planned.patch.roleChanged && CheckActor(call.actor).None? {
        RoleWriteKeeps(h, next, id, RoleAudit(id, planned.patch.oldRole, planned.patch.row.role, call.actor));
      } else {
        QuietWriteKeeps(h, next);
      }
    }
  }

  lemma ApplyKeepsTrail(h: History, id: CandidateId, mode: Mode, actor: Actor, task: TaskId, lineage: LineageId,
                        outcome: ApplyOutcome, next: History)
    requires TrailInv(h) && next.drafts == h.drafts && (mode.RoleDispatch? ==> mode.role != "")
    requires AppliesTo(h.db, id, mode, actor, task, lineage, next.db, outcome)
    ensures TrailInv(next)
  {
    if id in h.db.candidates && outcome.Succeeded? && !outcome.alreadyApplied && ChangesRole(h.db.candidates[id], mode) {
      RoleWriteKeeps(h, next, id, RoleAudit(id, h.db.candidates[id].role, Some(mode.role), actor));
    } else {
      QuietWriteKeeps(h, next);
    }
  }

  lemma ApplyUnderKeepsTrail(h: History, id: CandidateId, mode: Mode, actor: Actor, task: TaskId, lineage: LineageId, fault: Fault,
                             outcome: ApplyOutcome, next: History)
    requires TrailInv(h) && next.drafts == h.drafts && (mode.RoleDispatch? ==> mode.role != "")
    requires AppliesUnder(h.db, id, mode, actor, task, lineage, fault, next.db, outcome)
    ensures TrailInv(next)
  {
    var alone, answer :| AppliesTo(h.db, id, mode, actor, task, lineage, alone, answer) && Settles(h.db, alone, answer, fault, next.db, outcome);
    ApplyKeepsTrail(h, id, mode, actor, task, lineage, answer, next.(db := alone));
    assert next == next.(db := alone) || next == h;
  }

  lemma CallKeepsTrail(h: History, call: Call, next: History)
    requires TrailInv(h) && Calls(h, call, next)
    ensures TrailInv(next)
  {
    match call
    case Draft(id, candidate) => NoRowsOfNew(h.db.audit, id);
    case Update(id, request, catalog, actor, fault) =>
      UpdateKeepsTrail(h, call, h.(db := UpdateAlone(h.db, id, request, catalog, actor).0));
    case Apply(id, mode, actor, task, lineage, fault, outcome) =>
      ApplyUnderKeepsTrail(h, id, mode, actor, task, lineage, fault, outcome, next);
    case DeleteCandidates(gone) => QuietWriteKeeps(h, next);
  }

  /** states[0] is the empty store and each call leads from one state to the next. */
  ghost predicate Trace(states: seq<History>, calls: seq<Call>) {
    && |states| == |calls| + 1
    && states[0] == History(Db(map[], map[], map[], []), map[])
    && forall i :: 0 <= i < |calls| ==> Calls(states[i], calls[i], states[i + 1])
  }

  lemma {:induction false} TraceKeepsTrail(states: seq<History>, calls: seq<Call>, k: nat)
    requires Trace(states, calls) && k < |states|
    ensures TrailInv(states[k])
  {
    if k > 0 {
      TraceKeepsTrail(states, calls, k - 1);
      CallKeepsTrail(states[k - 1], calls[k - 1], states[k]);
    }
  }

  lemma {:induction false} LatestEndsChain(audit: seq<RoleAudit>, id: CandidateId, from: Option<string>, to: Option<string>)
    requires Chain(RoleRows(audit, id), from, to)
    ensures match QueryLatest(audit, id) case None => from == to case Some(row) => row.candidate == id && row.newValue == to
  {
    if audit != [] && audit[|audit| - 1].candidate != id {
      assert RoleRows(audit, id) == RoleRows(audit[..|audit| - 1], id);
      LatestEndsChain(audit[..|audit| - 1], id, from, to);
    }
  }

  /** After any calls, each candidate's audit rows lead from its draft role to its current role, and the
      latest row, if there is one, describes the current role; authoring metadata does, too. */
  lemma AuditTrail(states: seq<History>, calls: seq<Call>, id: CandidateId)
    requires Trace(states, calls)
    requires id in states[|calls|].db.candidates
    ensures var h := states[|calls|];
            var current := h.db.candidates[id].role;
            && id in h.drafts
            && Chain(RoleRows(h.db.audit, id), h.drafts[id], current)
            && (match QueryLatest(h.db.audit, id)
                case None => current == h.drafts[id]
                case Some(row) => row.newValue == current)
            && forall works, role :: AuthoringOf(h.db.audit, Listed(id, role), works).Some? ==>
                 AuthoringOf(h.db.audit, Listed(id, role), works).value.newValue == current
  {
    TraceKeepsTrail(states, calls, |calls|);
    var h := states[|calls|];
    LatestEndsChain(h.db.audit, id, h.drafts[id], h.db.candidates[id].role);
  }

  /** The same roles and the same log. */
  ghost predicate RolesKept(db: Db, after: Db) {
    && after.audit == db.audit
    && forall id :: id in db.candidates ==> id in after.candidates && after.candidates[id].role == db.candidates[id].role
  }

  lemma RefusedUpdateKeepsRoles(db: Db, id: CandidateId, request: UpdateRequest, catalog: set<string>, actor: Actor)
    requires CheckActor(actor).Some?
    ensures RolesKept(db, UpdateAlone(db, id, request, catalog, actor).0)
  {
  }

  lemma RefusedApplyKeepsRoles(db: Db, id: CandidateId, mode: Mode, actor: Actor, task: TaskId, lineage: LineageId, after: Db, outcome: ApplyOutcome)
    requires AppliesTo(db, id, mode, actor, task, lineage, after, outcome) && CheckActor(actor).Some?
    ensures RolesKept(db, after)
  {
  }

  /** An actor the audit refuses changes no role and writes no row, through either operation. */
  lemma RefusedActorWritesNothing(h: History, call: Call, next: History)
    requires Calls(h, call, next) && (call.Update? || call.Apply?)
    requires CheckActor(call.actor).Some?
    ensures RolesKept(h.db, next.db)
  {
    match call
    case Update(id, request, catalog, actor, fault) => RefusedUpdateKeepsRoles(h.db, id, request, catalog, actor);
    case Apply(id, mode, actor, task, lineage, fault, outcome) =>
      var alone, answer :| AppliesTo(h.db, id, mode, actor, task, lineage, alone, answer) && Settles(h.db, alone, answer, fault, next.db, outcome);
      RefusedApplyKeepsRoles(h.db, id, mode, actor, task, lineage, alone, answer);
    case _ =>
  }

  // ----- stale updates -----

  lemma {:induction false} ChainHasOneEnd(rows: seq<RoleAudit>, from: Option<string>, a: Option<string>, b: Option<string>)
    requires Chain(rows, from, a) && Chain(rows, from, b)
    ensures a == b
  {
  }

  /** Storing a role without an audit row. */
  lemma SilentWriteKeepsTrailIff(h: History, id: CandidateId, patch: Patch, actor: Actor)
    requires TrailInv(h) && id in h.db.candidates && !patch.roleChanged && patch.row.role != Some("")
    ensures TrailInv(h.(db := WriteUpdate(h.db, id, patch, actor))) <==> patch.row.role == h.db.candidates[id].role
  {
    var next := h.(db := WriteUpdate(h.db, id, patch, actor));
    assert next.db.candidates[id].role == patch.row.role;
    if TrailInv(next) {
      ChainHasOneEnd(RoleRows(h.db.audit, id), h.drafts[id], patch.row.role, h.db.candidates[id].role);
    }
    if patch.row.role == h.db.candidates[id].role {
      QuietWriteKeeps(h, next);
    }
  }

  lemma RowsWithLast(audit: seq<RoleAudit>, row: RoleAudit, id: CandidateId)
    requires row.candidate == id
    ensures RoleRows(audit + [row], id) == RoleRows(audit, id) + [row]
    ensures (RoleRows(audit, id) + [row])[..|RoleRows(audit, id)|] == RoleRows(audit, id)
  {
    assert (audit + [row])[..|audit|] == audit;
  }

  lemma TrailStarts(h: History, next: History, row: RoleAudit, id: CandidateId)
    requires id in h.db.candidates && id in next.db.candidates && next.drafts == h.drafts && TrailOf(h, id) && TrailOf(next, id)
    requires row.candidate == id && next.db.audit == h.db.audit + [row] && next.db.candidates[id].role == row.newValue
    ensures row.oldValue == h.db.candidates[id].role
  {
    RowsWithLast(h.db.audit, row, id);
    LastRowStarts(RoleRows(h.db.audit, id), row, h.drafts[id], h.db.candidates[id].role);
  }

  lemma LastRowStarts(rows: seq<RoleAudit>, row: RoleAudit, from: Option<string>, to: Option<string>)
    requires Chain(rows, from, to) && Chain(rows + [row], from, row.newValue)
    ensures row.oldValue == to
  {
    assert (rows + [row])[..|rows|] == rows;
    ChainHasOneEnd(rows, from, row.oldValue, to);
  }

  /** Storing a role with an audit row that starts from the role read earlier. */
  lemma AuditedWriteKeepsTrailIff(h: History, id: CandidateId, patch: Patch, actor: Actor)
    requires TrailInv(h) && id in h.db.candidates && patch.roleChanged && CheckActor(actor).None?
    requires patch.row.role != Some("") && patch.row.role != patch.oldRole
    ensures TrailInv(h.(db := WriteUpdate(h.db, id, patch, actor))) <==> patch.oldRole == h.db.candidates[id].role
  {
    var next := h.(db := WriteUpdate(h.db, id, patch, actor));
    var row := RoleAudit(id, patch.oldRole, patch.row.role, actor);
    assert TrailOf(h, id);
    if TrailInv(next) {
      assert TrailOf(next, id);
      TrailStarts(h, next, row, id);
    }
    if patch.oldRole == h.db.candidates[id].role {
      RoleWriteKeeps(h, next, id, row);
    }
  }

  /** The write half of an update, run later than its read: it keeps the trail exactly when the role it read is still
      the current one, or the audit refuses it. An update that leaves the role alone stores the role it read without
      an audit row; one that changes it writes a row that starts from the role it read. */
  lemma StaleWriteKeepsTrailIff(h: History, id: CandidateId, read: Candidate, request: UpdateRequest, catalog: set<string>,
                                patch: Patch, actor: Actor)
    requires TrailInv(h) && id in h.db.candidates
    requires PlanUpdate(read, request, catalog) == Planned(patch) && read.role != Some("")
    ensures TrailInv(h.(db := WriteUpdate(h.db, id, patch, actor))) <==>
              || read.role == h.db.candidates[id].role
              || (patch.roleChanged && CheckActor(actor).Some?)
  {
    if !patch.roleChanged {
      SilentWriteKeepsTrailIff(h, id, patch, actor);
    } else if CheckActor(actor).None? {
      AuditedWriteKeepsTrailIff(h, id, patch, actor);
    }
  }

  function DescribeRequest(text: string): UpdateRequest {
    UpdateRequest(None, Some(text), None, None, None, None)
  }

  function RoleRequest(role: string): UpdateRequest {
    UpdateRequest(None, None, None, Some(role), None, None)
  }

  lemma RolePlan(row: Candidate, role: string, catalog: set<string>)
    requires row.status.Draft? && row.role == None && role in catalog && role != "" && Trimmed(role, SPACES)
    ensures PlanUpdate(row, RoleRequest(role), catalog) == Planned(Patch(row.(role := Some(role)), true, None))
  {
    TrimmedIsFixed(role, SPACES);
  }

  function Drafted(row: Candidate): History {
    History(Db(map[0 := row], map[], map[], []), map[0 := None])
  }

  /** The candidate with the role it has been given. */
  function Given(row: Candidate, role: string, actor: Actor): History {
    Drafted(row).(db := Db(map[0 := row.(role := Some(role))], map[], map[], [RoleAudit(0, None, Some(role), actor)]))
  }

  /** The store reaches it by drafting the candidate and updating it. */
  lemma RoleGiven(row: Candidate, role: string, catalog: set<string>, actor: Actor)
    requires row.status.Draft? && row.role == None && CheckActor(actor).None?
    requires role in catalog && role != "" && Trimmed(role, SPACES)
    ensures Trace([History(Db(map[], map[], map[], []), map[]), Drafted(row), Given(row, role, actor)],
                  [Call.Draft(0, row), Call.Update(0, RoleRequest(role), catalog, actor, Works)])
  {
    RolePlan(row, role, catalog);
  }

  /** From there, either kind of update that was read when the candidate had been drafted breaks the trail. */
  lemma StaleUpdatesBreakTrail(row: Candidate, role: string, other: string, text: string, catalog: set<string>, actor: Actor)
    requires row.status.Draft? && row.role == None && row.description != text && CheckActor(actor).None?
    requires role in catalog && role != "" && Trimmed(role, SPACES)
    requires other in catalog && other != "" && Trimmed(other, SPACES)
    ensures var given := Given(row, role, actor);
            var silent := PlanUpdate(Drafted(row).db.candidates[0], DescribeRequest(text), catalog);
            var audited := PlanUpdate(Drafted(row).db.candidates[0], RoleRequest(other), catalog);
            && Trace([History(Db(map[], map[], map[], []), map[]), Drafted(row), given],
                     [Call.Draft(0, row), Call.Update(0, RoleRequest(role), catalog, actor, Works)])
            && silent.Planned? && !TrailInv(given.(db := WriteUpdate(given.db, 0, silent.patch, actor)))
            && audited.Planned? && !TrailInv(given.(db := WriteUpdate(given.db, 0, audited.patch, actor)))
  {
    var given := Given(row, role, actor);
    RoleGiven(row, role, catalog, actor);
    TraceKeepsTrail([History(Db(map[], map[], map[], []), map[]), Drafted(row), given],
                    [Call.Draft(0, row), Call.Update(0, RoleRequest(role), catalog, actor, Works)], 2);
    RolePlan(row, other, catalog);
    StaleWriteKeepsTrailIff(given, 0, row, RoleRequest(other), catalog, PlanUpdate(row, RoleRequest(other), catalog).patch, actor);
    StaleWriteKeepsTrailIff(given, 0, row, DescribeRequest(text), catalog, PlanUpdate(row, DescribeRequest(text), catalog).patch, actor);
  }

  // ----- who set the role -----

  /** The k-th audit row is the candidate's newest. */
  predicate IsNewest(audit: seq<RoleAudit>, id: CandidateId, k: nat) {
    k < |audit| && audit[k].candidate == id && forall j :: k < j < |audit| ==> audit[j].candidate != id
  }

  lemma {:induction false} LatestIsNewest(audit: seq<RoleAudit>, id: CandidateId)
    ensures match QueryLatest(audit, id)
            case Some(row) => exists k: nat :: IsNewest(audit, id, k) && audit[k] == row
            case None => forall k :: 0 <= k < |audit| ==> audit[k].candidate != id
  {
    if audit != [] {
      var n := |audit| - 1;
      if audit[n].candidate == id {
        assert IsNewest(audit, id, n);
      } else {
        LatestIsNewest(audit[..n], id);
        if QueryLatest(audit[..n], id).Some? {
          var k: nat :| IsNewest(audit[..n], id, k) && audit[..n][k] == QueryLatest(audit[..n], id).value;
          assert IsNewest(audit, id, k);
        }
      }
    }
  }

  /** A listed candidate gets its newest audit row, and none exactly if it shows no role, the lookup fails or nothing has
      been recorded. */
  lemma AuthoringIsNewest(audit: seq<RoleAudit>, candidate: Listed, works: bool)
    ensures match AuthoringOf(audit, candidate, works)
            case Some(row) => ShowsRole(candidate) && works && exists k: nat :: IsNewest(audit, candidate.id, k) && audit[k] == row
            case None => !ShowsRole(candidate) || !works || forall k :: 0 <= k < |audit| ==> audit[k].candidate != candidate.id
  {
    LatestIsNewest(audit, candidate.id);
  }

  /** Its role has a character that is no white space. */
  predicate ShowsRole(candidate: Listed) {
    candidate.role.Some? && TrimSpace(candidate.role.value) != ""
  }
}
