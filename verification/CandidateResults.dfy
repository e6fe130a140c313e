/** What a caller gets from an update and from an apply, and what the database holds afterwards, column by column and
    in the words of the request. */
module CandidateResults {
  import opened Options
  import opened Text
  import opened CandidateDb
  import CandidateStore
  import ApplyProtocol

  // ----- who may act -----

  /** A router must tell its confidence, in 0..1; no one else may tell one; other kinds are refused. */
  lemma ActorAcceptedIff(actor: Actor)
    ensures CheckActor(actor).None? <==>
              match actor.kind
              case Unrecognised(_) => false
              case Router => actor.confidence.Some? && 0.0 <= actor.confidence.value <= 1.0
              case _ => actor.confidence.None?
    ensures CheckActor(actor) == Some(InvalidActorKind) <==> actor.kind.Unrecognised?
    ensures CheckActor(actor) == Some(InvalidConfidence) ==> actor.kind.Router?
    ensures CheckActor(actor) == Some(ConfidenceNotAllowed) ==> !actor.kind.Router? && !actor.kind.Unrecognised?
  {
  }

  // ----- the mode of an apply -----

  /** What the arguments must be for each mode; the role is the trimmed one, known and not blank. */
  lemma ModeAcceptedIff(executionMode: string, executionRole: string, catalog: set<string>)
    ensures var checked := CheckMode(executionMode, executionRole, catalog);
            && (checked == Accepted(Manual) <==> executionMode == "" || executionMode == "manual")
            && (forall role :: checked == Accepted(RoleDispatch(role)) <==>
                  executionMode == "role_dispatch" && role == TrimSpace(executionRole) && role != "" && role in catalog)
            && (checked == Rejecting(InvalidMode) <==> executionMode !in {"", "manual", "role_dispatch"})
            && (checked == Rejecting(MissingRole) <==> executionMode == "role_dispatch" && TrimSpace(executionRole) == "")
            && (checked == Rejecting(UnknownRole) <==>
                  executionMode == "role_dispatch" && TrimSpace(executionRole) != "" && TrimSpace(executionRole) !in catalog)
  {
  }

  // ----- the task that an apply makes -----

  /** The task of a candidate: its texts trimmed, to do, and queued for a connector only where a role is to carry it
      out. The source fits in 80 characters. */
  predicate IsTaskOf(task: Task, row: Candidate, mode: Mode) {
    && task.project == row.project && task.title == TrimSpace(row.title) && task.description == TrimSpace(row.description)
    && task.status == Todo
    && match mode
       case Manual => task.source == "agent:planning-orchestrator" && task.dispatch == NotDispatched
       case RoleDispatch(role) =>
         && "role_dispatch:" <= task.source <= "role_dispatch:" + role && |task.source| <= 80
         && (|role| <= 66 && Trimmed(role, SPACES) ==> task.source == "role_dispatch:" + role)
         && task.dispatch == Queued
  }

  lemma TrimmedFront(s: string)
    requires s != "" && s[0] !in SPACES
    ensures TrimSpace(s) <= s && TrimSpace(s) != ""
    ensures forall n :: 0 < n <= |s| && s[n - 1] !in SPACES ==> s[..n] <= TrimSpace(s)
  {
    TrimRightCuts(s, SPACES);
    assert TrimLeft(s, SPACES) == s;
    forall n | 0 < n <= |s| && s[n - 1] !in SPACES ensures s[..n] <= TrimSpace(s) {
      assert n <= |TrimSpace(s)|;
      assert TrimSpace(s) == s[..|TrimSpace(s)|];
    }
  }

  lemma DispatchSource(role: string)
    ensures var source := TrimSpace(SourceFor(RoleDispatch(role)));
            && "role_dispatch:" <= source <= "role_dispatch:" + role && |source| <= 80
            && (|role| <= 66 && Trimmed(role, SPACES) ==> source == "role_dispatch:" + role)
  {
    var head := "role_dispatch:";
    var source := SourceFor(RoleDispatch(role));
    assert source <= head + role && |source| <= 80 && source[..14] == head;
    assert source[0] == 'r' && source[13] == ':';
    TrimmedFront(source);
    if |role| <= 66 && Trimmed(role, SPACES) {
      assert source == head + role && source[|source| - 1] == if role == "" then ':' else role[|role| - 1];
      TrimmedIsFixed(source, SPACES);
    }
  }

  lemma NewTaskIsTaskOf(row: Candidate, mode: Mode)
    ensures IsTaskOf(NewTask(row, mode), row, mode)
  {
    match mode
    case Manual =>
      TrimmedIsFixed("agent:planning-orchestrator", SPACES);
      assert "agent:planning-orchestrator"[0] != "role_dispatch"[0];
    case RoleDispatch(role) =>
      DispatchSource(role);
      var source := TrimSpace(SourceFor(mode));
      assert source[..14] == "role_dispatch:" && source[..13] == source[..14][..13] == "role_dispatch";
  }

  /** What a first apply leaves: its task, its lineage row, the candidate applied and with the role that is to carry it
      out, an audit row if that is a new one, and everything else as it was. */
  ghost predicate NewlyApplied(db: Db, id: CandidateId, mode: Mode, actor: Actor, after: Db, task: TaskId, lineage: LineageId)
    requires id in db.candidates
  {
    var row := db.candidates[id];
    && task in after.tasks && IsTaskOf(after.tasks[task], row, mode) && after.tasks - {task} == db.tasks - {task}
    && after.lineage == db.lineage[lineage := Lineage(Some(id), task)]
    && after.candidates == db.candidates[id := row.(status := Applied, role := if mode.Manual? then row.role else Some(mode.role))]
    && after.audit == db.audit + if mode.Manual? || row.role == Some(mode.role) then []
                                 else [RoleAudit(id, if row.role == Some("") then None else row.role, Some(mode.role), actor)]
  }

  lemma PublishedIsNewlyApplied(db: Db, id: CandidateId, mode: Mode, actor: Actor, task: TaskId, lineage: LineageId)
    requires id in db.candidates && (mode.RoleDispatch? ==> mode.role != "")
    ensures NewlyApplied(db, id, mode, actor, PublishApply(db, id, db.candidates[id], mode, actor, task, lineage), task, lineage)
  {
    NewTaskIsTaskOf(db.candidates[id], mode);
  }

  /** A first apply that succeeds has made the task it answers and has done nothing else. */
  lemma ApplyMakesTask(db: Db, id: CandidateId, mode: Mode, actor: Actor, task: TaskId, lineage: LineageId, after: Db, outcome: ApplyOutcome)
    requires AppliesTo(db, id, mode, actor, task, lineage, after, outcome) && (mode.RoleDispatch? ==> mode.role != "")
    requires outcome.Succeeded? && !outcome.alreadyApplied
    ensures id in db.candidates && NewlyApplied(db, id, mode, actor, after, outcome.task, outcome.lineage)
    ensures outcome.candidate == after.candidates[id]
  {
    PublishedIsNewlyApplied(db, id, mode, actor, task, lineage);
  }

  /** The same of the store's answer when its database may fail: what was answered has been done. */
  lemma AnsweredApplyMakesTask(db: Db, id: CandidateId, mode: Mode, actor: Actor, task: TaskId, lineage: LineageId,
                               fault: CandidateStore.Fault, after: Db, outcome: ApplyOutcome)
    requires CandidateStore.AppliesUnder(db, id, mode, actor, task, lineage, fault, after, outcome)
    requires (mode.RoleDispatch? ==> mode.role != "") && outcome.Succeeded? && !outcome.alreadyApplied
    ensures id in db.candidates && NewlyApplied(db, id, mode, actor, after, outcome.task, outcome.lineage)
    ensures outcome.candidate == after.candidates[id]
  {
    ApplyMakesTask(db, id, mode, actor, task, lineage, after, outcome);
  }

  /** And of a commit among other transactions, answered or not. */
  lemma CommitMakesTask(hash: ApplyProtocol.KeyHash, s: ApplyProtocol.Sys, t: ApplyProtocol.TxnId, answered: bool)
    requires ApplyProtocol.Inv(hash, s) && ApplyProtocol.Enabled(hash, s, ApplyProtocol.Commit(t, answered))
    requires s.txns[t].stage.RowStaged? && (s.txns[t].mode.RoleDispatch? ==> s.txns[t].mode.role != "")
    ensures var txn, next := s.txns[t], ApplyProtocol.Do(hash, s, ApplyProtocol.Commit(t, answered));
            && txn.id in s.db.candidates
            && NewlyApplied(s.db, txn.id, txn.mode, txn.actor, next.db, txn.stage.newTask, txn.stage.newLineage)
            && next.txns[t].stage.outcome == if answered
                 then Succeeded(next.db.candidates[txn.id], txn.stage.newTask, txn.stage.newLineage, false)
                 else Failed(StoreFailure)
  {
    var txn := s.txns[t];
    assert ApplyProtocol.TxnInv(s.db, s.applied, txn);
    PublishedIsNewlyApplied(s.db, txn.id, txn.mode, txn.actor, txn.stage.newTask, txn.stage.newLineage);
  }

  /** A repeated apply answers the candidate's lineage row and its task, and changes the status at most. */
  lemma RepeatedApplyChangesStatus(db: Db, id: CandidateId, mode: Mode, actor: Actor, task: TaskId, lineage: LineageId,
                                   after: Db, outcome: ApplyOutcome)
    requires AppliesTo(db, id, mode, actor, task, lineage, after, outcome) && outcome.Succeeded? && outcome.alreadyApplied
    ensures id in db.candidates && after == db.(candidates := db.candidates[id := db.candidates[id].(status := Applied)])
    ensures outcome.candidate == after.candidates[id]
    ensures outcome.lineage in db.lineage && db.lineage[outcome.lineage] == Lineage(Some(id), outcome.task)
  {
  }

  // ----- when an apply answers what -----

  ghost predicate HasLineage(db: Db, id: CandidateId) {
    exists l :: l in db.lineage && db.lineage[l].candidate == Some(id)
  }

  /** An unfinished task of the project whose title differs from the candidate's in case and surrounding blanks only. */
  predicate IsConflict(db: Db, task: TaskId, row: Candidate) {
    && task in db.tasks && db.tasks[task].project == row.project
    && (db.tasks[task].status == Todo || db.tasks[task].status == InProgress)
    && Lower(Trim(db.tasks[task].title, {' '})) == Lower(TrimSpace(row.title))
  }

  /** The apply can go ahead but for its task and its audit. */
  ghost predicate Applicable(db: Db, id: CandidateId) {
    id in db.candidates && TrimSpace(db.candidates[id].title) != "" && !HasLineage(db, id) && db.candidates[id].status != Rejected
  }

  lemma BlankLower(s: string)
    ensures Lower(s) == "" <==> s == ""
  {
  }

  /** Which answer an apply gives, in the order of its checks: no such candidate, a blank title, an earlier apply's task,
      a rejected candidate, an open task of the title, a refused actor. Only a success changes anything. */
  lemma ApplyAnswers(db: Db, id: CandidateId, mode: Mode, actor: Actor, task: TaskId, lineage: LineageId, after: Db, outcome: ApplyOutcome)
    requires AppliesTo(db, id, mode, actor, task, lineage, after, outcome) && (mode.RoleDispatch? ==> mode.role != "")
    ensures outcome == NoCandidate <==> id !in db.candidates
    ensures outcome == Failed(BlankTitle) <==> id in db.candidates && TrimSpace(db.candidates[id].title) == ""
    ensures outcome.Succeeded? && outcome.alreadyApplied <==>
              id in db.candidates && TrimSpace(db.candidates[id].title) != "" && HasLineage(db, id)
    ensures outcome == Failed(NotApproved) <==>
              && id in db.candidates && TrimSpace(db.candidates[id].title) != "" && !HasLineage(db, id)
              && db.candidates[id].status == Rejected
    ensures outcome.Failed? && outcome.error.TitleConflict? <==>
              Applicable(db, id) && exists t :: IsConflict(db, t, db.candidates[id])
    ensures outcome.Failed? && outcome.error.TitleConflict? ==> IsConflict(db, outcome.error.task, db.candidates[id])
    ensures outcome.Failed? && outcome.error.AuditRejected? <==>
              && Applicable(db, id) && !(exists t :: IsConflict(db, t, db.candidates[id]))
              && mode.RoleDispatch? && db.candidates[id].role != Some(mode.role) && CheckActor(actor).Some?
    ensures outcome.Failed? ==> after == db
  {
    if id in db.candidates {
      var row := db.candidates[id];
      BlankLower(TrimSpace(row.title));
      assert HasLineage(db, id) <==> !NoLineage(db, id) by {
        assert forall l :: LineageOf(db, l, id) <==> l in db.lineage && db.lineage[l].candidate == Some(id);
      }
      assert forall t :: IsConflict(db, t, row) <==> OpenDuplicate(db, t, row.project, NormalizeTitle(row.title));
    }
  }

  // ----- what an update stores -----

  /** The text of a review status. */
  function ReviewText(status: Status): Option<string> {
    match status
    case Draft => Some("draft")
    case Approved => Some("approved")
    case Rejected => Some("rejected")
    case Applied => None
  }

  /** Every column that the request gives has what it gives, the others what they had. */
  predicate Honours(row: Candidate, request: UpdateRequest, stored: Candidate) {
    && stored.project == row.project && stored.planningRun == row.planningRun
    && (match request.title case Some(t) => stored.title == TrimSpace(t) case None => stored.title == row.title)
    && (match request.description case Some(d) => stored.description == d case None => stored.description == row.description)
    && (match request.status case Some(text) => ReviewText(stored.status) == Some(TrimSpace(text)) case None => stored.status == row.status)
    && (match request.role
        case Some(r) => if TrimSpace(r) == "" then stored.role == None else stored.role == Some(TrimSpace(r))
        case None => stored.role == row.role)
    && (match request.feedbackKind case Some(k) => stored.feedbackKind == k case None => stored.feedbackKind == row.feedbackKind)
    && (match request.feedbackNote case Some(n) => stored.feedbackNote == n case None => stored.feedbackNote == row.feedbackNote)
  }

  /** An update that succeeds has stored what was asked for, with an audit row exactly if the role changes, and answers
      the row stored. */
  lemma UpdateStores(db: Db, id: CandidateId, request: UpdateRequest, catalog: set<string>, actor: Actor, after: Db, row: Candidate)
    requires (after, CandidateStore.Updated(row)) == CandidateStore.UpdateAlone(db, id, request, catalog, actor)
    ensures id in db.candidates && Honours(db.candidates[id], request, row) && row != db.candidates[id]
    ensures after.candidates == db.candidates[id := row] && after.tasks == db.tasks && after.lineage == db.lineage
    ensures after.audit == db.audit + if row.role == db.candidates[id].role then []
                                      else [RoleAudit(id, db.candidates[id].role, row.role, actor)]
  {
    if row.role == db.candidates[id].role {
      assert db.audit + [] == db.audit;
    }
  }

  /** The same of the store's answer when its database may fail; an update whose answer is an error has been stored
      as if it had succeeded, or not at all. */
  lemma AnsweredUpdateStores(db: Db, id: CandidateId, request: UpdateRequest, catalog: set<string>, actor: Actor, fault: CandidateStore.Fault)
    ensures var (after, result) := CandidateStore.UpdateUnder(db, id, request, catalog, actor, fault);
            && (result.Updated? ==>
                  && id in db.candidates && Honours(db.candidates[id], request, result.row)
                  && after.candidates == db.candidates[id := result.row] && after.tasks == db.tasks && after.lineage == db.lineage)
            && (!result.Updated? ==>
                  after == db || (result.StoreError? && id in db.candidates && id in after.candidates
                                  && Honours(db.candidates[id], request, after.candidates[id])
                                  && after.candidates - {id} == db.candidates - {id}))
  {
    var (after, result) := CandidateStore.UpdateAlone(db, id, request, catalog, actor);
    if result.Updated? {
      UpdateStores(db, id, request, catalog, actor, after, result.row);
    } else {
      UpdateSucceedsIff(db, id, request, catalog, actor);
    }
  }

  /** What a request must be to be accepted: it changes something, a given title is not blank, a given status is a review
      status, a given role is known or blank and a given feedback kind is one of the list. */
  predicate Acceptable(request: UpdateRequest, catalog: set<string>) {
    && (request.title.Some? ==> TrimSpace(request.title.value) != "")
    && (request.status.Some? ==> TrimSpace(request.status.value) in {"draft", "approved", "rejected"})
    && (request.role.Some? ==> TrimSpace(request.role.value) == "" || TrimSpace(request.role.value) in catalog)
    && (request.feedbackKind.Some? ==>
          request.feedbackKind.value in
            {"", "good_fit", "modified", "fallback", "wrong_scope", "too_broad", "duplicate", "low_quality", "other"})
  }

  /** When an update succeeds, and what each refusal is due to; a refused one changes nothing. */
  lemma UpdateSucceedsIff(db: Db, id: CandidateId, request: UpdateRequest, catalog: set<string>, actor: Actor)
    ensures var (after, result) := CandidateStore.UpdateAlone(db, id, request, catalog, actor);
            && (result == CandidateStore.Missing <==> id !in db.candidates)
            && (result.Updated? <==>
                  && id in db.candidates && db.candidates[id].status != Applied && Acceptable(request, catalog)
                  && !Honours(db.candidates[id], request, db.candidates[id])
                  && (CheckActor(actor).None? || RoleStays(db.candidates[id], request)))
            && (result == CandidateStore.NotUpdated(NotMutable) <==> id in db.candidates && db.candidates[id].status == Applied)
            && (result == CandidateStore.NotUpdated(NoChanges) <==>
                  && id in db.candidates && db.candidates[id].status != Applied && Acceptable(request, catalog)
                  && Honours(db.candidates[id], request, db.candidates[id]))
            && (!result.Updated? ==> after == db)
  {
  }

  predicate RoleStays(row: Candidate, request: UpdateRequest) {
    match request.role
    case Some(r) => if TrimSpace(r) == "" then row.role == None else row.role == Some(TrimSpace(r))
    case None => true
  }

  /** From the review to the apply: a candidate that an update rejects is not applied, one that it approves is not
      refused for lack of approval. */
  lemma ReviewDecidesApply(db: Db, id: CandidateId, request: UpdateRequest, catalog: set<string>, editor: Actor, reviewed: Db, row: Candidate,
                           mode: Mode, actor: Actor, task: TaskId, lineage: LineageId, after: Db, outcome: ApplyOutcome)
    requires (reviewed, CandidateStore.Updated(row)) == CandidateStore.UpdateAlone(db, id, request, catalog, editor)
    requires request.status.Some? && !HasLineage(db, id) && TrimSpace(row.title) != ""
    requires AppliesTo(reviewed, id, mode, actor, task, lineage, after, outcome) && (mode.RoleDispatch? ==> mode.role != "")
    ensures outcome == Failed(NotApproved) <==> TrimSpace(request.status.value) == "rejected"
  {
    UpdateStores(db, id, request, catalog, editor, reviewed, row);
    ApplyAnswers(reviewed, id, mode, actor, task, lineage, after, outcome);
    assert !HasLineage(reviewed, id);
  }

  /** The write of an update that was read earlier stores what was asked for on top of what had been read; only the columns
      that no update touches are those of the row as it is now. */
  lemma StaleUpdateStores(db: Db, id: CandidateId, read: Candidate, request: UpdateRequest, catalog: set<string>, patch: Patch, actor: Actor)
    requires id in db.candidates && PlanUpdate(read, request, catalog) == Planned(patch)
    requires patch.roleChanged ==> CheckActor(actor).None?
    ensures var after, now := WriteUpdate(db, id, patch, actor), db.candidates[id];
            && id in after.candidates && after.candidates - {id} == db.candidates - {id}
            && Honours(read.(project := now.project, planningRun := now.planningRun), request, after.candidates[id])
            && after.tasks == db.tasks && after.lineage == db.lineage
            && after.audit == db.audit + if after.candidates[id].role == read.role then []
                                         else [RoleAudit(id, read.role, after.candidates[id].role, actor)]
  {
    if !patch.roleChanged {
      assert db.audit + [] == db.audit;
    }
  }
}
