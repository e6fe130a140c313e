/** The agent_runs table: creation by idempotency key and status updates. */
module AgentRuns {
  import opened Options

  type Id = string

  datatype Status = Running | Completed | Failed

  datatype AgentRun = AgentRun(id: Id, project: Id, agentName: string, action: string, status: Status, summary: string,
                               files: seq<string>, needsReview: bool, completedAt: Option<nat>, error: string, key: string)

  datatype Request = Request(agentName: string, action: string, summary: string, files: seq<string>, needsReview: bool, key: string)

  datatype Patch = Patch(status: Option<Status>, summary: Option<string>, files: Option<seq<string>>,
                         needsReview: Option<bool>, error: Option<string>)

  /** How a statement that writes ends: Done; Lost, an error with nothing written; Late, written and still an
      error, because the row could not be read back or the answer did not arrive. */
  datatype Write = Done | Lost | Late

  datatype Failure = ProjectMismatch | StoreError

  datatype Result = Found(run: AgentRun, existed: bool) | NotFound | Err(failure: Failure)

  predicate Terminal(status: Status) {
    status == Completed || status == Failed
  }

  /** The row that Create inserts; without a key the id serves as one. */
  function NewRun(project: Id, request: Request, id: Id): AgentRun {
    AgentRun(id, project, request.agentName, request.action, Running, request.summary, request.files, request.needsReview,
             None, "", if request.key == "" then id else request.key)
  }

  function Or<T>(value: Option<T>, default: T): T {
    if value.Some? then value.value else default
  }

  /** The row that Update writes. */
  function Patched(run: AgentRun, patch: Patch, now: nat): AgentRun {
    var status := Or(patch.status, run.status);
    run.(status := status, summary := Or(patch.summary, run.summary), files := Or(patch.files, run.files),
         needsReview := Or(patch.needsReview, run.needsReview), error := Or(patch.error, run.error),
         completedAt := if !Terminal(status) then None else if run.completedAt.Some? then run.completedAt else Some(now))
  }

  // ----- the table -----

  type Rows = map<Id, AgentRun>

  ghost predicate KeysUnique(rows: Rows) {
    forall a, b :: a in rows && b in rows && rows[a].key == rows[b].key ==> a == b
  }

  /** completed_at is set exactly on the completed and failed runs. */
  ghost predicate CompletedAtIffTerminal(rows: Rows) {
    forall id :: id in rows ==> (rows[id].completedAt.Some? <==> Terminal(rows[id].status))
  }

  ghost predicate Valid(rows: Rows) {
    && (forall id :: id in rows ==> rows[id].id == id)
    && KeysUnique(rows) && CompletedAtIffTerminal(rows)
  }

  predicate HasKey(rows: Rows, key: string) {
    exists id :: id in rows && rows[id].key == key
  }

  /** One call on the store. `id` is the new UUID, `lookup` whether the holder of a taken key could be read. */
  datatype Call =
    | Creating(project: Id, request: Request, id: Id, insert: Write, lookup: bool)
    | Updating(id: Id, patch: Patch, now: nat, update: Write)

  function After(rows: Rows, call: Call): Rows {
    match call
    case Creating(project, request, id, insert, _) =>
      var run := NewRun(project, request, id);
      if insert == Lost || id in rows || HasKey(rows, run.key) then rows else rows[id := run]
    case Updating(id, patch, now, update) =>
      if update == Lost || id !in rows then rows else rows[id := Patched(rows[id], patch, now)]
  }

  /** What CreateOrGetByIdempotency may answer: the new row, or the row that holds the key already. */
  ghost predicate Answers(rows: Rows, project: Id, request: Request, id: Id, insert: Write, lookup: bool, result: Result) {
    var run := NewRun(project, request, id);
    if insert == Lost || id in rows then result == Err(StoreError)
    else if HasKey(rows, run.key) then
      if request.key == "" || !lookup then result == Err(StoreError)
      else exists other :: other in rows && rows[other].key == run.key &&
             result == if rows[other].project == project then Found(rows[other], true) else Err(ProjectMismatch)
    else result == if insert == Done then Found(run, false) else Err(StoreError)
  }

  class AgentRunStore {
    var rows: Rows

    constructor ()
      ensures rows == map[]
    {
      rows := map[];
    }

    /** The unique index on the key refuses a key that is taken. */
    method Create(project: Id, request: Request, id: Id, insert: Write) returns (result: Result, keyTaken: bool)
      modifies this
      ensures rows == After(old(rows), Creating(project, request, id, insert, true))
      ensures var run := NewRun(project, request, id);
              && (keyTaken <==> insert != Lost && id !in old(rows) && HasKey(old(rows), run.key))
              && result == if insert == Done && id !in old(rows) && !HasKey(old(rows), run.key) then Found(run, false)
                           else Err(StoreError)
    {
      var run := NewRun(project, request, id);
      if insert == Lost || id in rows {
        return Err(StoreError), false;
      }
      if HasKey(rows, run.key) {
        return Err(StoreError), true;
      }
      rows := rows[id := run];
      result := if insert == Done then Found(run, false) else Err(StoreError);
      keyTaken := false;
    }

    method GetByIdempotencyKey(key: string) returns (found: Option<AgentRun>)
      ensures found.Some? <==> HasKey(rows, key)
      ensures found.Some? ==> found.value.key == key && exists id :: id in rows && rows[id] == found.value
    {
      if HasKey(rows, key) {
        var id :| id in rows && rows[id].key == key;
        return Some(rows[id]);
      }
      return None;
    }

    method CreateOrGetByIdempotency(project: Id, request: Request, id: Id, insert: Write, lookup: bool) returns (result: Result)
      modifies this
      ensures rows == After(old(rows), Creating(project, request, id, insert, lookup))
      ensures Answers(old(rows), project, request, id, insert, lookup, result)
    {
      var created, keyTaken := Create(project, request, id, insert);
      if created.Found? {
        return created;
      }
      if !keyTaken || request.key == "" {
        return created;
      }
      if !lookup {
        return Err(StoreError);
      }
      var existing := GetByIdempotencyKey(request.key);
      if existing == None {
        return created;
      }
      if existing.value.project != project {
        return Err(ProjectMismatch);
      }
      return Found(existing.value, true);
    }

    /** The Go method answers nil for a row that is not there. */
    method Update(id: Id, patch: Patch, now: nat, update: Write) returns (result: Result)
      modifies this
      ensures rows == After(old(rows), Updating(id, patch, now, update))
      ensures result == if update != Done then Err(StoreError) else if id in rows then Found(rows[id], true) else NotFound
    {
      if update == Lost {
        return Err(StoreError);
      }
      if id !in rows {
        return if update == Done then NotFound else Err(StoreError);
      }
      var run := rows[id];
      var status := run.status;
      if patch.status.Some? {
        status := patch.status.value;
      }
      var completedAt: Option<nat>;
      if status == Completed || status == Failed {
        if run.completedAt.Some? {
          completedAt := run.completedAt;
        } else {
          completedAt := Some(now);
        }
      } else {
        completedAt := None;
      }
      rows := rows[id := run.(status := status, summary := Or(patch.summary, run.summary), files := Or(patch.files, run.files),
                              needsReview := Or(patch.needsReview, run.needsReview), error := Or(patch.error, run.error),
                              completedAt := completedAt)];
      result := if update == Done then Found(rows[id], true) else Err(StoreError);
    }
  }

  // ----- every run of calls -----

  function AfterAll(rows: Rows, calls: seq<Call>): Rows {
    if calls == [] then rows else After(AfterAll(rows, calls[..|calls| - 1]), calls[|calls| - 1])
  }

  /** Keys stay unique and completed_at set exactly on the finished runs, whatever fails on the way. */
  lemma {:induction false} EveryRunKeeps(rows: Rows, calls: seq<Call>)
    requires Valid(rows)
    ensures Valid(AfterAll(rows, calls))
  {
    if calls != [] {
      EveryRunKeeps(rows, calls[..|calls| - 1]);
    }
  }

  /** A key leads to the same run for good: no call takes the row, its key or its project away. */
  lemma {:induction false} KeyLasts(rows: Rows, calls: seq<Call>, id: Id)
    requires Valid(rows) && id in rows
    ensures id in AfterAll(rows, calls)
    ensures AfterAll(rows, calls)[id].key == rows[id].key && AfterAll(rows, calls)[id].project == rows[id].project
  {
    if calls != [] {
      KeyLasts(rows, calls[..|calls| - 1], id);
    }
  }

  /** Asking again with the same key, after any calls, answers the run the key led to at first and adds none. */
  lemma AskingAgainFindsTheSame(rows: Rows, calls: seq<Call>, id: Id, request: Request, other: Id, result: Result)
    requires Valid(rows) && id in rows && request.key == rows[id].key != ""
    requires Answers(AfterAll(rows, calls), rows[id].project, request, other, Done, true, result)
    requires other !in AfterAll(rows, calls)
    ensures id in AfterAll(rows, calls) && result == Found(AfterAll(rows, calls)[id], true)
    ensures After(AfterAll(rows, calls), Creating(rows[id].project, request, other, Done, true)) == AfterAll(rows, calls)
  {
    EveryRunKeeps(rows, calls);
    KeyLasts(rows, calls, id);
  }

  /** A finished run that no call sets back to running keeps the time it finished at, even when its outcome changes. */
  lemma {:induction false} FinishTimeKept(rows: Rows, calls: seq<Call>, id: Id)
    requires Valid(rows) && id in rows && Terminal(rows[id].status)
    requires forall i :: 0 <= i < |calls| && calls[i].Updating? && calls[i].id == id ==> calls[i].patch.status != Some(Running)
    ensures id in AfterAll(rows, calls) && AfterAll(rows, calls)[id].completedAt == rows[id].completedAt
    ensures Terminal(AfterAll(rows, calls)[id].status)
  {
    if calls != [] {
      FinishTimeKept(rows, calls[..|calls| - 1], id);
    }
  }

  // ----- what the rows hold -----

  /** The field has what the patch gives, or what it had. */
  predicate Takes<T(==)>(given: Option<T>, before: T, after: T) {
    match given
    case Some(value) => after == value
    case None => after == before
  }

  /** A written update takes each field of the patch into the column of that name and keeps the others; the time of
      completion is kept, set to now or cleared with the status. No other row changes. */
  lemma UpdateTakesPatch(rows: Rows, id: Id, patch: Patch, now: nat, update: Write)
    requires id in rows && update != Lost
    ensures var after := AfterAll(rows, [Updating(id, patch, now, update)]);
            && after.Keys == rows.Keys && (forall other :: other in rows && other != id ==> after[other] == rows[other])
            && Takes(patch.status, rows[id].status, after[id].status) && Takes(patch.summary, rows[id].summary, after[id].summary)
            && Takes(patch.files, rows[id].files, after[id].files) && Takes(patch.needsReview, rows[id].needsReview, after[id].needsReview)
            && Takes(patch.error, rows[id].error, after[id].error)
            && (after[id].status == Running ==> after[id].completedAt == None)
            && (after[id].status != Running ==>
                  after[id].completedAt == if rows[id].completedAt.Some? then rows[id].completedAt else Some(now))
            && after[id].(status := rows[id].status, summary := rows[id].summary, files := rows[id].files,
                          needsReview := rows[id].needsReview, error := rows[id].error, completedAt := rows[id].completedAt) == rows[id]
  {
    var call := Updating(id, patch, now, update);
    assert [call][..0] == [];
    assert AfterAll(rows, [call]) == After(rows, call);
  }

  /** A new run is running, has the request's texts and key, or its own id for a key, and is the only row that is new. */
  lemma CreateTakesRequest(rows: Rows, project: Id, request: Request, id: Id, insert: Write, lookup: bool)
    requires insert != Lost && id !in rows && !HasKey(rows, if request.key == "" then id else request.key)
    ensures var after := AfterAll(rows, [Creating(project, request, id, insert, lookup)]);
            && id in after && after - {id} == rows
            && after[id].id == id && after[id].project == project && after[id].status == Running && after[id].completedAt == None
            && after[id].agentName == request.agentName && after[id].action == request.action && after[id].summary == request.summary
            && after[id].files == request.files && after[id].needsReview == request.needsReview && after[id].error == ""
            && (request.key != "" ==> after[id].key == request.key) && (request.key == "" ==> after[id].key == id)
  {
    var call := Creating(project, request, id, insert, lookup);
    assert [call][..0] == [];
    assert AfterAll(rows, [call]) == After(rows, call);
  }
}
