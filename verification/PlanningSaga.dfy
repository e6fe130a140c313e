/** One planning run: the orchestrator writes to three tables that share no transaction, and compensates when a
    step reports an error. */
module PlanningSaga {
  import opened Options
  import opened Text
  import AgentRuns

  type Id = AgentRuns.Id
  type Write = AgentRuns.Write

  datatype RunStatus = Queued | Running | Completed | Failed | Cancelled

  datatype Mode = Server | LocalConnector

  datatype Dispatch = NotRequired | DispatchQueued | Leased | Returned

  /** `error` and `dispatchError` hold which failure the stored text names. */
  datatype PlanningRun = PlanningRun(id: Id, project: Id, requirement: Id, status: RunStatus, mode: Mode, dispatch: Dispatch,
                                     startedAt: Option<nat>, completedAt: Option<nat>,
                                     error: Option<Failure>, dispatchError: Option<Failure>)

  datatype Requirement = Requirement(id: Id, project: Id, title: string)

  datatype Draft = Draft(title: string, executionRole: string, rank: int)

  datatype Candidate = Candidate(run: Id, project: Id, requirement: Id, title: string, executionRole: Option<string>, rank: int)

  datatype Failure = NoRequirement | ResolveSelection | ActiveRunExists | CreateRun | StartRun | CreateAgentRun
                   | GenerateDrafts | PersistDrafts | FinalizeAgent | CompleteRun | Reload

  datatype Result = Ok(run: PlanningRun) | Err(failure: Failure)

  datatype ReloadOutcome = Read | Gone | Broken

  /** The wording of names, summaries and messages. */
  datatype Texts = Texts(agentName: string, action: string, begun: string, completed: string,
                         failed: Failure -> string, message: Failure -> string)

  /** What the stores and the provider answer in one run of the saga. `cleanup`, `failRun` and `failAgent`
      are the compensating writes. */
  datatype Script = Script(
    mode: Option<Mode>, createRun: Write, markRunning: Write, createAgent: Write, drafts: Option<seq<Draft>>, persist: Write,
    finishAgent: Write, completeRun: Write, reload: ReloadOutcome,
    cleanup: Write, failRun: Write, failAgent: Write, texts: Texts)
  {
    /** Compensation works: each of its writes takes effect, even where it reports an error. */
    predicate Compensates() {
      cleanup != AgentRuns.Lost && failRun != AgentRuns.Lost && failAgent != AgentRuns.Lost
    }
  }

  const KEY_PREFIX := "planning-run:"

  function PlanningAgentRunKey(run: Id): string {
    KEY_PREFIX + TrimSpace(run)
  }

  /** Two planning runs share an agent run key only if their ids differ in surrounding white space alone. */
  lemma KeysAgreeIff(a: Id, b: Id)
    ensures PlanningAgentRunKey(a) == PlanningAgentRunKey(b) <==> TrimSpace(a) == TrimSpace(b)
  {
    assert PlanningAgentRunKey(a)[|KEY_PREFIX|..] == TrimSpace(a);
    assert PlanningAgentRunKey(b)[|KEY_PREFIX|..] == TrimSpace(b);
  }

  // ----- planning_runs -----

  type Runs = map<Id, PlanningRun>

  predicate Active(run: PlanningRun) {
    run.status == Queued || run.status == Running
  }

  predicate HasActive(runs: Runs, requirement: Id) {
    exists id :: id in runs && runs[id].requirement == requirement && Active(runs[id])
  }

  function NewRun(id: Id, requirement: Requirement, mode: Mode): PlanningRun {
    PlanningRun(id, requirement.project, requirement.id, Queued, mode,
                if mode == LocalConnector then DispatchQueued else NotRequired, None, None, None, None)
  }

  function Started(run: PlanningRun, now: nat): PlanningRun {
    run.(status := Running, startedAt := Some(AgentRuns.Or(run.startedAt, now)), error := None,
         dispatch := if run.mode == LocalConnector then Leased else run.dispatch)
  }

  function Finished(run: PlanningRun, now: nat): PlanningRun {
    run.(status := Completed, startedAt := Some(AgentRuns.Or(run.startedAt, now)), completedAt := Some(now), error := None,
         dispatch := if run.mode == LocalConnector then Returned else run.dispatch,
         dispatchError := if run.mode == LocalConnector then None else run.dispatchError)
  }

  function FailedWith(run: PlanningRun, failure: Failure, now: nat): PlanningRun {
    run.(status := Failed, startedAt := Some(AgentRuns.Or(run.startedAt, now)), completedAt := Some(now), error := Some(failure),
         dispatch := if run.mode == LocalConnector then Returned else run.dispatch,
         dispatchError := if run.mode == LocalConnector then Some(failure) else run.dispatchError)
  }

  // ----- backlog_candidates -----

  function ToCandidate(run: Id, requirement: Requirement, draft: Draft, index: nat): Candidate {
    var role := TrimSpace(draft.executionRole);
    Candidate(run, requirement.project, requirement.id, TrimSpace(draft.title), if role == "" then None else Some(role),
              if draft.rank < 1 then index + 1 else draft.rank)
  }

  function ToCandidates(run: Id, requirement: Requirement, drafts: seq<Draft>): seq<Candidate> {
    if drafts == [] then []
    else
      var n := |drafts| - 1;
      ToCandidates(run, requirement, drafts[..n]) + [ToCandidate(run, requirement, drafts[n], n)]
  }

  /** The table's rows by planning_run_id, in insertion order. */
  type Candidates = map<Id, seq<Candidate>>

  function CandidatesOf(candidates: Candidates, run: Id): seq<Candidate> {
    if run in candidates then candidates[run] else []
  }

  /** A candidate of the run and the requirement with the draft's trimmed texts, a blank role being none, and the draft's
      rank if it has one, otherwise its place counted from 1. */
  predicate IsCandidateOf(candidate: Candidate, run: Id, requirement: Requirement, draft: Draft, place: nat) {
    && candidate.run == run && candidate.project == requirement.project && candidate.requirement == requirement.id
    && candidate.title == TrimSpace(draft.title)
    && (candidate.executionRole == None <==> TrimSpace(draft.executionRole) == "")
    && (candidate.executionRole.Some? ==> candidate.executionRole.value == TrimSpace(draft.executionRole))
    && candidate.rank == if draft.rank >= 1 then draft.rank else place
  }

  /** One candidate for each draft, in order. */
  predicate AreCandidatesOf(candidates: seq<Candidate>, run: Id, requirement: Requirement, drafts: seq<Draft>) {
    |candidates| == |drafts| && forall i :: 0 <= i < |drafts| ==> IsCandidateOf(candidates[i], run, requirement, drafts[i], i + 1)
  }

  lemma {:induction false} DraftsBecomeCandidates(run: Id, requirement: Requirement, drafts: seq<Draft>)
    ensures AreCandidatesOf(ToCandidates(run, requirement, drafts), run, requirement, drafts)
  {
    if drafts != [] {
      var n := |drafts| - 1;
      DraftsBecomeCandidates(run, requirement, drafts[..n]);
      var before := ToCandidates(run, requirement, drafts[..n]);
      forall i | 0 <= i < n ensures IsCandidateOf(before[i], run, requirement, drafts[i], i + 1) {
        assert drafts[..n][i] == drafts[i];
      }
    }
  }

  // ----- what a run of the saga leaves -----

  /** Everything about the run: its row, its agent run and its candidates. */
  datatype Traces = Traces(run: Option<PlanningRun>, agent: Option<AgentRuns.AgentRun>, candidates: seq<Candidate>)

  function TracesOf(runs: Runs, agents: AgentRuns.Rows, candidates: Candidates, run: Id, agent: Id): Traces {
    Traces(if run in runs then Some(runs[run]) else None, if agent in agents then Some(agents[agent]) else None,
           CandidatesOf(candidates, run))
  }

  /** No run or one failed for this reason that no connector will pick up, no agent run or a failed one, and no
      candidates. */
  predicate RolledBack(traces: Traces, failure: Failure) {
    && (traces.run.Some? ==> traces.run.value.status == Failed && traces.run.value.error == Some(failure))
    && (traces.run.Some? ==> traces.run.value.dispatch == NotRequired || traces.run.value.dispatch == Returned)
    && (traces.agent.Some? ==> traces.agent.value.status == AgentRuns.Failed && traces.run.Some?)
    && traces.candidates == []
  }

  /** Run and agent run of the requirement completed, and exactly the drafts there. */
  predicate CarriedOut(traces: Traces, requirement: Requirement, drafts: seq<Draft>) {
    && traces.run.Some? && traces.run.value.status == Completed && traces.run.value.mode == Server
    && traces.run.value.project == requirement.project && traces.run.value.requirement == requirement.id
    && traces.run.value.startedAt.Some? && traces.run.value.completedAt.Some? && traces.run.value.error == None
    && traces.agent.Some? && traces.agent.value.status == AgentRuns.Completed
    && AreCandidatesOf(traces.candidates, traces.run.value.id, requirement, drafts)
  }

  /** Left to a local connector: the run queued for dispatch, the agent run running, no candidates yet. */
  predicate HandedOver(traces: Traces, requirement: Requirement) {
    && traces.run.Some? && traces.run.value.project == requirement.project && traces.run.value.requirement == requirement.id
    && traces.run.value.mode == LocalConnector && traces.run.value.startedAt == None && traces.run.value.completedAt == None
    && traces.run.value.status == Queued && traces.run.value.dispatch == DispatchQueued
    && traces.agent.Some? && traces.agent.value.status == AgentRuns.Running
    && traces.candidates == []
  }

  /** The server goes on by itself from here. */
  predicate OnServer(traces: Traces, id: Id, requirement: Requirement) {
    && traces.run.Some? && traces.run.value.project == requirement.project && traces.run.value.requirement == requirement.id
    && traces.run.value.status == Running && traces.run.value.mode == Server && traces.run.value.dispatch == NotRequired
    && traces.run.value.id == id
    && traces.agent.Some? && traces.agent.value.status == AgentRuns.Running
    && traces.candidates == []
  }

  /** The two inserts that compensation does not reach: they report an error because the new row could not be read
      back, and their caller holds no id to compensate with. */
  predicate LeftBehind(failure: Failure, script: Script) {
    (failure == CreateRun && script.createRun == AgentRuns.Late) || (failure == CreateAgentRun && script.createAgent == AgentRuns.Late)
  }

  /** The first step that reports an error, if any does. */
  function FirstFailure(requirement: Option<Requirement>, script: Script, hasActive: bool): Option<Failure> {
    if requirement == None then Some(NoRequirement)
    else if script.mode == None then Some(ResolveSelection)
    else if FirstBeginFailure(script.mode.value, script, hasActive).Some? then FirstBeginFailure(script.mode.value, script, hasActive)
    else if script.mode == Some(Server) then FirstServerFailure(script)
    else if script.reload == Broken then Some(Reload)
    else None
  }

  function FirstBeginFailure(mode: Mode, script: Script, hasActive: bool): Option<Failure> {
    if FirstInsertFailure(mode, script, hasActive).Some? then FirstInsertFailure(mode, script, hasActive)
    else if script.createAgent != AgentRuns.Done then Some(CreateAgentRun)
    else None
  }

  function FirstInsertFailure(mode: Mode, script: Script, hasActive: bool): Option<Failure> {
    if script.createRun == AgentRuns.Lost then Some(CreateRun)
    else if hasActive then Some(ActiveRunExists)
    else if script.createRun == AgentRuns.Late then Some(CreateRun)
    else if mode == Server && script.markRunning != AgentRuns.Done then Some(StartRun)
    else None
  }

  function FirstServerFailure(script: Script): Option<Failure> {
    if script.drafts == None then Some(GenerateDrafts)
    else if script.persist != AgentRuns.Done then Some(PersistDrafts)
    else FirstFinishFailure(script)
  }

  function FirstFinishFailure(script: Script): Option<Failure> {
    if script.finishAgent != AgentRuns.Done then Some(FinalizeAgent)
    else if script.completeRun != AgentRuns.Done then Some(CompleteRun)
    else if script.reload == Broken then Some(Reload)
    else None
  }

  ghost predicate RunsKept(runs: Runs, runs': Runs, run: Id) {
    && (forall id :: id != run ==> (id in runs' <==> id in runs))
    && (forall id :: id != run && id in runs && id in runs' ==> runs'[id] == runs[id])
  }

  /** Nothing but the rows of this run is touched. */
  ghost predicate OthersKept(runs: Runs, agents: AgentRuns.Rows, candidates: Candidates,
                             runs': Runs, agents': AgentRuns.Rows, candidates': Candidates, run: Id, agent: Id) {
    && RunsKept(runs, runs', run)
    && (forall id :: id != agent ==> (id in agents' <==> id in agents))
    && (forall id :: id != agent && id in agents && id in agents' ==> agents'[id] == agents[id])
    && (forall id :: id != run ==> CandidatesOf(candidates', id) == CandidatesOf(candidates, id))
  }

  class Orchestrator {
    const agentRuns: AgentRuns.AgentRunStore
    var runs: Runs
    var candidates: Candidates

    constructor (agentRuns: AgentRuns.AgentRunStore)
      ensures this.agentRuns == agentRuns && runs == map[] && candidates == map[]
    {
      this.agentRuns, runs, candidates := agentRuns, map[], map[];
    }

    ghost function TracesNow(run: Id, agent: Id): Traces
      reads this, agentRuns
    {
      TracesOf(runs, agentRuns.rows, candidates, run, agent)
    }

    /** INSERT as queued; the partial unique index refuses a second active run of the requirement. */
    method CreateWithBinding(id: Id, requirement: Requirement, mode: Mode, insert: Write) returns (result: Result)
      requires id !in runs
      modifies this`runs
      ensures result == if insert != AgentRuns.Lost && HasActive(old(runs), requirement.id) then Err(ActiveRunExists)
                        else if insert == AgentRuns.Done then Ok(NewRun(id, requirement, mode)) else Err(CreateRun)
      ensures runs == if insert == AgentRuns.Lost || HasActive(old(runs), requirement.id) then old(runs)
                      else old(runs)[id := NewRun(id, requirement, mode)]
    {
      if insert == AgentRuns.Lost {
        return Err(CreateRun);
      }
      if HasActive(runs, requirement.id) {
        return Err(ActiveRunExists);
      }
      runs := runs[id := NewRun(id, requirement, mode)];
      result := if insert == AgentRuns.Done then Ok(runs[id]) else Err(CreateRun);
    }

    /** The three status updates by id; they look at no status. */
    method MarkRunning(id: Id, now: nat, update: Write) returns (ok: bool)
      modifies this`runs
      ensures ok <==> update == AgentRuns.Done
      ensures runs == if update == AgentRuns.Lost || id !in old(runs) then old(runs) else old(runs)[id := Started(old(runs)[id], now)]
    {
      if update != AgentRuns.Lost && id in runs {
        runs := runs[id := Started(runs[id], now)];
      }
      ok := update == AgentRuns.Done;
    }

    method Complete(id: Id, now: nat, update: Write) returns (ok: bool)
      modifies this`runs
      ensures ok <==> update == AgentRuns.Done
      ensures runs == if update == AgentRuns.Lost || id !in old(runs) then old(runs) else old(runs)[id := Finished(old(runs)[id], now)]
    {
      if update != AgentRuns.Lost && id in runs {
        runs := runs[id := Finished(runs[id], now)];
      }
      ok := update == AgentRuns.Done;
    }

    method Fail(id: Id, failure: Failure, now: nat, update: Write)
      modifies this`runs
      ensures runs == if update == AgentRuns.Lost || id !in old(runs) then old(runs)
                      else old(runs)[id := FailedWith(old(runs)[id], failure, now)]
    {
      if update != AgentRuns.Lost && id in runs {
        runs := runs[id := FailedWith(runs[id], failure, now)];
      }
    }

    /** One transaction around an INSERT per draft: all or none of them. */
    method CreateDraftsForPlanningRun(run: Id, requirement: Requirement, drafts: seq<Draft>, commit: Write) returns (ok: bool)
      modifies this`candidates
      ensures ok <==> commit == AgentRuns.Done
      ensures candidates == if commit == AgentRuns.Lost then old(candidates)
                            else old(candidates)[run := CandidatesOf(old(candidates), run) + ToCandidates(run, requirement, drafts)]
    {
      var created: seq<Candidate> := [];
      for i := 0 to |drafts|
        invariant created == ToCandidates(run, requirement, drafts[..i])
      {
        assert drafts[..i + 1][..i] == drafts[..i];
        created := created + [ToCandidate(run, requirement, drafts[i], i)];
      }
      assert drafts[..|drafts|] == drafts;
      if commit != AgentRuns.Lost {
        candidates := candidates[run := CandidatesOf(candidates, run) + created];
      }
      ok := commit == AgentRuns.Done;
    }

    method DeleteByPlanningRun(run: Id, delete: Write)
      modifies this`candidates
      ensures candidates == if delete == AgentRuns.Lost then old(candidates) else old(candidates) - {run}
    {
      if delete != AgentRuns.Lost {
        candidates := candidates - {run};
      }
    }

    /** The compensation for every failure once both rows exist; errors of its three writes are dropped. */
    method FailRunPair(run: Id, agent: Id, failure: Failure, now: nat, script: Script)
      modifies this, agentRuns
      ensures candidates == if script.cleanup == AgentRuns.Lost then old(candidates) else old(candidates) - {run}
      ensures runs == if script.failRun == AgentRuns.Lost || run !in old(runs) then old(runs)
                      else old(runs)[run := FailedWith(old(runs)[run], failure, now)]
      ensures agentRuns.rows ==
              AgentRuns.After(old(agentRuns.rows), AgentRuns.Updating(agent, FailedPatch(script.texts, failure), now, script.failAgent))
    {
      DeleteByPlanningRun(run, script.cleanup);
      Fail(run, failure, now, script.failRun);
      var _ := agentRuns.Update(agent, FailedPatch(script.texts, failure), now, script.failAgent);
    }

    /** Compensate and report the failure. */
    method Abandon(run: Id, agent: Id, failure: Failure, now: nat, script: Script) returns (result: Result)
      requires run in runs && agent in agentRuns.rows && runs[run].mode == Server && runs[run].dispatch == NotRequired
      modifies this, agentRuns
      ensures result == Err(failure)
      ensures script.Compensates() ==> RolledBack(TracesNow(run, agent), failure)
      ensures OthersKept(old(runs), old(agentRuns.rows), old(candidates), runs, agentRuns.rows, candidates, run, agent)
    {
      FailRunPair(run, agent, failure, now, script);
      result := Err(failure);
    }

    /** From the request to the answer. `id` and `agent` are the new UUIDs. A success, or a failure of the final
        reload alone, leaves the run carried out or handed over; any other error, compensation working, leaves it
        rolled back except where the failing step is one of the two that LeftBehind names. */
    method RunWithBindingSnapshot(requirement: Option<Requirement>, id: Id, agent: Id, now: nat, script: Script) returns (result: Result)
      requires id !in runs && agent !in agentRuns.rows && CandidatesOf(candidates, id) == []
      requires !AgentRuns.HasKey(agentRuns.rows, PlanningAgentRunKey(id))
      modifies this, agentRuns
      ensures OthersKept(old(runs), old(agentRuns.rows), old(candidates), runs, agentRuns.rows, candidates, id, agent)
      ensures var failure := FirstFailure(requirement, script, requirement.Some? && HasActive(old(runs), requirement.value.id));
              && (result.Err? <==> failure.Some?)
              && (result.Err? ==> Some(result.failure) == failure)
      ensures result.Ok? || result.failure == Reload ==>
                && requirement.Some? && script.mode.Some?
                && match script.mode.value
                   case LocalConnector => HandedOver(TracesNow(id, agent), requirement.value)
                   case Server => script.drafts.Some? && CarriedOut(TracesNow(id, agent), requirement.value, script.drafts.value)
      ensures result.Err? && result.failure != Reload && script.Compensates() ==>
                (RolledBack(TracesNow(id, agent), result.failure) <==> !LeftBehind(result.failure, script))
      ensures result.Ok? && script.reload == Read ==> id in runs && result.run == runs[id]
      ensures result == Err(CreateRun) && script.createRun == AgentRuns.Late ==>
                runs == old(runs)[id := NewRun(id, requirement.value, script.mode.value)]
      ensures result == Err(CreateAgentRun) && script.createAgent == AgentRuns.Late ==>
                agent in agentRuns.rows && agentRuns.rows[agent].status == AgentRuns.Running
    {
      if requirement == None {
        return Err(NoRequirement);
      }
      if script.mode == None {
        return Err(ResolveSelection);
      }
      assert PlanningAgentRunKey(id)[0] == KEY_PREFIX[0];
      var begun := BeginRun(requirement.value, script.mode.value, id, agent, PlanningAgentRunKey(id), now, script);
      if begun.Err? {
        return begun;
      }
      if script.mode == Some(LocalConnector) {
        return if script.reload == Broken then Err(Reload) else if script.reload == Gone then begun else Ok(runs[id]);
      }
      result := GenerateAndComplete(id, agent, requirement.value, now, script);
    }

    /** The rows of the run and of its agent run. */
    method BeginRun(requirement: Requirement, mode: Mode, id: Id, agent: Id, key: string, now: nat, script: Script)
      returns (result: Result)
      requires id !in runs && agent !in agentRuns.rows && CandidatesOf(candidates, id) == []
      requires key != "" && !AgentRuns.HasKey(agentRuns.rows, key)
      modifies this, agentRuns
      ensures candidates == old(candidates)
      ensures OthersKept(old(runs), old(agentRuns.rows), candidates, runs, agentRuns.rows, candidates, id, agent)
      ensures var failure := FirstBeginFailure(mode, script, HasActive(old(runs), requirement.id));
              && (result.Err? <==> failure.Some?)
              && (result.Err? ==> Some(result.failure) == failure)
      ensures result.Ok? ==> if mode == Server then OnServer(TracesNow(id, agent), id, requirement) else HandedOver(TracesNow(id, agent), requirement)
      ensures result.Err? && script.failRun != AgentRuns.Lost ==>
                (RolledBack(TracesNow(id, agent), result.failure) <==> !LeftBehind(result.failure, script))
      ensures result == Err(CreateRun) && script.createRun == AgentRuns.Late ==> runs == old(runs)[id := NewRun(id, requirement, mode)]
      ensures result == Err(CreateAgentRun) && script.createAgent == AgentRuns.Late ==>
                agent in agentRuns.rows && agentRuns.rows[agent].status == AgentRuns.Running
    {
      result := InsertRun(requirement, mode, id, now, script);
      if result.Err? {
        return;
      }
      var agentCreated := InsertAgent(requirement, id, agent, key, now, script);
      if !agentCreated {
        return Err(CreateAgentRun);
      }
    }

    /** The row of the agent run; without it the run is failed. */
    method InsertAgent(requirement: Requirement, id: Id, agent: Id, key: string, now: nat, script: Script) returns (ok: bool)
      requires id in runs && (runs[id].mode == Server ==> runs[id].dispatch == NotRequired)
      requires agent !in agentRuns.rows && CandidatesOf(candidates, id) == []
      requires key != "" && !AgentRuns.HasKey(agentRuns.rows, key)
      modifies this`runs, agentRuns
      ensures ok <==> script.createAgent == AgentRuns.Done
      ensures OthersKept(old(runs), old(agentRuns.rows), candidates, runs, agentRuns.rows, candidates, id, agent)
      ensures ok ==> runs == old(runs) && agent in agentRuns.rows && agentRuns.rows[agent].status == AgentRuns.Running
      ensures !ok && script.failRun != AgentRuns.Lost ==>
                (RolledBack(TracesNow(id, agent), CreateAgentRun) <==> script.createAgent != AgentRuns.Late)
      ensures script.createAgent == AgentRuns.Late ==> agent in agentRuns.rows && agentRuns.rows[agent].status == AgentRuns.Running
    {
      ok := CreateAgent(key, agent, requirement.project, script.texts, script.createAgent);
      if !ok {
        Fail(id, CreateAgentRun, now, script.failRun);
      }
    }

    /** The row of the run, queued for a connector or running. */
    method InsertRun(requirement: Requirement, mode: Mode, id: Id, now: nat, script: Script) returns (result: Result)
      requires id !in runs
      modifies this`runs
      ensures forall other :: other != id ==> (other in runs <==> other in old(runs))
      ensures forall other :: other != id && other in runs && other in old(runs) ==> runs[other] == old(runs)[other]
      ensures var failure := FirstInsertFailure(mode, script, HasActive(old(runs), requirement.id));
              && (result.Err? <==> failure.Some?)
              && (result.Err? ==> Some(result.failure) == failure)
      ensures result.Ok? ==>
                id in runs && runs[id] == if mode == Server then Started(NewRun(id, requirement, mode), now) else NewRun(id, requirement, mode)
      ensures result.Err? && script.failRun != AgentRuns.Lost ==>
                if LeftBehind(result.failure, script) then id in runs && runs[id].status == Queued
                else id in runs ==> runs[id].status == Failed && runs[id].error == Some(result.failure) && runs[id].dispatch == NotRequired
      ensures result == Err(CreateRun) && script.createRun == AgentRuns.Late ==> runs == old(runs)[id := NewRun(id, requirement, mode)]
    {
      result := CreateWithBinding(id, requirement, mode, script.createRun);
      if result.Err? {
        return;
      }
      if mode != LocalConnector {
        var running := MarkRunning(id, now, script.markRunning);
        if !running {
          Fail(id, StartRun, now, script.failRun);
          return Err(StartRun);
        }
      }
    }

    method CreateAgent(key: string, agent: Id, project: Id, texts: Texts, insert: Write) returns (ok: bool)
      requires agent !in agentRuns.rows && key != "" && !AgentRuns.HasKey(agentRuns.rows, key)
      modifies agentRuns
      ensures ok <==> insert == AgentRuns.Done
      ensures agentRuns.rows == if insert == AgentRuns.Lost then old(agentRuns.rows)
                                else old(agentRuns.rows)[agent := AgentRuns.NewRun(project, AgentRequest(texts, key), agent)]
    {
      var result := agentRuns.CreateOrGetByIdempotency(project, AgentRequest(texts, key), agent, insert, true);
      ok := result.Found?;
    }

    method CompleteAgent(agent: Id, now: nat, texts: Texts, update: Write) returns (ok: bool)
      modifies agentRuns
      ensures ok <==> update == AgentRuns.Done
      ensures agentRuns.rows.Keys == old(agentRuns.rows).Keys
      ensures forall id :: id != agent && id in agentRuns.rows ==> agentRuns.rows[id] == old(agentRuns.rows)[id]
      ensures update != AgentRuns.Lost && agent in agentRuns.rows ==> agentRuns.rows[agent].status == AgentRuns.Completed
    {
      var result := agentRuns.Update(agent, CompletedPatch(texts), now, update);
      ok := !result.Err?;
    }

    /** The rest of a run on the server, once its row and its agent run exist. */
    method GenerateAndComplete(id: Id, agent: Id, requirement: Requirement, now: nat, script: Script) returns (result: Result)
      requires OnServer(TracesNow(id, agent), id, requirement)
      modifies this, agentRuns
      ensures OthersKept(old(runs), old(agentRuns.rows), old(candidates), runs, agentRuns.rows, candidates, id, agent)
      ensures result.Err? <==> FirstServerFailure(script).Some?
      ensures result.Err? ==> Some(result.failure) == FirstServerFailure(script)
      ensures FirstServerFailure(script) == None || FirstServerFailure(script) == Some(Reload) ==>
                CarriedOut(TracesNow(id, agent), requirement, script.drafts.value)
      ensures result.Err? && result.failure != Reload && script.Compensates() ==> RolledBack(TracesNow(id, agent), result.failure)
      ensures result.Ok? && script.reload == Read ==> id in runs && result.run == runs[id]
    {
      if script.drafts == None {
        result := Abandon(id, agent, GenerateDrafts, now, script);
        return;
      }
      var drafts := script.drafts.value;
      var created := runs[id];
      DraftsBecomeCandidates(id, requirement, drafts);
      var persisted := CreateDraftsForPlanningRun(id, requirement, drafts, script.persist);
      if !persisted {
        result := Abandon(id, agent, PersistDrafts, now, script);
        return;
      }
      result := FinishPair(id, agent, created, now, script);
    }

    /** Agent run and run completed, in this order, and the run read back. */
    method FinishPair(id: Id, agent: Id, created: PlanningRun, now: nat, script: Script) returns (result: Result)
      requires id in runs && runs[id].mode == Server && runs[id].dispatch == NotRequired && agent in agentRuns.rows
      modifies this, agentRuns
      ensures OthersKept(old(runs), old(agentRuns.rows), old(candidates), runs, agentRuns.rows, candidates, id, agent)
      ensures result.Err? <==> FirstFinishFailure(script).Some?
      ensures result.Err? ==> Some(result.failure) == FirstFinishFailure(script)
      ensures result.Ok? || result.failure == Reload ==>
                && candidates == old(candidates)
                && id in runs && runs[id] == Finished(old(runs[id]), now)
                && agent in agentRuns.rows && agentRuns.rows[agent].status == AgentRuns.Completed
      ensures result.Err? && result.failure != Reload && script.Compensates() ==> RolledBack(TracesNow(id, agent), result.failure)
      ensures result.Ok? && script.reload == Read ==> result.run == runs[id]
    {
      var finished := CompleteAgent(agent, now, script.texts, script.finishAgent);
      if !finished {
        result := Abandon(id, agent, FinalizeAgent, now, script);
        return;
      }
      var completed := Complete(id, now, script.completeRun);
      if !completed {
        result := Abandon(id, agent, CompleteRun, now, script);
        return;
      }
      result := if script.reload == Broken then Err(Reload) else if script.reload == Gone then Ok(created) else Ok(runs[id]);
    }
  }

  /** Both happen, from empty tables on: the run's row, or the agent run's, was inserted but could not be read back.
      The attempt fails and, although compensation works, the row stays as it was inserted. */
  method LeaveUnreadRow(requirement: Requirement, mode: Mode, id: Id, agent: Id, now: nat, script: Script)
    returns (saga: Orchestrator, result: Result)
    requires script.mode == Some(mode) && script.Compensates()
    requires || script.createRun == AgentRuns.Late
             || (script.createRun == AgentRuns.Done && (mode == Server ==> script.markRunning == AgentRuns.Done)
                 && script.createAgent == AgentRuns.Late)
    ensures fresh(saga) && fresh(saga.agentRuns)
    ensures result == Err(if script.createRun == AgentRuns.Late then CreateRun else CreateAgentRun)
    ensures !RolledBack(saga.TracesNow(id, agent), result.failure)
    ensures if script.createRun == AgentRuns.Late then saga.runs == map[id := NewRun(id, requirement, mode)]
            else agent in saga.agentRuns.rows && saga.agentRuns.rows[agent].status == AgentRuns.Running
  {
    var agentRuns := new AgentRuns.AgentRunStore();
    saga := new Orchestrator(agentRuns);
    result := saga.RunWithBindingSnapshot(Some(requirement), id, agent, now, script);
  }

  // ----- the next attempt -----

  /** After an attempt that was rolled back the requirement is as free as before it. */
  lemma RetryIsAccepted(runs: Runs, agents: AgentRuns.Rows, candidates: Candidates,
                        runs': Runs, agents': AgentRuns.Rows, candidates': Candidates, run: Id, agent: Id, failure: Failure, requirement: Id)
    requires run !in runs && OthersKept(runs, agents, candidates, runs', agents', candidates', run, agent)
    requires RolledBack(TracesOf(runs', agents', candidates', run, agent), failure)
    ensures HasActive(runs', requirement) <==> HasActive(runs, requirement)
  {
    if HasActive(runs, requirement) {
      var id :| id in runs && runs[id].requirement == requirement && Active(runs[id]);
      assert id in runs' && runs'[id] == runs[id];
    }
    if HasActive(runs', requirement) {
      var id :| id in runs' && runs'[id].requirement == requirement && Active(runs'[id]);
      assert id != run;
      assert id in runs && runs[id] == runs'[id];
    }
  }

  /** The tables of runs through later attempts, each with a new id of its own. */
  ghost predicate LaterAttempts(tables: seq<Runs>, ids: seq<Id>) {
    && |tables| == |ids| + 1
    && forall i :: 0 <= i < |ids| ==> ids[i] !in tables[i] && RunsKept(tables[i], tables[i + 1], ids[i])
  }

  lemma {:induction false} RunLasts(tables: seq<Runs>, ids: seq<Id>, run: Id, k: nat)
    requires LaterAttempts(tables, ids) && run in tables[0] && k < |tables|
    ensures run in tables[k] && tables[k][run] == tables[0][run]
  {
    if k > 0 {
      RunLasts(tables, ids, run, k - 1);
      assert ids[k - 1] != run && RunsKept(tables[k - 1], tables[k - 1 + 1], ids[k - 1]);
    }
  }

  /** A run left queued by an insert that could not be read back refuses every later attempt of its requirement, no
      matter how many there have been and what they do. */
  lemma LeftBehindRunBlocks(runs: Runs, run: Id, requirement: Requirement, mode: Mode, tables: seq<Runs>, ids: seq<Id>, k: nat, script: Script)
    requires LaterAttempts(tables, ids) && tables[0] == runs[run := NewRun(run, requirement, mode)] && k < |tables|
    requires script.mode.Some? && script.createRun != AgentRuns.Lost
    ensures FirstFailure(Some(requirement), script, HasActive(tables[k], requirement.id)) == Some(ActiveRunExists)
  {
    RunLasts(tables, ids, run, k);
    assert tables[k][run].requirement == requirement.id && Active(tables[k][run]);
  }

  function FailedPatch(texts: Texts, failure: Failure): AgentRuns.Patch {
    AgentRuns.Patch(Some(AgentRuns.Failed), Some(texts.failed(failure)), None, None, Some(texts.message(failure)))
  }

  function CompletedPatch(texts: Texts): AgentRuns.Patch {
    AgentRuns.Patch(Some(AgentRuns.Completed), Some(texts.completed), None, None, None)
  }

  function AgentRequest(texts: Texts, key: string): AgentRuns.Request {
    AgentRuns.Request(texts.agentName, texts.action, texts.begun, [], true, key)
  }

  // ----- what the rows of a run hold -----

  /** The agent run of a planning run: its key leads back to the run, a person has to look at the result, and it ends with
      the text for its outcome and, if it failed, the message for the failure. */
  lemma AgentRunTellsOutcome(project: Id, texts: Texts, run: Id, agent: Id, failure: Failure, now: nat)
    ensures var begun := AgentRuns.NewRun(project, AgentRequest(texts, PlanningAgentRunKey(run)), agent);
            var failed, completed := AgentRuns.Patched(begun, FailedPatch(texts, failure), now), AgentRuns.Patched(begun, CompletedPatch(texts), now);
            && begun.key == "planning-run:" + TrimSpace(run) && begun.status == AgentRuns.Running && begun.needsReview && begun.files == []
            && begun.agentName == texts.agentName && begun.action == texts.action && begun.summary == texts.begun
            && failed.status == AgentRuns.Failed && failed.summary == texts.failed(failure) && failed.error == texts.message(failure)
            && completed.status == AgentRuns.Completed && completed.summary == texts.completed && completed.error == ""
            && failed.completedAt == Some(now) == completed.completedAt && failed.key == begun.key == completed.key
  {
    assert ("planning-run:" + TrimSpace(run))[0] == 'p';
  }

  /** The status writes to a run: the first start is kept, the end is now, an error names its failure, and the dispatch
      follows for a connector's run only. */
  lemma StatusWritesAre(run: PlanningRun, failure: Failure, now: nat)
    ensures var started, finished, failed := Started(run, now), Finished(run, now), FailedWith(run, failure, now);
            && started.status == Running && finished.status == Completed && failed.status == Failed
            && (forall after :: after in {started, finished, failed} ==>
                  && after.startedAt == (if run.startedAt.Some? then run.startedAt else Some(now))
                  && after.id == run.id && after.project == run.project && after.requirement == run.requirement && after.mode == run.mode
                  && (run.mode == Server ==> after.dispatch == run.dispatch && after.dispatchError == run.dispatchError))
            && started.completedAt == run.completedAt && finished.completedAt == Some(now) == failed.completedAt
            && started.error == None == finished.error && failed.error == Some(failure)
            && (run.mode == LocalConnector ==>
                  && started.dispatch == Leased && finished.dispatch == Returned == failed.dispatch
                  && finished.dispatchError == None && failed.dispatchError == Some(failure))
  {
  }

  // ----- the order of the steps -----

  predicate RunInserted(script: Script, hasActive: bool) {
    script.mode.Some? && script.createRun == AgentRuns.Done && !hasActive
  }

  predicate RunStarted(script: Script, hasActive: bool) {
    RunInserted(script, hasActive) && (script.mode == Some(Server) ==> script.markRunning == AgentRuns.Done)
  }

  predicate AgentInserted(script: Script, hasActive: bool) {
    RunStarted(script, hasActive) && script.createAgent == AgentRuns.Done
  }

  predicate DraftsStored(script: Script, hasActive: bool) {
    AgentInserted(script, hasActive) && script.drafts.Some? && script.persist == AgentRuns.Done
  }

  /** A reported failure names a step that failed, and every step before it went well: the run's row, its start, the agent
      run's row, the drafts, the candidates, the end of the agent run, the end of the run, the read of the answer. */
  lemma FailureNamesItsStep(requirement: Option<Requirement>, script: Script, hasActive: bool)
    ensures match FirstFailure(requirement, script, hasActive)
            case Some(NoRequirement) => requirement == None
            case Some(ResolveSelection) => requirement.Some? && script.mode == None
            case Some(ActiveRunExists) => requirement.Some? && script.mode.Some? && script.createRun != AgentRuns.Lost && hasActive
            case Some(CreateRun) => requirement.Some? && script.mode.Some? && script.createRun != AgentRuns.Done && (script.createRun == AgentRuns.Late ==> !hasActive)
            case Some(StartRun) => RunInserted(script, hasActive) && script.mode == Some(Server) && script.markRunning != AgentRuns.Done
            case Some(CreateAgentRun) => RunStarted(script, hasActive) && script.createAgent != AgentRuns.Done
            case Some(GenerateDrafts) => AgentInserted(script, hasActive) && script.mode == Some(Server) && script.drafts == None
            case Some(PersistDrafts) =>
              AgentInserted(script, hasActive) && script.mode == Some(Server) && script.drafts.Some? && script.persist != AgentRuns.Done
            case Some(FinalizeAgent) => DraftsStored(script, hasActive) && script.mode == Some(Server) && script.finishAgent != AgentRuns.Done
            case Some(CompleteRun) =>
              && DraftsStored(script, hasActive) && script.mode == Some(Server)
              && script.finishAgent == AgentRuns.Done && script.completeRun != AgentRuns.Done
            case Some(Reload) => WentWell(script, hasActive) && script.reload == Broken
            case None => requirement.Some? && WentWell(script, hasActive) && script.reload != Broken
  {
  }

  predicate WentWell(script: Script, hasActive: bool) {
    && AgentInserted(script, hasActive)
    && (script.mode == Some(Server) ==>
          DraftsStored(script, hasActive) && script.finishAgent == AgentRuns.Done && script.completeRun == AgentRuns.Done)
  }
}
