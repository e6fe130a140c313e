/** The probe pipeline of the connector service: the heartbeat loop and the probe worker, two goroutines
    that share two mutexes, a one-slot wake channel, a dedup set, a queue and an outbox. */
module ProbeWorker {
  import opened Options
  import opened Sequences

  datatype Request = Request(probeId: string, bindingId: string, modelId: string)

  datatype ProbeResult = ProbeResult(probeId: string, ok: bool, message: string)

  // ----- one critical section at a time -----

  /** The entries enqueuePendingProbesFromMetadata accepts: first sight of a non-empty id that is not pending. */
  function Accepted(pending: set<string>, announced: seq<Request>): seq<Request>
    decreases |announced|
  {
    if announced == [] then []
    else if announced[0].probeId == "" || announced[0].probeId in pending then Accepted(pending, announced[1..])
    else [announced[0]] + Accepted(pending + {announced[0].probeId}, announced[1..])
  }

  /** The i-th announced request is the first of its id, which is not blank and was not pending. */
  predicate FirstAnnounced(pending: set<string>, announced: seq<Request>, i: nat) {
    && i < |announced| && announced[i].probeId != "" && announced[i].probeId !in pending
    && forall j :: 0 <= j < i ==> announced[j].probeId != announced[i].probeId
  }

  /** Those requests, as they were announced and in this order. */
  function Firsts(pending: set<string>, announced: seq<Request>, n: nat): seq<Request>
    requires n <= |announced|
  {
    if n == 0 then []
    else Firsts(pending, announced, n - 1) + if FirstAnnounced(pending, announced, n - 1) then [announced[n - 1]] else []
  }

  predicate AnnouncedBefore(announced: seq<Request>, n: nat, id: string) {
    n <= |announced| && id != "" && exists j :: 0 <= j < n && announced[j].probeId == id
  }

  lemma AnnouncedOneMore(pending: set<string>, announced: seq<Request>, i: nat)
    requires i < |announced|
    ensures var id := announced[i].probeId;
            && (FirstAnnounced(pending, announced, i) <==> id != "" && id !in pending && !AnnouncedBefore(announced, i, id))
            && forall o :: AnnouncedBefore(announced, i + 1, o) <==> AnnouncedBefore(announced, i, o) || (o == id && id != "")
  {
    var id := announced[i].probeId;
    assert FirstAnnounced(pending, announced, i) <==> id != "" && id !in pending && !AnnouncedBefore(announced, i, id);
    forall o ensures AnnouncedBefore(announced, i + 1, o) <==> AnnouncedBefore(announced, i, o) || (o == id && id != "") {
      if AnnouncedBefore(announced, i, o) {
        var j :| 0 <= j < i && announced[j].probeId == o;
        assert 0 <= j < i + 1;
      }
    }
  }

  function Ids(requests: seq<Request>): seq<string> {
    if requests == [] then [] else [requests[0].probeId] + Ids(requests[1..])
  }

  function ResultIds(results: seq<ProbeResult>): seq<string> {
    if results == [] then [] else [results[0].probeId] + ResultIds(results[1..])
  }

  function IdSet<T(==)>(ids: seq<T>): set<T> {
    set id | id in ids
  }

  /** The fields of the service that the two goroutines share; wake is the token of the one-slot channel. */
  datatype Shared = Shared(pending: set<string>, queue: seq<Request>, outbox: seq<ProbeResult>, wake: bool)
  {
    function Drained(): Shared {
      this.(outbox := [])
    }

    function Requeued(batch: seq<ProbeResult>): Shared {
      this.(outbox := batch + outbox)
    }

    function Enqueued(announced: seq<Request>): Shared {
      var added := Accepted(pending, announced);
      this.(queue := queue + added, pending := pending + IdSet(Ids(added)))
    }

    function Signalled(added: nat): Shared {
      this.(wake := wake || added > 0)
    }

    function Woken(): Shared {
      this.(wake := false)
    }

    function Dequeued(): Shared {
      if queue == [] then this else this.(queue := queue[1..])
    }

    function Recorded(result: ProbeResult): Shared {
      this.(outbox := outbox + [result])
    }

    function Forgotten(probeId: string): Shared {
      this.(pending := pending - {probeId})
    }
  }

  class ProbeService {
    var pendingProbeIds: set<string>
    var probeQueue: seq<Request>
    var probeResultsOut: seq<ProbeResult>
    var probeWorkerWake: bool               // a token is in the one-slot channel

    constructor ()
      ensures View() == Shared({}, [], [], false)
    {
      pendingProbeIds, probeQueue, probeResultsOut, probeWorkerWake := {}, [], [], false;
    }

    function View(): Shared
      reads this
    {
      Shared(pendingProbeIds, probeQueue, probeResultsOut, probeWorkerWake)
    }

    /** Before a heartbeat: take everything out of the outbox. */
    method DrainResults() returns (batch: seq<ProbeResult>)
      modifies this
      ensures batch == old(probeResultsOut) && View() == old(View()).Drained()
    {
      batch := probeResultsOut;
      probeResultsOut := [];
    }

    /** After a failed heartbeat: put the batch back in front. */
    method RequeueResults(batch: seq<ProbeResult>)
      modifies this
      ensures View() == old(View()).Requeued(batch)
    {
      if |batch| > 0 {
        probeResultsOut := batch + probeResultsOut;
      } else {
        assert batch + probeResultsOut == probeResultsOut;
      }
    }

    /** The locked part of enqueuePendingProbesFromMetadata: the first announced requests of each new id are queued as
        they are, and every announced id is pending. */
    method EnqueuePending(announced: seq<Request>) returns (added: nat)
      modifies this
      ensures probeQueue == old(probeQueue) + Firsts(old(pendingProbeIds), announced, |announced|)
      ensures forall id :: id in pendingProbeIds <==> id in old(pendingProbeIds) || AnnouncedBefore(announced, |announced|, id)
      ensures added == |probeQueue| - |old(probeQueue)|
      ensures View() == old(View()).Enqueued(announced)
    {
      added := 0;
      for i := 0 to |announced|
        invariant probeQueue == old(probeQueue) + Firsts(old(pendingProbeIds), announced, i)
        invariant forall id :: id in pendingProbeIds <==> id in old(pendingProbeIds) || AnnouncedBefore(announced, i, id)
        invariant added == |probeQueue| - |old(probeQueue)|
        invariant probeResultsOut == old(probeResultsOut) && probeWorkerWake == old(probeWorkerWake)
      {
        var p := announced[i];
        AnnouncedOneMore(old(pendingProbeIds), announced, i);
        if p.probeId == "" {
          continue;
        }
        if p.probeId in pendingProbeIds {
          continue;
        }
        pendingProbeIds := pendingProbeIds + {p.probeId};
        probeQueue := probeQueue + [p];
        added := added + 1;
      }
      EnqueuedAre(old(View()), announced);
      assert pendingProbeIds == old(View()).Enqueued(announced).pending;
    }

    /** The signal after the unlock: a full channel keeps its token. */
    method Signal(added: nat)
      modifies this
      ensures View() == old(View()).Signalled(added)
    {
      if added > 0 {
        probeWorkerWake := true;
      }
    }

    method DequeueNextProbe() returns (next: Option<Request>)
      modifies this
      ensures next == if old(probeQueue) == [] then None else Some(old(probeQueue)[0])
      ensures View() == old(View()).Dequeued()
    {
      if |probeQueue| == 0 {
        return None;
      }
      next := Some(probeQueue[0]);
      probeQueue := probeQueue[1..];
    }

    method AppendResult(result: ProbeResult)
      modifies this
      ensures View() == old(View()).Recorded(result)
    {
      probeResultsOut := probeResultsOut + [result];
    }

    method ForgetPending(probeId: string)
      modifies this
      ensures View() == old(View()).Forgotten(probeId)
    {
      pendingProbeIds := pendingProbeIds - {probeId};
    }
  }

  // ----- the two loops, interleaved -----

  /** Where the heartbeat loop is. */
  datatype Main =
    | Resting
    | Sending(batch: seq<ProbeResult>)
    | Unsent(batch: seq<ProbeResult>)         // the heartbeat failed; the batch is not back yet
    | Answered(announced: seq<Request>)       // the heartbeat succeeded
    | Signalling(added: nat)                  // between the unlock and the signal

  /** Where the worker is. Waiting begins when the queue was found empty and the lock released. */
  datatype Worker =
    | Polling
    | Waiting
    | Running(current: Request)
    | Recorded(current: Request)              // result in the outbox, id still pending
    | Stopped

  /** The shared fields, the two threads, and what has happened: which requests heartbeats announced, which were
      accepted and which started, which results completed, and which results a heartbeat acknowledged. */
  datatype State = State(
    shared: Shared,
    main: Main,
    worker: Worker,
    announced: set<Request>,
    accepted: seq<Request>,
    started: seq<Request>,
    completed: seq<ProbeResult>,
    delivered: seq<ProbeResult>)

  datatype Step =
    | Drain
    | HeartbeatFails
    | Requeue
    | HeartbeatSucceeds(announced: seq<Request>)
    | Enqueue
    | Signal
    | Dequeue
    | Wake
    | Tick
    | Record(result: ProbeResult)
    | Forget
    | Cancel

  predicate Enabled(s: State, step: Step) {
    match step
    case Drain => s.main.Resting?
    case HeartbeatFails => s.main.Sending?
    case Requeue => s.main.Unsent?
    case HeartbeatSucceeds(_) => s.main.Sending?
    case Enqueue => s.main.Answered?
    case Signal => s.main.Signalling?
    case Dequeue => s.worker.Polling?
    case Wake => s.worker.Waiting? && s.shared.wake
    case Tick => s.worker.Waiting?
    case Record(result) => s.worker.Running? && result.probeId == s.worker.current.probeId
    case Forget => s.worker.Recorded?
    case Cancel => s.worker.Polling? || s.worker.Waiting?
  }

  function Do(s: State, step: Step): State
    requires Enabled(s, step)
  {
    match step
    case Drain => s.(main := Sending(s.shared.outbox), shared := s.shared.Drained())
    case HeartbeatFails => s.(main := Unsent(s.main.batch))
    case Requeue => s.(main := Resting, shared := s.shared.Requeued(s.main.batch))
    case HeartbeatSucceeds(announced) => s.(main := Answered(announced), announced := s.announced + IdSet(announced), delivered := s.delivered + s.main.batch)
    case Enqueue =>
      var added := Accepted(s.shared.pending, s.main.announced);
      s.(main := Signalling(|added|), shared := s.shared.Enqueued(s.main.announced), accepted := s.accepted + added)
    case Signal => s.(main := Resting, shared := s.shared.Signalled(s.main.added))
    case Dequeue =>
      if s.shared.queue == [] then s.(worker := Waiting)
      else s.(worker := Running(s.shared.queue[0]), started := s.started + [s.shared.queue[0]], shared := s.shared.Dequeued())
    case Wake => s.(worker := Polling, shared := s.shared.Woken())
    case Tick => s.(worker := Polling)
    case Record(result) =>
      s.(worker := Recorded(s.worker.current), shared := s.shared.Recorded(result), completed := s.completed + [result])
    case Forget => s.(worker := Polling, shared := s.shared.Forgotten(s.worker.current.probeId))
    case Cancel => s.(worker := Stopped)
  }

  const INITIAL := State(Shared({}, [], [], false), Resting, Polling, {}, [], [], [], [])

  predicate ValidRun(s: State, steps: seq<Step>)
    decreases |steps|
  {
    steps == [] || (Enabled(s, steps[0]) && ValidRun(Do(s, steps[0]), steps[1..]))
  }

  function RunAll(s: State, steps: seq<Step>): State
    requires ValidRun(s, steps)
    decreases |steps|
  {
    if steps == [] then s else RunAll(Do(s, steps[0]), steps[1..])
  }

  // ----- invariants -----

  function InFlight(main: Main): seq<ProbeResult> {
    if main.Sending? || main.Unsent? then main.batch else []
  }

  /** The probe being run, or run with its id not yet released. */
  function Held(worker: Worker): seq<Request> {
    if worker.Running? || worker.Recorded? then [worker.current] else []
  }

  function Unfinished(worker: Worker): seq<Request> {
    if worker.Running? then [worker.current] else []
  }

  /** Nothing lost, repeated or reordered between a probe's end and its acknowledgement. */
  predicate ResultsConserved(s: State) {
    s.completed == s.delivered + InFlight(s.main) + s.shared.outbox
  }

  /** Nor between the acceptance of a request and its end: requests start as they were accepted, and each that has
      started is running or has a result. */
  predicate RequestsConserved(s: State) {
    && s.accepted == s.started + s.shared.queue
    && Ids(s.started) == ResultIds(s.completed) + Ids(Unfinished(s.worker))
  }

  /** Only what a heartbeat announced is ever accepted, and the worker holds what it started last. */
  predicate OnlyAnnounced(s: State) {
    && (s.main.Answered? ==> IdSet(s.main.announced) <= s.announced)
    && IdSet(s.accepted) <= s.announced
    && (Held(s.worker) != [] ==> s.started != [] && Held(s.worker) == [s.started[|s.started| - 1]])
  }

  /** The dedup set is exactly the ids queued or being run, and none is held twice. */
  predicate PendingExact(s: State) {
    && s.shared.pending == IdSet(Ids(Held(s.worker) + s.shared.queue))
    && Distinct(Ids(Held(s.worker) + s.shared.queue))
  }

  /** A queue that is not empty while the worker waits has a wake token, or someone about to send one. */
  predicate NoLostWakeUp(s: State) {
    s.worker.Waiting? && s.shared.queue != [] ==> s.shared.wake || (s.main.Signalling? && s.main.added > 0)
  }

  predicate Inv(s: State) {
    ResultsConserved(s) && RequestsConserved(s) && OnlyAnnounced(s) && PendingExact(s) && NoLostWakeUp(s)
  }

  lemma {:induction false} IdsConcat(a: seq<Request>, b: seq<Request>)
    ensures Ids(a + b) == Ids(a) + Ids(b)
  {
    if a == [] {
      assert a + b == b;
    } else {
      assert (a + b)[1..] == a[1..] + b;
      IdsConcat(a[1..], b);
      assert [a[0].probeId] + (Ids(a[1..]) + Ids(b)) == ([a[0].probeId] + Ids(a[1..])) + Ids(b);
    }
  }

  lemma {:induction false} ResultIdsSnoc(a: seq<ProbeResult>, r: ProbeResult)
    ensures ResultIds(a + [r]) == ResultIds(a) + [r.probeId]
  {
    if a != [] {
      ResultIdsSnoc(a[1..], r);
      assert (a + [r])[1..] == a[1..] + [r];
    }
  }

  /** What is accepted: non-empty ids, none pending, none twice, and every announced non-empty id ends up pending. */
  lemma {:induction false} AcceptedIsFresh(pending: set<string>, announced: seq<Request>)
    ensures Distinct(Ids(Accepted(pending, announced)))
    ensures forall id :: id in Ids(Accepted(pending, announced)) ==> id != "" && id !in pending && id in Ids(announced)
    ensures forall id :: id in Ids(announced) && id != "" ==> id in pending || id in Ids(Accepted(pending, announced))
    decreases |announced|
  {
    if announced != [] {
      var id := announced[0].probeId;
      if id == "" || id in pending {
        AcceptedIsFresh(pending, announced[1..]);
      } else {
        var rest := Accepted(pending + {id}, announced[1..]);
        AcceptedIsFresh(pending + {id}, announced[1..]);
        assert Accepted(pending, announced)[1..] == rest;
        assert Ids(Accepted(pending, announced)) == [id] + Ids(rest);
      }
    }
  }

  lemma {:induction false} AcceptedOneMore(pending: set<string>, announced: seq<Request>, last: Request)
    ensures Accepted(pending, announced + [last]) ==
            Accepted(pending, announced)
            + if last.probeId != "" && last.probeId !in pending && last.probeId !in Ids(announced) then [last] else []
    decreases |announced|
  {
    var longer := announced + [last];
    if announced == [] {
      assert longer[1..] == [];
    } else {
      var id := announced[0].probeId;
      assert longer[1..] == announced[1..] + [last];
      AcceptedOneMore(if id != "" && id !in pending then pending + {id} else pending, announced[1..], last);
    }
  }

  lemma {:induction false} IdsAre(requests: seq<Request>, id: string)
    ensures id in Ids(requests) <==> exists i :: 0 <= i < |requests| && requests[i].probeId == id
  {
    if requests != [] {
      IdsAre(requests[1..], id);
      assert forall i :: 0 <= i < |requests| - 1 ==> requests[1..][i] == requests[i + 1];
    }
  }

  /** The accepted requests are exactly the first announced ones of each new id, unchanged and in the order of
      announcement. */
  lemma {:induction false} AcceptedAreFirsts(pending: set<string>, announced: seq<Request>, n: nat)
    requires n <= |announced|
    ensures Accepted(pending, announced[..n]) == Firsts(pending, announced, n)
  {
    if n > 0 {
      var last := announced[n - 1];
      AcceptedAreFirsts(pending, announced, n - 1);
      assert announced[..n] == announced[..n - 1] + [last];
      AcceptedOneMore(pending, announced[..n - 1], last);
      IdsAre(announced[..n - 1], last.probeId);
    }
  }

  lemma AcceptedAre(pending: set<string>, announced: seq<Request>)
    ensures Accepted(pending, announced) == Firsts(pending, announced, |announced|)
  {
    AcceptedAreFirsts(pending, announced, |announced|);
    assert announced[..|announced|] == announced;
  }

  lemma {:induction false} FirstsAreAnnounced(pending: set<string>, announced: seq<Request>, n: nat, r: Request)
    requires n <= |announced| && r in Firsts(pending, announced, n)
    ensures r in announced
  {
    if r in Firsts(pending, announced, n - 1) {
      FirstsAreAnnounced(pending, announced, n - 1, r);
    }
  }

  /** What an enqueue does to the shared fields, in terms of what was announced. */
  lemma EnqueuedAre(shared: Shared, announced: seq<Request>)
    ensures var after := shared.Enqueued(announced);
            && after.queue == shared.queue + Firsts(shared.pending, announced, |announced|)
            && (forall id :: id in after.pending <==> id in shared.pending || AnnouncedBefore(announced, |announced|, id))
            && after.outbox == shared.outbox && after.wake == shared.wake
  {
    AcceptedAre(shared.pending, announced);
    AcceptedIsFresh(shared.pending, announced);
    forall id ensures id in Ids(announced) && id != "" <==> AnnouncedBefore(announced, |announced|, id) {
      IdsAre(announced, id);
    }
  }

  lemma ResultsKept(s: State, step: Step)
    requires ResultsConserved(s) && Enabled(s, step)
    ensures ResultsConserved(Do(s, step))
  {
    match step
    case Drain => assert s.delivered + s.shared.outbox + [] == s.delivered + [] + s.shared.outbox;
    case HeartbeatSucceeds(_) => assert s.delivered + s.main.batch + s.shared.outbox == (s.delivered + s.main.batch) + [] + s.shared.outbox;
    case Requeue => assert s.delivered + s.main.batch + s.shared.outbox == s.delivered + [] + (s.main.batch + s.shared.outbox);
    case Record(result) =>
      assert s.delivered + InFlight(s.main) + s.shared.outbox + [result] == s.delivered + InFlight(s.main) + (s.shared.outbox + [result]);
    case _ =>
  }

  lemma RequestsKeptByEnqueue(s: State)
    requires RequestsConserved(s) && Enabled(s, Enqueue)
    ensures RequestsConserved(Do(s, Enqueue))
  {
    var added := Accepted(s.shared.pending, s.main.announced);
    assert s.started + s.shared.queue + added == s.started + (s.shared.queue + added);
  }

  lemma RequestsKeptByDequeue(s: State)
    requires RequestsConserved(s) && Enabled(s, Dequeue) && s.shared.queue != []
    ensures RequestsConserved(Do(s, Dequeue))
  {
    var first := s.shared.queue[0];
    assert s.started + s.shared.queue == s.started + [first] + s.shared.queue[1..];
    IdsConcat(s.started, [first]);
    OneId(first);
    assert ResultIds(s.completed) + [] == ResultIds(s.completed);
  }

  lemma RequestsKeptByRecord(s: State, result: ProbeResult)
    requires RequestsConserved(s) && Enabled(s, Record(result))
    ensures RequestsConserved(Do(s, Record(result)))
  {
    ResultIdsSnoc(s.completed, result);
    OneId(s.worker.current);
    assert ResultIds(s.completed) + [result.probeId] + [] == ResultIds(s.completed) + [result.probeId];
  }

  lemma AnnouncedKept(s: State, step: Step)
    requires OnlyAnnounced(s) && Enabled(s, step)
    ensures OnlyAnnounced(Do(s, step))
  {
    if step.Enqueue? {
      var added := Accepted(s.shared.pending, s.main.announced);
      AcceptedAre(s.shared.pending, s.main.announced);
      forall r | r in added ensures r in s.announced {
        FirstsAreAnnounced(s.shared.pending, s.main.announced, |s.main.announced|, r);
      }
    }
  }

  lemma OneId(request: Request)
    ensures Ids([request]) == [request.probeId]
  {
  }

  lemma RequestsKept(s: State, step: Step)
    requires RequestsConserved(s) && Enabled(s, step)
    ensures RequestsConserved(Do(s, step))
  {
    match step
    case Enqueue => RequestsKeptByEnqueue(s);
    case Dequeue => if s.shared.queue != [] { RequestsKeptByDequeue(s); }
    case Record(result) => RequestsKeptByRecord(s, result);
    case _ =>
  }

  lemma PendingKeptByEnqueue(s: State)
    requires PendingExact(s) && Enabled(s, Enqueue)
    ensures PendingExact(Do(s, Enqueue))
  {
    var held := Held(s.worker) + s.shared.queue;
    var added := Accepted(s.shared.pending, s.main.announced);
    AcceptedIsFresh(s.shared.pending, s.main.announced);
    assert Held(s.worker) + (s.shared.queue + added) == held + added;
    IdsConcat(held, added);
    DistinctConcat(Ids(held), Ids(added));
  }

  lemma FrontAndRest<T>(s: seq<T>)
    requires s != []
    ensures [s[0]] + s[1..] == s && [] + s == s
  {
  }

  lemma PendingKeptByDequeue(s: State)
    requires PendingExact(s) && Enabled(s, Dequeue)
    ensures PendingExact(Do(s, Dequeue))
  {
    if s.shared.queue != [] {
      FrontAndRest(s.shared.queue);
      var next := Do(s, Dequeue);
      assert Held(next.worker) + next.shared.queue == s.shared.queue;
      assert Held(s.worker) + s.shared.queue == s.shared.queue;
    }
  }

  lemma PendingKeptByForget(s: State)
    requires PendingExact(s) && Enabled(s, Forget)
    ensures PendingExact(Do(s, Forget))
  {
    var ids := Ids(s.shared.queue);
    assert Held(s.worker) + s.shared.queue == [s.worker.current] + s.shared.queue;
    assert ([s.worker.current] + s.shared.queue)[1..] == s.shared.queue;
    assert Ids(Held(s.worker) + s.shared.queue) == [s.worker.current.probeId] + ids;
    assert [] + s.shared.queue == s.shared.queue;
    DistinctTail(s.worker.current.probeId, ids);
  }

  lemma PendingKept(s: State, step: Step)
    requires PendingExact(s) && Enabled(s, step)
    ensures PendingExact(Do(s, step))
  {
    match step
    case Enqueue => PendingKeptByEnqueue(s);
    case Dequeue => PendingKeptByDequeue(s);
    case Forget => PendingKeptByForget(s);
    case _ =>
  }

  lemma DistinctConcat<T>(a: seq<T>, b: seq<T>)
    requires Distinct(a) && Distinct(b) && forall id :: id in b ==> id !in a
    ensures Distinct(a + b) && IdSet(a + b) == IdSet(a) + IdSet(b)
  {
    forall i, j | 0 <= i < j < |a + b|
      ensures (a + b)[i] != (a + b)[j]
    {
      if i < |a| <= j { assert b[j - |a|] in b; }
    }
  }

  lemma DistinctTail<T>(head: T, tail: seq<T>)
    requires Distinct([head] + tail)
    ensures Distinct(tail) && IdSet([head] + tail) - {head} == IdSet(tail)
  {
    var all := [head] + tail;
    forall i | 0 <= i < |tail|
      ensures tail[i] == all[i + 1] && tail[i] != head
    {
      assert all[0] != all[i + 1];
    }
  }

  lemma WakeUpKept(s: State, step: Step)
    requires NoLostWakeUp(s) && Enabled(s, step)
    ensures NoLostWakeUp(Do(s, step))
  {
    if step.Enqueue? && Accepted(s.shared.pending, s.main.announced) == [] {
      assert s.shared.queue + [] == s.shared.queue;
    }
  }

  lemma StepKeeps(s: State, step: Step)
    requires Inv(s) && Enabled(s, step)
    ensures Inv(Do(s, step))
  {
    ResultsKept(s, step);
    RequestsKept(s, step);
    AnnouncedKept(s, step);
    PendingKept(s, step);
    WakeUpKept(s, step);
  }

  /** Every interleaving of heartbeats, failures and probes keeps the four invariants. */
  lemma {:induction false} EveryRunKeeps(s: State, steps: seq<Step>)
    requires Inv(s) && ValidRun(s, steps)
    ensures Inv(RunAll(s, steps))
    decreases |steps|
  {
    if steps != [] {
      StepKeeps(s, steps[0]);
      EveryRunKeeps(Do(s, steps[0]), steps[1..]);
    }
  }

  /** The pipeline end to end: the requests started and then queued are, in that order, the requests accepted, each of
      them as a heartbeat announced it; the ids started are those of the results acknowledged, on the way and in the
      outbox, and of the probe that runs, which is the last one started; and the dedup set and the wake-up are as
      promised. */
  lemma ProbesConserved(steps: seq<Step>)
    requires ValidRun(INITIAL, steps)
    ensures var s := RunAll(INITIAL, steps);
            && s.completed == s.delivered + InFlight(s.main) + s.shared.outbox
            && s.accepted == s.started + s.shared.queue && (forall r :: r in s.accepted ==> r in s.announced)
            && Ids(s.started) == ResultIds(s.delivered + InFlight(s.main) + s.shared.outbox) + Ids(Unfinished(s.worker))
            && (forall r :: r in Held(s.worker) ==> s.started != [] && r == s.started[|s.started| - 1])
            && PendingExact(s)
            && NoLostWakeUp(s)
  {
    EveryRunKeeps(INITIAL, steps);
  }

  /** What the histories record: announced grows by what a successful heartbeat brings, accepted by what an enqueue
      appends, which are the first announced requests of each id that is new. */
  lemma HistoryGrows(s: State, step: Step)
    requires Enabled(s, step)
    ensures forall r :: r in Do(s, step).announced <==> r in s.announced || (step.HeartbeatSucceeds? && r in step.announced)
    ensures Do(s, step).accepted ==
            if step.Enqueue? then s.accepted + Firsts(s.shared.pending, s.main.announced, |s.main.announced|) else s.accepted
    ensures s.started <= Do(s, step).started
  {
    if step.Enqueue? {
      AcceptedAre(s.shared.pending, s.main.announced);
    }
  }

  /** So the worker needs no tick: whenever it waits over a non-empty queue, at most a signal, a wake-up
      and a poll, none of them waiting for anything else, put the front of the queue to work. */
  lemma WakesWithoutTick(s: State) returns (steps: seq<Step>)
    requires Inv(s) && s.worker.Waiting? && s.shared.queue != []
    ensures ValidRun(s, steps) && |steps| <= 3
    ensures forall i :: 0 <= i < |steps| ==> steps[i].Signal? || steps[i].Wake? || steps[i].Dequeue?
    ensures RunAll(s, steps).worker == Running(s.shared.queue[0])
  {
    if s.shared.wake {
      steps := [Wake, Dequeue];
      var s1 := Do(s, Wake);
      assert steps[1..] == [Dequeue] && [Dequeue][1..] == [];
      assert ValidRun(s1, [Dequeue]) && RunAll(s1, [Dequeue]) == Do(s1, Dequeue);
    } else {
      steps := [Signal, Wake, Dequeue];
      var s1 := Do(s, Signal);
      var s2 := Do(s1, Wake);
      assert steps[1..] == [Wake, Dequeue] && [Wake, Dequeue][1..] == [Dequeue] && [Dequeue][1..] == [];
      assert ValidRun(s2, [Dequeue]) && RunAll(s2, [Dequeue]) == Do(s2, Dequeue);
      assert ValidRun(s1, [Wake, Dequeue]) && RunAll(s1, [Wake, Dequeue]) == RunAll(s2, [Dequeue]);
    }
  }
}
