/** The connector's activity reporter: a queue in which a report of the same phase within the coalesce
    window overwrites the last entry, drained by a background flush. */
module ActivityReporter {
  import opened Activities

  const COALESCE_WINDOW := 500

  /** queue, last and lastTime of the reporter, and the token of its flush channel. */
  datatype Reporter = Reporter(queue: seq<Activity>, last: Activity, lastTime: int, flush: bool)
  {
    predicate Coalesces(a: Activity, now: int) {
      a.phase == last.phase && now - lastTime < COALESCE_WINDOW && queue != []
    }

    function Reported(a: Activity, now: int): Reporter {
      if Coalesces(a, now) then
        this.(queue := queue[..|queue| - 1] + [Merged(queue[|queue| - 1], a)], flush := true)
      else
        Reporter(queue + [a], a, now, true)
    }

    function Flushed(): Reporter {
      this.(queue := [])
    }
  }

  /** Merging keeps Phase and StartedAt of the queued entry and takes the rest from the report. */
  function Merged(entry: Activity, a: Activity): Activity {
    a.(phase := entry.phase, startedAt := entry.startedAt)
  }

  class ActivityReporter {
    var queue: seq<Activity>
    var last: Activity
    var lastTime: int
    var flushCh: bool

    constructor ()
      ensures View() == Reporter([], NO_ACTIVITY, 0, false)
    {
      queue, last, lastTime, flushCh := [], NO_ACTIVITY, 0, false;
    }

    function View(): Reporter
      reads this
    {
      Reporter(queue, last, lastTime, flushCh)
    }

    method Report(a: Activity, now: int)
      modifies this
      ensures View() == old(View()).Reported(a, now)
    {
      var isPhaseChange := a.phase != last.phase;
      var withinCoalesce := now - lastTime < COALESCE_WINDOW;
      if !isPhaseChange && withinCoalesce && |queue| > 0 {
        var entry := queue[|queue| - 1];
        entry := entry.(step := a.step);
        entry := entry.(subjectKind := a.subjectKind, subjectId := a.subjectId, subjectTitle := a.subjectTitle);
        entry := entry.(roleId := a.roleId, updatedAt := a.updatedAt);
        queue := queue[|queue| - 1 := entry];
      } else {
        queue := queue + [a];
        last := a;
        lastTime := now;
      }
      flushCh := true;
    }

    /** The locked part of flush; the batch is then posted entry by entry, failures ignored. */
    method Flush() returns (batch: seq<Activity>)
      modifies this
      ensures batch == old(queue) && View() == old(View()).Flushed()
    {
      if |queue| == 0 {
        return [];
      }
      batch := queue;
      queue := [];
    }

    method Snapshot() returns (a: Activity)
      ensures a == last
    {
      a := last;
    }
  }

  // ----- any interleaving of reports and flushes -----

  datatype Event = Report(a: Activity, now: int) | Flush

  /** The reporter, what flushes have taken, and the reports each entry of drained + queue stands for
      together with the time it was appended. */
  datatype History = History(
    reporter: Reporter,
    drained: seq<Activity>,
    blocks: seq<seq<Activity>>,
    times: seq<int>)
  {
    function Entries(): seq<Activity> {
      drained + reporter.queue
    }
  }

  const INITIAL := History(Reporter([], NO_ACTIVITY, 0, false), [], [], [])

  function Do(h: History, e: Event): History {
    match e
    case Flush => h.(reporter := h.reporter.Flushed(), drained := h.drained + h.reporter.queue)
    case Report(a, now) =>
      if h.reporter.Coalesces(a, now) && h.blocks != [] then
        h.(reporter := h.reporter.Reported(a, now),
           blocks := h.blocks[..|h.blocks| - 1] + [h.blocks[|h.blocks| - 1] + [a]])
      else
        h.(reporter := h.reporter.Reported(a, now), blocks := h.blocks + [[a]], times := h.times + [now])
  }

  function RunAll(h: History, events: seq<Event>): History
    decreases |events|
  {
    if events == [] then h else RunAll(Do(h, events[0]), events[1..])
  }

  function Reports(events: seq<Event>): seq<Activity> {
    if events == [] then []
    else Reported(events[0]) + Reports(events[1..])
  }

  function Flatten(blocks: seq<seq<Activity>>): seq<Activity> {
    if blocks == [] then [] else Flatten(blocks[..|blocks| - 1]) + blocks[|blocks| - 1]
  }

  /** The entry stands for a block of reports of one phase: everything from the last of them but
      StartedAt, which is the first one's. */
  predicate Represents(entry: Activity, block: seq<Activity>) {
    && block != []
    && (forall i :: 0 <= i < |block| ==> block[i].phase == entry.phase)
    && entry == block[|block| - 1].(startedAt := block[0].startedAt)
  }

  predicate AllRepresent(entries: seq<Activity>, blocks: seq<seq<Activity>>) {
    |blocks| == |entries| && forall i :: 0 <= i < |entries| ==> Represents(entries[i], blocks[i])
  }

  /** Adjacent entries of one phase, both still queued, were appended the window apart. */
  predicate Spaced(phases: seq<string>, times: seq<int>, drained: nat) {
    |times| == |phases| &&
    forall i :: drained < i < |phases| && phases[i] == phases[i - 1] ==> times[i] - times[i - 1] >= COALESCE_WINDOW
  }

  predicate EndsWith(reporter: Reporter, phases: seq<string>, times: seq<int>) {
    phases != [] && |times| == |phases| ==>
      reporter.last.phase == phases[|phases| - 1] && reporter.lastTime == times[|phases| - 1]
  }

  ghost predicate Inv(h: History) {
    && AllRepresent(h.Entries(), h.blocks)
    && EndsWith(h.reporter, Phases(h.Entries()), h.times)
    && Spaced(Phases(h.Entries()), h.times, |h.drained|)
  }

  lemma MergeKeeps(h: History, a: Activity, now: int)
    requires Inv(h) && h.reporter.Coalesces(a, now)
    ensures Inv(Do(h, Report(a, now)))
    ensures Flatten(Do(h, Report(a, now)).blocks) == Flatten(h.blocks) + [a]
  {
    MergedEntries(h, a, now);
    MergeParts(h.Entries(), h.blocks, a);
  }

  /** The same, of the entries and blocks alone. */
  lemma MergeParts(entries: seq<Activity>, blocks: seq<seq<Activity>>, a: Activity)
    requires AllRepresent(entries, blocks) && entries != [] && entries[|entries| - 1].phase == a.phase
    ensures var n := |entries| - 1;
            && AllRepresent(entries[..n] + [Merged(entries[n], a)], blocks[..n] + [blocks[n] + [a]])
            && Phases(entries[..n] + [Merged(entries[n], a)]) == Phases(entries)
            && Flatten(blocks[..n] + [blocks[n] + [a]]) == Flatten(blocks) + [a]
  {
    var n := |entries| - 1;
    MergedRepresents(entries[n], blocks[n], a);
    LastReplaced(entries, blocks, Merged(entries[n], a), blocks[n] + [a]);
    SamePhases(entries[..n], entries[n], Merged(entries[n], a));
    assert entries == entries[..n] + [entries[n]] && blocks == blocks[..n] + [blocks[n]];
    FlattenLonger(blocks[..n], blocks[n], a);
  }

  lemma LastReplaced(entries: seq<Activity>, blocks: seq<seq<Activity>>, entry: Activity, block: seq<Activity>)
    requires AllRepresent(entries, blocks) && entries != [] && Represents(entry, block)
    ensures AllRepresent(entries[..|entries| - 1] + [entry], blocks[..|entries| - 1] + [block])
  {
  }

  lemma SamePhases(entries: seq<Activity>, a: Activity, b: Activity)
    requires a.phase == b.phase
    ensures Phases(entries + [a]) == Phases(entries + [b])
  {
    assert (entries + [a])[..|entries|] == entries == (entries + [b])[..|entries|];
  }

  lemma MergedEntries(h: History, a: Activity, now: int)
    requires Inv(h) && h.reporter.Coalesces(a, now)
    ensures var n, next := |h.Entries()| - 1, Do(h, Report(a, now));
            && h.Entries()[n].phase == a.phase
            && next.Entries() == h.Entries()[..n] + [Merged(h.Entries()[n], a)] && next.blocks == h.blocks[..n] + [h.blocks[n] + [a]]
            && next.times == h.times && next.drained == h.drained
            && next.reporter.last == h.reporter.last && next.reporter.lastTime == h.reporter.lastTime
  {
    PhasesAt(h.Entries());
    LastQueued(h.drained, h.reporter.queue, a);
  }

  lemma LastQueued(drained: seq<Activity>, queue: seq<Activity>, a: Activity)
    requires queue != []
    ensures var entries, n := drained + queue, |drained + queue| - 1;
            drained + (queue[..|queue| - 1] + [Merged(queue[|queue| - 1], a)]) == entries[..n] + [Merged(entries[n], a)]
  {
  }

  lemma MergedRepresents(entry: Activity, block: seq<Activity>, a: Activity)
    requires Represents(entry, block) && a.phase == entry.phase
    ensures Represents(Merged(entry, a), block + [a])
  {
  }

  lemma FlattenLonger(blocks: seq<seq<Activity>>, block: seq<Activity>, a: Activity)
    ensures Flatten(blocks + [block + [a]]) == Flatten(blocks + [block]) + [a]
  {
    assert (blocks + [block + [a]])[..|blocks|] == blocks && (blocks + [block])[..|blocks|] == blocks;
    Associates(Flatten(blocks), block, [a]);
  }

  lemma AppendKeeps(h: History, a: Activity, now: int)
    requires Inv(h) && !h.reporter.Coalesces(a, now)
    ensures Inv(Do(h, Report(a, now)))
    ensures Flatten(Do(h, Report(a, now)).blocks) == Flatten(h.blocks) + [a]
  {
    var next := Do(h, Report(a, now));
    var entries := h.Entries();
    assert next.Entries() == entries + [a];
    assert next.blocks[..|h.blocks|] == h.blocks;
    PhasesConcat(entries, [a]);
    PhasesOfOne(a);
    PhasesAt(entries);
    AppendRepresents(entries, h.blocks, a);
    AppendSpaced(h, Phases(entries), a, now);
  }

  lemma AppendRepresents(entries: seq<Activity>, blocks: seq<seq<Activity>>, a: Activity)
    requires AllRepresent(entries, blocks)
    ensures AllRepresent(entries + [a], blocks + [[a]])
  {
    assert Represents(a, [a]);
  }

  lemma AppendSpaced(h: History, phases: seq<string>, a: Activity, now: int)
    requires !h.reporter.Coalesces(a, now) && |phases| == |h.drained| + |h.reporter.queue|
    requires EndsWith(h.reporter, phases, h.times) && Spaced(phases, h.times, |h.drained|)
    ensures Spaced(phases + [a.phase], h.times + [now], |h.drained|)
  {
  }

  lemma FlushKeeps(h: History)
    requires Inv(h)
    ensures Inv(Do(h, Flush))
  {
    assert Do(h, Flush).Entries() == h.Entries();
    PhasesAt(h.Entries());
  }

  function Reported(e: Event): seq<Activity> {
    if e.Report? then [e.a] else []
  }

  lemma EventKeeps(h: History, e: Event)
    requires Inv(h)
    ensures Inv(Do(h, e))
    ensures Flatten(Do(h, e).blocks) == Flatten(h.blocks) + Reported(e)
  {
    match e {
      case Flush => FlushKeeps(h);
      case Report(a, now) =>
        if h.reporter.Coalesces(a, now) { MergeKeeps(h, a, now); } else { AppendKeeps(h, a, now); }
    }
  }

  lemma {:induction false} EveryRunKeeps(h: History, events: seq<Event>)
    requires Inv(h)
    ensures Inv(RunAll(h, events))
    decreases |events|
  {
    if events != [] {
      EventKeeps(h, events[0]);
      EveryRunKeeps(Do(h, events[0]), events[1..]);
    }
  }

  lemma {:induction false} BlocksAreReports(h: History, events: seq<Event>)
    requires Inv(h)
    ensures Flatten(RunAll(h, events).blocks) == Flatten(h.blocks) + Reports(events)
    decreases |events|
  {
    if events != [] {
      EventKeeps(h, events[0]);
      BlocksAreReports(Do(h, events[0]), events[1..]);
      Associates(Flatten(h.blocks), Reported(events[0]), Reports(events[1..]));
    }
  }

  lemma Associates(a: seq<Activity>, b: seq<Activity>, c: seq<Activity>)
    ensures a + b + c == a + (b + c)
  {
  }

  // ----- what coalescing keeps -----

  function Phases(activities: seq<Activity>): seq<string> {
    if activities == [] then [] else Phases(activities[..|activities| - 1]) + [activities[|activities| - 1].phase]
  }

  /** The element added, unless it repeats the last one. */
  function AddUnlessRepeated<T(==)>(s: seq<T>, x: T): seq<T> {
    if s != [] && s[|s| - 1] == x then s else s + [x]
  }

  /** Adjacent repeats removed. */
  function Squeeze<T(==)>(s: seq<T>): seq<T> {
    if s == [] then [] else AddUnlessRepeated(Squeeze(s[..|s| - 1]), s[|s| - 1])
  }

  lemma SqueezeOneMore<T>(s: seq<T>, phase: T)
    ensures Squeeze(s + [phase]) == AddUnlessRepeated(Squeeze(s), phase)
  {
    assert (s + [phase])[..|s|] == s;
  }

  lemma {:induction false} SqueezeAppend<T>(s: seq<T>, phases: seq<T>, phase: T)
    requires phases != [] && forall i :: 0 <= i < |phases| ==> phases[i] == phase
    ensures Squeeze(s + phases) == AddUnlessRepeated(Squeeze(s), phase)
    decreases |phases|
  {
    var rest := phases[..|phases| - 1];
    if rest == [] {
      assert phases == [phase];
      SqueezeOneMore(s, phase);
    } else {
      assert s + phases == (s + rest) + [phase];
      SqueezeAppend(s, rest, phase);
      SqueezeOneMore(s + rest, phase);
    }
  }

  lemma {:induction false} PhasesConcat(a: seq<Activity>, b: seq<Activity>)
    ensures Phases(a + b) == Phases(a) + Phases(b)
    decreases |b|
  {
    if b == [] {
      assert a + b == a;
    } else {
      assert (a + b)[..|a + b| - 1] == a + b[..|b| - 1];
      PhasesConcat(a, b[..|b| - 1]);
    }
  }

  lemma {:induction false} PhasesAt(a: seq<Activity>)
    ensures |Phases(a)| == |a| && forall i :: 0 <= i < |a| ==> Phases(a)[i] == a[i].phase
  {
    if a != [] { PhasesAt(a[..|a| - 1]); }
  }

  lemma {:induction false} BlocksSqueeze(entries: seq<Activity>, blocks: seq<seq<Activity>>)
    requires AllRepresent(entries, blocks)
    ensures Squeeze(Phases(Flatten(blocks))) == Squeeze(Phases(entries))
    decreases |entries|
  {
    if entries != [] {
      var n := |entries| - 1;
      FrontRepresents(entries, blocks);
      BlocksSqueeze(entries[..n], blocks[..n]);
      OneMoreBlock(Flatten(blocks[..n]), blocks[n], entries[..n], entries[n]);
      assert entries == entries[..n] + [entries[n]];
    }
  }

  lemma FrontRepresents(entries: seq<Activity>, blocks: seq<seq<Activity>>)
    requires AllRepresent(entries, blocks) && entries != []
    ensures var n := |entries| - 1; AllRepresent(entries[..n], blocks[..n]) && Represents(entries[n], blocks[n])
  {
  }

  lemma OneMoreBlock(before: seq<Activity>, block: seq<Activity>, entries: seq<Activity>, entry: Activity)
    requires Represents(entry, block)
    requires Squeeze(Phases(before)) == Squeeze(Phases(entries))
    ensures Squeeze(Phases(before + block)) == Squeeze(Phases(entries + [entry]))
  {
    PhasesConcat(before, block);
    PhasesConcat(entries, [entry]);
    PhasesOfOne(entry);
    PhasesAt(block);
    SqueezeAppend(Phases(before), Phases(block), entry.phase);
    SqueezeOneMore(Phases(entries), entry.phase);
  }

  lemma PhasesOfOne(entry: Activity)
    ensures Phases([entry]) == [entry.phase]
  {
    assert [entry][..0] == [];
  }

  /** For any reports and flushes: the entries sent and queued stand one for one for consecutive blocks of
      the reports; so their phases, adjacent repeats removed, are those of the reports, and the last entry
      agrees with the last report but in StartedAt. Adjacent entries of one phase queued together were
      appended at least the coalesce window apart. */
  lemma CoalescingLosesNoPhase(events: seq<Event>)
    ensures var h := RunAll(INITIAL, events);
            var entries := h.Entries();
            && Flatten(h.blocks) == Reports(events) && AllRepresent(entries, h.blocks)
            && Squeeze(Phases(entries)) == Squeeze(Phases(Reports(events)))
            && Spaced(Phases(entries), h.times, |h.drained|)
  {
    InitialHolds();
    EveryRunKeeps(INITIAL, events);
    var h := RunAll(INITIAL, events);
    BlocksFromStart(events);
    EntriesSqueeze(h);
  }

  lemma BlocksFromStart(events: seq<Event>)
    ensures Flatten(RunAll(INITIAL, events).blocks) == Reports(events)
  {
    InitialHolds();
    FromNothing(INITIAL, events);
  }

  lemma InitialHolds()
    ensures Inv(INITIAL) && INITIAL.blocks == []
  {
  }

  lemma FromNothing(h: History, events: seq<Event>)
    requires Inv(h) && h.blocks == []
    ensures Flatten(RunAll(h, events).blocks) == Reports(events)
  {
    BlocksAreReports(h, events);
    assert [] + Reports(events) == Reports(events);
  }

  lemma EntriesSqueeze(h: History)
    requires Inv(h)
    ensures Squeeze(Phases(h.Entries())) == Squeeze(Phases(Flatten(h.blocks)))
  {
    BlocksSqueeze(h.Entries(), h.blocks);
  }

  lemma LastEntryIsLastReport(events: seq<Event>)
    requires Reports(events) != []
    ensures var entries, reports := RunAll(INITIAL, events).Entries(), Reports(events);
            entries != []
            && entries[|entries| - 1].(startedAt := 0) == reports[|reports| - 1].(startedAt := 0)
  {
    CoalescingLosesNoPhase(events);
    LastOfBlocks(RunAll(INITIAL, events).Entries(), RunAll(INITIAL, events).blocks);
  }

  lemma LastOfBlocks(entries: seq<Activity>, blocks: seq<seq<Activity>>)
    requires AllRepresent(entries, blocks) && Flatten(blocks) != []
    ensures entries != []
    ensures entries[|entries| - 1].(startedAt := 0) == Flatten(blocks)[|Flatten(blocks)| - 1].(startedAt := 0)
  {
    var n := |blocks| - 1;
    assert Represents(entries[n], blocks[n]);
  }

  /** The report is merged into the last queued entry exactly if that has its phase and was appended less than half a
      second ago, and then all but the time of the start is the report's; any other report is appended as it is. Either way a flush is asked for. */
  predicate MergesWithinHalfASecond(h: History, a: Activity, now: int) {
    var queue, after := h.reporter.queue, h.reporter.Reported(a, now).queue;
    var n := |queue|;
    && |h.times| == |h.Entries()| && h.reporter.Reported(a, now).flush
    && if n > 0 && queue[n - 1].phase == a.phase && now - h.times[|h.times| - 1] < 500
       then |after| == n && after[..n - 1] == queue[..n - 1] && after[n - 1] == a.(startedAt := queue[n - 1].startedAt)
       else after == queue + [a]
  }

  lemma LastQueuedEntry(h: History)
    requires Inv(h)
    ensures |h.times| == |h.Entries()|
    ensures h.reporter.queue != [] ==>
              && h.reporter.queue[|h.reporter.queue| - 1].phase == h.reporter.last.phase
              && h.reporter.lastTime == h.times[|h.times| - 1]
  {
    var entries, queue := h.Entries(), h.reporter.queue;
    PhasesAt(entries);
    if queue != [] {
      assert entries[|entries| - 1] == queue[|queue| - 1];
    }
  }

  lemma MergesFrom(h: History, a: Activity, now: int)
    requires Inv(h)
    ensures MergesWithinHalfASecond(h, a, now)
  {
    LastQueuedEntry(h);
  }

  lemma ReachableHolds(events: seq<Event>)
    ensures Inv(RunAll(INITIAL, events))
  {
    InitialHolds();
    EveryRunKeeps(INITIAL, events);
  }

  /** After any reports and flushes. */
  lemma ReportsMergeInTime(events: seq<Event>, a: Activity, now: int)
    ensures MergesWithinHalfASecond(RunAll(INITIAL, events), a, now)
  {
    ReachableHolds(events);
    MergesFrom(RunAll(INITIAL, events), a, now);
  }
}
