/** The hub under concurrency: publishers copy the subscriber list under the lock and send after it,
    while others subscribe, unsubscribe, receive and purge. */
module HubStreams {
  import opened Activities
  import opened Hub

  // Channels are numbered in the order of their registration, updates in the order of their locked part.
  type ChannelId = nat
  type UpdateId = nat
  type PublisherId = nat

  /** One subscription: buffer and received hold update numbers; dropped those sent while the buffer was full. */
  datatype Stream = Stream(
    connector: string,
    user: string,
    since: nat,
    initial: Activity,
    live: bool,
    buffer: seq<UpdateId>,
    received: seq<UpdateId>,
    dropped: set<UpdateId>)
  {
    /** Everything the subscriber got or will get without further sends, in order. */
    function Offered(): seq<UpdateId> {
      received + buffer
    }
  }

  datatype Update = Update(connector: string, activity: Activity)

  /** A call of Update after its unlock: the channels it has still to send to. */
  datatype Publisher = Publisher(update: UpdateId, remaining: seq<ChannelId>)

  datatype Sys = Sys(
    registry: Registry<ChannelId>,
    streams: seq<Stream>,
    log: seq<Update>,
    publishers: map<PublisherId, Publisher>)

  datatype Step =
    | Subscribe(connector: string)
    | SubscribeWithCap(connector: string, user: string)
    | Unsubscribe(c: ChannelId)
    | Publish(p: PublisherId, connector: string, activity: Activity)
    | Send(p: PublisherId)
    | Return(p: PublisherId)
    | Receive(c: ChannelId)
    | PurgeIdle(now: int)
    | RestoreFromDB(activities: map<string, Activity>)

  predicate Enabled(s: Sys, step: Step) {
    match step
    case Subscribe(_) => true
    case SubscribeWithCap(_, _) => true
    case Unsubscribe(c) => c < |s.streams| && s.streams[c].live
    case Publish(p, _, _) => p !in s.publishers
    case Send(p) =>
      p in s.publishers && s.publishers[p].remaining != [] && s.publishers[p].remaining[0] < |s.streams|
    case Return(p) => p in s.publishers && s.publishers[p].remaining == []
    case Receive(c) => c < |s.streams| && s.streams[c].buffer != []
    case PurgeIdle(_) => true
    case RestoreFromDB(_) => s.log == []
  }

  function Register(s: Sys, connector: string, user: string): Sys {
    s.(registry := s.registry.Subscribed(connector, user, |s.streams|),
       streams := s.streams + [Stream(connector, user, |s.log|, s.registry.Current(connector), true, [], [], {})])
  }

  function Unregister(s: Sys, c: ChannelId): Sys
    requires c < |s.streams|
  {
    s.(registry := s.registry.Unsubscribed(s.streams[c].connector, s.streams[c].user, c),
       streams := s.streams[c := s.streams[c].(live := false)])
  }

  /** A non-blocking send of an update to a channel. */
  function Offer(stream: Stream, update: UpdateId): Stream {
    if |stream.buffer| < CHANNEL_SIZE then stream.(buffer := stream.buffer + [update])
    else stream.(dropped := stream.dropped + {update})
  }

  function Do(s: Sys, step: Step): Sys
    requires Enabled(s, step)
  {
    match step
    case Subscribe(connector) => Register(s, connector, "")
    case SubscribeWithCap(connector, user) =>
      if s.registry.CapReached(user, MAX_SSE_PER_USER) then s else Register(s, connector, user)
    case Unsubscribe(c) =>
      Unregister(s, c)
    case Publish(p, connector, activity) =>
      s.(registry := s.registry.Updated(connector, activity),
         log := s.log + [Update(connector, activity)],
         publishers := s.publishers[p := Publisher(|s.log|, s.registry.Subscribers(connector))])
    case Send(p) =>
      var publisher := s.publishers[p];
      var c := publisher.remaining[0];
      s.(streams := s.streams[c := Offer(s.streams[c], publisher.update)],
         publishers := s.publishers[p := publisher.(remaining := publisher.remaining[1..])])
    case Return(p) =>
      s.(publishers := s.publishers - {p})
    case Receive(c) =>
      var stream := s.streams[c];
      s.(streams := s.streams[c := stream.(buffer := stream.buffer[1..], received := stream.received + [stream.buffer[0]])])
    case PurgeIdle(now) =>
      s.(registry := s.registry.Purged(now))
    case RestoreFromDB(activities) =>
      s.(registry := s.registry.Restored(activities))
  }

  const INITIAL := Sys(Registry(map[], map[], map[]), [], [], map[])

  predicate ValidRun(s: Sys, steps: seq<Step>)
    decreases |steps|
  {
    steps == [] || (Enabled(s, steps[0]) && ValidRun(Do(s, steps[0]), steps[1..]))
  }

  function RunAll(s: Sys, steps: seq<Step>): Sys
    requires ValidRun(s, steps)
    decreases |steps|
  {
    if steps == [] then s else RunAll(Do(s, steps[0]), steps[1..])
  }

  // ----- the registry -----

  /** The live channels of a connector in registration order. */
  function LiveOf(streams: seq<Stream>, connector: string): seq<ChannelId> {
    if streams == [] then []
    else
      var n: ChannelId := |streams| - 1;
      LiveOf(streams[..n], connector) + (if streams[n].live && streams[n].connector == connector then [n] else [])
  }

  function LiveCount(streams: seq<Stream>, user: string): nat {
    if streams == [] then 0
    else
      var n: ChannelId := |streams| - 1;
      LiveCount(streams[..n], user) + (if streams[n].live && streams[n].user == user then 1 else 0)
  }

  ghost predicate RegistryInv(s: Sys) {
    && (forall connector :: s.registry.Subscribers(connector) == LiveOf(s.streams, connector))
    && (forall user :: user != "" ==> s.registry.CountOf(user) == LiveCount(s.streams, user) <= MAX_SSE_PER_USER)
    && (forall user :: user in s.registry.userSubCount ==> user != "" && s.registry.userSubCount[user] > 0)
  }

  /** Only registration and liveness matter to the registry. */
  predicate SameRegistrations(a: seq<Stream>, b: seq<Stream>) {
    && |a| == |b|
    && forall i :: 0 <= i < |a| ==> a[i].live == b[i].live && a[i].connector == b[i].connector && a[i].user == b[i].user
  }

  lemma {:induction false} SameRegistrationsSameLists(a: seq<Stream>, b: seq<Stream>, connector: string, user: string)
    requires SameRegistrations(a, b)
    ensures LiveOf(a, connector) == LiveOf(b, connector) && LiveCount(a, user) == LiveCount(b, user)
  {
    if a != [] {
      SameRegistrationsSameLists(a[..|a| - 1], b[..|b| - 1], connector, user);
    }
  }

  /** LiveOf lists exactly the live channels, in increasing order, so without duplicates. */
  lemma {:induction false} LiveOfIsExact(streams: seq<Stream>, connector: string)
    ensures forall c :: c in LiveOf(streams, connector) <==>
              0 <= c < |streams| && streams[c].live && streams[c].connector == connector
    ensures forall i, j :: 0 <= i < j < |LiveOf(streams, connector)| ==>
              LiveOf(streams, connector)[i] < LiveOf(streams, connector)[j]
  {
    if streams != [] {
      var n: ChannelId := |streams| - 1;
      LiveOfIsExact(streams[..n], connector);
      var before := LiveOf(streams[..n], connector);
      forall i | 0 <= i < |before| ensures before[i] < n { assert before[i] in before; }
    }
  }

  lemma LiveOfSnoc(streams: seq<Stream>, last: Stream, connector: string)
    ensures LiveOf(streams + [last], connector) == LiveOf(streams, connector) + LastIfLive(last, |streams|, connector)
  {
    assert (streams + [last])[..|streams|] == streams;
  }

  function LastIfLive(last: Stream, n: ChannelId, connector: string): seq<ChannelId> {
    if last.live && last.connector == connector then [n] else []
  }

  lemma {:induction false} WithoutTail(s: seq<ChannelId>, tail: seq<ChannelId>, c: ChannelId)
    requires c in s
    ensures Without(s + tail, c) == Without(s, c) + tail
  {
    assert (s + tail)[1..] == s[1..] + tail;
    if s[0] != c {
      WithoutTail(s[1..], tail, c);
    }
  }

  lemma {:induction false} WithoutLast(s: seq<ChannelId>, c: ChannelId)
    requires c !in s
    ensures Without(s + [c], c) == s
  {
    if s != [] {
      assert (s + [c])[1..] == s[1..] + [c];
      WithoutLast(s[1..], c);
    }
  }

  lemma {:induction false} LiveOfUnsubscribe(streams: seq<Stream>, c: ChannelId, connector: string)
    requires c < |streams| && streams[c].live
    ensures LiveOf(streams[c := streams[c].(live := false)], connector)
         == if streams[c].connector == connector then Without(LiveOf(streams, connector), c) else LiveOf(streams, connector)
  {
    var n: ChannelId := |streams| - 1;
    var front, last, gone := streams[..n], streams[n], streams[c].(live := false);
    var before := LiveOf(front, connector);
    assert streams == front + [last];
    LiveOfSnoc(front, last, connector);
    LiveOfIsExact(front, connector);
    if c == n {
      assert streams[c := gone] == front + [gone];
      LiveOfSnoc(front, gone, connector);
      if last.connector == connector { WithoutLast(before, n); }
    } else {
      assert streams[c := gone] == front[c := gone] + [last];
      LiveOfSnoc(front[c := gone], last, connector);
      LiveOfUnsubscribe(front, c, connector);
      if streams[c].connector == connector { WithoutTail(before, LastIfLive(last, n, connector), c); }
    }
  }

  lemma {:induction false} LiveCountUnsubscribe(streams: seq<Stream>, c: ChannelId, user: string)
    requires c < |streams| && streams[c].live
    ensures LiveCount(streams[c := streams[c].(live := false)], user) + (if streams[c].user == user then 1 else 0)
         == LiveCount(streams, user)
  {
    var n: ChannelId := |streams| - 1;
    var after := streams[c := streams[c].(live := false)];
    if c == n {
      assert after[..n] == streams[..n];
    } else {
      assert after[..n] == streams[..n][c := streams[c].(live := false)];
      LiveCountUnsubscribe(streams[..n], c, user);
    }
  }

  lemma RegisterKeepsRegistry(s: Sys, connector: string, user: string)
    requires RegistryInv(s) && (user != "" ==> s.registry.CountOf(user) < MAX_SSE_PER_USER)
    ensures RegistryInv(Register(s, connector, user))
  {
    var next := Register(s, connector, user);
    forall o ensures next.registry.Subscribers(o) == LiveOf(next.streams, o) {
      RegisterKeepsLists(s, connector, user, o);
    }
    forall o | o != "" ensures next.registry.CountOf(o) == LiveCount(next.streams, o) <= MAX_SSE_PER_USER {
      RegisterKeepsCounts(s, connector, user, o);
    }
  }

  lemma RegisterKeepsLists(s: Sys, connector: string, user: string, o: string)
    requires RegistryInv(s)
    ensures Register(s, connector, user).registry.Subscribers(o) == LiveOf(Register(s, connector, user).streams, o)
  {
    assert s.registry.Subscribers(o) == LiveOf(s.streams, o);
    assert Register(s, connector, user).streams[..|s.streams|] == s.streams;
  }

  lemma RegisterKeepsCounts(s: Sys, connector: string, user: string, o: string)
    requires RegistryInv(s) && (user != "" ==> s.registry.CountOf(user) < MAX_SSE_PER_USER) && o != ""
    ensures var next := Register(s, connector, user); next.registry.CountOf(o) == LiveCount(next.streams, o) <= MAX_SSE_PER_USER
  {
    assert s.registry.CountOf(o) == LiveCount(s.streams, o);
    assert Register(s, connector, user).streams[..|s.streams|] == s.streams;
  }

  lemma UnsubscribeKeepsLists(s: Sys, c: ChannelId, connector: string)
    requires RegistryInv(s) && c < |s.streams| && s.streams[c].live
    ensures Unregister(s, c).registry.Subscribers(connector) == LiveOf(Unregister(s, c).streams, connector)
  {
    assert s.registry.Subscribers(connector) == LiveOf(s.streams, connector);
    LiveOfIsExact(s.streams, connector);
    LiveOfUnsubscribe(s.streams, c, connector);
  }

  lemma UnsubscribeKeepsCounts(s: Sys, c: ChannelId, user: string)
    requires RegistryInv(s) && c < |s.streams| && s.streams[c].live && user != ""
    ensures Unregister(s, c).registry.CountOf(user) == LiveCount(Unregister(s, c).streams, user) <= MAX_SSE_PER_USER
  {
    assert s.registry.CountOf(user) == LiveCount(s.streams, user);
    LiveCountUnsubscribe(s.streams, c, user);
  }

  lemma UnsubscribeKeepsRegistry(s: Sys, c: ChannelId)
    requires RegistryInv(s) && c < |s.streams| && s.streams[c].live
    ensures RegistryInv(Unregister(s, c))
  {
    var next := Unregister(s, c);
    forall connector ensures next.registry.Subscribers(connector) == LiveOf(next.streams, connector) {
      UnsubscribeKeepsLists(s, c, connector);
    }
    forall user | user != "" ensures next.registry.CountOf(user) == LiveCount(next.streams, user) <= MAX_SSE_PER_USER {
      UnsubscribeKeepsCounts(s, c, user);
    }
  }

  lemma QuietStepKeepsRegistry(s: Sys, next: Sys)
    requires RegistryInv(s) && SameRegistrations(s.streams, next.streams)
    requires next.registry.subscribers == s.registry.subscribers && next.registry.userSubCount == s.registry.userSubCount
    ensures RegistryInv(next)
  {
    forall connector ensures next.registry.Subscribers(connector) == LiveOf(next.streams, connector) {
      assert s.registry.Subscribers(connector) == LiveOf(s.streams, connector);
      SameRegistrationsSameLists(s.streams, next.streams, connector, "");
    }
    forall user | user != "" ensures next.registry.CountOf(user) == LiveCount(next.streams, user) <= MAX_SSE_PER_USER {
      assert s.registry.CountOf(user) == LiveCount(s.streams, user);
      SameRegistrationsSameLists(s.streams, next.streams, "", user);
    }
  }

  lemma StepKeepsRegistry(s: Sys, step: Step)
    requires RegistryInv(s) && Enabled(s, step)
    ensures RegistryInv(Do(s, step))
  {
    match step
    case Subscribe(connector) => RegisterKeepsRegistry(s, connector, "");
    case SubscribeWithCap(connector, user) =>
      if !s.registry.CapReached(user, MAX_SSE_PER_USER) { RegisterKeepsRegistry(s, connector, user); }
    case Unsubscribe(c) => UnsubscribeKeepsRegistry(s, c);
    case _ => QuietStepKeepsRegistry(s, Do(s, step));
  }
}
