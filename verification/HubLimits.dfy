/** The hub's limits in every reachable state: who may subscribe, what a full channel loses, what is evicted and what a
    restore may overwrite. */
module HubLimits {
  import opened Activities
  import opened Hub
  import opened HubStreams
  import HubDelivery

  /** The live streams that count for a user. */
  function LiveStreams(streams: seq<Stream>, user: string): set<ChannelId> {
    set c: ChannelId | c < |streams| && streams[c].live && streams[c].user == user
  }

  lemma {:induction false} LiveCountIsSize(streams: seq<Stream>, user: string)
    ensures LiveCount(streams, user) == |LiveStreams(streams, user)|
  {
    if streams != [] {
      var n: ChannelId := |streams| - 1;
      LiveCountIsSize(streams[..n], user);
      var before := LiveStreams(streams[..n], user);
      assert LiveStreams(streams, user) == before + if streams[n].live && streams[n].user == user then {n} else {};
    }
  }

  /** One live stream more, at the end of its connector's list, with nothing received yet and everything published from
      now on to come. */
  predicate AddsStream(s: Sys, next: Sys, connector: string, user: string) {
    && |next.streams| == |s.streams| + 1 && next.streams[..|s.streams|] == s.streams
    && IsNewStream(s, next.streams[|s.streams|], connector, user)
    && next.registry.Subscribers(connector) == s.registry.Subscribers(connector) + [|s.streams|]
    && next.log == s.log && next.publishers == s.publishers && next.registry.states == s.registry.states
  }

  predicate IsNewStream(s: Sys, stream: Stream, connector: string, user: string) {
    && stream.connector == connector && stream.user == user && stream.live && stream.since == |s.log|
    && stream.buffer == [] && stream.received == [] && stream.dropped == {}
    && stream.initial == if connector in s.registry.states then s.registry.states[connector] else NO_ACTIVITY
  }

  /** In every reachable state: a user may open a stream exactly while fewer than three of the user's are live, and a
      refusal changes nothing; without a user, or without a cap, a stream can always be opened. */
  lemma ThreeStreamsPerUser(steps: seq<Step>, connector: string, user: string)
    requires ValidRun(HubStreams.INITIAL, steps)
    ensures var s := RunAll(HubStreams.INITIAL, steps);
            var next := Do(s, SubscribeWithCap(connector, user));
            && (user == "" || |LiveStreams(s.streams, user)| < 3 ==> AddsStream(s, next, connector, user))
            && (user != "" && |LiveStreams(s.streams, user)| >= 3 ==> next == s)
            && AddsStream(s, Do(s, Subscribe(connector)), connector, "")
  {
    var s := RunAll(HubStreams.INITIAL, steps);
    HubDelivery.RegistryExact(steps, connector, user);
    LiveCountIsSize(s.streams, user);
    RegisterAddsStream(s, connector, user);
    RegisterAddsStream(s, connector, "");
  }

  lemma RegisterAddsStream(s: Sys, connector: string, user: string)
    ensures AddsStream(s, Register(s, connector, user), connector, user)
  {
  }

  /** A stream that ends is the only one that changes, and it makes room for another of its user. */
  lemma EndingMakesRoom(s: Sys, c: ChannelId)
    requires Enabled(s, Unsubscribe(c))
    ensures var next := Do(s, Unsubscribe(c));
            && next.streams == s.streams[c := s.streams[c].(live := false)]
            && LiveStreams(next.streams, s.streams[c].user) == LiveStreams(s.streams, s.streams[c].user) - {c}
  {
  }

  /** A send goes into the channel while fewer than eight updates wait in it, and is lost otherwise; nothing else
      changes but that the publisher has one channel less to send to. */
  lemma EightWait(s: Sys, p: PublisherId)
    requires Enabled(s, Send(p))
    ensures var publisher, next := s.publishers[p], Do(s, Send(p));
            var c := publisher.remaining[0];
            && next.streams[c].buffer == (if |s.streams[c].buffer| < 8 then s.streams[c].buffer + [publisher.update] else s.streams[c].buffer)
            && next.streams[c].dropped == (if |s.streams[c].buffer| < 8 then s.streams[c].dropped else s.streams[c].dropped + {publisher.update})
            && next.streams == s.streams[c := s.streams[c].(buffer := next.streams[c].buffer, dropped := next.streams[c].dropped)]
            && next.publishers == s.publishers[p := Publisher(publisher.update, publisher.remaining[1..])]
            && next.registry == s.registry && next.log == s.log
  {
  }

  /** A reader takes the oldest update that waits. */
  lemma OldestIsReceived(s: Sys, c: ChannelId)
    requires Enabled(s, Receive(c))
    ensures var stream, next := s.streams[c], Do(s, Receive(c));
            && next.streams[c].received == stream.received + [stream.buffer[0]]
            && [stream.buffer[0]] + next.streams[c].buffer == stream.buffer
            && next == s.(streams := s.streams[c := next.streams[c]])
  {
  }

  /** Only an idle activity whose time is known and more than five minutes past is evicted; nothing else changes. */
  lemma IdleForFiveMinutes<C>(registry: Registry<C>, now: int, connector: string)
    ensures var after := registry.Purged(now);
            && (connector in after.states <==>
                  connector in registry.states
                  && !(registry.states[connector].phase == "idle" && registry.states[connector].updatedAt != 0
                       && now - registry.states[connector].updatedAt > 5 * 60 * 1000))
            && (connector in after.states ==> after.states[connector] == registry.states[connector])
            && after.subscribers == registry.subscribers && after.userSubCount == registry.userSubCount
  {
  }

  /** A restore adds what is missing and overwrites nothing. */
  lemma RestoreOverwritesNothing<C>(registry: Registry<C>, activities: map<string, Activity>, connector: string)
    ensures var after := registry.Restored(activities);
            && (connector in after.states <==> connector in registry.states || connector in activities)
            && (connector in registry.states ==> after.states[connector] == registry.states[connector])
            && (connector in activities && connector !in registry.states ==> after.states[connector] == activities[connector])
            && after.subscribers == registry.subscribers && after.userSubCount == registry.userSubCount
  {
  }

  /** An update is what the next subscriber of the connector starts from, and others are not touched. */
  lemma UpdateIsCurrent<C>(registry: Registry<C>, connector: string, a: Activity, other: string)
    ensures var after := registry.Updated(connector, a);
            && after.Current(connector) == a && (other != connector ==> after.Current(other) == registry.Current(other))
            && after.subscribers == registry.subscribers && after.userSubCount == registry.userSubCount
  {
  }
}
