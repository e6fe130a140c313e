/** What a subscriber of the hub receives: no update twice, none from before its registration, and with
    one publisher at a time per connector every one, in order, unless its buffer was full. */
module HubDelivery {
  import opened Activities
  import opened Hub
  import opened HubStreams
  import opened Sequences

  predicate Increasing(s: seq<nat>) {
    forall i, j :: 0 <= i < j < |s| ==> s[i] < s[j]
  }

  /** The update is one the stream should see: of its connector, begun after it registered. */
  predicate Addressed(log: seq<Update>, stream: Stream, k: UpdateId) {
    stream.since <= k < |log| && log[k].connector == stream.connector
  }

  /** Some publisher has still to send this update to this channel. */
  ghost predicate InFlight(publishers: map<PublisherId, Publisher>, c: ChannelId, k: UpdateId) {
    exists p :: p in publishers && publishers[p].update == k && c in publishers[p].remaining
  }

  /** Offered and dropped updates are addressed to the stream, and none is in there twice. */
  ghost predicate StreamInv(log: seq<Update>, stream: Stream) {
    && stream.since <= |log|
    && |stream.buffer| <= CHANNEL_SIZE
    && Distinct(stream.Offered())
    && (forall k :: k in stream.Offered() ==> Addressed(log, stream, k) && k !in stream.dropped)
    && (forall k :: k in stream.dropped ==> Addressed(log, stream, k))
  }

  /** A live stream misses no addressed update. */
  ghost predicate Complete(s: Sys, c: ChannelId)
    requires c < |s.streams|
  {
    s.streams[c].live ==>
      forall k :: Addressed(s.log, s.streams[c], k) ==>
        k in s.streams[c].Offered() || k in s.streams[c].dropped || InFlight(s.publishers, c, k)
  }

  /** What a publisher has still to send has not been sent. */
  ghost predicate PublisherInv(log: seq<Update>, streams: seq<Stream>, publisher: Publisher) {
    && publisher.update < |log|
    && Distinct(publisher.remaining)
    && forall c :: c in publisher.remaining ==>
         && c < |streams| && Addressed(log, streams[c], publisher.update)
         && publisher.update !in streams[c].Offered() && publisher.update !in streams[c].dropped
  }

  ghost predicate DeliveryInv(s: Sys) {
    && (forall c :: 0 <= c < |s.streams| ==> StreamInv(s.log, s.streams[c]) && Complete(s, c))
    && (forall p :: p in s.publishers ==> PublisherInv(s.log, s.streams, s.publishers[p]))
    && (forall p, q :: p in s.publishers && q in s.publishers && p != q ==>
          s.publishers[p].update != s.publishers[q].update)
  }

  // ----- steps -----

  lemma PublishKeeps(s: Sys, p: PublisherId, connector: string, activity: Activity)
    requires RegistryInv(s) && DeliveryInv(s) && Enabled(s, Publish(p, connector, activity))
    ensures DeliveryInv(Do(s, Publish(p, connector, activity)))
  {
    var next := Do(s, Publish(p, connector, activity));
    forall c | 0 <= c < |s.streams| ensures StreamInv(next.log, next.streams[c]) && Complete(next, c) {
      LongerLogKeepsStream(s.log, s.streams[c], Update(connector, activity));
      PublishKeepsComplete(s, p, connector, activity, c);
    }
    forall q | q in next.publishers ensures PublisherInv(next.log, next.streams, next.publishers[q]) {
      PublishKeepsPublisher(s, p, connector, activity, q);
    }
    forall q | q in s.publishers ensures s.publishers[q].update < |s.log| {
      assert PublisherInv(s.log, s.streams, s.publishers[q]);
    }
  }

  lemma LongerLogKeepsStream(log: seq<Update>, stream: Stream, update: Update)
    requires StreamInv(log, stream)
    ensures StreamInv(log + [update], stream)
  {
  }

  lemma PublishKeepsPublisher(s: Sys, p: PublisherId, connector: string, activity: Activity, q: PublisherId)
    requires RegistryInv(s) && DeliveryInv(s) && Enabled(s, Publish(p, connector, activity)) && (q == p || q in s.publishers)
    ensures PublisherInv(s.log + [Update(connector, activity)], s.streams, Do(s, Publish(p, connector, activity)).publishers[q])
  {
    if q == p {
      LiveOfIsExact(s.streams, connector);
      NewPublisher(s.log, s.streams, connector, activity, LiveOf(s.streams, connector));
      assert s.registry.Subscribers(connector) == LiveOf(s.streams, connector);
    } else {
      assert PublisherInv(s.log, s.streams, s.publishers[q]);
    }
  }

  lemma NewPublisher(log: seq<Update>, streams: seq<Stream>, connector: string, activity: Activity, targets: seq<ChannelId>)
    requires Distinct(targets)
    requires forall c :: c in targets ==> c < |streams| && streams[c].connector == connector
    requires forall c :: 0 <= c < |streams| ==> StreamInv(log, streams[c])
    ensures PublisherInv(log + [Update(connector, activity)], streams, Publisher(|log|, targets))
  {
    forall c | c in targets
      ensures |log| !in streams[c].Offered() && |log| !in streams[c].dropped && streams[c].since <= |log|
    {
      assert StreamInv(log, streams[c]);
    }
  }

  lemma PublishKeepsComplete(s: Sys, p: PublisherId, connector: string, activity: Activity, c: ChannelId)
    requires RegistryInv(s) && DeliveryInv(s) && Enabled(s, Publish(p, connector, activity))
    requires c < |s.streams|
    ensures Complete(Do(s, Publish(p, connector, activity)), c)
  {
    var next := Do(s, Publish(p, connector, activity));
    LiveOfIsExact(s.streams, connector);
    assert s.registry.Subscribers(connector) == LiveOf(s.streams, connector);
    forall k | s.streams[c].live && Addressed(next.log, next.streams[c], k)
      ensures k in next.streams[c].Offered() || k in next.streams[c].dropped || InFlight(next.publishers, c, k)
    {
      if k == |s.log| {
        assert next.publishers[p].update == k && c in next.publishers[p].remaining;
      } else {
        assert Addressed(s.log, s.streams[c], k);
        KeepsInFlight(s.publishers, next.publishers, c, k);
      }
    }
  }

  lemma KeepsInFlight(before: map<PublisherId, Publisher>, after: map<PublisherId, Publisher>, c: ChannelId, k: UpdateId)
    requires forall p :: p in before && before[p].update == k && c in before[p].remaining ==>
               p in after && after[p].update == k && c in after[p].remaining
    ensures InFlight(before, c, k) ==> InFlight(after, c, k)
  {
    if InFlight(before, c, k) {
      var p :| p in before && before[p].update == k && c in before[p].remaining;
      assert p in after;
    }
  }

  lemma OfferKeepsStream(log: seq<Update>, stream: Stream, k: UpdateId)
    requires StreamInv(log, stream) && Addressed(log, stream, k) && k !in stream.Offered() && k !in stream.dropped
    ensures StreamInv(log, Offer(stream, k))
    ensures Offer(stream, k).Offered() == if |stream.buffer| < CHANNEL_SIZE then stream.Offered() + [k] else stream.Offered()
  {
    var after := Offer(stream, k);
    if |stream.buffer| < CHANNEL_SIZE {
      assert after.Offered() == stream.Offered() + [k];
    }
  }

  lemma SendKeeps(s: Sys, p: PublisherId)
    requires DeliveryInv(s) && Enabled(s, Send(p))
    ensures DeliveryInv(Do(s, Send(p)))
  {
    var next := Do(s, Send(p));
    var publisher := s.publishers[p];
    var c, k := publisher.remaining[0], publisher.update;
    assert PublisherInv(s.log, s.streams, publisher) && c in publisher.remaining;
    OfferKeepsStream(s.log, s.streams[c], k);
    forall o | 0 <= o < |s.streams| ensures Complete(next, o) {
      SendKeepsComplete(s, p, o);
    }
    forall q | q in next.publishers ensures PublisherInv(next.log, next.streams, next.publishers[q]) {
      SendKeepsPublisher(s, p, q);
    }
  }

  lemma SendKeepsComplete(s: Sys, p: PublisherId, o: ChannelId)
    requires DeliveryInv(s) && Enabled(s, Send(p)) && o < |s.streams|
    ensures Complete(Do(s, Send(p)), o)
  {
    var next := Do(s, Send(p));
    var publisher := s.publishers[p];
    var c, k := publisher.remaining[0], publisher.update;
    assert PublisherInv(s.log, s.streams, publisher) && c in publisher.remaining;
    OfferKeepsStream(s.log, s.streams[c], k);
    assert publisher.remaining == [c] + publisher.remaining[1..];
    assert Complete(s, o);
    forall j | next.streams[o].live && Addressed(next.log, next.streams[o], j)
      ensures j in next.streams[o].Offered() || j in next.streams[o].dropped || InFlight(next.publishers, o, j)
    {
      if o != c || j != k {
        KeepsInFlight(s.publishers, next.publishers, o, j);
      }
    }
  }

  lemma SendKeepsPublisher(s: Sys, p: PublisherId, q: PublisherId)
    requires DeliveryInv(s) && Enabled(s, Send(p)) && q in s.publishers
    ensures PublisherInv(s.log, Do(s, Send(p)).streams, Do(s, Send(p)).publishers[q])
  {
    var publisher := s.publishers[p];
    assert PublisherInv(s.log, s.streams, publisher) && PublisherInv(s.log, s.streams, s.publishers[q]);
    assert publisher.remaining[0] in publisher.remaining;
    if p == q {
      SentPublisher(s.log, s.streams, publisher);
    } else {
      OtherPublisher(s.log, s.streams, s.publishers[q], publisher.remaining[0], publisher.update);
    }
  }

  lemma SentPublisher(log: seq<Update>, streams: seq<Stream>, publisher: Publisher)
    requires PublisherInv(log, streams, publisher) && publisher.remaining != [] && publisher.remaining[0] < |streams|
    ensures var c := publisher.remaining[0];
            PublisherInv(log, streams[c := Offer(streams[c], publisher.update)], publisher.(remaining := publisher.remaining[1..]))
  {
    var rest := publisher.remaining[1..];
    assert forall i :: 0 <= i < |rest| ==> rest[i] == publisher.remaining[i + 1];
    assert publisher.remaining[0] !in rest;
    assert forall c :: c in rest ==> c in publisher.remaining;
  }

  lemma OtherPublisher(log: seq<Update>, streams: seq<Stream>, publisher: Publisher, c: ChannelId, k: UpdateId)
    requires PublisherInv(log, streams, publisher) && c < |streams| && k != publisher.update
    ensures PublisherInv(log, streams[c := Offer(streams[c], k)], publisher)
  {
    OfferOffers(streams[c], k);
  }

  lemma OfferOffers(stream: Stream, k: UpdateId)
    ensures forall j :: j in Offer(stream, k).Offered() || j in Offer(stream, k).dropped <==>
                        j in stream.Offered() || j in stream.dropped || j == k
  {
    if |stream.buffer| < CHANNEL_SIZE {
      assert Offer(stream, k).Offered() == stream.Offered() + [k];
    }
  }

  lemma ReceiveKeeps(s: Sys, c: ChannelId)
    requires DeliveryInv(s) && Enabled(s, Receive(c))
    ensures DeliveryInv(Do(s, Receive(c)))
  {
    var next := Do(s, Receive(c));
    ReceiveOffered(s.streams[c]);
    forall o | 0 <= o < |s.streams| ensures StreamInv(next.log, next.streams[o]) && Complete(next, o) {
      assert StreamInv(s.log, s.streams[o]) && Complete(s, o);
      assert next.streams[o].Offered() == s.streams[o].Offered();
      assert forall k :: Addressed(next.log, next.streams[o], k) == Addressed(s.log, s.streams[o], k);
    }
    forall p | p in s.publishers ensures PublisherInv(next.log, next.streams, next.publishers[p]) {
      assert PublisherInv(s.log, s.streams, s.publishers[p]);
      assert forall o :: 0 <= o < |s.streams| ==> next.streams[o].Offered() == s.streams[o].Offered();
    }
  }

  lemma ReceiveOffered(stream: Stream)
    requires stream.buffer != []
    ensures stream.received + [stream.buffer[0]] + stream.buffer[1..] == stream.Offered()
  {
    assert stream.buffer == [stream.buffer[0]] + stream.buffer[1..];
  }

  lemma RegisterKeeps(s: Sys, connector: string, user: string)
    requires DeliveryInv(s)
    ensures DeliveryInv(Register(s, connector, user))
  {
    var next := Register(s, connector, user);
    forall c | 0 <= c < |s.streams| ensures Complete(next, c) {
      assert Complete(s, c);
    }
    forall p | p in s.publishers ensures PublisherInv(next.log, next.streams, next.publishers[p]) {
      assert PublisherInv(s.log, s.streams, s.publishers[p]);
    }
    assert next.streams[|s.streams|].Offered() == [];
  }

  lemma ReturnKeeps(s: Sys, p: PublisherId)
    requires DeliveryInv(s) && Enabled(s, Return(p))
    ensures DeliveryInv(Do(s, Return(p)))
  {
    var next := Do(s, Return(p));
    forall c | 0 <= c < |s.streams| ensures Complete(next, c) {
      assert Complete(s, c);
      forall k | Addressed(s.log, s.streams[c], k) ensures InFlight(s.publishers, c, k) ==> InFlight(next.publishers, c, k) {
        KeepsInFlight(s.publishers, next.publishers, c, k);
      }
    }
  }

  lemma UnsubscribeKeeps(s: Sys, c: ChannelId)
    requires DeliveryInv(s) && Enabled(s, Unsubscribe(c))
    ensures DeliveryInv(Do(s, Unsubscribe(c)))
  {
    var next := Do(s, Unsubscribe(c));
    forall o | 0 <= o < |s.streams| ensures Complete(next, o) {
      assert Complete(s, o);
    }
    forall p | p in s.publishers ensures PublisherInv(next.log, next.streams, next.publishers[p]) {
      assert PublisherInv(s.log, s.streams, s.publishers[p]);
    }
  }

  lemma StepKeeps(s: Sys, step: Step)
    requires RegistryInv(s) && DeliveryInv(s) && Enabled(s, step)
    ensures RegistryInv(Do(s, step)) && DeliveryInv(Do(s, step))
  {
    StepKeepsRegistry(s, step);
    match step
    case Subscribe(connector) => RegisterKeeps(s, connector, "");
    case SubscribeWithCap(connector, user) =>
      if !s.registry.CapReached(user, MAX_SSE_PER_USER) { RegisterKeeps(s, connector, user); }
    case Unsubscribe(c) => UnsubscribeKeeps(s, c);
    case Publish(p, connector, activity) => PublishKeeps(s, p, connector, activity);
    case Send(p) => SendKeeps(s, p);
    case Return(p) => ReturnKeeps(s, p);
    case Receive(c) => ReceiveKeeps(s, c);
    case PurgeIdle(_) => QuietKeeps(s, Do(s, step));
    case RestoreFromDB(_) => QuietKeeps(s, Do(s, step));
  }

  lemma QuietKeeps(s: Sys, next: Sys)
    requires DeliveryInv(s) && next == s.(registry := next.registry)
    ensures DeliveryInv(next)
  {
    forall c | 0 <= c < |s.streams| ensures Complete(next, c) {
      assert Complete(s, c);
    }
  }

  lemma {:induction false} EveryRunKeeps(s: Sys, steps: seq<Step>)
    requires RegistryInv(s) && DeliveryInv(s) && ValidRun(s, steps)
    ensures RegistryInv(RunAll(s, steps)) && DeliveryInv(RunAll(s, steps))
    decreases |steps|
  {
    if steps != [] {
      StepKeeps(s, steps[0]);
      EveryRunKeeps(Do(s, steps[0]), steps[1..]);
    }
  }

  /** After any calls, subscribers lists each connector's live channels in registration order without
      duplicates, and userSubCount counts each user's, has no zero entry and never exceeds the cap. */
  lemma RegistryExact(steps: seq<Step>, connector: string, user: string)
    requires ValidRun(INITIAL, steps)
    ensures var s := RunAll(INITIAL, steps);
            && s.registry.Subscribers(connector) == LiveOf(s.streams, connector)
            && Increasing(LiveOf(s.streams, connector))
            && (forall c :: c in LiveOf(s.streams, connector) <==>
                  0 <= c < |s.streams| && s.streams[c].live && s.streams[c].connector == connector)
            && (user != "" ==> s.registry.CountOf(user) == LiveCount(s.streams, user) <= MAX_SSE_PER_USER)
            && (user in s.registry.userSubCount ==> s.registry.userSubCount[user] > 0)
  {
    EveryRunKeeps(INITIAL, steps);
    LiveOfIsExact(RunAll(INITIAL, steps).streams, connector);
  }

  /** However publishers interleave: a subscriber gets each update at most once, only updates of its
      connector begun after it registered, and while it stays none is lost but by a full buffer. */
  lemma DeliveredAtMostOnce(steps: seq<Step>, c: ChannelId)
    requires ValidRun(INITIAL, steps) && c < |RunAll(INITIAL, steps).streams|
    ensures var s := RunAll(INITIAL, steps);
            var stream := s.streams[c];
            && Distinct(stream.Offered())
            && (forall k :: k in stream.Offered() ==> Addressed(s.log, stream, k) && k !in stream.dropped)
            && (stream.live ==> forall k :: Addressed(s.log, stream, k) ==>
                  k in stream.Offered() || k in stream.dropped || InFlight(s.publishers, c, k))
  {
    EveryRunKeeps(INITIAL, steps);
    var s := RunAll(INITIAL, steps);
    assert StreamInv(s.log, s.streams[c]) && Complete(s, c);
  }

  // ----- one publisher at a time per connector -----

  /** The step does not begin an update of a connector while another update of it is being sent. */
  predicate Serial(s: Sys, step: Step) {
    step.Publish? ==>
      forall p :: p in s.publishers && s.publishers[p].update < |s.log| ==>
        s.log[s.publishers[p].update].connector != step.connector
  }

  predicate SerialRun(s: Sys, steps: seq<Step>)
    requires ValidRun(s, steps)
    decreases |steps|
  {
    steps == [] || (Serial(s, steps[0]) && SerialRun(Do(s, steps[0]), steps[1..]))
  }

  /** No update of the connector began after this one. */
  predicate Latest(log: seq<Update>, k: UpdateId) {
    k < |log| && forall j :: k < j < |log| ==> log[j].connector != log[k].connector
  }

  ghost predicate SerialInv(s: Sys) {
    && (forall c :: 0 <= c < |s.streams| ==> Increasing(s.streams[c].Offered()))
    && (forall p :: p in s.publishers ==> Latest(s.log, s.publishers[p].update))
  }

  lemma SerialStepKeeps(s: Sys, step: Step)
    requires DeliveryInv(s) && SerialInv(s) && Enabled(s, step) && Serial(s, step)
    ensures SerialInv(Do(s, step))
  {
    var next := Do(s, step);
    match step
    case Publish(p, connector, activity) =>
      forall q | q in next.publishers ensures Latest(next.log, next.publishers[q].update) {
        if q != p { assert Latest(s.log, s.publishers[q].update); }
      }
    case Send(p) => SerialSendKeeps(s, p);
    case Receive(c) => ReceiveOffered(s.streams[c]);
    case _ =>
  }

  lemma SerialSendKeeps(s: Sys, p: PublisherId)
    requires DeliveryInv(s) && SerialInv(s) && Enabled(s, Send(p))
    ensures SerialInv(Do(s, Send(p)))
  {
    var publisher := s.publishers[p];
    var c, k := publisher.remaining[0], publisher.update;
    assert PublisherInv(s.log, s.streams, publisher) && c in publisher.remaining;
    assert StreamInv(s.log, s.streams[c]);
    OfferKeepsStream(s.log, s.streams[c], k);
    OfferedBefore(s.log, s.streams[c], k);
  }

  lemma OfferedBefore(log: seq<Update>, stream: Stream, k: UpdateId)
    requires StreamInv(log, stream) && k !in stream.Offered() && Addressed(log, stream, k) && Latest(log, k)
    ensures forall i :: 0 <= i < |stream.Offered()| ==> stream.Offered()[i] < k
  {
    var offered := stream.Offered();
    forall i | 0 <= i < |offered| ensures offered[i] < k {
      assert offered[i] in offered && Addressed(log, stream, offered[i]);
    }
  }

  lemma {:induction false} EverySerialRunKeeps(s: Sys, steps: seq<Step>)
    requires RegistryInv(s) && DeliveryInv(s) && SerialInv(s) && ValidRun(s, steps) && SerialRun(s, steps)
    ensures DeliveryInv(RunAll(s, steps)) && SerialInv(RunAll(s, steps))
    decreases |steps|
  {
    if steps != [] {
      StepKeeps(s, steps[0]);
      SerialStepKeeps(s, steps[0]);
      EverySerialRunKeeps(Do(s, steps[0]), steps[1..]);
    }
  }

  /** The updates of a connector numbered since or later, in order. */
  function UpdatesOf(log: seq<Update>, connector: string, since: nat): seq<UpdateId> {
    if |log| <= since then []
    else
      var n: UpdateId := |log| - 1;
      UpdatesOf(log[..n], connector, since) + (if log[n].connector == connector then [n] else [])
  }

  lemma {:induction false} UpdatesOfIsExact(log: seq<Update>, connector: string, since: nat)
    ensures forall k :: k in UpdatesOf(log, connector, since) <==> since <= k < |log| && log[k].connector == connector
    ensures Increasing(UpdatesOf(log, connector, since))
  {
    if since < |log| {
      var n: UpdateId := |log| - 1;
      UpdatesOfIsExact(log[..n], connector, since);
      var before := UpdatesOf(log[..n], connector, since);
      forall i | 0 <= i < |before| ensures before[i] < n { assert before[i] in before; }
      assert forall k :: 0 <= k < n ==> log[..n][k] == log[k];
    }
  }

  /** Increasing sequences with the same elements are the same. */
  lemma {:induction false} SameElementsSameSequence(a: seq<nat>, b: seq<nat>)
    requires Increasing(a) && Increasing(b)
    requires forall k :: k in a <==> k in b
    ensures a == b
    decreases |a|
  {
    if a == [] {
      HasElement(b);
    } else {
      assert a[|a| - 1] in a;
      assert b != [];
      var x, y := a[|a| - 1], b[|b| - 1];
      assert y in b;
      assert x == y;
      var a', b' := a[..|a| - 1], b[..|b| - 1];
      forall k ensures k in a' <==> k in b' {
        InFront(a, k);
        InFront(b, k);
      }
      SameElementsSameSequence(a', b');
      assert a == a' + [x] && b == b' + [y];
    }
  }

  lemma HasElement(s: seq<nat>)
    ensures s == [] || exists k :: k in s
  {
    if s != [] { assert s[0] in s; }
  }

  lemma InFront(a: seq<nat>, k: nat)
    requires a != [] && Increasing(a)
    ensures k in a[..|a| - 1] <==> k in a && k != a[|a| - 1]
  {
    if k in a && k != a[|a| - 1] {
      var i :| 0 <= i < |a| && a[i] == k;
      assert a[..|a| - 1][i] == k;
    }
  }

  /** With one publisher at a time per connector, a subscriber that stays sees the connector's updates since
      its registration in order, without a gap: all of them if its buffer was never full, but perhaps one
      that is being sent right now. */
  lemma StreamHasNoGap(steps: seq<Step>, c: ChannelId)
    requires ValidRun(INITIAL, steps) && SerialRun(INITIAL, steps) && c < |RunAll(INITIAL, steps).streams|
    ensures var s := RunAll(INITIAL, steps);
            var stream := s.streams[c];
            var all := UpdatesOf(s.log, stream.connector, stream.since);
            && Increasing(stream.Offered()) && (forall k :: k in stream.Offered() ==> k in all)
            && (stream.live && stream.dropped == {} ==>
                  || stream.Offered() == all
                  || (all != [] && stream.Offered() == all[..|all| - 1] && InFlight(s.publishers, c, all[|all| - 1])))
  {
    EverySerialRunKeeps(INITIAL, steps);
    var s := RunAll(INITIAL, steps);
    var stream := s.streams[c];
    var all := UpdatesOf(s.log, stream.connector, stream.since);
    UpdatesOfIsExact(s.log, stream.connector, stream.since);
    assert StreamInv(s.log, stream) && Complete(s, c);
    if stream.live && stream.dropped == {} {
      if forall k :: k in all ==> k in stream.Offered() {
        SameElementsSameSequence(stream.Offered(), all);
      } else {
        var k :| k in all && k !in stream.Offered();
        MissingIsLast(s, c, k, all);
      }
    }
  }

  lemma MissingIsLast(s: Sys, c: ChannelId, k: UpdateId, all: seq<UpdateId>)
    requires DeliveryInv(s) && SerialInv(s) && c < |s.streams| && s.streams[c].live && s.streams[c].dropped == {}
    requires all == UpdatesOf(s.log, s.streams[c].connector, s.streams[c].since)
    requires k in all && k !in s.streams[c].Offered()
    ensures all != [] && s.streams[c].Offered() == all[..|all| - 1] && InFlight(s.publishers, c, all[|all| - 1])
  {
    var stream := s.streams[c];
    UpdatesOfIsExact(s.log, stream.connector, stream.since);
    assert StreamInv(s.log, stream) && Complete(s, c);
    var last := all[|all| - 1];
    assert last in all;
    forall j | j in all && j !in stream.Offered() ensures j == last && InFlight(s.publishers, c, j) {
      assert Addressed(s.log, stream, j);
      var p :| p in s.publishers && s.publishers[p].update == j && c in s.publishers[p].remaining;
      assert Latest(s.log, s.publishers[p].update);
    }
    forall j ensures j in stream.Offered() <==> j in all[..|all| - 1] {
      InFront(all, j);
    }
    SameElementsSameSequence(stream.Offered(), all[..|all| - 1]);
  }

  // ----- what a subscriber starts from -----

  /** The number of the connector's last update, plus one; 0 if it had none. */
  function AfterLast(log: seq<Update>, connector: string): nat {
    if log == [] then 0
    else if log[|log| - 1].connector == connector then |log|
    else AfterLast(log[..|log| - 1], connector)
  }

  lemma {:induction false} AfterLastBounds(log: seq<Update>, connector: string)
    ensures AfterLast(log, connector) <= |log|
    ensures AfterLast(log, connector) > 0 ==> log[AfterLast(log, connector) - 1].connector == connector
  {
    if log != [] { AfterLastBounds(log[..|log| - 1], connector); }
  }

  /** What a subscriber may start from after these updates: the connector's last activity, or nothing if that was idle
      and has been purged. */
  predicate StartFits(log: seq<Update>, connector: string, initial: Activity) {
    AfterLastBounds(log, connector);
    var last := AfterLast(log, connector);
    last > 0 ==>
      initial == log[last - 1].activity || (initial == NO_ACTIVITY && log[last - 1].activity.phase == "idle")
  }

  ghost predicate StartInv(s: Sys) {
    && (forall connector :: StartFits(s.log, connector, s.registry.Current(connector)))
    && (forall c :: 0 <= c < |s.streams| ==>
          s.streams[c].since <= |s.log| && StartFits(s.log[..s.streams[c].since], s.streams[c].connector, s.streams[c].initial))
  }

  lemma PublishKeepsStart(s: Sys, p: PublisherId, connector: string, activity: Activity)
    requires StartInv(s) && Enabled(s, Publish(p, connector, activity))
    ensures StartInv(Do(s, Publish(p, connector, activity)))
  {
    var next := Do(s, Publish(p, connector, activity));
    forall o ensures StartFits(next.log, o, next.registry.Current(o)) {
      assert next.log[..|s.log|] == s.log;
      AfterLastBounds(s.log, o);
      assert StartFits(s.log, o, s.registry.Current(o));
    }
    forall c | 0 <= c < |s.streams| ensures next.log[..s.streams[c].since] == s.log[..s.streams[c].since] {
    }
  }

  lemma RegisterKeepsStart(s: Sys, connector: string, user: string)
    requires StartInv(s)
    ensures StartInv(Register(s, connector, user))
  {
    var next := Register(s, connector, user);
    assert s.log[..|s.log|] == s.log;
    assert StartFits(s.log, connector, s.registry.Current(connector));
    forall o ensures next.registry.Current(o) == s.registry.Current(o) {
    }
  }

  lemma RegistryStepKeepsStart(s: Sys, step: Step)
    requires StartInv(s) && Enabled(s, step) && (step.PurgeIdle? || step.RestoreFromDB?)
    ensures StartInv(Do(s, step))
  {
    var next := Do(s, step);
    forall o ensures StartFits(s.log, o, next.registry.Current(o)) {
      assert StartFits(s.log, o, s.registry.Current(o));
    }
  }

  lemma StartStepKeeps(s: Sys, step: Step)
    requires StartInv(s) && Enabled(s, step)
    ensures StartInv(Do(s, step))
  {
    match step
    case Publish(p, connector, activity) => PublishKeepsStart(s, p, connector, activity);
    case Subscribe(connector) => RegisterKeepsStart(s, connector, "");
    case SubscribeWithCap(connector, user) =>
      if !s.registry.CapReached(user, MAX_SSE_PER_USER) { RegisterKeepsStart(s, connector, user); }
    case PurgeIdle(_) => RegistryStepKeepsStart(s, step);
    case RestoreFromDB(_) => RegistryStepKeepsStart(s, step);
    case _ => QuietStepKeepsStart(s, Do(s, step));
  }

  lemma QuietStepKeepsStart(s: Sys, next: Sys)
    requires StartInv(s) && next.log == s.log && next.registry.states == s.registry.states && |next.streams| == |s.streams|
    requires forall c :: 0 <= c < |s.streams| ==>
               && next.streams[c].since == s.streams[c].since && next.streams[c].connector == s.streams[c].connector
               && next.streams[c].initial == s.streams[c].initial
    ensures StartInv(next)
  {
    forall o ensures StartFits(next.log, o, next.registry.Current(o)) {
      assert StartFits(s.log, o, s.registry.Current(o));
    }
  }

  lemma {:induction false} EveryRunKeepsStart(s: Sys, steps: seq<Step>)
    requires StartInv(s) && ValidRun(s, steps)
    ensures StartInv(RunAll(s, steps))
    decreases |steps|
  {
    if steps != [] {
      StartStepKeeps(s, steps[0]);
      EveryRunKeepsStart(Do(s, steps[0]), steps[1..]);
    }
  }

  /** A subscriber starts from the activity of the connector's last update before its registration, or from nothing if
      that activity was idle and purged; so with the stream there is no gap at subscription either. */
  lemma StartsFromLatest(steps: seq<Step>, c: ChannelId)
    requires ValidRun(INITIAL, steps) && c < |RunAll(INITIAL, steps).streams|
    ensures var s := RunAll(INITIAL, steps);
            var stream := s.streams[c];
            && stream.since <= |s.log|
            && var last := AfterLast(s.log[..stream.since], stream.connector);
               last > 0 ==>
                 && last <= stream.since
                 && (|| stream.initial == s.log[last - 1].activity
                     || (stream.initial == NO_ACTIVITY && s.log[last - 1].activity.phase == "idle"))
  {
    EveryRunKeepsStart(INITIAL, steps);
    var s := RunAll(INITIAL, steps);
    var stream := s.streams[c];
    AfterLastBounds(s.log[..stream.since], stream.connector);
    assert StartFits(s.log[..stream.since], stream.connector, stream.initial);
  }
}
