/** The activity hub: a registry of buffered channels per connector with a cap per user, and the fan-out
    of updates to a copy of the registry taken under the lock. */
module Hub {
  import opened Options
  import opened Activities

  const MAX_SSE_PER_USER := 3
  const CHANNEL_SIZE := 8
  const IDLE_PURGE_TTL := 300_000

  // ----- the registry, one locked section at a time -----

  /** The slice without the first occurrence of an element. */
  function Without<C(==)>(s: seq<C>, c: C): seq<C> {
    if s == [] then [] else if s[0] == c then s[1..] else [s[0]] + Without(s[1..], c)
  }

  /** What the hub's mutex guards; C stands for channels. */
  datatype Registry<C(==)> = Registry(
    states: map<string, Activity>,
    subscribers: map<string, seq<C>>,
    userSubCount: map<string, nat>)
  {
    function Subscribers(connector: string): seq<C> {
      if connector in subscribers then subscribers[connector] else []
    }

    function CountOf(user: string): nat {
      if user in userSubCount then userSubCount[user] else 0
    }

    function Current(connector: string): Activity {
      if connector in states then states[connector] else NO_ACTIVITY
    }

    /** A cap of 0 or an empty user means no cap. */
    predicate CapReached(user: string, limit: nat) {
      limit > 0 && user != "" && CountOf(user) >= limit
    }

    function Subscribed(connector: string, user: string, c: C): Registry<C> {
      this.(subscribers := subscribers[connector := Subscribers(connector) + [c]],
            userSubCount := if user == "" then userSubCount else userSubCount[user := CountOf(user) + 1])
    }

    function Unsubscribed(connector: string, user: string, c: C): Registry<C> {
      this.(subscribers := if c in Subscribers(connector)
                           then subscribers[connector := Without(Subscribers(connector), c)] else subscribers,
            userSubCount := if user == "" || CountOf(user) == 0 then userSubCount
                            else if CountOf(user) == 1 then userSubCount - {user}
                            else userSubCount[user := CountOf(user) - 1])
    }

    function Updated(connector: string, a: Activity): Registry<C> {
      this.(states := states[connector := a])
    }

    function Purged(now: int): Registry<C> {
      this.(states := map id | id in states && !Evictable(states[id], now) :: states[id])
    }

    function Restored(activities: map<string, Activity>): Registry<C> {
      this.(states := activities + states)
    }
  }

  predicate Evictable(a: Activity, now: int) {
    a.phase == "idle" && a.updatedAt != 0 && a.updatedAt < now - IDLE_PURGE_TTL
  }

  class Channel {
    var buffer: seq<Activity>

    constructor ()
      ensures buffer == []
    {
      buffer := [];
    }

    /** A non-blocking send. */
    method Offer(a: Activity)
      modifies this
      ensures buffer == if |old(buffer)| < CHANNEL_SIZE then old(buffer) + [a] else old(buffer)
    {
      if |buffer| < CHANNEL_SIZE {
        buffer := buffer + [a];
      }
    }
  }

  method OfferAll(subs: seq<Channel>, a: Activity)
    requires forall i, j :: 0 <= i < j < |subs| ==> subs[i] != subs[j]
    modifies subs
    ensures forall ch :: ch in subs ==>
              ch.buffer == if |old(ch.buffer)| < CHANNEL_SIZE then old(ch.buffer) + [a] else old(ch.buffer)
  {
    for i := 0 to |subs|
      invariant forall j :: 0 <= j < i ==>
        subs[j].buffer == if |old(subs[j].buffer)| < CHANNEL_SIZE then old(subs[j].buffer) + [a] else old(subs[j].buffer)
      invariant forall j :: i <= j < |subs| ==> subs[j].buffer == old(subs[j].buffer)
    {
      subs[i].Offer(a);
    }
  }

  /** The loop of the unsubscribe closure on the slice's backing array: the elements after the one removed
      move one place down. Returns the new length. */
  method RemoveInPlace<C(==)>(data: array<C>, length: nat, c: C) returns (shorter: nat)
    requires length <= data.Length
    modifies data
    ensures shorter <= length && data[..shorter] == Without(old(data[..length]), c)
    ensures data[length..] == old(data[length..])
  {
    var i := 0;
    while i < length && data[i] != c
      invariant 0 <= i <= length
      invariant c !in data[..i]
      invariant data[..] == old(data[..])
    {
      i := i + 1;
    }
    WithoutAt(data[..length], c, i);
    if i == length {
      return length;
    }
    ghost var was := data[..];
    ShiftDown(data, i, length);
    shorter := length - 1;
    assert data[..shorter] == was[..length][..i] + was[..length][i + 1..];
  }

  /** The same on a copy of the slice. */
  method RemoveFrom(subs: seq<Channel>, c: Channel) returns (rest: seq<Channel>)
    ensures rest == Without(subs, c)
  {
    var data := new Channel[|subs|](i requires 0 <= i < |subs| => subs[i]);
    assert data[..|subs|] == subs;
    var shorter := RemoveInPlace(data, |subs|, c);
    rest := data[..shorter];
  }

  method ShiftDown<C>(data: array<C>, from: nat, length: nat)
    requires from < length <= data.Length
    modifies data
    ensures forall j :: 0 <= j < from ==> data[j] == old(data[j])
    ensures forall j :: from <= j < length - 1 ==> data[j] == old(data[j + 1])
    ensures forall j :: length <= j < data.Length ==> data[j] == old(data[j])
  {
    var k := from;
    while k + 1 < length
      invariant from <= k < length
      invariant forall j :: 0 <= j < from ==> data[j] == old(data[j])
      invariant forall j :: from <= j < k ==> data[j] == old(data[j + 1])
      invariant forall j :: k <= j < data.Length ==> data[j] == old(data[j])
    {
      data[k] := data[k + 1];
      k := k + 1;
    }
  }

  lemma {:induction false} WithoutAt<C>(s: seq<C>, c: C, i: nat)
    requires i <= |s| && c !in s[..i] && (i < |s| ==> s[i] == c)
    ensures Without(s, c) == if i < |s| then s[..i] + s[i + 1..] else s
  {
    if i > 0 {
      assert s[0] == s[..i][0] && s[1..][..i - 1] == s[..i][1..];
      WithoutAt(s[1..], c, i - 1);
      assert s[0] != c;
    } else if s != [] {
      assert s[..0] + s[1..] == s[1..];
    }
  }

  class ActivityHub {
    var states: map<string, Activity>
    var subscribers: map<string, seq<Channel>>
    var userSubCount: map<string, nat>

    constructor ()
      ensures View() == Registry(map[], map[], map[])
    {
      states, subscribers, userSubCount := map[], map[], map[];
    }

    function View(): Registry<Channel>
      reads this
    {
      Registry(states, subscribers, userSubCount)
    }

    /** Update with no one interfering: every subscriber of the connector is offered the activity once. */
    method Update(connector: string, a: Activity)
      requires forall i, j :: 0 <= i < j < |View().Subscribers(connector)| ==>
                 View().Subscribers(connector)[i] != View().Subscribers(connector)[j]
      modifies this, View().Subscribers(connector)
      ensures View() == old(View()).Updated(connector, a)
      ensures forall ch :: ch in old(View()).Subscribers(connector) ==>
                ch.buffer == if |old(ch.buffer)| < CHANNEL_SIZE then old(ch.buffer) + [a] else old(ch.buffer)
    {
      states := states[connector := a];
      OfferAll(View().Subscribers(connector), a);
    }

    /** Subscribe is this with an empty user and no cap; SubscribeWithCap passes MAX_SSE_PER_USER. */
    method SubscribeInternal(connector: string, user: string, limit: nat) returns (initial: Activity, c: Option<Channel>)
      modifies this
      ensures c.None? <==> limit > 0 && user != "" && user in old(userSubCount) && old(userSubCount)[user] >= limit
      ensures c.None? ==> View() == old(View()) && initial == NO_ACTIVITY
      ensures c.Some? ==> fresh(c.value) && c.value.buffer == []
      ensures c.Some? ==> View() == old(View()).Subscribed(connector, user, c.value)
      ensures c.Some? ==> initial == old(View()).Current(connector)
    {
      if limit > 0 && user != "" && View().CountOf(user) >= limit {
        return NO_ACTIVITY, None;
      }
      initial := View().Current(connector);
      var channel := new Channel();
      subscribers := subscribers[connector := View().Subscribers(connector) + [channel]];
      if user != "" {
        userSubCount := userSubCount[user := View().CountOf(user) + 1];
      }
      c := Some(channel);
    }

    method Unsubscribe(connector: string, user: string, c: Channel)
      modifies this
      ensures View() == old(View()).Unsubscribed(connector, user, c)
    {
      var subs := View().Subscribers(connector);
      if c in subs {
        var rest := RemoveFrom(subs, c);
        subscribers := subscribers[connector := rest];
      }
      if user != "" && View().CountOf(user) > 0 {
        userSubCount := userSubCount[user := View().CountOf(user) - 1];
        if userSubCount[user] == 0 {
          userSubCount := userSubCount - {user};
        }
      }
    }

    method PurgeIdle(now: int)
      modifies this
      ensures View() == old(View()).Purged(now)
    {
      var ids := states.Keys;
      var todo := ids;
      while todo != {}
        invariant todo <= ids == old(states).Keys
        invariant subscribers == old(subscribers) && userSubCount == old(userSubCount)
        invariant states == map id | id in old(states) && (id in todo || !Evictable(old(states)[id], now)) :: old(states)[id]
        decreases todo
      {
        var id :| id in todo;
        if Evictable(states[id], now) {
          states := states - {id};
        }
        todo := todo - {id};
      }
    }

    method RestoreFromDB(activities: map<string, Activity>)
      modifies this
      ensures View() == old(View()).Restored(activities)
    {
      var todo := activities.Keys;
      while todo != {}
        invariant todo <= activities.Keys
        invariant subscribers == old(subscribers) && userSubCount == old(userSubCount)
        invariant states == (activities - todo) + old(states)
        decreases todo
      {
        var id :| id in todo;
        if id !in states {
          states := states[id := activities[id]];
        }
        todo := todo - {id};
      }
    }

    method Get(connector: string) returns (a: Activity, found: bool)
      ensures found <==> connector in states
      ensures a == View().Current(connector)
    {
      a, found := View().Current(connector), connector in states;
    }
  }
}
