/** What every reachable table of account bindings keeps, when updates write what they computed from a row
    read before other transactions committed. Each transaction's statements are taken as one step, and the unique
    indexes are not modelled: as far as transactions do not interleave, the demotions alone keep the indexes from
    rejecting a statement. Two creates whose statements interleave are what the indexes are for. */
module BindingUniqueness {
  import opened Options
  import opened AccountBindings

  type UpdateId = nat

  /** used holds every identifier ever generated. */
  datatype Table = Table(rows: seq<Binding>, pending: map<UpdateId, Binding>, used: set<BindingId>)

  datatype Step =
    | Create(id: BindingId, user: UserId, request: CreateRequest)
    | ReadForUpdate(u: UpdateId, i: nat, update: UpdateRequest)
    | WriteUpdate(u: UpdateId)
    | Delete(i: nat)

  predicate Enabled(t: Table, step: Step) {
    match step
    case Create(id, _, _) => id !in t.used
    case ReadForUpdate(u, i, _) => u !in t.pending && i < |t.rows|
    case WriteUpdate(u) => u in t.pending
    case Delete(i) => i < |t.rows|
  }

  function Do(t: Table, step: Step): Table
    requires Enabled(t, step)
  {
    match step
    case Create(id, user, request) => t.(rows := Created(t.rows, id, user, request).0, used := t.used + {id})
    case ReadForUpdate(u, i, update) => t.(pending := t.pending[u := Merged(t.rows[i], update)])
    case WriteUpdate(u) => t.(rows := Updated(t.rows, t.pending[u]).0, pending := t.pending - {u})
    case Delete(i) => t.(rows := t.rows[..i] + t.rows[i + 1..])
  }

  predicate ValidRun(t: Table, steps: seq<Step>)
    decreases |steps|
  {
    steps == [] || (Enabled(t, steps[0]) && ValidRun(Do(t, steps[0]), steps[1..]))
  }

  function RunAll(t: Table, steps: seq<Step>): Table
    requires ValidRun(t, steps)
    decreases |steps|
  {
    if steps == [] then t else RunAll(Do(t, steps[0]), steps[1..])
  }

  const INITIAL := Table([], map[], {})

  /** idx_account_bindings_active_unique would hold. */
  predicate ActiveUnique(rows: seq<Binding>) {
    forall i, j :: 0 <= i < j < |rows| && rows[i].active && rows[j].active ==>
      rows[i].user != rows[j].user || rows[i].provider != rows[j].provider
  }

  /** idx_account_bindings_primary_unique would hold. */
  predicate PrimaryUnique(rows: seq<Binding>) {
    forall i, j :: 0 <= i < j < |rows| && rows[i].primary && rows[j].primary ==>
      rows[i].user != rows[j].user || rows[i].provider.Namespace() != rows[j].provider.Namespace()
  }

  predicate IdsUnique(rows: seq<Binding>) {
    forall i, j :: 0 <= i < j < |rows| ==> rows[i].id != rows[j].id
  }

  /** The row that an update read has the user and provider of the row with its id, if that is still there. */
  ghost predicate PendingMatch(t: Table, row: Binding) {
    && row.id in t.used
    && forall i :: 0 <= i < |t.rows| && t.rows[i].id == row.id ==>
         t.rows[i].user == row.user && t.rows[i].provider == row.provider
  }

  ghost predicate Inv(t: Table) {
    && ActiveUnique(t.rows) && PrimaryUnique(t.rows) && IdsUnique(t.rows)
    && (forall i :: 0 <= i < |t.rows| ==> t.rows[i].id in t.used)
    && (forall u :: u in t.pending ==> PendingMatch(t, t.pending[u]))
  }

  lemma InsertedKeeps(rows: seq<Binding>, row: Binding)
    requires ActiveUnique(rows) && PrimaryUnique(rows) && row.active
    ensures ActiveUnique(Inserted(rows, row)) && PrimaryUnique(Inserted(rows, row))
  {
  }

  lemma RewrittenKeeps(rows: seq<Binding>, row: Binding)
    requires ActiveUnique(rows) && PrimaryUnique(rows) && IdsUnique(rows)
    requires forall i :: 0 <= i < |rows| && rows[i].id == row.id ==>
               rows[i].user == row.user && rows[i].provider == row.provider
    ensures ActiveUnique(Rewritten(rows, row)) && PrimaryUnique(Rewritten(rows, row))
  {
  }

  /** No statement touches identities. */
  lemma SameIdentities(rows: seq<Binding>, row: Binding)
    ensures |Inserted(rows, row)| == |rows| + 1 && Inserted(rows, row)[|rows|] == row
    ensures |Rewritten(rows, row)| == |rows|
    ensures forall i :: 0 <= i < |rows| ==>
              Inserted(rows, row)[i].(active := true, primary := true) == rows[i].(active := true, primary := true)
    ensures forall i :: 0 <= i < |rows| ==>
              Rewritten(rows, row)[i].(labelText := "", active := true, primary := true)
              == rows[i].(labelText := "", active := true, primary := true)
  {
  }

  lemma CreateKeeps(t: Table, id: BindingId, user: UserId, request: CreateRequest)
    requires Inv(t) && id !in t.used
    ensures Inv(t.(rows := Created(t.rows, id, user, request).0, used := t.used + {id}))
  {
    var next := t.(rows := Created(t.rows, id, user, request).0, used := t.used + {id});
    if |next.rows| != |t.rows| || next.rows != t.rows {
      var row := next.rows[|t.rows|];
      InsertedKeeps(t.rows, row);
      SameIdentities(t.rows, row);
    }
    forall u | u in t.pending ensures PendingMatch(next, t.pending[u]) {
      assert PendingMatch(t, t.pending[u]);
    }
  }

  lemma WriteKeeps(t: Table, row: Binding)
    requires Inv(t) && PendingMatch(t, row)
    ensures Inv(t.(rows := Updated(t.rows, row).0))
  {
    var next := t.(rows := Updated(t.rows, row).0);
    RewrittenKeeps(t.rows, row);
    SameIdentities(t.rows, row);
    assert forall i :: 0 <= i < |t.rows| ==>
      next.rows[i].id == t.rows[i].id && next.rows[i].user == t.rows[i].user && next.rows[i].provider == t.rows[i].provider;
    forall u | u in t.pending ensures PendingMatch(next, t.pending[u]) {
      assert PendingMatch(t, t.pending[u]);
    }
  }

  lemma StepKeeps(t: Table, step: Step)
    requires Inv(t) && Enabled(t, step)
    ensures Inv(Do(t, step))
  {
    match step
    case Create(id, user, request) => CreateKeeps(t, id, user, request);
    case ReadForUpdate(u, i, update) =>
    case WriteUpdate(u) => WriteKeeps(t, t.pending[u]);
    case Delete(i) => DeleteKeeps(t, i);
  }

  lemma DeleteKeeps(t: Table, i: nat)
    requires Inv(t) && i < |t.rows|
    ensures Inv(Do(t, Delete(i)))
  {
    var after := t.rows[..i] + t.rows[i + 1..];
    assert forall k :: 0 <= k < |after| ==> after[k] == t.rows[if k < i then k else k + 1];
    forall u | u in t.pending ensures PendingMatch(Do(t, Delete(i)), t.pending[u]) {
      assert PendingMatch(t, t.pending[u]);
    }
  }

  /** Whatever the interleaving: at most one active row per user and provider, and at most one primary row
      per user and namespace. */
  lemma {:induction false} EveryRunKeeps(t: Table, steps: seq<Step>)
    requires Inv(t) && ValidRun(t, steps)
    ensures Inv(RunAll(t, steps))
    decreases |steps|
  {
    if steps != [] {
      StepKeeps(t, steps[0]);
      EveryRunKeeps(Do(t, steps[0]), steps[1..]);
    }
  }

  lemma BindingsUnique(steps: seq<Step>)
    requires ValidRun(INITIAL, steps)
    ensures ActiveUnique(RunAll(INITIAL, steps).rows) && PrimaryUnique(RunAll(INITIAL, steps).rows)
  {
    EveryRunKeeps(INITIAL, steps);
  }

  // ----- exactly one primary -----

  /** A call of the store that runs alone, deletes nothing and never asks for is_primary=false. */
  datatype Call =
    | CreateCall(id: BindingId, user: UserId, request: CreateRequest)
    | UpdateCall(i: nat, update: UpdateRequest)

  predicate Acceptable(t: Table, call: Call) {
    match call
    case CreateCall(id, _, request) => id !in t.used && request.isPrimary != Some(false)
    case UpdateCall(i, update) => i < |t.rows| && update.isPrimary != Some(false)
  }

  function Make(t: Table, call: Call): Table
    requires Acceptable(t, call)
  {
    match call
    case CreateCall(id, user, request) => t.(rows := Created(t.rows, id, user, request).0, used := t.used + {id})
    case UpdateCall(i, update) => t.(rows := Updated(t.rows, Merged(t.rows[i], update)).0)
  }

  predicate ValidCalls(t: Table, calls: seq<Call>)
    decreases |calls|
  {
    calls == [] || (Acceptable(t, calls[0]) && ValidCalls(Make(t, calls[0]), calls[1..]))
  }

  function MakeAll(t: Table, calls: seq<Call>): Table
    requires ValidCalls(t, calls)
    decreases |calls|
  {
    if calls == [] then t else MakeAll(Make(t, calls[0]), calls[1..])
  }

  predicate InGroup(b: Binding, user: UserId, namespace: Namespace) {
    b.user == user && b.provider.Namespace() == namespace
  }

  ghost predicate GroupHasRow(rows: seq<Binding>, user: UserId, namespace: Namespace) {
    exists k :: 0 <= k < |rows| && InGroup(rows[k], user, namespace)
  }

  ghost predicate GroupHasPrimary(rows: seq<Binding>, user: UserId, namespace: Namespace) {
    exists k :: 0 <= k < |rows| && InGroup(rows[k], user, namespace) && rows[k].primary
  }

  /** Each user's namespace that has a row has a primary row. */
  ghost predicate HasPrimary(rows: seq<Binding>) {
    forall user, namespace :: GroupHasRow(rows, user, namespace) ==> GroupHasPrimary(rows, user, namespace)
  }

  lemma {:induction false} SomeActive(rows: seq<Binding>, user: UserId, namespace: Namespace)
    requires CountActive(rows, user, namespace) > 0
    ensures GroupHasRow(rows, user, namespace)
  {
    if InGroup(rows[0], user, namespace) {
      assert InGroup(rows[0], user, namespace);
    } else {
      SomeActive(rows[1..], user, namespace);
      var k :| 0 <= k < |rows| - 1 && InGroup(rows[1..][k], user, namespace);
      assert InGroup(rows[k + 1], user, namespace);
    }
  }

  lemma InsertedKeepsPrimary(rows: seq<Binding>, row: Binding)
    requires HasPrimary(rows)
    requires !row.primary ==> GroupHasRow(rows, row.user, row.provider.Namespace())
    ensures HasPrimary(Inserted(rows, row))
  {
    forall user, namespace | GroupHasRow(Inserted(rows, row), user, namespace)
      ensures GroupHasPrimary(Inserted(rows, row), user, namespace)
    {
      InsertedKeepsGroup(rows, row, user, namespace);
    }
  }

  /** An insert takes the primary flag only from its own group, and only to put it on the new row. */
  lemma InsertedAt(rows: seq<Binding>, row: Binding, k: nat)
    requires k < |rows|
    ensures var after := Inserted(rows, row);
            && after[k].user == rows[k].user && after[k].provider == rows[k].provider
            && after[k].primary == (rows[k].primary && !(row.primary && InGroup(rows[k], row.user, row.provider.Namespace())))
  {
  }

  lemma InsertedKeepsGroup(rows: seq<Binding>, row: Binding, user: UserId, namespace: Namespace)
    requires GroupHasRow(rows, user, namespace) ==> GroupHasPrimary(rows, user, namespace)
    requires !row.primary && InGroup(row, user, namespace) ==> GroupHasRow(rows, user, namespace)
    requires GroupHasRow(Inserted(rows, row), user, namespace)
    ensures GroupHasPrimary(Inserted(rows, row), user, namespace)
  {
    var after, n := Inserted(rows, row), |rows|;
    assert |after| == n + 1 && after[n] == row;
    if row.primary && InGroup(row, user, namespace) {
      assert InGroup(after[n], user, namespace) && after[n].primary;
    } else {
      var i :| 0 <= i < |after| && InGroup(after[i], user, namespace);
      if i < n {
        InsertedAt(rows, row, i);
        assert InGroup(rows[i], user, namespace);
      }
      var k :| 0 <= k < n && InGroup(rows[k], user, namespace) && rows[k].primary;
      InsertedAt(rows, row, k);
      assert InGroup(after[k], user, namespace) && after[k].primary;
    }
  }

  /** Rewriting a row that is there, without taking its primary flag away. */
  lemma RewrittenKeepsPrimary(rows: seq<Binding>, row: Binding, at: nat)
    requires HasPrimary(rows) && IdsUnique(rows)
    requires at < |rows| && rows[at].id == row.id && rows[at].user == row.user && rows[at].provider == row.provider
    requires rows[at].primary ==> row.primary
    ensures HasPrimary(Rewritten(rows, row))
  {
    forall user, namespace | GroupHasRow(Rewritten(rows, row), user, namespace)
      ensures GroupHasPrimary(Rewritten(rows, row), user, namespace)
    {
      RewrittenKeepsGroup(rows, row, at, user, namespace);
    }
  }

  /** An update takes the primary flag only from its own group, and only to put it on its own row. */
  lemma RewrittenAt(rows: seq<Binding>, row: Binding, k: nat)
    requires k < |rows|
    ensures var after := Rewritten(rows, row);
            && |after| == |rows| && after[k].user == rows[k].user && after[k].provider == rows[k].provider
            && after[k].primary == if rows[k].id == row.id && rows[k].user == row.user then row.primary
                                   else rows[k].primary && !(row.primary && rows[k].id != row.id
                                                             && InGroup(rows[k], row.user, row.provider.Namespace()))
  {
  }

  lemma RewrittenKeepsGroup(rows: seq<Binding>, row: Binding, at: nat, user: UserId, namespace: Namespace)
    requires GroupHasRow(rows, user, namespace) ==> GroupHasPrimary(rows, user, namespace)
    requires at < |rows| && rows[at].id == row.id && rows[at].user == row.user && rows[at].provider == row.provider
    requires rows[at].primary ==> row.primary
    requires IdsUnique(rows) && GroupHasRow(Rewritten(rows, row), user, namespace)
    ensures GroupHasPrimary(Rewritten(rows, row), user, namespace)
  {
    var after := Rewritten(rows, row);
    RewrittenAt(rows, row, at);
    var i :| 0 <= i < |after| && InGroup(after[i], user, namespace);
    RewrittenAt(rows, row, i);
    assert InGroup(rows[i], user, namespace);
    var k :| 0 <= k < |rows| && InGroup(rows[k], user, namespace) && rows[k].primary;
    RewrittenAt(rows, row, k);
    if after[k].primary {
      assert InGroup(after[k], user, namespace);
    } else {
      assert InGroup(after[at], user, namespace) && after[at].primary;
    }
  }

  lemma CallKeeps(t: Table, call: Call)
    requires Inv(t) && t.pending == map[] && HasPrimary(t.rows) && Acceptable(t, call)
    ensures Inv(Make(t, call)) && Make(t, call).pending == map[] && HasPrimary(Make(t, call).rows)
  {
    match call
    case CreateCall(id, user, request) =>
      CreateKeeps(t, id, user, request);
      CreateKeepsPrimary(t, id, user, request);
    case UpdateCall(i, update) =>
      var row := Merged(t.rows[i], update);
      WriteKeeps(t, row);
      RewrittenKeepsPrimary(t.rows, row, i);
  }

  lemma CreateKeepsPrimary(t: Table, id: BindingId, user: UserId, request: CreateRequest)
    requires HasPrimary(t.rows) && request.isPrimary != Some(false)
    ensures HasPrimary(Created(t.rows, id, user, request).0)
  {
    var provider := ParseProvider(request.TrimmedProvider());
    if provider.Some? {
      var row := CreatedRow(t.rows, id, user, provider.value, request);
      if !row.primary {
        var others := Deactivated(t.rows, user, provider.value, None);
        SomeActive(others, user, provider.value.Namespace());
        var k :| 0 <= k < |others| && InGroup(others[k], user, provider.value.Namespace());
        assert InGroup(t.rows[k], user, provider.value.Namespace());
      }
      InsertedKeepsPrimary(t.rows, row);
    }
  }

  lemma {:induction false} EveryCallKeeps(t: Table, calls: seq<Call>)
    requires Inv(t) && t.pending == map[] && HasPrimary(t.rows) && ValidCalls(t, calls)
    ensures Inv(MakeAll(t, calls)) && HasPrimary(MakeAll(t, calls).rows)
    decreases |calls|
  {
    if calls != [] {
      CallKeeps(t, calls[0]);
      EveryCallKeeps(Make(t, calls[0]), calls[1..]);
    }
  }

  /** With such calls only, each user's namespace that has a row has exactly one primary row. */
  lemma ExactlyOnePrimary(calls: seq<Call>, user: UserId, namespace: Namespace)
    requires ValidCalls(INITIAL, calls)
    ensures var rows := MakeAll(INITIAL, calls).rows;
            && (GroupHasRow(rows, user, namespace) ==> GroupHasPrimary(rows, user, namespace))
            && (forall j, k | 0 <= j < |rows| && InGroup(rows[j], user, namespace) && rows[j].primary
                              && 0 <= k < |rows| && InGroup(rows[k], user, namespace) && rows[k].primary :: j == k)
  {
    EveryCallKeeps(INITIAL, calls);
  }

  /** And auto-resolution picks the user's primary CLI row if that is active, else the first active CLI
      row, else nothing. */
  lemma ResolutionPicksPrimary(calls: seq<Call>, user: UserId)
    requires ValidCalls(INITIAL, calls)
    ensures var rows := MakeAll(INITIAL, calls).rows;
            && (forall k :: 0 <= k < |rows| && InGroup(rows[k], user, Cli) && rows[k].primary ==>
                  Resolved(rows, user) == if rows[k].active then Some(rows[k]) else FirstActiveCli(rows, user))
            && (Resolved(rows, user).None? <==> forall k :: 0 <= k < |rows| ==> !ActiveCli(rows[k], user))
  {
    EveryCallKeeps(INITIAL, calls);
    var rows := MakeAll(INITIAL, calls).rows;
    FirstIsRow(rows, user);
    forall k | 0 <= k < |rows| && InGroup(rows[k], user, Cli) && rows[k].primary
      ensures Resolved(rows, user) == if rows[k].active then Some(rows[k]) else FirstActiveCli(rows, user)
    {
      var primary := FirstActivePrimaryCli(rows, user);
      assert rows[k] in rows && ActiveCli(rows[k], user) == rows[k].active;
      if primary.Some? {
        var j :| 0 <= j < |rows| && rows[j] == primary.value;
        assert j == k;
      }
    }
    assert forall k :: 0 <= k < |rows| ==> rows[k] in rows;
  }
}
