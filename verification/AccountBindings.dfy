/** Account bindings: one active row per user and provider, one primary row per user and namespace, kept
    by demoting the other rows inside each transaction, and the auto-resolution that relies on them. */
module AccountBindings {
  import opened Options
  import opened Text

  // Generated identifiers; only their distinctness matters.
  type BindingId = nat
  type UserId = nat

  datatype Namespace = Cli | Api

  /** The providers Create lets in. */
  datatype Provider = OpenAICompatible | CliClaude | CliCodex
  {
    function Id(): string {
      match this
      case OpenAICompatible => "openai-compatible"
      case CliClaude => "cli:claude"
      case CliCodex => "cli:codex"
    }

    predicate IsCli() {
      CliClaude? || CliCodex?
    }

    function Namespace(): Namespace {
      if IsCli() then Cli else Api
    }
  }

  function ParseProvider(text: string): Option<Provider> {
    if text == "openai-compatible" then Some(OpenAICompatible)
    else if text == "cli:claude" then Some(CliClaude)
    else if text == "cli:codex" then Some(CliCodex)
    else None
  }

  datatype Binding = Binding(id: BindingId, user: UserId, provider: Provider, labelText: string, active: bool, primary: bool)

  /** IsCLIAccountBindingProvider: the id starts with "cli:". */
  predicate HasCliPrefix(provider: string) {
    |provider| >= 4 && provider[..4] == "cli:"
  }

  /** CASE WHEN provider_id LIKE 'cli:%'. SQLite's LIKE ignores case. */
  function SqlNamespace(provider: string): Namespace {
    if |provider| >= 4 && Lower(provider[..4]) == "cli:" then Cli else Api
  }

  /** The index expression, the Go function and the namespace of the provider agree on every stored row. */
  lemma NamespacesAgree(provider: Provider)
    ensures SqlNamespace(provider.Id()) == provider.Namespace()
    ensures HasCliPrefix(provider.Id()) == provider.IsCli()
    ensures ParseProvider(provider.Id()) == Some(provider)
  {
    match provider
    case OpenAICompatible =>
      assert provider.Id()[..4] == "open" && Lower("open") == "open";
      assert provider.Id()[0] == 'o';
    case CliClaude =>
      assert provider.Id()[..4] == "cli:" && Lower("cli:") == "cli:";
      assert provider.Id()[0] == 'c';
    case CliCodex =>
      assert provider.Id()[..4] == "cli:" && Lower("cli:") == "cli:";
      assert provider.Id()[5] != "cli:claude"[5];
  }

  // ----- statements; the table lists rows by created_at -----

  /** An empty keep spares no row. */
  function Deactivated(rows: seq<Binding>, user: UserId, provider: Provider, keep: Option<BindingId>): seq<Binding> {
    seq(|rows|, i requires 0 <= i < |rows| =>
      if rows[i].user == user && rows[i].provider == provider && keep != Some(rows[i].id)
      then rows[i].(active := false) else rows[i])
  }

  function Demoted(rows: seq<Binding>, user: UserId, namespace: Namespace, keep: Option<BindingId>): seq<Binding> {
    seq(|rows|, i requires 0 <= i < |rows| =>
      if rows[i].user == user && rows[i].provider.Namespace() == namespace && keep != Some(rows[i].id)
      then rows[i].(primary := false) else rows[i])
  }

  function Stored(rows: seq<Binding>, row: Binding): seq<Binding> {
    seq(|rows|, i requires 0 <= i < |rows| =>
      if rows[i].id == row.id && rows[i].user == row.user
      then rows[i].(labelText := row.labelText, active := row.active, primary := row.primary) else rows[i])
  }

  function CountActive(rows: seq<Binding>, user: UserId, namespace: Namespace): nat {
    if rows == [] then 0
    else
      (if rows[0].user == user && rows[0].active && rows[0].provider.Namespace() == namespace then 1 else 0)
      + CountActive(rows[1..], user, namespace)
  }

  /** UNIQUE(user_id, provider_id, label) */
  predicate LabelTaken(rows: seq<Binding>, row: Binding) {
    exists i :: 0 <= i < |rows| && rows[i].id != row.id
                && rows[i].user == row.user && rows[i].provider == row.provider && rows[i].labelText == row.labelText
  }

  datatype CreateRequest = CreateRequest(provider: string, labelText: string, isPrimary: Option<bool>)
  {
    function TrimmedProvider(): string {
      TrimSpace(provider)
    }
  }

  datatype UpdateRequest = UpdateRequest(labelText: Option<string>, isActive: Option<bool>, isPrimary: Option<bool>)

  datatype Error = Validation | NotFound | DuplicateLabel

  datatype Result = Success(row: Binding) | Failure(error: Error)

  /** The row Create inserts, once the request has passed validation. */
  function CreatedRow(rows: seq<Binding>, id: BindingId, user: UserId, provider: Provider, request: CreateRequest): Binding {
    var labelText := TrimSpace(request.labelText);
    var others := Deactivated(rows, user, provider, None);
    var primary := if request.isPrimary.Some? then request.isPrimary.value
                   else CountActive(others, user, provider.Namespace()) == 0;
    Binding(id, user, provider, if labelText == "" then "default" else labelText, true, primary)
  }

  /** The statements of Create's transaction. */
  function Inserted(rows: seq<Binding>, row: Binding): seq<Binding> {
    var others := Deactivated(rows, row.user, row.provider, None);
    (if row.primary then Demoted(others, row.user, row.provider.Namespace(), None) else others) + [row]
  }

  /** Create; the label index is the only constraint its transaction can run into. */
  function Created(rows: seq<Binding>, id: BindingId, user: UserId, request: CreateRequest): (seq<Binding>, Result) {
    var provider := ParseProvider(request.TrimmedProvider());
    if provider.None? then (rows, Failure(Validation))
    else
      var row := CreatedRow(rows, id, user, provider.value, request);
      if LabelTaken(rows, row) then (rows, Failure(DuplicateLabel)) else (Inserted(rows, row), Success(row))
  }

  /** The columns Update wants, from the row it read. */
  function Merged(existing: Binding, request: UpdateRequest): Binding {
    existing.(
      labelText := if request.labelText.Some? then TrimSpace(request.labelText.value) else existing.labelText,
      active := if request.isActive.Some? then request.isActive.value else existing.active,
      primary := if request.isPrimary.Some? then request.isPrimary.value else existing.primary)
  }

  /** The statements of Update's transaction. */
  function Rewritten(rows: seq<Binding>, row: Binding): seq<Binding> {
    var others := if row.active then Deactivated(rows, row.user, row.provider, Some(row.id)) else rows;
    var demoted := if row.primary then Demoted(others, row.user, row.provider.Namespace(), Some(row.id)) else others;
    Stored(demoted, row)
  }

  /** Update's transaction, with the columns computed from an earlier read. A row that is gone by now is
      not stored, but the others are demoted all the same. */
  function Updated(rows: seq<Binding>, row: Binding): (seq<Binding>, Result) {
    if (exists i :: 0 <= i < |rows| && IsRow(rows, i, row.id, row.user)) && LabelTaken(rows, row) then (rows, Failure(DuplicateLabel))
    else (Rewritten(rows, row), Success(row))
  }

  predicate IsRow(rows: seq<Binding>, i: int, id: BindingId, user: UserId) {
    0 <= i < |rows| && rows[i].id == id && rows[i].user == user
  }

  // ----- the store -----

  class AccountBindingStore {
    var rows: seq<Binding>

    constructor ()
      ensures rows == []
    {
      rows := [];
    }

    /** id is the identifier generated for this call. */
    method Create(id: BindingId, user: UserId, request: CreateRequest) returns (result: Result)
      requires forall i :: 0 <= i < |rows| ==> rows[i].id != id
      modifies this
      ensures (rows, result) == Created(old(rows), id, user, request)
    {
      var parsed := ParseProvider(request.TrimmedProvider());
      if parsed.None? {
        return Failure(Validation);
      }
      var provider := parsed.value;
      var labelText := TrimSpace(request.labelText);
      if labelText == "" {
        labelText := "default";
      }
      var tx := Deactivated(rows, user, provider, None);
      var isPrimary := false;
      if request.isPrimary.Some? {
        isPrimary := request.isPrimary.value;
      } else {
        var count := CountActive(tx, user, provider.Namespace());
        if count == 0 {
          isPrimary := true;
        }
      }
      if isPrimary {
        tx := Demoted(tx, user, provider.Namespace(), None);
      }
      var row := Binding(id, user, provider, labelText, true, isPrimary);
      if LabelTaken(rows, row) {
        return Failure(DuplicateLabel);       // rolled back
      }
      rows := tx + [row];
      result := Success(row);
    }

    /** GetByID and the transaction, with nothing between them. */
    method Update(id: BindingId, user: UserId, request: UpdateRequest) returns (result: Result)
      modifies this
      ensures (exists i :: IsRow(old(rows), i, id, user)) ==>
                exists i :: IsRow(old(rows), i, id, user) && (rows, result) == Updated(old(rows), Merged(old(rows)[i], request))
      ensures !(exists i :: IsRow(old(rows), i, id, user)) ==> rows == old(rows) && result == Failure(NotFound)
    {
      var found := FindRow(rows, id, user);
      if found.None? {
        return Failure(NotFound);
      }
      var existing := rows[found.value];
      if request.labelText.Some? {
        existing := existing.(labelText := TrimSpace(request.labelText.value));
      }
      if request.isActive.Some? {
        existing := existing.(active := request.isActive.value);
      }
      if request.isPrimary.Some? {
        existing := existing.(primary := request.isPrimary.value);
      }
      assert existing == Merged(rows[found.value], request) && IsRow(rows, found.value, existing.id, existing.user);
      var tx := rows;
      if existing.active {
        tx := Deactivated(tx, user, existing.provider, Some(existing.id));
      }
      if existing.primary {
        tx := Demoted(tx, user, existing.provider.Namespace(), Some(existing.id));
      }
      if LabelTaken(rows, existing) {
        return Failure(DuplicateLabel);       // rolled back
      }
      rows := Stored(tx, existing);
      result := Success(existing);
    }

    method Delete(id: BindingId, user: UserId) returns (found: bool)
      modifies this
      ensures found <==> exists i :: IsRow(old(rows), i, id, user)
      ensures !found ==> rows == old(rows)
      ensures found ==> exists i :: IsRow(old(rows), i, id, user) && rows == old(rows)[..i] + old(rows)[i + 1..]
    {
      var at := FindRow(rows, id, user);
      if at.None? {
        return false;
      }
      rows := rows[..at.value] + rows[at.value + 1..];
      found := true;
    }

    /** The auto-resolution of planning_runs.go for a user who names no binding. */
    method ResolveCliBinding(user: UserId) returns (binding: Option<Binding>)
      requires forall i, j :: 0 <= i < j < |rows| ==> rows[i].id != rows[j].id
      ensures binding == Resolved(rows, user)
    {
      var primaryCli: Option<Binding>, firstActiveCli: Option<Binding> := None, None;
      var i := 0;
      while i < |rows|
        invariant 0 <= i <= |rows|
        invariant primaryCli.None?
        invariant firstActiveCli == FirstActiveCli(rows[..i], user)
        invariant FirstActivePrimaryCli(rows[..i], user) == None
      {
        assert rows[..i + 1][..i] == rows[..i];
        var b := rows[i];
        if b.user == user && b.provider.IsCli() && b.active {
          if firstActiveCli.None? {
            firstActiveCli := Some(b);
          }
          if b.primary {
            primaryCli := Some(b);
            break;
          }
        }
        i := i + 1;
      }
      assert rows[..|rows|] == rows;
      if primaryCli.Some? {
        assert rows[..i + 1][..i] == rows[..i];
        FirstOfPrefix(rows, user, i + 1);
      }
      var picked := if primaryCli.Some? then primaryCli else firstActiveCli;
      assert picked == Resolved(rows, user);
      binding := None;
      FirstIsRow(rows, user);
      if picked.Some? {
        ghost var k :| 0 <= k < |rows| && rows[k] == picked.value;
        var fetched := FindRow(rows, picked.value.id, user);
        assert IsRow(rows, k, picked.value.id, user);
        if fetched.Some? {
          assert fetched.value == k by {
            assert rows[fetched.value].id == rows[k].id;
          }
          binding := Some(rows[fetched.value]);
        }
      }
    }
  }

  method FindRow(rows: seq<Binding>, id: BindingId, user: UserId) returns (found: Option<nat>)
    ensures found.Some? ==> IsRow(rows, found.value, id, user)
    ensures found.None? ==> forall i :: !IsRow(rows, i, id, user)
  {
    for i := 0 to |rows|
      invariant forall j :: 0 <= j < i ==> !IsRow(rows, j, id, user)
    {
      if rows[i].id == id && rows[i].user == user {
        return Some(i);
      }
    }
    found := None;
  }

  // ----- resolution -----

  predicate ActiveCli(b: Binding, user: UserId) {
    b.user == user && b.provider.IsCli() && b.active
  }

  function FirstActiveCli(rows: seq<Binding>, user: UserId): Option<Binding> {
    if rows == [] then None
    else
      var n := |rows| - 1;
      var before := FirstActiveCli(rows[..n], user);
      if before.Some? then before else if ActiveCli(rows[n], user) then Some(rows[n]) else None
  }

  function FirstActivePrimaryCli(rows: seq<Binding>, user: UserId): Option<Binding> {
    if rows == [] then None
    else
      var n := |rows| - 1;
      var before := FirstActivePrimaryCli(rows[..n], user);
      if before.Some? then before else if ActiveCli(rows[n], user) && rows[n].primary then Some(rows[n]) else None
  }

  function Resolved(rows: seq<Binding>, user: UserId): Option<Binding> {
    var primary := FirstActivePrimaryCli(rows, user);
    if primary.Some? then primary else FirstActiveCli(rows, user)
  }

  lemma {:induction false} FirstOfPrefix(rows: seq<Binding>, user: UserId, n: nat)
    requires n <= |rows| && FirstActivePrimaryCli(rows[..n], user).Some?
    ensures FirstActivePrimaryCli(rows, user) == FirstActivePrimaryCli(rows[..n], user)
  {
    if n < |rows| {
      assert rows[..|rows| - 1][..n] == rows[..n];
      FirstOfPrefix(rows[..|rows| - 1], user, n);
    } else {
      assert rows[..n] == rows;
    }
  }

  lemma {:induction false} FirstIsRow(rows: seq<Binding>, user: UserId)
    ensures match FirstActiveCli(rows, user)
            case Some(b) => b in rows && ActiveCli(b, user)
            case None => forall b :: b in rows ==> !ActiveCli(b, user)
    ensures match FirstActivePrimaryCli(rows, user)
            case Some(b) => b in rows && ActiveCli(b, user) && b.primary
            case None => forall b :: b in rows && ActiveCli(b, user) ==> !b.primary
  {
    if rows != [] {
      var n := |rows| - 1;
      FirstIsRow(rows[..n], user);
      assert rows == rows[..n] + [rows[n]];
    }
  }
}
