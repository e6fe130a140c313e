/** What creating, updating and resolving account bindings gives, row by row and in the words of the request. */
module BindingResults {
  import opened Options
  import opened Text
  import opened AccountBindings

  // ----- providers -----

  /** The text names a provider that bindings may have. */
  predicate IsProvider(text: string) {
    text == "openai-compatible" || text == "cli:claude" || text == "cli:codex"
  }

  /** Command-line providers share one primary binding, the others another. */
  predicate Together(a: Provider, b: Provider) {
    (a == CliClaude || a == CliCodex) <==> (b == CliClaude || b == CliCodex)
  }

  lemma ProviderIsIts(text: string)
    ensures ParseProvider(text).Some? <==> IsProvider(text)
    ensures ParseProvider(text).Some? ==> ParseProvider(text).value.Id() == text
  {
    assert |"openai-compatible"| == 17 && |"cli:claude"| == 10 && |"cli:codex"| == 9;
  }

  // ----- create -----

  predicate IsOtherActive(rows: seq<Binding>, i: nat, user: UserId, provider: Provider) {
    i < |rows| && rows[i].user == user && rows[i].active && rows[i].provider != provider && Together(rows[i].provider, provider)
  }

  lemma {:induction false} NoneActiveIff(rows: seq<Binding>, user: UserId, namespace: Namespace)
    ensures CountActive(rows, user, namespace) == 0 <==>
              forall i :: 0 <= i < |rows| ==> !(rows[i].user == user && rows[i].active && rows[i].provider.Namespace() == namespace)
  {
    if rows != [] {
      NoneActiveIff(rows[1..], user, namespace);
      assert forall i :: 1 <= i < |rows| ==> rows[i] == rows[1..][i - 1];
    }
  }

  /** Where the user has no active binding left among those that share a primary one, the new one becomes it. */
  lemma FirstActiveIsPrimary(rows: seq<Binding>, user: UserId, provider: Provider)
    ensures CountActive(Deactivated(rows, user, provider, None), user, provider.Namespace()) == 0 <==>
              !exists i: nat :: IsOtherActive(rows, i, user, provider)
  {
    var others := Deactivated(rows, user, provider, None);
    NoneActiveIff(others, user, provider.Namespace());
    forall i | 0 <= i < |rows|
      ensures others[i].user == user && others[i].active && others[i].provider.Namespace() == provider.Namespace()
              <==> IsOtherActive(rows, i, user, provider)
    {
    }
  }

  /** The row as the request has it. */
  ghost predicate IsRequested(rows: seq<Binding>, id: BindingId, user: UserId, request: CreateRequest, row: Binding) {
    && row.id == id && row.user == user && row.provider.Id() == TrimSpace(request.provider) && row.active
    && row.labelText == (if TrimSpace(request.labelText) == "" then "default" else TrimSpace(request.labelText))
    && (request.isPrimary.Some? ==> row.primary == request.isPrimary.value)
    && (request.isPrimary.None? ==> (row.primary <==> !exists i: nat :: IsOtherActive(rows, i, user, row.provider)))
  }

  /** The others lose what only one row may have: the active mark within user and provider, and the primary mark within
      user and namespace if the new row takes it. */
  ghost predicate OthersYield(rows: seq<Binding>, after: seq<Binding>, row: Binding) {
    forall i :: 0 <= i < |rows| && rows[i].id != row.id ==> i < |after| && after[i] == rows[i].(
      active := rows[i].active && !(row.active && rows[i].user == row.user && rows[i].provider == row.provider),
      primary := rows[i].primary && !(row.primary && rows[i].user == row.user && Together(rows[i].provider, row.provider)))
  }

  /** The user has another binding of the provider with this label. */
  predicate HasLabel(rows: seq<Binding>, i: nat, row: Binding) {
    i < |rows| && rows[i].id != row.id && rows[i].user == row.user && rows[i].provider == row.provider && rows[i].labelText == row.labelText
  }

  lemma LabelTakenIff(rows: seq<Binding>, row: Binding)
    ensures LabelTaken(rows, row) <==> exists i: nat :: HasLabel(rows, i, row)
  {
    if LabelTaken(rows, row) {
      var i :| 0 <= i < |rows| && rows[i].id != row.id
               && rows[i].user == row.user && rows[i].provider == row.provider && rows[i].labelText == row.labelText;
      assert HasLabel(rows, i, row);
    }
  }

  lemma CreateGives(rows: seq<Binding>, id: BindingId, user: UserId, request: CreateRequest)
    requires forall i :: 0 <= i < |rows| ==> rows[i].id != id
    ensures var (after, result) := Created(rows, id, user, request);
            && (result == Failure(Validation) <==> !IsProvider(TrimSpace(request.provider)))
            && (result.Success? ==>
                  && IsRequested(rows, id, user, request, result.row) && !(exists i: nat :: HasLabel(rows, i, result.row))
                  && |after| == |rows| + 1 && after[|rows|] == result.row && OthersYield(rows, after, result.row))
            && (result.Failure? ==> after == rows)
            && (result == Failure(DuplicateLabel) ==> exists row, i: nat :: IsRequested(rows, id, user, request, row) && HasLabel(rows, i, row))
            && result != Failure(NotFound)
  {
    ProviderIsIts(TrimSpace(request.provider));
    var provider := ParseProvider(TrimSpace(request.provider));
    if provider.Some? {
      FirstActiveIsPrimary(rows, user, provider.value);
      var row := CreatedRow(rows, id, user, provider.value, request);
      assert IsRequested(rows, id, user, request, row);
      LabelTakenIff(rows, row);
    }
  }

  // ----- update -----

  /** The row with what the request gives and the rest as it was. */
  predicate Honours(before: Binding, request: UpdateRequest, row: Binding) {
    && row.id == before.id && row.user == before.user && row.provider == before.provider
    && (match request.labelText case Some(text) => row.labelText == TrimSpace(text) case None => row.labelText == before.labelText)
    && (match request.isActive case Some(active) => row.active == active case None => row.active == before.active)
    && (match request.isPrimary case Some(primary) => row.primary == primary case None => row.primary == before.primary)
  }

  lemma UpdateGives(rows: seq<Binding>, k: nat, request: UpdateRequest)
    requires k < |rows| && forall i, j :: 0 <= i < j < |rows| ==> rows[i].id != rows[j].id
    ensures var (after, result) := Updated(rows, Merged(rows[k], request));
            && (result.Success? ==>
                  && Honours(rows[k], request, result.row) && !(exists i: nat :: HasLabel(rows, i, result.row))
                  && |after| == |rows| && after[k] == result.row && OthersYield(rows, after, result.row))
            && (result.Failure? ==>
                  after == rows && result.error == DuplicateLabel
                  && exists row, i: nat :: Honours(rows[k], request, row) && HasLabel(rows, i, row))
  {
    var row := Merged(rows[k], request);
    assert IsRow(rows, k, row.id, row.user) && Honours(rows[k], request, row);
    LabelTakenIff(rows, row);
  }

  // ----- resolution -----

  /** An active binding of the user for a command-line provider. */
  predicate Usable(b: Binding, user: UserId) {
    b.user == user && b.active && (b.provider == CliClaude || b.provider == CliCodex)
  }

  /** The first usable row, among the primary ones or among all. */
  predicate FirstUsable(rows: seq<Binding>, user: UserId, primary: bool, i: nat) {
    && i < |rows| && Usable(rows[i], user) && (primary ==> rows[i].primary)
    && forall j :: 0 <= j < i ==> !(Usable(rows[j], user) && (primary ==> rows[j].primary))
  }

  lemma {:induction false} FirstRowsAre(rows: seq<Binding>, user: UserId, b: Binding)
    ensures FirstActiveCli(rows, user) == Some(b) <==> exists i: nat :: FirstUsable(rows, user, false, i) && rows[i] == b
    ensures FirstActivePrimaryCli(rows, user) == Some(b) <==> exists i: nat :: FirstUsable(rows, user, true, i) && rows[i] == b
  {
    if rows != [] {
      var n := |rows| - 1;
      FirstRowsAre(rows[..n], user, b);
      FirstIsRow(rows[..n], user);
      FirstUsableOneMore(rows, user, false);
      FirstUsableOneMore(rows, user, true);
    }
  }

  lemma FirstUsableOneMore(rows: seq<Binding>, user: UserId, primary: bool)
    requires rows != []
    ensures var n := |rows| - 1;
            && (forall i: nat :: i < n ==> (FirstUsable(rows, user, primary, i) <==> FirstUsable(rows[..n], user, primary, i)))
            && (FirstUsable(rows, user, primary, n) <==>
                  && Usable(rows[n], user) && (primary ==> rows[n].primary)
                  && forall b :: b in rows[..n] ==> !(Usable(b, user) && (primary ==> b.primary)))
  {
    var n := |rows| - 1;
    assert forall i :: 0 <= i < n ==> rows[..n][i] == rows[i] && rows[i] in rows[..n];
  }

  /** Resolution picks the first usable primary row, if there is none the first usable row, and nothing only if no row is
      usable. */
  lemma ResolvedIs(rows: seq<Binding>, user: UserId)
    ensures match Resolved(rows, user)
            case Some(b) =>
              || (exists i: nat :: FirstUsable(rows, user, true, i) && rows[i] == b)
              || ((forall c :: c in rows && c.primary ==> !Usable(c, user)) && exists i: nat :: FirstUsable(rows, user, false, i) && rows[i] == b)
            case None => forall b :: b in rows ==> !Usable(b, user)
  {
    FirstIsRow(rows, user);
    if Resolved(rows, user).Some? {
      FirstRowsAre(rows, user, Resolved(rows, user).value);
    }
  }
}
