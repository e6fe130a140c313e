/** What the parts of a split ALTER TABLE statement are: clauses that, joined by commas, are the body again, and
    when each of them adds a column. */
module AlterTableParts {
  import opened AlterTableSplit
  import opened Options
  import opened Text

  /** What follows ALTER TABLE in a statement that has it. */
  function RestOf(stmt: string): string {
    var table := FirstMatch(stmt, ALTER_TABLE, 0);
    if table == None then "" else TrimSpace(stmt[table.value + |ALTER_TABLE|..])
  }

  /** The word taken for the table's name. */
  function NameOf(stmt: string): string {
    var nameEnd := FirstGap(RestOf(stmt), 0);
    if nameEnd == None then "" else RestOf(stmt)[..nameEnd.value]
  }

  function BodyOf(stmt: string): string {
    var nameEnd := FirstGap(RestOf(stmt), 0);
    if nameEnd == None then "" else TrimSpace(RestOf(stmt)[nameEnd.value..])
  }

  predicate BeginsWithCut(body: string) {
    CutTarget(body, 0) != 0
  }

  /** The trimmed text of a span. */
  function ClauseAt(body: string, k: nat): string {
    if k < |Spans(body)| then TrimSpace(TextOf(body, Spans(body)[k])) else ""
  }

  /** A part without its prefix. */
  function ClauseOf(name: string): string -> string {
    part => if |Prefix(name)| < |part| then part[|Prefix(name)| + 1..] else ""
  }

  function Mapped(parts: seq<string>, clause: string -> string): seq<string> {
    if parts == [] then [] else [clause(parts[0])] + Mapped(parts[1..], clause)
  }

  lemma {:induction false} MappedAt(parts: seq<string>, clause: string -> string)
    ensures |Mapped(parts, clause)| == |parts|
    ensures forall k :: 0 <= k < |parts| ==> Mapped(parts, clause)[k] == clause(parts[k])
  {
    if parts != [] {
      MappedAt(parts[1..], clause);
    }
  }

  /** The k-th part is the prefix and the text of the span, one further on behind a leading cut. */
  lemma PartAt(stmt: string, k: nat)
    requires SplitStatement(stmt) != [stmt] && k < |SplitStatement(stmt)|
    ensures var body, j := BodyOf(stmt), k + if BeginsWithCut(BodyOf(stmt)) then 1 else 0;
            && body != "" && Trimmed(body, SPACES) && Solid(NameOf(stmt)) && Gapless(NameOf(stmt))
            && |Spans(body)| == |SplitStatement(stmt)| + (if BeginsWithCut(body) then 1 else 0)
            && SplitStatement(stmt)[k] == Prefix(NameOf(stmt)) + " " + ClauseAt(body, j)
            && ClauseOf(NameOf(stmt))(SplitStatement(stmt)[k]) == ClauseAt(body, j)
  {
    var rest, body := RestOf(stmt), BodyOf(stmt);
    TrimIsTrimmed(stmt[FirstMatch(stmt, ALTER_TABLE, 0).value + |ALTER_TABLE|..], SPACES);
    NameAndBody(rest);
    ClausesAreTheTexts(Prefix(NameOf(stmt)), body);
    StatementOfSpan(Prefix(NameOf(stmt)), body, k);
    PartShape(NameOf(stmt), ClauseAt(body, k + if BeginsWithCut(body) then 1 else 0));
  }

  lemma PartShape(name: string, clause: string)
    ensures ClauseOf(name)(Prefix(name) + " " + clause) == clause
  {
    assert (Prefix(name) + " " + clause)[|Prefix(name)| + 1..] == clause;
  }

  // ----- the clauses joined are the body -----

  /** The body can be cut at |clauses| - 1 commas into pieces that are the clauses but for white space around them. */
  ghost predicate JoinsTo(clauses: seq<string>, body: string) {
    && clauses != []
    && if |clauses| == 1 then TrimSpace(body) == clauses[0]
       else exists i :: 0 <= i < |body| && CommaAt(body, i) && TrimSpace(body[..i]) == clauses[0] && JoinsTo(clauses[1..], body[i + 1..])
  }

  predicate CommaAt(body: string, i: nat) {
    i < |body| && body[i] == ','
  }

  /** White space at the left end makes no difference to trimming. */
  lemma {:induction false} TrimAfterGaps(s: string, a: nat, b: nat, c: nat)
    requires a <= b <= c <= |s| && AllGaps(s[a..b])
    ensures TrimSpace(s[a..c]) == TrimSpace(s[b..c])
    decreases b - a
  {
    if a < b {
      assert s[a..b][0] == s[a] && s[a..b][1..] == s[a + 1..b] && s[a..c][1..] == s[a + 1..c];
      TrimAfterGaps(s, a + 1, b, c);
    }
  }

  /** Where the piece of the k-th span begins: behind the comma of the cut before it. */
  function PieceFrom(spans: seq<Span>, k: nat): nat {
    if 0 < k <= |spans| then spans[k - 1].to + 1 else 0
  }

  lemma PieceIsClause(body: string, k: nat)
    requires k < |Spans(body)|
    ensures var spans := Spans(body); var from := PieceFrom(spans, k);
            && from <= spans[k].to <= |body| && TrimSpace(body[from..spans[k].to]) == ClauseAt(body, k)
            && if k + 1 < |spans| then CommaAt(body, spans[k].to) else spans[k].to == |body|
  {
    SpansTile(body);
    var spans := Spans(body);
    assert Tiled(body, spans, k);
    if k > 0 {
      assert Tiled(body, spans, k - 1);
      TargetOfCut(body, spans[k - 1].to);
      TrimAfterGaps(body, spans[k - 1].to + 1, spans[k].from, spans[k].to);
    }
    if k + 1 < |spans| {
      TargetOfCut(body, spans[k].to);
    }
  }

  /** The piece of the k-th clause, up to its comma or to the end. */
  ghost predicate Piece(body: string, n: nat, from: nat -> nat, clause: nat -> string, k: nat) {
    if k + 1 < n then from(k) < from(k + 1) && CommaAt(body, from(k + 1) - 1) && TrimSpace(body[from(k)..from(k + 1) - 1]) == clause(k)
    else from(k) <= |body| && TrimSpace(body[from(k)..]) == clause(k)
  }

  function ClausesFrom(n: nat, clause: nat -> string, k: nat): seq<string>
    decreases n - k
  {
    if k < n then [clause(k)] + ClausesFrom(n, clause, k + 1) else []
  }

  lemma {:induction false} PiecesJoin(body: string, n: nat, from: nat -> nat, clause: nat -> string, k: nat)
    requires k < n && forall i :: 0 <= i < n ==> Piece(body, n, from, clause, i)
    ensures from(k) <= |body| && JoinsTo(ClausesFrom(n, clause, k), body[from(k)..])
    decreases n - k
  {
    assert Piece(body, n, from, clause, k);
    if k + 1 == n {
      OnlyClause(n, clause, k);
    } else {
      PiecesJoin(body, n, from, clause, k + 1);
      CutSuffix(body, from(k), from(k + 1) - 1);
      JoinsOneMore(clause(k), ClausesFrom(n, clause, k + 1), body[from(k)..], from(k + 1) - 1 - from(k),
                   body[from(k)..from(k + 1) - 1], body[from(k + 1)..]);
    }
  }

  lemma OnlyClause(n: nat, clause: nat -> string, k: nat)
    requires k + 1 == n
    ensures ClausesFrom(n, clause, k) == [clause(k)]
  {
    assert ClausesFrom(n, clause, k + 1) == [];
  }

  lemma CutSuffix(body: string, from: nat, to: nat)
    requires from <= to < |body|
    ensures body[from..][..to - from] == body[from..to] && body[from..][to - from + 1..] == body[to + 1..]
  {
  }

  lemma JoinsOneMore(clause: string, clauses: seq<string>, body: string, i: nat, piece: string, rest: string)
    requires CommaAt(body, i) && body[..i] == piece && body[i + 1..] == rest
    requires TrimSpace(piece) == clause && JoinsTo(clauses, rest)
    ensures JoinsTo([clause] + clauses, body)
  {
    assert ([clause] + clauses)[1..] == clauses;
  }

  function PiecesOf(body: string): nat -> nat {
    (k: nat) => PieceFrom(Spans(body), k)
  }

  function TextsOf(body: string): nat -> string {
    (k: nat) => ClauseAt(body, k)
  }

  lemma PieceOfBody(body: string, k: nat)
    requires k < |Spans(body)|
    ensures Piece(body, |Spans(body)|, PiecesOf(body), TextsOf(body), k)
  {
    PieceIsClause(body, k);
    var from, to := PiecesOf(body)(k), Spans(body)[k].to;
    assert from == PieceFrom(Spans(body), k) && TextsOf(body)(k) == ClauseAt(body, k);
    if k + 1 < |Spans(body)| {
      assert PiecesOf(body)(k + 1) == to + 1;
    } else {
      assert body[from..to] == body[from..];
    }
  }

  lemma BodyJoins(body: string)
    ensures |Spans(body)| > 0 && JoinsTo(ClausesFrom(|Spans(body)|, TextsOf(body), 0), body)
  {
    SpansTile(body);
    forall k | 0 <= k < |Spans(body)| ensures Piece(body, |Spans(body)|, PiecesOf(body), TextsOf(body), k) {
      PieceOfBody(body, k);
    }
    assert |Spans(body)| > 0 && PiecesOf(body)(0) == 0;
    PiecesJoin(body, |Spans(body)|, PiecesOf(body), TextsOf(body), 0);
    assert body[0..] == body;
  }

  lemma {:induction false} ClausesFromAt(n: nat, clause: nat -> string, k: nat)
    requires k <= n
    ensures |ClausesFrom(n, clause, k)| == n - k
    ensures forall i :: 0 <= i < n - k ==> ClausesFrom(n, clause, k)[i] == clause(k + i)
    decreases n - k
  {
    if k < n {
      ClausesFromAt(n, clause, k + 1);
    }
  }

  /** Clauses given one by one, behind a blank one if `skipped`. */
  lemma ClausesAre(clauses: seq<string>, n: nat, clause: nat -> string, skipped: bool)
    requires n == |clauses| + (if skipped then 1 else 0) && (skipped ==> clause(0) == "")
    requires forall k :: 0 <= k < |clauses| ==> clauses[k] == clause(if skipped then k + 1 else k)
    ensures ClausesFrom(n, clause, 0) == (if skipped then [""] else []) + clauses
  {
    ClausesFromAt(n, clause, 0);
  }

  /** Each part is the prefix and a clause, and the clauses, put together with commas and white space, are the body
      again; a body that begins with a cut has a blank clause before them. */
  ghost predicate Rejoins(parts: seq<string>, name: string, body: string) {
    && (forall k :: 0 <= k < |parts| ==> parts[k] == Prefix(name) + " " + ClauseOf(name)(parts[k]))
    && JoinsInto(body)((if BeginsWithCut(body) then [""] else []) + Mapped(parts, ClauseOf(name)))
  }

  ghost function JoinsInto(body: string): seq<string> -> bool {
    clauses => JoinsTo(clauses, body)
  }

  lemma PartsJoinToBody(stmt: string)
    requires SplitStatement(stmt) != [stmt]
    ensures Rejoins(SplitStatement(stmt), NameOf(stmt), BodyOf(stmt))
  {
    var parts, name, body := SplitStatement(stmt), NameOf(stmt), BodyOf(stmt);
    forall k | 0 <= k < |parts| ensures IsPart(parts, name, body, k) {
      PartFits(stmt, parts, name, body, k);
    }
    SplitHasParts(stmt);
    PartFits(stmt, parts, name, body, 0);
    PartsJoin(parts, name, body);
  }

  lemma PartFits(stmt: string, parts: seq<string>, name: string, body: string, k: nat)
    requires parts == SplitStatement(stmt) && name == NameOf(stmt) && body == BodyOf(stmt)
    requires parts != [stmt] && k < |parts|
    ensures IsPart(parts, name, body, k)
    ensures body != "" && Trimmed(body, SPACES) && |Spans(body)| == |parts| + (if BeginsWithCut(body) then 1 else 0)
  {
    PartAt(stmt, k);
  }

  predicate IsPart(parts: seq<string>, name: string, body: string, k: nat) {
    && k < |parts|
    && parts[k] == Prefix(name) + " " + ClauseOf(name)(parts[k])
    && ClauseOf(name)(parts[k]) == TextsOf(body)(if BeginsWithCut(body) then k + 1 else k)
  }

  lemma PartsJoin(parts: seq<string>, name: string, body: string)
    requires body != "" && Trimmed(body, SPACES) && |Spans(body)| == |parts| + (if BeginsWithCut(body) then 1 else 0)
    requires forall k :: 0 <= k < |parts| ==> IsPart(parts, name, body, k)
    ensures Rejoins(parts, name, body)
  {
    forall k | 0 <= k < |parts|
      ensures parts[k] == Prefix(name) + " " + ClauseOf(name)(parts[k])
      ensures ClauseOf(name)(parts[k]) == TextsOf(body)(if BeginsWithCut(body) then k + 1 else k)
    {
      assert IsPart(parts, name, body, k);
    }
    BodyJoins(body);
    if BeginsWithCut(body) {
      LeadingIsBlank(body);
    }
    ClausesJoin(parts, ClauseOf(name), TextsOf(body), BeginsWithCut(body), JoinsInto(body));
  }

  lemma ClausesJoin(parts: seq<string>, clause: string -> string, texts: nat -> string, skipped: bool, joins: seq<string> -> bool)
    requires skipped ==> texts(0) == ""
    requires forall k :: 0 <= k < |parts| ==> clause(parts[k]) == texts(if skipped then k + 1 else k)
    requires joins(ClausesFrom(|parts| + (if skipped then 1 else 0), texts, 0))
    ensures joins((if skipped then [""] else []) + Mapped(parts, clause))
  {
    MappedAt(parts, clause);
    ClausesAre(Mapped(parts, clause), |parts| + (if skipped then 1 else 0), texts, skipped);
  }

  lemma SplitHasParts(stmt: string)
    requires SplitStatement(stmt) != [stmt]
    ensures |SplitStatement(stmt)| > 1
  {
  }

  lemma LeadingIsBlank(body: string)
    requires Trimmed(body, SPACES) && BeginsWithCut(body)
    ensures TextsOf(body)(0) == ""
  {
    SpansTile(body);
    TextsAreSolid(body, 0);
  }

  // ----- which parts add a column -----

  predicate AddsColumn(clause: string) {
    MatchesAt(clause, 0, ADD_COLUMN)
  }

  lemma PatternIsSolid(s: string, p: nat, k: nat)
    requires MatchesAt(s, p, ADD_COLUMN) && k < |ADD_COLUMN|
    ensures s[p + k] != ',' && (k == 0 || k == |ADD_COLUMN| - 1 ==> s[p + k] !in SPACES)
  {
    assert UpperChar(s[p + k]) == ADD_COLUMN[k];
  }

  /** A piece of the body that does not begin with white space and ends at a comma or with the body adds a column iff
      the body has ADD COLUMN there. */
  lemma TrimmedPieceMatches(body: string, from: nat, to: nat)
    requires from < to <= |body| && body[from] !in SPACES && (to == |body| || body[to] == ',')
    ensures AddsColumn(TrimSpace(body[from..to])) <==> MatchesAt(body, from, ADD_COLUMN)
  {
    var piece := body[from..to];
    var clause := TrimSpace(piece);
    assert TrimLeft(piece, SPACES) == piece;
    TrimRightCuts(piece, SPACES);
    assert forall k :: 0 <= k < |clause| ==> clause[k] == body[from + k];
    if MatchesAt(body, from, ADD_COLUMN) {
      var last := |ADD_COLUMN| - 1;
      PatternIsSolid(body, from, last);
      if to <= from + last {
        PatternIsSolid(body, from, to - from);
        assert false;
      }
      assert piece[last] == body[from + last];
      assert |clause| > last;
    }
  }

  /** Every text after a cut adds a column, and the first one does iff the body begins with ADD COLUMN. */
  lemma ClauseAddsColumn(body: string, k: nat)
    requires body != "" && Trimmed(body, SPACES) && k < |Spans(body)|
    requires k > 0 || !BeginsWithCut(body)
    ensures AddsColumn(ClauseAt(body, k)) <==> k > 0 || MatchesAt(body, 0, ADD_COLUMN)
  {
    SpansTile(body);
    var spans := Spans(body);
    assert Tiled(body, spans, k);
    TextsAreSolid(body, k);
    if k + 1 < |spans| {
      TargetOfCut(body, spans[k].to);
    }
    if k > 0 {
      assert Tiled(body, spans, k - 1);
    }
    TrimmedPieceMatches(body, spans[k].from, spans[k].to);
  }

  /** The parts of a split statement that add a column: all but the first, and the first one iff what follows the
      table's name begins with ADD COLUMN or with a cut. */
  lemma PartsAddColumns(stmt: string, k: nat)
    requires SplitStatement(stmt) != [stmt] && k < |SplitStatement(stmt)|
    ensures AddsColumn(ClauseOf(NameOf(stmt))(SplitStatement(stmt)[k])) <==>
            k > 0 || MatchesAt(BodyOf(stmt), 0, ADD_COLUMN) || BeginsWithCut(BodyOf(stmt))
  {
    PartAt(stmt, k);
    ClauseAddsColumn(BodyOf(stmt), k + if BeginsWithCut(BodyOf(stmt)) then 1 else 0);
  }

  // ----- IF EXISTS -----

  lemma {:induction false} CountOne(s: string, pattern: string, from: nat, i: nat)
    requires pattern != "" && from <= i && MatchesAt(s, i, pattern)
    ensures CountMatches(s, pattern, from) >= 1
    decreases |s| - from
  {
    if !MatchesAt(s, from, pattern) {
      CountOne(s, pattern, from + 1, i);
    }
  }

  lemma {:induction false} CountTwo(s: string, pattern: string, from: nat, i: nat, j: nat)
    requires pattern != "" && from <= i && i + |pattern| <= j && MatchesAt(s, i, pattern) && MatchesAt(s, j, pattern)
    ensures CountMatches(s, pattern, from) >= 2
    decreases |s| - from
  {
    if MatchesAt(s, from, pattern) {
      CountOne(s, pattern, from + |pattern|, j);
    } else {
      CountTwo(s, pattern, from + 1, i, j);
    }
  }

  /** A statement that is written with one blank after the keyword and after the name. */
  lemma WrittenStatement(name: string, body: string)
    requires Gapless(name) && Solid(name) && body != "" && Trimmed(body, SPACES)
    ensures var stmt := Prefix(name) + " " + body; NameOf(stmt) == name && BodyOf(stmt) == body
  {
    var rest := name + (" " + body);
    OutputShape(name, body);
    StartsWithAlterTable(" " + rest);
    assert rest[|rest| - 1] == body[|body| - 1] && rest[0] == name[0];
    TrimOneSpace(rest);
    DropPrefix(ALTER_TABLE, " " + rest);
    assert rest[0..|name|] == rest[..|name|] == name && rest[|name|] == ' ' && rest[|name|..] == " " + body;
    FirstGapIs(rest, 0, |name|);
    TrimOneSpace(body);
  }

  lemma CutMakesTwoSpans(body: string, i: nat)
    requires i < |body| && CutTarget(body, i) != 0
    ensures |Spans(body)| >= 2
  {
    BodyCutsApart(body);
    ScanIsWell(CutsOf(body), |body|, |body|);
    assert CutsOf(body)(i) != 0;
  }

  lemma WrittenIsSplit(name: string, body: string, i: nat, j: nat)
    requires Gapless(name) && Solid(name) && body != "" && Trimmed(body, SPACES)
    requires i < j < |body| && MatchesAt(body, i, ADD_COLUMN) && CutTarget(body, j) != 0 && !BeginsWithCut(body)
    ensures var stmt := Prefix(name) + " " + body; SplitStatement(stmt) != [stmt]
  {
    var stmt, head := Prefix(name) + " " + body, |Prefix(name)| + 1;
    WrittenStatement(name, body);
    OutputShape(name, body);
    StartsWithAlterTable(" " + (name + (" " + body)));
    var target := CutTarget(body, j);
    AfterComma(body, i, j);
    MatchesInStatement(Prefix(name) + " ", body, i);
    MatchesInStatement(Prefix(name) + " ", body, target);
    CountTwo(stmt, ADD_COLUMN, 0, head + i, head + target);
    CutMakesTwoSpans(body, j);
    ClausesAreTheTexts(Prefix(name), body);
    assert |SplitStatement(stmt)| >= 2;
  }

  lemma AfterComma(body: string, i: nat, j: nat)
    requires i < j < |body| && MatchesAt(body, i, ADD_COLUMN) && CutTarget(body, j) != 0
    ensures i + |ADD_COLUMN| <= j < CutTarget(body, j) && MatchesAt(body, CutTarget(body, j), ADD_COLUMN)
  {
    if j < i + |ADD_COLUMN| {
      PatternIsSolid(body, i, j - i);
      assert false;
    }
  }

  lemma MatchesInStatement(head: string, body: string, i: nat)
    requires MatchesAt(body, i, ADD_COLUMN)
    ensures MatchesAt(head + body, |head| + i, ADD_COLUMN)
  {
    forall k | 0 <= k < |ADD_COLUMN| ensures UpperChar((head + body)[|head| + i + k]) == ADD_COLUMN[k] {
      assert (head + body)[|head| + i + k] == body[i + k];
    }
  }

  /** ALTER TABLE IF EXISTS takes IF for the table's name, whatever table and columns it has: the statement is split,
      every part alters a table `IF`, and the first part does not add a column. */
  lemma IfExistsIsMisread(table: string, first: string, second: string)
    requires Trimmed(ADD_COLUMN + second, SPACES)
    ensures var stmt := Prefix("IF") + " " + TwoColumns("EXISTS " + table + " ", first, second);
            && SplitStatement(stmt) != [stmt] && NameOf(stmt) == "IF"
            && !AddsColumn(ClauseOf("IF")(SplitStatement(stmt)[0]))
  {
    OtherWordIsMisread("IF", "EXISTS " + table + " ", first, second);
  }

  /** Two clauses, with something else before them. */
  function TwoColumns(head: string, first: string, second: string): string {
    head + (ADD_COLUMN + (first + (", " + (ADD_COLUMN + second))))
  }

  lemma OtherWordIsMisread(name: string, head: string, first: string, second: string)
    requires Gapless(name) && Solid(name) && Trimmed(ADD_COLUMN + second, SPACES)
    requires Solid(head) && UpperChar(head[0]) != 'A' && head[0] != ','
    ensures var stmt := Prefix(name) + " " + TwoColumns(head, first, second);
            && SplitStatement(stmt) != [stmt] && NameOf(stmt) == name
            && !AddsColumn(ClauseOf(name)(SplitStatement(stmt)[0]))
  {
    TwoColumnsShape(head, first, second);
    FirstIsMisread(name, TwoColumns(head, first, second), |head|, |head| + |ADD_COLUMN| + |first|);
  }

  lemma FirstIsMisread(name: string, body: string, i: nat, j: nat)
    requires Gapless(name) && Solid(name) && body != "" && Trimmed(body, SPACES) && UpperChar(body[0]) != 'A'
    requires i < j < |body| && MatchesAt(body, i, ADD_COLUMN) && CutTarget(body, j) != 0 && !BeginsWithCut(body)
    ensures var stmt := Prefix(name) + " " + body;
            && SplitStatement(stmt) != [stmt] && NameOf(stmt) == name
            && !AddsColumn(ClauseOf(name)(SplitStatement(stmt)[0]))
  {
    var stmt := Prefix(name) + " " + body;
    WrittenStatement(name, body);
    WrittenIsSplit(name, body, i, j);
    assert !MatchesAt(body, 0, ADD_COLUMN) by {
      assert UpperChar(body[0 + 0]) != ADD_COLUMN[0];
    }
    SplitHasParts(stmt);
    PartsAddColumns(stmt, 0);
  }

  lemma TwoColumnsShape(head: string, first: string, second: string)
    requires Solid(head) && head[0] != ',' && Trimmed(ADD_COLUMN + second, SPACES)
    ensures var body, j := TwoColumns(head, first, second), |head| + |ADD_COLUMN| + |first|;
            && body != "" && Trimmed(body, SPACES) && body[0] == head[0] && !BeginsWithCut(body)
            && j < |body| && MatchesAt(body, |head|, ADD_COLUMN) && CutTarget(body, j) != 0
  {
    EndsAreKept(head, ADD_COLUMN + (first + ", "), ADD_COLUMN + second);
    var before, last := head + ADD_COLUMN + first, ADD_COLUMN + second;
    ShiftedMatch(head, first + (", " + last));
    ColumnAfterComma(before, second);
    JoinParts(head, ADD_COLUMN, first, ", " + last);
    assert TwoColumns(head, first, second) == head + (ADD_COLUMN + (first + ", ")) + last;
  }

  lemma EndsAreKept(head: string, middle: string, last: string)
    requires Solid(head) && last != "" && Trimmed(last, SPACES)
    ensures var s := head + middle + last; s != "" && s[0] == head[0] && Trimmed(s, SPACES)
  {
    var s := head + middle + last;
    assert s[|s| - 1] == last[|last| - 1];
  }

  lemma JoinParts(a: string, b: string, c: string, d: string)
    ensures a + (b + (c + d)) == (a + b + c) + d
  {
  }

  lemma ColumnAfterComma(before: string, column: string)
    ensures CutTarget(before + (", " + (ADD_COLUMN + column)), |before|) != 0
  {
    var body := before + (", " + (ADD_COLUMN + column));
    var i := |before|;
    assert body[i] == ',' && body[i + 1] == ' ' && body[i + 2] == ADD_COLUMN[0];
    assert body[i + 1..i + 2] == " ";
    SkipsTo(body, i + 1, i + 2);
    assert body == (before + ", ") + (ADD_COLUMN + column);
    ShiftedMatch(before + ", ", column);
  }

  lemma ShiftedMatch(head: string, rest: string)
    ensures MatchesAt(head + (ADD_COLUMN + rest), |head|, ADD_COLUMN)
  {
    assert MatchesAt(ADD_COLUMN + rest, 0, ADD_COLUMN);
    MatchesInStatement(head, ADD_COLUMN + rest, 0);
  }

  // ----- literals -----

  function Quotes(s: string): nat {
    if s == "" then 0 else (if s[0] == '\'' then 1 else 0) + Quotes(s[1..])
  }

  /** A string literal that begins in the text does not end in it. */
  predicate OpenLiteral(s: string) {
    Quotes(s) % 2 == 1
  }

  lemma {:induction false} QuotesJoin(a: string, b: string)
    ensures Quotes(a + b) == Quotes(a) + Quotes(b)
  {
    if a == "" {
      assert a + b == b;
    } else {
      assert (a + b)[0] == a[0] && (a + b)[1..] == a[1..] + b;
      QuotesJoin(a[1..], b);
    }
  }

  lemma {:induction false} NoQuotes(s: string)
    requires '\'' !in s
    ensures Quotes(s) == 0
  {
    if s != "" {
      assert s[0] != '\'' && forall c :: c in s[1..] ==> c in s;
      NoQuotes(s[1..]);
    }
  }

  /** The first piece ends at the first cut. */
  lemma FirstSpanIs(body: string, j: nat)
    requires j < |body| && CutTarget(body, j) != 0 && forall k :: 0 <= k < j ==> body[k] != ','
    ensures Spans(body)[..1] == [Span(0, j)] && |Spans(body)| >= 2
  {
    var spans := Spans(body);
    SpansTile(body);
    CutMakesTwoSpans(body, j);
    assert Tiled(body, spans, 0);
    assert CutsOf(body)(j) != 0;
    TargetOfCut(body, spans[0].to);
  }

  /** The clauses of one column whose default is a literal with a comma and ADD COLUMN in it. */
  function OneColumn(first: string, second: string): string {
    ADD_COLUMN + first + (", " + (ADD_COLUMN + second))
  }

  /** The statement has all its literals closed and is split, and its first part ends within a literal. */
  predicate CutsLiteral(name: string, body: string, before: string) {
    var stmt := Prefix(name) + " " + body;
    && !OpenLiteral(body) && OpenLiteral(before)
    && SplitStatement(stmt) != [stmt] && NameOf(stmt) == name && SplitStatement(stmt)[0] == Prefix(name) + " " + before
  }

  /** A comma in a literal is taken for one between clauses when ADD COLUMN follows it: the statement, which has a
      single column, is split in the middle of its literal. */
  lemma LiteralIsCut(name: string, first: string, second: string)
    requires Gapless(name) && Solid(name) && Trimmed(ADD_COLUMN + first, SPACES) && Trimmed(ADD_COLUMN + second, SPACES)
    requires ',' !in first && OpenLiteral(first) && OpenLiteral(second)
    ensures CutsLiteral(name, OneColumn(first, second), ADD_COLUMN + first)
  {
    OneColumnShape(first, second);
    LiteralQuotes(first, second);
    FirstPartIs(name, OneColumn(first, second), ADD_COLUMN + first);
  }

  /** The first cut of the body is behind this text. */
  predicate FirstCutAt(body: string, before: string) {
    && body != "" && Trimmed(body, SPACES) && !BeginsWithCut(body) && MatchesAt(body, 0, ADD_COLUMN)
    && 0 < |before| < |body| && body[..|before|] == before && CutTarget(body, |before|) != 0 && Trimmed(before, SPACES)
    && forall k :: 0 <= k < |before| ==> body[k] != ','
  }

  lemma FirstPartIs(name: string, body: string, before: string)
    requires Gapless(name) && Solid(name) && FirstCutAt(body, before) && !OpenLiteral(body) && OpenLiteral(before)
    ensures CutsLiteral(name, body, before)
  {
    var stmt := Prefix(name) + " " + body;
    WrittenStatement(name, body);
    WrittenIsSplit(name, body, 0, |before|);
    SplitHasParts(stmt);
    PartAt(stmt, 0);
    FirstClauseIs(body, before);
  }

  lemma PatternHasNoQuotes()
    ensures Quotes(ADD_COLUMN) == 0 && Quotes(", ") == 0
  {
    NoQuotes(ADD_COLUMN);
    NoQuotes(", ");
  }

  lemma QuotesOfPieces(column: string, first: string, comma: string, second: string)
    ensures Quotes(column + first) == Quotes(column) + Quotes(first)
    ensures Quotes(column + first + (comma + (column + second))) ==
            Quotes(column) + Quotes(first) + Quotes(comma) + Quotes(column) + Quotes(second)
  {
    QuotesJoin(column, first);
    QuotesJoin(column, second);
    QuotesJoin(comma, column + second);
    QuotesJoin(column + first, comma + (column + second));
  }

  lemma LiteralQuotes(first: string, second: string)
    requires OpenLiteral(first) && OpenLiteral(second)
    ensures OpenLiteral(ADD_COLUMN + first) && !OpenLiteral(OneColumn(first, second))
  {
    PatternHasNoQuotes();
    QuotesOfPieces(ADD_COLUMN, first, ", ", second);
  }

  lemma OneColumnShape(first: string, second: string)
    requires Trimmed(ADD_COLUMN + first, SPACES) && Trimmed(ADD_COLUMN + second, SPACES) && ',' !in first
    ensures FirstCutAt(OneColumn(first, second), ADD_COLUMN + first)
  {
    var before, tail := ADD_COLUMN + first, ", " + (ADD_COLUMN + second);
    ColumnAfterComma(before, second);
    PatternIsHead(first, tail);
    EndIsKept(before, tail, ADD_COLUMN + second);
    assert forall k :: 0 <= k < |before| ==> (before + tail)[k] == before[k] && before[k] in before;
  }

  lemma PatternIsHead(first: string, tail: string)
    ensures MatchesAt(ADD_COLUMN + first + tail, 0, ADD_COLUMN)
  {
    ShiftedMatch("", first + tail);
    assert "" + (ADD_COLUMN + (first + tail)) == ADD_COLUMN + first + tail;
  }

  lemma EndIsKept(before: string, tail: string, last: string)
    requires before != "" && before[0] !in SPACES && tail == ", " + last && last != "" && Trimmed(last, SPACES)
    ensures Trimmed(before + tail, SPACES) && (before + tail)[0] == before[0]
  {
    assert (before + tail)[|before + tail| - 1] == last[|last| - 1];
  }

  lemma FirstClauseIs(body: string, before: string)
    requires FirstCutAt(body, before)
    ensures ClauseAt(body, 0) == before
  {
    FirstSpanIs(body, |before|);
    assert Spans(body)[0] == Spans(body)[..1][0];
    assert body[0..|before|] == before;
    TrimmedIsFixed(before, SPACES);
  }

  // ----- the statement it is meant for -----

  /** Two columns, each without a comma before a further ADD COLUMN, give one statement each. */
  lemma TwoColumnsAreSplit(name: string, first: string, second: string)
    requires Gapless(name) && Solid(name)
    requires Trimmed(ADD_COLUMN + first, SPACES) && Trimmed(ADD_COLUMN + second, SPACES)
    requires Uncut(ADD_COLUMN + first) && Uncut(ADD_COLUMN + second)
    ensures SplitStatement("ALTER TABLE " + name + " ADD COLUMN" + first + ", ADD COLUMN" + second) ==
            ["ALTER TABLE " + name + " ADD COLUMN" + first, "ALTER TABLE " + name + " ADD COLUMN" + second]
  {
    WrittenOut(name, first, second);
    ColumnsShape(first, second);
    TwoPieces(name, OneColumn(first, second), ADD_COLUMN + first, ADD_COLUMN + second);
  }

  lemma WrittenOut(name: string, first: string, second: string)
    ensures "ALTER TABLE " + name + " ADD COLUMN" + first + ", ADD COLUMN" + second == Prefix(name) + " " + OneColumn(first, second)
    ensures "ALTER TABLE " + name + " ADD COLUMN" + first == Prefix(name) + " " + (ADD_COLUMN + first)
    ensures "ALTER TABLE " + name + " ADD COLUMN" + second == Prefix(name) + " " + (ADD_COLUMN + second)
  {
  }

  /** Behind the first piece stands a comma, a blank and the second piece, and there is no cut but that one. */
  predicate CutOnce(body: string, first: string, second: string) {
    && body != "" && Trimmed(body, SPACES) && first != "" && Trimmed(first, SPACES) && second != "" && Trimmed(second, SPACES)
    && |body| == |first| + 2 + |second| && body[..|first|] == first && body[|first| + 2..] == second
    && MatchesAt(body, 0, ADD_COLUMN) && CutTarget(body, |first|) == |first| + 2
    && forall k :: 0 <= k < |body| && k != |first| ==> CutTarget(body, k) == 0
  }

  lemma SpansOfTwo(body: string, first: string, second: string)
    requires CutOnce(body, first, second)
    ensures Spans(body) == [Span(0, |first|), Span(|first| + 2, |body|)]
  {
    var spans := Spans(body);
    SpansTile(body);
    CutMakesTwoSpans(body, |first|);
    assert Tiled(body, spans, 0) && Tiled(body, spans, 1);
    assert spans[0].to == |first|;
    if |spans| > 2 {
      assert false;
    }
  }

  lemma TwoPieces(name: string, body: string, first: string, second: string)
    requires Gapless(name) && Solid(name) && CutOnce(body, first, second)
    ensures SplitStatement(Prefix(name) + " " + body) == [Prefix(name) + " " + first, Prefix(name) + " " + second]
  {
    SpansOfTwo(body, first, second);
    WrittenStatement(name, body);
    WrittenIsSplit(name, body, 0, |first|);
    ClausesOfTwo(body, first, second);
    TwoParts(Prefix(name) + " " + body, name, body);
  }

  lemma TwoParts(stmt: string, name: string, body: string)
    requires SplitStatement(stmt) != [stmt] && NameOf(stmt) == name && BodyOf(stmt) == body && !BeginsWithCut(body) && |Spans(body)| == 2
    ensures SplitStatement(stmt) == [Prefix(name) + " " + ClauseAt(body, 0), Prefix(name) + " " + ClauseAt(body, 1)]
  {
    SplitHasParts(stmt);
    PartAt(stmt, 0);
    PartAt(stmt, 1);
  }

  lemma ClausesOfTwo(body: string, first: string, second: string)
    requires CutOnce(body, first, second)
    ensures ClauseAt(body, 0) == first && ClauseAt(body, 1) == second
  {
    SpansOfTwo(body, first, second);
    assert body[0..|first|] == first && body[|first| + 2..|body|] == second;
    TrimmedIsFixed(first, SPACES);
    TrimmedIsFixed(second, SPACES);
  }

  lemma ColumnsShape(first: string, second: string)
    requires Trimmed(ADD_COLUMN + first, SPACES) && Trimmed(ADD_COLUMN + second, SPACES)
    requires Uncut(ADD_COLUMN + first) && Uncut(ADD_COLUMN + second)
    ensures CutOnce(OneColumn(first, second), ADD_COLUMN + first, ADD_COLUMN + second)
  {
    var before, last := ADD_COLUMN + first, ADD_COLUMN + second;
    var body := before + (", " + last);
    ColumnCut(before, second);
    PatternIsHead(first, ", " + last);
    EndIsKept(before, ", " + last, last);
    forall k | 0 <= k < |body| && k != |before| ensures CutTarget(body, k) == 0 {
      NoOtherCut(before, last, k);
    }
  }

  lemma ColumnCut(before: string, column: string)
    ensures CutTarget(before + (", " + (ADD_COLUMN + column)), |before|) == |before| + 2
  {
    var body := before + (", " + (ADD_COLUMN + column));
    var i := |before|;
    ColumnAfterComma(before, column);
    assert body[i + 1] == ' ' && body[i + 2] == ADD_COLUMN[0] && body[i + 1..i + 2] == " ";
    SkipsTo(body, i + 1, i + 2);
  }

  /** The target of a cut before a comma is before it, too, with all of its ADD COLUMN. */
  lemma TargetBeforeComma(body: string, j: nat, k: nat)
    requires k < j < |body| && body[j] == ',' && CutTarget(body, k) != 0
    ensures CutTarget(body, k) + |ADD_COLUMN| <= j
  {
    var target := CutTarget(body, k);
    NoCommaToTarget(body, k);
    if target <= j < target + |ADD_COLUMN| {
      PatternIsSolid(body, target, j - target);
    }
  }

  lemma NoCommaToTarget(body: string, k: nat)
    requires CutTarget(body, k) != 0
    ensures forall i :: k < i <= CutTarget(body, k) ==> body[i] != ','
  {
    var target := CutTarget(body, k);
    TargetOfCut(body, k);
    forall i | k < i < target ensures body[i] != ',' {
      assert body[k + 1..target][i - k - 1] == body[i];
    }
  }

  /** A cut of the whole text that is not the one between the pieces would be a cut of one of them. */
  lemma NoOtherCut(before: string, last: string, k: nat)
    requires Uncut(before) && Uncut(last) && k != |before|
    ensures CutTarget(before + (", " + last), k) == 0
  {
    var body := before + (", " + last);
    var j := |before|;
    assert body[j] == ',' && body[j + 1] == ' ' && body[0..j] == before && body[j + 2..|body|] == last;
    if CutTarget(body, k) != 0 {
      TargetOfCut(body, k);
      if k < j {
        TargetBeforeComma(body, j, k);
        CutWithin(body, 0, j, k);
      } else {
        CutWithin(body, j + 2, |body|, k);
      }
    }
  }

  /** A cut whose target lies with its ADD COLUMN in a slice is one of the slice. */
  lemma CutWithin(s: string, from: nat, to: nat, k: nat)
    requires from <= k < to <= |s| && CutTarget(s, k) != 0 && CutTarget(s, k) + |ADD_COLUMN| <= to
    ensures CutTarget(s[from..to], k - from) != 0
  {
    var slice, target := s[from..to], CutTarget(s, k);
    TargetOfCut(s, k);
    SliceOfSlice(s, from, to, k + 1 - from, target - from);
    assert slice[target - from] == s[target];
    SkipsTo(slice, k + 1 - from, target - from);
    forall i | 0 <= i < |ADD_COLUMN| ensures UpperChar(slice[target - from + i]) == ADD_COLUMN[i] {
      assert slice[target - from + i] == s[target + i];
    }
  }

  // ----- a leading comma -----

  /** A body that begins with a comma begins with a cut. */
  lemma LeadingComma(prefix: string, columns: string)
    requires MatchesAt(columns, 0, ADD_COLUMN) && Trimmed("," + columns, SPACES)
    ensures var body := "," + columns;
            BeginsWithCut(body) && |Clauses(prefix, body, Spans(body))| == |Spans(body)| - 1
  {
    var body := "," + columns;
    MatchesInStatement(",", columns, 0);
    PatternIsSolid(columns, 0, 0);
    assert body[1] == columns[0] && body[1..1] == "";
    SkipsTo(body, 1, 1);
    ClausesAreTheTexts(prefix, body);
  }
}
