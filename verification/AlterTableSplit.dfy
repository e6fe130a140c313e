/** Splitting a multi-clause ALTER TABLE ... ADD COLUMN statement into one statement per clause, for SQLite.
    Text is ASCII. */
module AlterTableSplit {
  import opened Options
  import opened Text

  /** The white space the scanner knows; TrimSpace knows two more. */
  const GAPS: set<char> := {' ', '\t', '\n', '\r'}

  const ALTER_TABLE := "ALTER TABLE"

  const ADD_COLUMN := "ADD COLUMN"

  function UpperChar(c: char): char {
    if 'a' <= c <= 'z' then c - 'a' + 'A' else c
  }

  /** strings.HasPrefix(strings.ToUpper(s)[p:], pattern) */
  predicate MatchesAt(s: string, p: nat, pattern: string) {
    p + |pattern| <= |s| && forall k :: 0 <= k < |pattern| ==> UpperChar(s[p + k]) == pattern[k]
  }

  function FirstMatch(s: string, pattern: string, from: nat): (r: Option<nat>)
    ensures r.Some? ==> from <= r.value && MatchesAt(s, r.value, pattern)
    decreases |s| - from
  {
    if from >= |s| then None
    else if MatchesAt(s, from, pattern) then Some(from)
    else FirstMatch(s, pattern, from + 1)
  }

  /** strings.Count from position `from`: matches that do not overlap. */
  function CountMatches(s: string, pattern: string, from: nat): nat
    requires pattern != ""
    decreases |s| - from
  {
    if from >= |s| then 0
    else if MatchesAt(s, from, pattern) then 1 + CountMatches(s, pattern, from + |pattern|)
    else CountMatches(s, pattern, from + 1)
  }

  function FirstGap(s: string, from: nat): (r: Option<nat>)
    requires from <= |s|
    ensures r.Some? ==> from <= r.value < |s|
    decreases |s| - from
  {
    if from == |s| then None
    else if s[from] in GAPS then Some(from)
    else FirstGap(s, from + 1)
  }

  // ----- cuts -----

  function SkipGaps(s: string, from: nat): (r: nat)
    requires from <= |s|
    ensures from <= r <= |s|
    decreases |s| - from
  {
    if from < |s| && s[from] in GAPS then SkipGaps(s, from + 1) else from
  }

  /** For a comma after which, past white space, an ADD COLUMN follows: where that begins; otherwise 0. */
  function CutTarget(s: string, i: nat): (r: nat)
    ensures r != 0 ==> i < r < |s|
  {
    if i < |s| && s[i] == ',' && MatchesAt(s, SkipGaps(s, i + 1), ADD_COLUMN) then SkipGaps(s, i + 1) else 0
  }

  /** The text between two cuts. */
  datatype Span = Span(from: nat, to: nat)

  datatype Scan = Scan(spans: seq<Span>, start: nat)

  /** The spans that end in the first `i` characters, and where the next one starts. */
  function ScanTo(cuts: nat -> nat, i: nat): Scan {
    if i == 0 then Scan([], 0)
    else
      var before := ScanTo(cuts, i - 1);
      if cuts(i - 1) != 0 then Scan(before.spans + [Span(before.start, i - 1)], cuts(i - 1)) else before
  }

  function CutsOf(body: string): nat -> nat {
    i => CutTarget(body, i)
  }

  function Spans(body: string): seq<Span> {
    var scan := ScanTo(CutsOf(body), |body|);
    scan.spans + [Span(scan.start, |body|)]
  }

  function TextOf(body: string, span: Span): string {
    if span.from <= span.to <= |body| then body[span.from..span.to] else ""
  }

  /** The statement for one text, none for a blank one. */
  function StatementFor(prefix: string, body: string): Span -> Option<string> {
    span => var clause := TrimSpace(TextOf(body, span)); if clause == "" then None else Some(prefix + " " + clause)
  }

  function Kept(spans: seq<Span>, statement: Span -> Option<string>): seq<string> {
    if spans == [] then []
    else
      var n := |spans| - 1;
      Kept(spans[..n], statement) + if statement(spans[n]).Some? then [statement(spans[n]).value] else []
  }

  function Clauses(prefix: string, body: string, spans: seq<Span>): seq<string> {
    Kept(spans, StatementFor(prefix, body))
  }

  function Prefix(table: string): string {
    ALTER_TABLE + " " + table
  }

  /** What follows ALTER TABLE: the first word names the table, the rest is the body. */
  function SplitRest(stmt: string, rest: string): seq<string> {
    var nameEnd := FirstGap(rest, 0);
    if nameEnd == None then [stmt]
    else
      var body := TrimSpace(rest[nameEnd.value..]);
      var clauses := Clauses(Prefix(rest[..nameEnd.value]), body, Spans(body));
      if |clauses| <= 1 then [stmt] else clauses
  }

  function SplitStatement(stmt: string): seq<string> {
    var table := FirstMatch(stmt, ALTER_TABLE, 0);
    if table == None || CountMatches(stmt, ADD_COLUMN, 0) <= 1 then [stmt]
    else SplitRest(stmt, TrimSpace(stmt[table.value + |ALTER_TABLE|..]))
  }

  method SplitAlterTableAddColumns(stmt: string) returns (stmts: seq<string>)
    ensures stmts == SplitStatement(stmt)
  {
    var table := FirstMatch(stmt, ALTER_TABLE, 0);
    if table == None || CountMatches(stmt, ADD_COLUMN, 0) <= 1 {
      return [stmt];
    }
    stmts := SplitAfterKeyword(stmt, TrimSpace(stmt[table.value + |ALTER_TABLE|..]));
  }

  method SplitAfterKeyword(stmt: string, rest: string) returns (stmts: seq<string>)
    ensures stmts == SplitRest(stmt, rest)
  {
    var nameEnd := FirstGap(rest, 0);
    if nameEnd == None {
      return [stmt];
    }
    var prefix, body := Prefix(rest[..nameEnd.value]), TrimSpace(rest[nameEnd.value..]);
    stmts := SplitBody(prefix, body);
    if |stmts| <= 1 {
      stmts := [stmt];
    }
  }

  method AfterGaps(s: string, from: nat) returns (j: nat)
    requires from <= |s|
    ensures j == SkipGaps(s, from)
  {
    j := from;
    while j < |s| && s[j] in GAPS
      invariant from <= j <= |s| && SkipGaps(s, from) == SkipGaps(s, j)
    {
      j := j + 1;
    }
  }

  method SplitBody(prefix: string, body: string) returns (clauses: seq<string>)
    ensures clauses == Clauses(prefix, body, Spans(body))
  {
    clauses := [];
    var start: nat := 0;
    ghost var spans: seq<Span> := [];
    for i := 0 to |body|
      invariant ScanTo(CutsOf(body), i) == Scan(spans, start) && start <= |body|
      invariant clauses == Clauses(prefix, body, spans)
    {
      if body[i] != ',' {
        continue;
      }
      var j := AfterGaps(body, i + 1);
      assert CutTarget(body, i) == if MatchesAt(body, j, ADD_COLUMN) then j else 0;
      assert CutsOf(body)(i) == CutTarget(body, i);
      if MatchesAt(body, j, ADD_COLUMN) {
        StartIsNotPast(body, i);
        var clause := TrimSpace(body[start..i]);
        if clause != "" {
          clauses := clauses + [prefix + " " + clause];
        }
        OneMoreKept(spans, Span(start, i), StatementFor(prefix, body));
        spans := spans + [Span(start, i)];
        start := j;
      }
    }
    var clause := TrimSpace(body[start..]);
    if clause != "" {
      clauses := clauses + [prefix + " " + clause];
    }
    assert body[start..] == body[start..|body|];
    OneMoreKept(spans, Span(start, |body|), StatementFor(prefix, body));
  }

  lemma OneMoreKept(spans: seq<Span>, span: Span, statement: Span -> Option<string>)
    ensures Kept(spans + [span], statement) ==
            Kept(spans, statement) + if statement(span).Some? then [statement(span).value] else []
  {
    assert (spans + [span])[..|spans|] == spans;
  }

  // ----- cuts are apart from each other -----

  predicate AllGaps(s: string) {
    forall k :: 0 <= k < |s| ==> s[k] in GAPS
  }

  lemma {:induction false} SkipGapsSkips(s: string, from: nat)
    requires from <= |s|
    ensures AllGaps(s[from..SkipGaps(s, from)])
    decreases |s| - from
  {
    if from < |s| && s[from] in GAPS {
      SkipGapsSkips(s, from + 1);
      var next := SkipGaps(s, from);
      assert s[from..next] == [s[from]] + s[from + 1..next];
    }
  }

  lemma {:induction false} SkipsTo(s: string, from: nat, to: nat)
    requires from <= to < |s| && s[to] !in GAPS && AllGaps(s[from..to])
    ensures SkipGaps(s, from) == to
    decreases |s| - from
  {
    if from < to {
      assert s[from..to][0] == s[from] && s[from..to][1..] == s[from + 1..to];
      SkipsTo(s, from + 1, to);
    }
  }

  /** The target of a cut is a letter; what comes before it, back to the comma, is white space. */
  lemma TargetOfCut(s: string, i: nat)
    requires CutTarget(s, i) != 0
    ensures s[i] == ',' && AllGaps(s[i + 1..CutTarget(s, i)])
    ensures UpperChar(s[CutTarget(s, i)]) == 'A'
  {
    SkipGapsSkips(s, i + 1);
    assert UpperChar(s[CutTarget(s, i) + 0]) == ADD_COLUMN[0];
  }

  /** No cut from just after a comma up to and including the target. */
  ghost predicate CutsApart(cuts: nat -> nat, n: nat) {
    forall i :: 0 <= i < n && cuts(i) != 0 ==> i < cuts(i) < n && forall k :: i < k <= cuts(i) ==> cuts(k) == 0
  }

  lemma BodyCutsApart(body: string)
    ensures CutsApart(CutsOf(body), |body|)
  {
    forall i | 0 <= i < |body| && CutTarget(body, i) != 0
      ensures forall k :: i < k <= CutTarget(body, i) ==> CutTarget(body, k) == 0
    {
      TargetOfCut(body, i);
      forall k | i < k <= CutTarget(body, i) ensures body[k] != ',' {
        if k < CutTarget(body, i) {
          assert body[i + 1..CutTarget(body, i)][k - i - 1] == body[k];
        }
      }
    }
  }

  /** Where the span after the k-th begins. */
  function Next(scan: Scan, k: nat): nat {
    if k + 1 < |scan.spans| then scan.spans[k + 1].from else scan.start
  }

  /** What the scan has found: spans without a cut inside, each beginning where the cut before it leads, and no cut
      since the start of the next one. */
  ghost predicate WellScanned(cuts: nat -> nat, scan: Scan, i: nat) {
    && (scan.spans == [] ==> scan.start == 0)
    && (scan.spans != [] ==> scan.spans[0].from == 0)
    && (forall k :: 0 <= k < |scan.spans| ==> Between(cuts, scan.spans[k], Next(scan, k)))
    && CutFree(cuts, scan.start, i)
    && (i < scan.start ==> CutFree(cuts, i, scan.start + 1))
  }

  ghost predicate CutFree(cuts: nat -> nat, from: nat, to: nat) {
    forall k :: from <= k < to ==> cuts(k) == 0
  }

  ghost predicate Between(cuts: nat -> nat, span: Span, next: nat) {
    span.from <= span.to && CutFree(cuts, span.from, span.to) && cuts(span.to) == next != 0
  }

  lemma {:induction false} ScanIsWell(cuts: nat -> nat, n: nat, i: nat)
    requires CutsApart(cuts, n) && i <= n
    ensures WellScanned(cuts, ScanTo(cuts, i), i)
  {
    if i > 0 {
      ScanIsWell(cuts, n, i - 1);
      var before, scan := ScanTo(cuts, i - 1), ScanTo(cuts, i);
      if cuts(i - 1) != 0 {
        assert before.start <= i - 1;
        forall k | 0 <= k < |scan.spans|
          ensures Between(cuts, scan.spans[k], Next(scan, k))
        {
          if k < |before.spans| {
            assert Between(cuts, before.spans[k], Next(before, k));
            assert Next(scan, k) == Next(before, k);
          }
        }
      }
    }
  }

  lemma StartIsNotPast(body: string, i: nat)
    requires i < |body| && CutTarget(body, i) != 0
    ensures ScanTo(CutsOf(body), i).start <= i
  {
    BodyCutsApart(body);
    ScanIsWell(CutsOf(body), |body|, i);
    assert CutsOf(body)(i) != 0;
  }

  // ----- nothing is lost but commas and white space -----

  ghost predicate Tiled(body: string, spans: seq<Span>, k: nat)
    requires k < |spans|
  {
    && spans[k].from <= spans[k].to <= |body|
    && CutFree(CutsOf(body), spans[k].from, spans[k].to)
    && (k + 1 < |spans| ==> spans[k].to < |body| && CutTarget(body, spans[k].to) == spans[k + 1].from > 0)
  }

  /** The spans cover the body from end to end, but for the stretches from a cut's comma to its target. */
  lemma SpansTile(body: string)
    ensures Spans(body) != [] && Spans(body)[0].from == 0 && Spans(body)[|Spans(body)| - 1].to == |body|
    ensures forall k :: 0 <= k < |Spans(body)| ==> Tiled(body, Spans(body), k)
  {
    var cuts, spans := CutsOf(body), Spans(body);
    var scan := ScanTo(cuts, |body|);
    BodyCutsApart(body);
    ScanIsWell(cuts, |body|, |body|);
    LastSpanFits(body);
    forall k | 0 <= k < |spans| ensures Tiled(body, spans, k) {
      if k < |scan.spans| {
        assert Between(cuts, scan.spans[k], Next(scan, k));
        assert spans[k] == scan.spans[k];
        assert cuts(spans[k].to) == CutTarget(body, spans[k].to);
      }
    }
  }

  lemma LastSpanFits(body: string)
    ensures ScanTo(CutsOf(body), |body|).start <= |body|
  {
    var cuts := CutsOf(body);
    var scan := ScanTo(cuts, |body|);
    BodyCutsApart(body);
    ScanIsWell(cuts, |body|, |body|);
    if scan.spans != [] {
      var last := |scan.spans| - 1;
      assert Between(cuts, scan.spans[last], Next(scan, last));
      assert cuts(scan.spans[last].to) == CutTarget(body, scan.spans[last].to);
    }
  }

  /** A span's text and the stretch up to the next span. */
  function Stretch(body: string, spans: seq<Span>, k: nat): string
    requires k + 1 < |spans|
  {
    TextOf(body, spans[k]) + TextOf(body, Span(spans[k].to, spans[k + 1].from))
  }

  function Rejoined(body: string, spans: seq<Span>, k: nat): string
    requires k < |spans|
  {
    if k == 0 then "" else Rejoined(body, spans, k - 1) + Stretch(body, spans, k - 1)
  }

  lemma {:induction false} RejoinedTo(body: string, k: nat)
    requires k < |Spans(body)|
    ensures Spans(body)[k].from <= |body| && Rejoined(body, Spans(body), k) == body[..Spans(body)[k].from]
  {
    SpansTile(body);
    if k > 0 {
      RejoinedTo(body, k - 1);
      var spans := Spans(body);
      assert Tiled(body, spans, k - 1) && Tiled(body, spans, k);
      JoinThree(body, spans[k - 1].from, spans[k - 1].to, spans[k].from);
    }
  }

  lemma JoinThree(body: string, a: nat, b: nat, c: nat)
    requires a <= b <= c <= |body|
    ensures body[..a] + (body[a..b] + body[b..c]) == body[..c]
  {
  }

  /** The texts put together again, with what stands between them, are the body; and between two of them stands a
      comma with white space after it. */
  lemma TextsRejoinToBody(body: string)
    ensures var spans := Spans(body); var n := |spans| - 1;
            && n >= 0 && Rejoined(body, spans, n) + TextOf(body, spans[n]) == body
            && forall k :: 0 <= k < n ==> Separator(TextOf(body, Span(spans[k].to, spans[k + 1].from)))
  {
    var spans := Spans(body);
    var n := |spans| - 1;
    SpansTile(body);
    RejoinedTo(body, n);
    assert Tiled(body, spans, n);
    forall k | 0 <= k < n ensures Separator(TextOf(body, Span(spans[k].to, spans[k + 1].from))) {
      SeparatorAt(body, k);
    }
  }

  predicate Separator(s: string) {
    s != "" && s[0] == ',' && AllGaps(s[1..])
  }

  lemma SeparatorAt(body: string, k: nat)
    requires k + 1 < |Spans(body)|
    ensures Separator(TextOf(body, Span(Spans(body)[k].to, Spans(body)[k + 1].from)))
  {
    SpansTile(body);
    var spans := Spans(body);
    assert Tiled(body, spans, k);
    TargetOfCut(body, spans[k].to);
    assert body[spans[k].to..spans[k + 1].from][1..] == body[spans[k].to + 1..spans[k + 1].from];
  }

  // ----- no further cut inside -----

  predicate Uncut(s: string) {
    forall k :: 0 <= k < |s| ==> CutTarget(s, k) == 0
  }

  lemma SliceOfSlice(s: string, from: nat, to: nat, a: nat, b: nat)
    requires from <= to <= |s| && a <= b <= to - from
    ensures s[from..to][a..b] == s[from + a..from + b]
  {
    assert forall i :: 0 <= i < b - a ==> s[from..to][a..b][i] == s[from + a + i];
  }

  /** A cut of a slice is a cut of the whole. */
  lemma CutOfSlice(s: string, from: nat, to: nat, k: nat)
    requires from <= to <= |s| && CutTarget(s[from..to], k) != 0
    ensures CutTarget(s, from + k) == from + CutTarget(s[from..to], k)
  {
    var slice := s[from..to];
    var target := CutTarget(slice, k);
    TargetOfCut(slice, k);
    SliceOfSlice(s, from, to, k + 1, target);
    assert s[from + target] == slice[target];
    SkipsTo(s, from + k + 1, from + target);
    forall j | 0 <= j < |ADD_COLUMN| ensures UpperChar(s[from + target + j]) == ADD_COLUMN[j] {
      assert s[from + target + j] == slice[target + j];
    }
  }

  lemma SliceIsUncut(s: string, from: nat, to: nat)
    requires from <= to <= |s| && CutFree(CutsOf(s), from, to)
    ensures Uncut(s[from..to])
  {
    forall k | 0 <= k < to - from ensures CutTarget(s[from..to], k) == 0 {
      assert CutsOf(s)(from + k) == 0;
      if CutTarget(s[from..to], k) != 0 {
        CutOfSlice(s, from, to, k);
      }
    }
  }

  lemma TextIsUncut(body: string, k: nat)
    requires k < |Spans(body)|
    ensures Uncut(TextOf(body, Spans(body)[k]))
  {
    SpansTile(body);
    assert Tiled(body, Spans(body), k);
    SliceIsUncut(body, Spans(body)[k].from, Spans(body)[k].to);
  }

  // ----- one clause per text -----

  predicate Solid(text: string) {
    text != "" && text[0] !in SPACES
  }

  lemma SolidIsKept(text: string)
    requires Solid(text)
    ensures TrimSpace(text) != ""
  {
    TrimRightCuts(text, SPACES);
  }

  lemma {:induction false} TrimLeftKeepsLast(text: string)
    requires text != "" && text[|text| - 1] !in SPACES
    ensures TrimLeft(text, SPACES) != "" && TrimLeft(text, SPACES)[|TrimLeft(text, SPACES)| - 1] == text[|text| - 1]
  {
    if text[0] in SPACES {
      TrimLeftKeepsLast(text[1..]);
    }
  }

  lemma SolidEndIsKept(text: string)
    requires text != "" && text[|text| - 1] !in SPACES
    ensures TrimSpace(text) != ""
  {
    TrimLeftKeepsLast(text);
  }

  lemma {:induction false} AllKept(spans: seq<Span>, statement: Span -> Option<string>)
    requires forall k :: 0 <= k < |spans| ==> statement(spans[k]).Some?
    ensures |Kept(spans, statement)| == |spans|
    ensures forall k :: 0 <= k < |spans| ==> Kept(spans, statement)[k] == statement(spans[k]).value
  {
    if spans != [] {
      AllKept(spans[..|spans| - 1], statement);
    }
  }

  lemma {:induction false} KeptAfterBlank(spans: seq<Span>, statement: Span -> Option<string>)
    requires spans != [] && statement(spans[0]) == None
    ensures Kept(spans, statement) == Kept(spans[1..], statement)
  {
    if |spans| > 1 {
      var n := |spans| - 1;
      KeptAfterBlank(spans[..n], statement);
      assert spans[..n][1..] == spans[1..][..n - 1];
    }
  }

  /** Every text but perhaps the first is solid; the first is blank exactly when the body begins with a cut. */
  lemma TextsAreSolid(body: string, k: nat)
    requires Trimmed(body, SPACES) && body != "" && k < |Spans(body)|
    ensures k > 0 || CutTarget(body, 0) == 0 ==> Solid(TextOf(body, Spans(body)[k]))
    ensures k == 0 && CutTarget(body, 0) != 0 ==> TextOf(body, Spans(body)[k]) == ""
  {
    SpansTile(body);
    var spans := Spans(body);
    assert Tiled(body, spans, k);
    assert CutsOf(body)(0) == CutTarget(body, 0);
    if k > 0 {
      assert Tiled(body, spans, k - 1);
      TargetOfCut(body, spans[k - 1].to);
      assert body[spans[k].from] != ',';
      if k + 1 < |spans| {
        TargetOfCut(body, spans[k].to);
      }
    }
  }

  /** The statements are the texts in order, trimmed and each behind the prefix. A body that begins with a cut
      gives none for the blank text before it. */
  lemma ClausesAreTheTexts(prefix: string, body: string)
    requires Trimmed(body, SPACES) && body != ""
    ensures var spans, skipped := Spans(body), if CutTarget(body, 0) != 0 then 1 else 0;
            && |Clauses(prefix, body, spans)| == |spans| - skipped
            && forall k :: 0 <= k < |spans| - skipped ==>
                 StatementFor(prefix, body)(spans[k + skipped]) == Some(Clauses(prefix, body, spans)[k])
  {
    var spans, statement := Spans(body), StatementFor(prefix, body);
    SpansTile(body);
    forall k | 0 <= k < |spans| && (k > 0 || CutTarget(body, 0) == 0) ensures statement(spans[k]).Some? {
      TextsAreSolid(body, k);
      SolidIsKept(TextOf(body, spans[k]));
    }
    if CutTarget(body, 0) != 0 {
      TextsAreSolid(body, 0);
      assert statement(spans[0]) == None;
      KeptAfterBlank(spans, statement);
      AllKept(spans[1..], statement);
    } else {
      AllKept(spans, statement);
    }
  }

  // ----- splitting again -----

  lemma TrimIsSlice(s: string)
    ensures exists a, b {:trigger s[a..b]} :: 0 <= a <= b <= |s| && TrimSpace(s) == s[a..b]
  {
    var a := TrimLeftCuts(s, SPACES);
    TrimRightCuts(s[a..], SPACES);
    var m := |TrimSpace(s)|;
    assert TrimSpace(s) == s[a..][..m] == s[a..a + m];
  }

  lemma TrimmedTextIsUncut(text: string)
    requires Uncut(text)
    ensures Uncut(TrimSpace(text))
  {
    TrimIsSlice(text);
    var a, b :| 0 <= a <= b <= |text| && TrimSpace(text) == text[a..b];
    SliceIsUncut(text, a, b);
  }

  lemma {:induction false} CutFreeScan(cuts: nat -> nat, i: nat)
    requires CutFree(cuts, 0, i)
    ensures ScanTo(cuts, i) == Scan([], 0)
  {
    if i > 0 {
      CutFreeScan(cuts, i - 1);
      assert cuts(i - 1) == 0;
    }
  }

  lemma UncutHasOneSpan(body: string)
    requires Uncut(body)
    ensures Spans(body) == [Span(0, |body|)]
  {
    CutFreeScan(CutsOf(body), |body|);
  }

  predicate Gapless(s: string) {
    forall k :: 0 <= k < |s| ==> s[k] !in GAPS
  }

  lemma {:induction false} FirstGapIs(s: string, from: nat, to: nat)
    requires from <= to < |s| && s[to] in GAPS && Gapless(s[from..to])
    ensures FirstGap(s, from) == Some(to)
    decreases |s| - from
  {
    if from < to {
      assert s[from..to][0] == s[from] && s[from..to][1..] == s[from + 1..to];
      FirstGapIs(s, from + 1, to);
    }
  }

  lemma {:induction false} GaplessToFirst(s: string, from: nat)
    requires from <= |s| && FirstGap(s, from).Some?
    ensures Gapless(s[from..FirstGap(s, from).value]) && s[FirstGap(s, from).value] in GAPS
    decreases |s| - from
  {
    if s[from] !in GAPS {
      GaplessToFirst(s, from + 1);
      var to := FirstGap(s, from).value;
      assert s[from..to] == [s[from]] + s[from + 1..to];
    }
  }

  lemma TrimOneSpace(s: string)
    requires Trimmed(s, SPACES)
    ensures TrimSpace(" " + s) == s
  {
    var padded := " " + s;
    assert padded[0] == ' ' && padded[1..] == s;
    assert TrimLeft(padded, SPACES) == TrimLeft(s, SPACES) == s;
  }

  /** A name and a single uncut clause are not split. */
  lemma ClauseIsNotSplit(stmt: string, name: string, clause: string)
    requires Gapless(name) && clause != "" && Trimmed(clause, SPACES) && Uncut(clause)
    ensures SplitRest(stmt, name + (" " + clause)) == [stmt]
  {
    var rest := name + (" " + clause);
    assert rest[0..|name|] == rest[..|name|] == name && rest[|name|] == ' ' && rest[|name|..] == " " + clause;
    FirstGapIs(rest, 0, |name|);
    TrimOneSpace(clause);
    UncutHasOneSpan(clause);
    AtMostOneKept(Span(0, |clause|), StatementFor(Prefix(name), clause));
  }

  lemma AtMostOneKept(span: Span, statement: Span -> Option<string>)
    ensures |Kept([span], statement)| <= 1
  {
    assert [] + [span] == [span];
    OneMoreKept([], span, statement);
  }

  lemma StartsWithAlterTable(rest: string)
    ensures FirstMatch(ALTER_TABLE + rest, ALTER_TABLE, 0) == Some(0)
  {
    assert MatchesAt(ALTER_TABLE + rest, 0, ALTER_TABLE);
  }

  lemma OutputIsNotSplit(name: string, clause: string)
    requires Gapless(name) && Solid(name) && clause != "" && Trimmed(clause, SPACES) && Uncut(clause)
    ensures SplitStatement(Prefix(name) + " " + clause) == [Prefix(name) + " " + clause]
  {
    var rest := name + (" " + clause);
    var out := Prefix(name) + " " + clause;
    OutputShape(name, clause);
    StartsWithAlterTable(" " + rest);
    assert rest[|rest| - 1] == clause[|clause| - 1] && rest[0] == name[0];
    TrimOneSpace(rest);
    DropPrefix(ALTER_TABLE, " " + rest);
    ClauseIsNotSplit(out, name, clause);
  }

  lemma OutputShape(name: string, clause: string)
    ensures Prefix(name) + " " + clause == ALTER_TABLE + (" " + (name + (" " + clause)))
  {
  }

  lemma DropPrefix(prefix: string, rest: string)
    ensures (prefix + rest)[|prefix|..] == rest
  {
  }

  lemma PartIsNotSplit(stmt: string, rest: string, k: nat)
    requires Trimmed(rest, SPACES) && SplitRest(stmt, rest) != [stmt] && k < |SplitRest(stmt, rest)|
    ensures SplitStatement(SplitRest(stmt, rest)[k]) == [SplitRest(stmt, rest)[k]]
  {
    var nameEnd := FirstGap(rest, 0).value;
    var name, body := rest[..nameEnd], TrimSpace(rest[nameEnd..]);
    NameAndBody(rest);
    StatementOfSpan(Prefix(name), body, k);
    var j := k + if CutTarget(body, 0) != 0 then 1 else 0;
    SpanClause(body, j);
    OutputIsNotSplit(name, TrimSpace(TextOf(body, Spans(body)[j])));
  }

  lemma NameAndBody(rest: string)
    requires Trimmed(rest, SPACES) && FirstGap(rest, 0).Some?
    ensures var nameEnd := FirstGap(rest, 0).value;
            && Solid(rest[..nameEnd]) && Gapless(rest[..nameEnd])
            && Trimmed(TrimSpace(rest[nameEnd..]), SPACES) && TrimSpace(rest[nameEnd..]) != ""
  {
    var nameEnd := FirstGap(rest, 0).value;
    GaplessToFirst(rest, 0);
    assert rest[0..nameEnd] == rest[..nameEnd] && rest[0] !in SPACES && rest[nameEnd] in SPACES;
    assert rest[..nameEnd][0] == rest[0];
    TrimIsTrimmed(rest[nameEnd..], SPACES);
    SolidEndIsKept(rest[nameEnd..]);
  }

  lemma StatementOfSpan(prefix: string, body: string, k: nat)
    requires Trimmed(body, SPACES) && body != "" && k < |Clauses(prefix, body, Spans(body))|
    ensures var j := k + if CutTarget(body, 0) != 0 then 1 else 0;
            && j < |Spans(body)| && (j > 0 || CutTarget(body, 0) == 0)
            && TrimSpace(TextOf(body, Spans(body)[j])) != ""
            && Clauses(prefix, body, Spans(body))[k] == prefix + " " + TrimSpace(TextOf(body, Spans(body)[j]))
  {
    ClausesAreTheTexts(prefix, body);
    var j := k + if CutTarget(body, 0) != 0 then 1 else 0;
    assert StatementFor(prefix, body)(Spans(body)[j]) == Some(Clauses(prefix, body, Spans(body))[k]);
  }

  lemma SpanClause(body: string, j: nat)
    requires j < |Spans(body)|
    ensures var clause := TrimSpace(TextOf(body, Spans(body)[j])); Trimmed(clause, SPACES) && Uncut(clause)
  {
    TextIsUncut(body, j);
    TrimmedTextIsUncut(TextOf(body, Spans(body)[j]));
    TrimIsTrimmed(TextOf(body, Spans(body)[j]), SPACES);
  }

  /** For every statement, splitting any of its parts again returns that part unchanged. */
  lemma SplittingAgainChangesNothing(stmt: string, k: nat)
    requires k < |SplitStatement(stmt)|
    ensures SplitStatement(SplitStatement(stmt)[k]) == [SplitStatement(stmt)[k]]
  {
    if SplitStatement(stmt) != [stmt] {
      var after := stmt[FirstMatch(stmt, ALTER_TABLE, 0).value + |ALTER_TABLE|..];
      TrimIsTrimmed(after, SPACES);
      PartIsNotSplit(stmt, TrimSpace(after), k);
    }
  }

  // ----- cuts in plain terms -----

  /** The text has ADD COLUMN at this place, in capital or small letters. */
  predicate ColumnAt(s: string, t: nat) {
    t + 10 <= |s| && forall k :: 0 <= k < 10 ==> s[t + k] == "ADD COLUMN"[k] || (s[t + k] == "add column"[k])
  }

  /** A cut is a comma with ADD COLUMN behind it and between them nothing but blanks, tabs and line ends. */
  lemma CutIff(s: string, i: nat, t: nat)
    requires t > 0
    ensures CutTarget(s, i) == t <==>
              && i < t < |s| && s[i] == ',' && ColumnAt(s, t)
              && forall k :: i < k < t ==> s[k] == ' ' || s[k] == '\t' || s[k] == '\n' || s[k] == '\r'
  {
    if i < |s| && t <= |s| {
      MatchIsColumn(s, t);
      if CutTarget(s, i) == t {
        SkipGapsSkips(s, i + 1);
        forall k | i < k < t ensures s[k] in GAPS {
          assert s[k] == s[i + 1..t][k - (i + 1)];
        }
      } else if i < t < |s| && s[i] == ',' && ColumnAt(s, t) && (forall k :: i < k < t ==> s[k] in {' ', '\t', '\n', '\r'}) {
        assert s[t + 0] == "ADD COLUMN"[0] || s[t + 0] == "add column"[0];
        SkipsTo(s, i + 1, t);
      }
    }
  }

  lemma MatchIsColumn(s: string, t: nat)
    ensures MatchesAt(s, t, ADD_COLUMN) <==> ColumnAt(s, t)
  {
    if t + 10 <= |s| {
      forall k | 0 <= k < 10 ensures UpperChar(s[t + k]) == ADD_COLUMN[k] <==> s[t + k] == "ADD COLUMN"[k] || s[t + k] == "add column"[k] {
        SmallLetter(k);
      }
    }
  }

  lemma SmallLetter(k: nat)
    requires k < 10
    ensures "add column"[k] == if k == 3 then ' ' else "ADD COLUMN"[k] - 'A' + 'a'
    ensures k != 3 ==> 'A' <= "ADD COLUMN"[k] <= 'Z'
    ensures k == 3 ==> "ADD COLUMN"[k] == ' '
  {
  }
}
