/** From the candidates a planning model generated to ranked drafts: first of each title, scored, sorted, numbered. */
module Ranking {
  import opened FirstOccurrences
  import opened Scoring
  import opened Sorting
  import opened Text

  datatype Generated = Generated(suggestionType: string, title: string, description: string, rationale: string)

  datatype Draft = Draft(kind: Kind, title: string, description: string, rationale: string, priority: real, confidence: real,
                         evidence: seq<string>, duplicates: seq<string>, factors: Factors, breakdown: Breakdown, rank: nat)

  /** The lines of evidence, apart from those on duplicates. `workflow` and `alone`, what validation says without a
      duplicate, word the open tasks; the two functions word a list of duplicates. */
  datatype Lines = Lines(requirement: seq<string>, related: seq<string>, stale: seq<string>, drift: seq<string>,
                         sync: seq<string>, failures: seq<string>, activity: seq<string>,
                         workflow: string, alone: string, overlap: seq<string> -> string, potential: seq<string> -> string)

  /** The planning context as far as it enters: facts, the titles of the open tasks, lines of evidence, and the texts
      that fill an empty description or rationale. */
  datatype Context = Context(facts: Facts, openTasks: seq<string>, lines: Lines, description: string, rationale: Kind -> string)

  // ----- texts -----

  function NormalizeGeneratedSuggestionType(raw: string, index: nat): Kind {
    var suggestionType := Lower(TrimSpace(raw));
    if suggestionType == "implementation" then Implementation
    else if suggestionType == "integration" then Integration
    else if suggestionType == "validation" then Validation
    else if index == 1 then Integration
    else if index >= 2 then Validation
    else Implementation
  }

  function Join(words: seq<string>): string {
    if words == [] then "" else if |words| == 1 then words[0] else words[0] + " " + Join(words[1..])
  }

  function NormalizeTitle(value: string): string {
    Join(Fields(Lower(TrimSpace(value))))
  }

  lemma {:induction false} FieldsOfJoin(words: seq<string>)
    requires AllWords(words)
    ensures Fields(Join(words)) == words
  {
    if words != [] {
      FieldsOfJoin(words[1..]);
      if |words| == 1 {
        FieldsOfWord(words[0], "");
        assert words[0] + "" == words[0];
      } else {
        var rest := " " + Join(words[1..]);
        FieldsOfWord(words[0], rest);
        assert rest[1..] == Join(words[1..]);
        assert words[0] + " " + Join(words[1..]) == words[0] + rest;
      }
    }
  }

  /** Two titles count as the same exactly when their words agree but for case. */
  lemma SameTitleIff(a: string, b: string)
    ensures NormalizeTitle(a) == NormalizeTitle(b) <==> Fields(Lower(TrimSpace(a))) == Fields(Lower(TrimSpace(b)))
  {
    FieldsAreWords(Lower(TrimSpace(a)));
    FieldsAreWords(Lower(TrimSpace(b)));
    FieldsOfJoin(Fields(Lower(TrimSpace(a))));
    FieldsOfJoin(Fields(Lower(TrimSpace(b))));
  }

  // ----- duplicates and evidence -----

  /** Some open task has a title that is not blank. */
  predicate HasOpenTask(tasks: seq<string>) {
    exists i :: 0 <= i < |tasks| && TrimSpace(tasks[i]) != ""
  }

  function NonBlank(tasks: seq<string>): seq<string> {
    if tasks == [] then []
    else
      var n := |tasks| - 1;
      NonBlank(tasks[..n]) + if TrimSpace(tasks[n]) == "" then [] else [TrimSpace(tasks[n])]
  }

  /** The first titles that are not blank, at least one if there is one: so the list is empty exactly when no task
      has a title. */
  method SummarizeOpenTaskTitles(tasks: seq<string>, limit: int) returns (items: seq<string>)
    ensures items <= NonBlank(tasks) && |items| <= (if limit < 1 then 1 else limit)
    ensures |items| < (if limit < 1 then 1 else limit) ==> items == NonBlank(tasks)
    ensures items != [] <==> HasOpenTask(tasks)
  {
    var most := if limit < 1 then 1 else limit;
    items := [];
    for i := 0 to |tasks|
      invariant items == NonBlank(tasks[..i]) && |items| < most
    {
      NonBlankGrows(tasks, i);
      var title := TrimSpace(tasks[i]);
      if title == "" {
        continue;
      }
      items := items + [title];
      if |items| == most {
        NonBlankIsPrefix(tasks, i + 1);
        NonBlankIff(tasks);
        return;
      }
    }
    assert tasks[..|tasks|] == tasks;
    NonBlankIff(tasks);
  }

  lemma NonBlankGrows(tasks: seq<string>, i: nat)
    requires i < |tasks|
    ensures NonBlank(tasks[..i + 1]) == NonBlank(tasks[..i]) + if TrimSpace(tasks[i]) == "" then [] else [TrimSpace(tasks[i])]
  {
    assert tasks[..i + 1][..i] == tasks[..i];
  }

  lemma {:induction false} NonBlankIsPrefix(tasks: seq<string>, i: nat)
    requires i <= |tasks|
    ensures NonBlank(tasks[..i]) <= NonBlank(tasks)
    decreases |tasks| - i
  {
    if i < |tasks| {
      NonBlankGrows(tasks, i);
      NonBlankIsPrefix(tasks, i + 1);
    } else {
      assert tasks[..i] == tasks;
    }
  }

  lemma {:induction false} NonBlankIff(tasks: seq<string>)
    ensures NonBlank(tasks) != [] <==> HasOpenTask(tasks)
  {
    if tasks != [] {
      var n := |tasks| - 1;
      NonBlankIff(tasks[..n]);
      assert forall i :: 0 <= i < n ==> tasks[..n][i] == tasks[i];
    }
  }

  function Matching(tasks: seq<string>, same: string -> bool, text: string -> string): seq<string> {
    if tasks == [] then []
    else
      var n := |tasks| - 1;
      Matching(tasks[..n], same, text) + if same(tasks[n]) then [text(tasks[n])] else []
  }

  function SameAs(title: string): string -> bool {
    task => NormalizeTitle(task) == NormalizeTitle(title)
  }

  /** The trimmed titles of the tasks whose words agree with the title's. */
  function SameTitles(title: string, tasks: seq<string>): seq<string> {
    Matching(tasks, SameAs(title), TrimSpace)
  }

  function DuplicateTitles(title: string, tasks: seq<string>): seq<string> {
    if NormalizeTitle(title) == "" then [] else Deduped(SameTitles(title, tasks))
  }

  method FindDuplicateTitles(title: string, tasks: seq<string>) returns (titles: seq<string>)
    ensures titles == DuplicateTitles(title, tasks)
  {
    var normalizedTitle := NormalizeTitle(title);
    if normalizedTitle == "" {
      return [];
    }
    var duplicates: seq<string> := [];
    for i := 0 to |tasks|
      invariant duplicates == Matching(tasks[..i], SameAs(title), TrimSpace)
    {
      assert tasks[..i + 1][..i] == tasks[..i];
      if NormalizeTitle(tasks[i]) == normalizedTitle {
        duplicates := duplicates + [TrimSpace(tasks[i])];
      }
    }
    assert tasks[..|tasks|] == tasks;
    titles := DedupeStrings(duplicates);
  }

  predicate SameTitle(title: string, tasks: seq<string>, i: nat) {
    i < |tasks| && NormalizeTitle(tasks[i]) == NormalizeTitle(title)
  }

  predicate MatchesAs(tasks: seq<string>, same: string -> bool, text: string -> string, value: string, i: nat) {
    i < |tasks| && same(tasks[i]) && text(tasks[i]) == value
  }

  lemma {:induction false} MatchingAre(tasks: seq<string>, same: string -> bool, text: string -> string, value: string)
    ensures value in Matching(tasks, same, text) <==> exists i: nat :: MatchesAs(tasks, same, text, value, i)
  {
    if tasks != [] {
      var n := |tasks| - 1;
      MatchingAre(tasks[..n], same, text, value);
      assert forall i: nat :: i < n ==> (MatchesAs(tasks[..n], same, text, value, i) <==> MatchesAs(tasks, same, text, value, i));
      assert MatchesAs(tasks, same, text, value, n) <==> same(tasks[n]) && text(tasks[n]) == value;
    }
  }

  lemma MatchingIsEmpty(tasks: seq<string>, same: string -> bool, text: string -> string)
    requires forall i :: 0 <= i < |tasks| ==> !same(tasks[i])
    ensures Matching(tasks, same, text) == []
  {
  }

  lemma BlankHasNoWords(title: string)
    requires TrimSpace(title) == ""
    ensures NormalizeTitle(title) == ""
  {
  }

  /** A candidate has duplicates iff an open task's title has the same words but for case. */
  lemma DuplicatesIff(title: string, tasks: seq<string>)
    requires NormalizeTitle(title) != ""
    ensures DuplicateTitles(title, tasks) != [] <==> exists i: nat :: SameTitle(title, tasks, i)
  {
    if i: nat :| SameTitle(title, tasks, i) {
      var task := TrimSpace(tasks[i]);
      assert MatchesAs(tasks, SameAs(title), TrimSpace, task, i);
      MatchingAre(tasks, SameAs(title), TrimSpace, task);
      assert task != "" by {
        if task == "" {
          BlankHasNoWords(tasks[i]);
          assert false;
        }
      }
      TrimIsTrimmed(tasks[i], SPACES);
      DedupedIsSome(SameTitles(title, tasks), task);
    } else {
      forall i | 0 <= i < |tasks| ensures !SameAs(title)(tasks[i]) {
        assert !SameTitle(title, tasks, i);
      }
      MatchingIsEmpty(tasks, SameAs(title), TrimSpace);
      assert Deduped([]) == [];
    }
  }

  /** The line that depends on the open tasks. */
  function TaskLine(kind: Kind, lines: Lines, duplicates: seq<string>): (line: seq<string>)
    ensures |line| <= 1
  {
    match kind
    case Integration => [lines.workflow]
    case Validation => if duplicates == [] then [lines.alone] else [lines.overlap(duplicates)]
    case Implementation => if duplicates == [] then [] else [lines.potential(duplicates)]
  }

  function OtherLines(kind: Kind, lines: Lines): seq<string> {
    match kind
    case Integration => lines.related + lines.sync
    case Validation => lines.stale + lines.drift + lines.sync + lines.failures
    case Implementation => lines.related + lines.activity
  }

  function EvidenceOf(kind: Kind, lines: Lines, duplicates: seq<string>): seq<string> {
    Deduped(lines.requirement + TaskLine(kind, lines, duplicates) + OtherLines(kind, lines))
  }

  // ----- drafts -----

  function Titles(generated: seq<Generated>): seq<string> {
    seq(|generated|, i requires 0 <= i < |generated| => TrimSpace(generated[i].title))
  }

  function SeedDraft(candidate: Generated, index: nat, context: Context): Draft {
    var kind := NormalizeGeneratedSuggestionType(candidate.suggestionType, index);
    var title := TrimSpace(candidate.title);
    var duplicates := DuplicateTitles(title, context.openTasks);
    var factors := FactorsOf(kind, index, context.facts, HasOpenTask(context.openTasks), |duplicates|);
    var description, rationale := TrimSpace(candidate.description), TrimSpace(candidate.rationale);
    Draft(kind, title, if description == "" then context.description else description,
          if rationale == "" then context.rationale(kind) else rationale,
          WeightedPriorityScore(factors), ConfidenceSeed(factors.confidence), EvidenceOf(kind, context.lines, duplicates),
          Deduped(Deduped(duplicates)),
          factors, BuildBreakdown(factors, 0, 0, 0.0, 0.0), 0)
  }

  function Scored(draft: Draft): Draft {
    var priority := ComputePriorityScore(|draft.evidence|, |draft.duplicates|, draft.priority);
    var confidence := ComputeConfidence(draft.confidence, |draft.evidence|, |draft.duplicates|);
    draft.(priority := priority, confidence := confidence,
           breakdown := BuildBreakdown(draft.factors, |draft.evidence|, |draft.duplicates|, priority, confidence))
  }

  function Mapped<S, T>(items: seq<S>, f: S -> T): seq<T> {
    seq(|items|, k requires 0 <= k < |items| => f(items[k]))
  }

  function SeedIn(context: Context): (Generated, nat) -> Draft {
    (candidate: Generated, index: nat) => SeedDraft(candidate, index, context)
  }

  /** One draft per first occurrence, scored. */
  function ScoredDrafts(generated: seq<Generated>, context: Context): seq<Draft> {
    Mapped(MakeFirst(generated, Titles(generated), NormalizeTitle, SeedIn(context)), Scored)
  }

  /** Higher priority first, then title. */
  predicate Before(a: Draft, b: Draft) {
    a.priority > b.priority || (a.priority == b.priority && StringBefore(a.title, b.title))
  }

  function Numbered(drafts: seq<Draft>): seq<Draft> {
    seq(|drafts|, k requires 0 <= k < |drafts| => drafts[k].(rank := k + 1))
  }

  function RankedDrafts(generated: seq<Generated>, context: Context): seq<Draft> {
    Numbered(StableSort(ScoredDrafts(generated, context), Before))
  }

  method BuildOpenAICompatibleDrafts(generated: seq<Generated>, context: Context) returns (drafts: seq<Draft>)
    ensures drafts == RankedDrafts(generated, context)
  {
    drafts := CollectFirst(generated, Titles(generated), NormalizeTitle, SeedIn(context));
    drafts := ScoreDrafts(drafts, Scored);
    drafts := StableSort(drafts, Before);
    drafts := NumberDrafts(drafts);
  }

  method ScoreDrafts<D>(seeds: seq<D>, score: D -> D) returns (drafts: seq<D>)
    ensures drafts == Mapped(seeds, score)
  {
    drafts := seeds;
    for i := 0 to |seeds|
      invariant |drafts| == |seeds|
      invariant forall k :: 0 <= k < |seeds| ==> drafts[k] == if k < i then score(seeds[k]) else seeds[k]
    {
      drafts := drafts[i := score(drafts[i])];
    }
  }

  method NumberDrafts(sorted: seq<Draft>) returns (drafts: seq<Draft>)
    ensures drafts == Numbered(sorted)
  {
    drafts := sorted;
    for i := 0 to |sorted|
      invariant |drafts| == |sorted|
      invariant forall k :: 0 <= k < |sorted| ==> drafts[k] == if k < i then sorted[k].(rank := k + 1) else sorted[k]
    {
      drafts := drafts[i := drafts[i].(rank := i + 1)];
    }
  }

  // ----- what the ranked drafts are -----

  lemma BeforeIsTotal()
    ensures TotalPreorder(Before)
  {
    StringOrder();
    forall a: Draft, b: Draft ensures Before(a, b) || Before(b, a) {
      assert StringBefore(a.title, b.title) || StringBefore(b.title, a.title);
    }
    forall a: Draft, b: Draft, c: Draft | Before(a, b) && Before(b, c) ensures Before(a, c) {
      assert StringBefore(a.title, b.title) && StringBefore(b.title, c.title) ==> StringBefore(a.title, c.title);
    }
  }

  /** The ranked drafts are the scored ones, none lost or added, by falling priority and then title, numbered from 1. */
  lemma RankedAreSortedAndNumbered(generated: seq<Generated>, context: Context)
    ensures var scored, ranked := ScoredDrafts(generated, context), RankedDrafts(generated, context);
            && |ranked| == |scored| && Ordered(ranked, Before)
            && (forall k :: 0 <= k < |ranked| ==> ranked[k].rank == k + 1)
            && multiset(Mapped(ranked, Unnumbered)) == multiset(scored)
  {
    var scored := ScoredDrafts(generated, context);
    forall draft | draft in scored ensures draft.rank == 0 {
      ScoredAreUnnumbered(generated, context, draft);
    }
    NumberedSort(scored);
  }

  lemma NumberedSort(drafts: seq<Draft>)
    requires forall draft :: draft in drafts ==> draft.rank == 0
    ensures var ranked := Numbered(StableSort(drafts, Before));
            && |ranked| == |drafts| && Ordered(ranked, Before)
            && (forall k :: 0 <= k < |ranked| ==> ranked[k].rank == k + 1)
            && multiset(Mapped(ranked, Unnumbered)) == multiset(drafts)
  {
    BeforeIsTotal();
    SortOrders(drafts, Before);
    var sorted := StableSort(drafts, Before);
    SameElements(sorted, drafts);
    NumberedIsOrdered(sorted);
    forall k | 0 <= k < |sorted| ensures Unnumbered(Numbered(sorted)[k]) == sorted[k] {
      assert sorted[k] in sorted && sorted[k] in drafts;
    }
    assert Mapped(Numbered(sorted), Unnumbered) == sorted;
  }

  lemma ScoredAt(generated: seq<Generated>, context: Context, k: nat)
    requires k < |ScoredDrafts(generated, context)|
    ensures var picks := Picks(Titles(generated), NormalizeTitle);
            && |picks| == |ScoredDrafts(generated, context)|
            && ScoredDrafts(generated, context)[k] == Scored(SeedDraft(generated[picks[k]], picks[k], context))
  {
  }

  lemma ScoredAreUnnumbered(generated: seq<Generated>, context: Context, draft: Draft)
    requires draft in ScoredDrafts(generated, context)
    ensures draft.rank == 0
  {
    var scored := ScoredDrafts(generated, context);
    var k :| 0 <= k < |scored| && scored[k] == draft;
    ScoredAt(generated, context, k);
  }

  function Unnumbered(draft: Draft): Draft {
    draft.(rank := 0)
  }

  lemma NumberedIsOrdered(sorted: seq<Draft>)
    requires Ordered(sorted, Before)
    ensures Ordered(Numbered(sorted), Before)
  {
    forall i, j | 0 <= i < j < |sorted| ensures Before(Numbered(sorted)[i], Numbered(sorted)[j]) {
      assert Before(sorted[i], sorted[j]);
    }
  }

  /** A scored draft stands for a candidate whose title is not blank and is the first of its normalized form. */
  ghost predicate StandsFor(draft: Draft, generated: seq<Generated>, context: Context, i: nat) {
    FirstOfKey(Titles(generated), NormalizeTitle, i) && draft == Scored(SeedDraft(generated[i], i, context))
  }

  lemma ScoredAreFirstOccurrences(generated: seq<Generated>, context: Context, draft: Draft)
    ensures draft in ScoredDrafts(generated, context) <==> exists i: nat :: StandsFor(draft, generated, context, i)
  {
    var titles := Titles(generated);
    var picks, scored := Picks(titles, NormalizeTitle), ScoredDrafts(generated, context);
    if draft in scored {
      var k :| 0 <= k < |scored| && scored[k] == draft;
      PicksAreFirst(titles, NormalizeTitle, picks[k]);
      assert StandsFor(draft, generated, context, picks[k]);
    }
    if exists i: nat :: StandsFor(draft, generated, context, i) {
      var i: nat :| StandsFor(draft, generated, context, i);
      PicksAreFirst(titles, NormalizeTitle, i);
      var k :| 0 <= k < |picks| && picks[k] == i;
      assert scored[k] == draft;
    }
  }

  /** No two of them have the same normalized title. */
  lemma ScoredTitlesDiffer(generated: seq<Generated>, context: Context, j: nat, k: nat)
    requires j < k < |ScoredDrafts(generated, context)|
    ensures NormalizeTitle(ScoredDrafts(generated, context)[j].title) != NormalizeTitle(ScoredDrafts(generated, context)[k].title)
  {
    ScoredAt(generated, context, j);
    ScoredAt(generated, context, k);
    PicksDiffer(Titles(generated), NormalizeTitle, j, k);
  }

  /** Every ranked draft's priority is in range and is its weighted seed plus the bonus shown minus the penalty shown. */
  lemma RankedPriorityIsShown(draft: Draft, generated: seq<Generated>, context: Context)
    requires draft in ScoredDrafts(generated, context)
    ensures && 0.0 <= draft.priority <= 100.0 && draft.breakdown.finalPriority == draft.priority
            && draft.priority == ClampPercentage(WeightedPriorityScore(draft.factors)
                                                 + draft.breakdown.evidenceBonus - draft.breakdown.duplicatePenalty)
  {
    ScoredAreFirstOccurrences(generated, context, draft);
    PriorityIsWhatIsShown(draft.factors, |draft.evidence|, |draft.duplicates|, draft.confidence);
  }

  /** The order of scored drafts with different titles does not depend on the order they came in. */
  lemma RankingIgnoresOrder(drafts: seq<Draft>, shuffled: seq<Draft>)
    requires multiset(drafts) == multiset(shuffled)
    requires forall a, b :: a in drafts && b in drafts && a.title == b.title ==> a == b
    ensures StableSort(drafts, Before) == StableSort(shuffled, Before)
  {
    BeforeIsTotal();
    forall a, b | a in drafts && b in drafts && Before(a, b) && Before(b, a) ensures a == b {
      StringBeforeIsTotal(a.title, b.title);
    }
    SortIgnoresOrder(drafts, shuffled, Before);
  }

  // ----- fewer duplicates -----

  lemma DuplicatesStay(title: string, tasks: seq<string>)
    ensures Deduped(Deduped(DuplicateTitles(title, tasks))) == DuplicateTitles(title, tasks)
  {
    if NormalizeTitle(title) == "" {
      assert Deduped([]) == [];
    } else {
      DedupedTwice(SameTitles(title, tasks));
    }
  }

  /** The same planning context but for the open tasks, of which none may be left, and the wording of them. */
  ghost predicate OtherTasks(context: Context, context': Context) {
    && context'.facts == context.facts
    && context'.lines == context.lines.(workflow := context'.lines.workflow, alone := context'.lines.alone)
  }

  /** From end to end: when open tasks are closed or retitled so that a candidate has fewer duplicates, its priority
      does not fall, whatever becomes of the line of evidence. */
  lemma FewerDuplicatesRankNoLower(candidate: Generated, index: nat, context: Context, context': Context)
    requires OtherTasks(context, context')
    requires var title := TrimSpace(candidate.title);
             |DuplicateTitles(title, context'.openTasks)| < |DuplicateTitles(title, context.openTasks)|
    ensures Scored(SeedDraft(candidate, index, context)).priority <= Scored(SeedDraft(candidate, index, context')).priority
  {
    var kind, title := NormalizeGeneratedSuggestionType(candidate.suggestionType, index), TrimSpace(candidate.title);
    var lines, duplicates := context.lines, DuplicateTitles(title, context.openTasks);
    var lines', duplicates' := context'.lines, DuplicateTitles(title, context'.openTasks);
    PriorityOfSeed(candidate, index, context);
    PriorityOfSeed(candidate, index, context');
    OneTextLess(lines.requirement, TaskLine(kind, lines, duplicates), TaskLine(kind, lines', duplicates'), OtherLines(kind, lines));
    FinalPriorityIsMonotone(kind, index, index, context.facts, HasOpenTask(context.openTasks), HasOpenTask(context'.openTasks),
                            |EvidenceOf(kind, lines, duplicates)|, |EvidenceOf(kind, lines', duplicates')|, |duplicates|, |duplicates'|);
  }

  lemma PriorityOfSeed(candidate: Generated, index: nat, context: Context)
    ensures var kind := NormalizeGeneratedSuggestionType(candidate.suggestionType, index);
            var duplicates := DuplicateTitles(TrimSpace(candidate.title), context.openTasks);
            Scored(SeedDraft(candidate, index, context)).priority ==
            FinalPriority(kind, index, context.facts, HasOpenTask(context.openTasks),
                          |EvidenceOf(kind, context.lines, duplicates)|, |duplicates|)
  {
    DuplicatesStay(TrimSpace(candidate.title), context.openTasks);
  }

  // ----- what a draft tells -----

  /** The kind the model named, ignoring case and surrounding blanks, and otherwise the one of its place: implementation
      first, then integration, then validation. */
  predicate IsKindOf(kind: Kind, named: string, index: nat) {
    var word := Lower(TrimSpace(named));
    && (word == "implementation" ==> kind == Implementation)
    && (word == "integration" ==> kind == Integration)
    && (word == "validation" ==> kind == Validation)
    && (word != "implementation" && word != "integration" && word != "validation" ==>
          if index == 0 then kind == Implementation else if index == 1 then kind == Integration else kind == Validation)
  }

  lemma KindIsNamed(named: string, index: nat)
    ensures IsKindOf(NormalizeGeneratedSuggestionType(named, index), named, index)
  {
  }

  /** Each scored draft has the texts of the candidate it stands for, trimmed, or the context's where they are blank, the
      kind that was named, and the open tasks of its title for duplicates. */
  lemma DraftTellsCandidate(draft: Draft, generated: seq<Generated>, context: Context, i: nat)
    requires StandsFor(draft, generated, context, i)
    ensures var candidate := generated[i];
            && draft.title == TrimSpace(candidate.title) != "" && IsKindOf(draft.kind, candidate.suggestionType, i)
            && draft.description == (if TrimSpace(candidate.description) == "" then context.description else TrimSpace(candidate.description))
            && draft.rationale == (if TrimSpace(candidate.rationale) == "" then context.rationale(draft.kind) else TrimSpace(candidate.rationale))
            && draft.duplicates == DuplicateTitles(draft.title, context.openTasks)
            && draft.factors == FactorsOf(draft.kind, i, context.facts, HasOpenTask(context.openTasks), |draft.duplicates|)
            && draft.breakdown.finalPriority == draft.priority && draft.breakdown.finalConfidence == draft.confidence
  {
    KindIsNamed(generated[i].suggestionType, i);
    DuplicatesStay(TrimSpace(generated[i].title), context.openTasks);
    assert Titles(generated)[i] == TrimSpace(generated[i].title);
  }

  /** The ranking in plain terms: a draft comes before another if its priority is higher, or the same and its title no
      later in the order of bytes. */
  lemma RankedByPriorityThenTitle(generated: seq<Generated>, context: Context, i: nat, j: nat)
    requires i < j < |RankedDrafts(generated, context)|
    ensures var a, b := RankedDrafts(generated, context)[i], RankedDrafts(generated, context)[j];
            && a.rank == i + 1 && b.rank == j + 1 && a.priority >= b.priority
            && (a.priority == b.priority ==>
                  a.title <= b.title || exists n: nat :: DifferFirstAt(a.title, b.title, n) && a.title[n] < b.title[n])
  {
    RankedAreSortedAndNumbered(generated, context);
    var ranked := RankedDrafts(generated, context);
    assert Before(ranked[i], ranked[j]);
    StringBeforeIsLexicographic(ranked[i].title, ranked[j].title);
  }

  // ----- what counts as evidence -----

  /** The lines that speak for a candidate of this kind; one of them tells its duplicates, if it has any. */
  predicate Speaks(kind: Kind, lines: Lines, duplicates: seq<string>, line: string) {
    || line in lines.requirement
    || (kind == Integration && (line == lines.workflow || line in lines.related || line in lines.sync))
    || (kind == Validation && duplicates == [] && line == lines.alone)
    || (kind == Validation && duplicates != [] && line == lines.overlap(duplicates))
    || (kind == Validation && (line in lines.stale || line in lines.drift || line in lines.sync || line in lines.failures))
    || (kind == Implementation && duplicates != [] && line == lines.potential(duplicates))
    || (kind == Implementation && (line in lines.related || line in lines.activity))
  }

  function AllLines(kind: Kind, lines: Lines, duplicates: seq<string>): seq<string> {
    lines.requirement + TaskLine(kind, lines, duplicates) + OtherLines(kind, lines)
  }

  lemma AllLinesSpeak(kind: Kind, lines: Lines, duplicates: seq<string>, line: string)
    ensures line in AllLines(kind, lines, duplicates) <==> Speaks(kind, lines, duplicates, line)
  {
  }

  /** Evidence is made of the trimmed lines that speak for the candidate, none of them blank. */
  lemma EvidenceSpeaks(kind: Kind, lines: Lines, duplicates: seq<string>, value: string)
    requires value in EvidenceOf(kind, lines, duplicates)
    ensures value != "" && exists line :: Speaks(kind, lines, duplicates, line) && TrimSpace(line) == value
  {
    var all := AllLines(kind, lines, duplicates);
    DedupedAreFirst(all, value);
    var i: nat :| FirstOfKey(TrimAll(all), Lower, i) && TrimAll(all)[i] == value;
    AllLinesSpeak(kind, lines, duplicates, all[i]);
  }

  /** And every line that is not blank is there, but for case. */
  lemma SpeakingIsEvidence(kind: Kind, lines: Lines, duplicates: seq<string>, line: string)
    requires Speaks(kind, lines, duplicates, line) && TrimSpace(line) != ""
    ensures exists value :: value in EvidenceOf(kind, lines, duplicates) && Lower(value) == Lower(TrimSpace(line))
  {
    AllLinesSpeak(kind, lines, duplicates, line);
    SomeIsKept(AllLines(kind, lines, duplicates), line);
  }
}
