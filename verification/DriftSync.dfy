/** Drift sync: which documents a scan's changed files affect, and the staleness marks and drift signals
    that follow. */
module DriftSync {
  import opened GitScanner
  import opened Options
  import opened Text

  type DocId = nat
  type ProjectId = nat

  // ----- the false-positive filter -----

  const NOISY_DIRS: seq<string> :=
    ["vendor/", "node_modules/", ".git/", "dist/", "build/", "__pycache__/", ".next/", "coverage/"]

  const NOISY_SUFFIXES: seq<string> :=
    ["_test.go", "_test.ts", "_test.tsx", ".test.ts", ".test.tsx", ".test.js", ".spec.ts", ".spec.js",
     ".pb.go", ".pb.gw.go", "_gen.go", ".generated.", "package-lock.json", "yarn.lock", "go.sum", ".min.js", ".min.css"]

  function WithoutTrailingSlashes(path: string): string {
    if path != "" && path[|path| - 1] == '/' then WithoutTrailingSlashes(path[..|path| - 1]) else path
  }

  function AfterLastSlash(path: string): string {
    if path == "" || path[|path| - 1] == '/' then ""
    else AfterLastSlash(path[..|path| - 1]) + [path[|path| - 1]]
  }

  /** filepath.Base */
  function Base(path: string): string {
    if path == "" then "."
    else
      var stripped := WithoutTrailingSlashes(path);
      if stripped == "" then "/" else AfterLastSlash(stripped)
  }

  predicate IsNoisyPath(path: string) {
    var lower := Lower(path);
    || (exists i :: 0 <= i < |NOISY_DIRS| && (HasPrefix(lower, NOISY_DIRS[i]) || Contains(lower, "/" + NOISY_DIRS[i])))
    || (exists i :: 0 <= i < |NOISY_SUFFIXES| &&
          (HasSuffix(Base(lower), NOISY_SUFFIXES[i]) || Contains(Base(lower), NOISY_SUFFIXES[i])))
  }

  method NoisyPath(path: string) returns (noisy: bool)
    ensures noisy == IsNoisyPath(path)
  {
    var lower := Lower(path);
    for i := 0 to |NOISY_DIRS|
      invariant forall j :: 0 <= j < i ==> !HasPrefix(lower, NOISY_DIRS[j]) && !Contains(lower, "/" + NOISY_DIRS[j])
    {
      if HasPrefix(lower, NOISY_DIRS[i]) || Contains(lower, "/" + NOISY_DIRS[i]) {
        return true;
      }
    }
    var base := Base(lower);
    for i := 0 to |NOISY_SUFFIXES|
      invariant forall j :: 0 <= j < i ==> !HasSuffix(base, NOISY_SUFFIXES[j]) && !Contains(base, NOISY_SUFFIXES[j])
    {
      if HasSuffix(base, NOISY_SUFFIXES[i]) || Contains(base, NOISY_SUFFIXES[i]) {
        return true;
      }
    }
    return false;
  }

  lemma SuffixIsContained(s: string, suffix: string)
    requires HasSuffix(s, suffix)
    ensures Contains(s, suffix)
  {
    assert suffix <= s[|s| - |suffix|..];
  }

  /** The suffixes of the list count anywhere in the file name, not only at its end. */
  lemma SuffixesCountAnywhere(path: string)
    ensures var lower := Lower(path);
            IsNoisyPath(path) <==>
              || (exists i :: 0 <= i < |NOISY_DIRS| && (HasPrefix(lower, NOISY_DIRS[i]) || Contains(lower, "/" + NOISY_DIRS[i])))
              || (exists i :: 0 <= i < |NOISY_SUFFIXES| && Contains(Base(lower), NOISY_SUFFIXES[i]))
  {
    var base := Base(Lower(path));
    forall i | 0 <= i < |NOISY_SUFFIXES| && HasSuffix(base, NOISY_SUFFIXES[i]) ensures Contains(base, NOISY_SUFFIXES[i]) {
      SuffixIsContained(base, NOISY_SUFFIXES[i]);
    }
  }

  lemma {:induction false} LowerTwice(s: string)
    ensures Lower(Lower(s)) == Lower(s)
  {
    if s != "" {
      LowerTwice(s[1..]);
      assert Lower(s)[1..] == Lower(s[1..]);
    }
  }

  lemma NoisyIgnoresCase(path: string)
    ensures IsNoisyPath(Lower(path)) == IsNoisyPath(path)
  {
    LowerTwice(path);
  }

  // ----- phase 1: affected documents -----

  /** The path filter (IsNoisyPath) and the two queries; None is a failed query, which is logged and skipped. */
  datatype Lookups = Lookups(
    noisy: string -> bool,
    links: string -> Option<seq<DocId>>,
    registry: string -> Option<seq<DocId>>)
  {
    function Linked(path: string): seq<DocId> {
      if links(path).Some? then links(path).value else []
    }

    function Registered(path: string): seq<DocId> {
      if registry(path).Some? then registry(path).value else []
    }
  }

  datatype DocAffect = DocAffect(files: seq<Change>, hasDocLink: bool)

  function WithFile(affect: DocAffect, change: Change, fromDocLink: bool): DocAffect {
    DocAffect(if HasPath(affect.files, change.path) then affect.files else affect.files + [change],
              affect.hasDocLink || fromDocLink)
  }

  function AffectOf(affected: map<DocId, DocAffect>, doc: DocId): DocAffect {
    if doc in affected then affected[doc] else DocAffect([], false)
  }

  /** The addFile closure, for one change. */
  function Adding(change: Change, fromDocLink: bool): DocAffect -> DocAffect {
    affect => WithFile(affect, change, fromDocLink)
  }

  function AddFile(affected: map<DocId, DocAffect>, doc: DocId, add: DocAffect -> DocAffect): map<DocId, DocAffect> {
    affected[doc := add(AffectOf(affected, doc))]
  }

  function AddAll(affected: map<DocId, DocAffect>, docs: seq<DocId>, add: DocAffect -> DocAffect): map<DocId, DocAffect> {
    if docs == [] then affected
    else AddFile(AddAll(affected, docs[..|docs| - 1], add), docs[|docs| - 1], add)
  }

  function AddChange(affected: map<DocId, DocAffect>, change: Change, lookups: Lookups): map<DocId, DocAffect> {
    if lookups.noisy(change.path) then affected
    else AddAll(AddAll(affected, lookups.Linked(change.path), Adding(change, true)), lookups.Registered(change.path), Adding(change, false))
  }

  function Affected(changes: seq<Change>, lookups: Lookups): map<DocId, DocAffect> {
    if changes == [] then map[]
    else AddChange(Affected(changes[..|changes| - 1], lookups), changes[|changes| - 1], lookups)
  }

  method BuildAffected(changes: seq<Change>, lookups: Lookups) returns (affected: map<DocId, DocAffect>)
    ensures affected == Affected(changes, lookups)
  {
    affected := map[];
    var i := 0;
    while i < |changes|
      invariant 0 <= i <= |changes|
      invariant affected == Affected(changes[..i], lookups)
    {
      assert changes[..i + 1][..i] == changes[..i];
      var change := changes[i];
      i := i + 1;
      if lookups.noisy(change.path) {
        continue;
      }
      var linked := lookups.links(change.path);
      if linked.Some? {
        affected := AddDocs(affected, linked.value, Adding(change, true));
      }
      var registered := lookups.registry(change.path);
      if registered.Some? {
        affected := AddDocs(affected, registered.value, Adding(change, false));
      }
    }
    assert changes[..|changes|] == changes;
  }

  method AddDocs(affected: map<DocId, DocAffect>, docs: seq<DocId>, add: DocAffect -> DocAffect)
    returns (after: map<DocId, DocAffect>)
    ensures after == AddAll(affected, docs, add)
  {
    after := affected;
    for i := 0 to |docs|
      invariant after == AddAll(affected, docs[..i], add)
    {
      assert docs[..i + 1][..i] == docs[..i];
      after := AddFile(after, docs[i], add);
    }
    assert docs[..|docs|] == docs;
  }

  // ----- what the affected map means -----

  predicate Links(change: Change, doc: DocId, lookups: Lookups) {
    !lookups.noisy(change.path) && doc in lookups.Linked(change.path)
  }

  /** The document is linked to the path or registered at it, and the filter lets the path through. */
  predicate TouchesPath(path: string, doc: DocId, lookups: Lookups) {
    !lookups.noisy(path) && (doc in lookups.Linked(path) || doc in lookups.Registered(path))
  }

  predicate Touches(change: Change, doc: DocId, lookups: Lookups) {
    TouchesPath(change.path, doc, lookups)
  }

  /** The changes that touch a document, the first of each path. */
  function FirstPerPath(changes: seq<Change>, doc: DocId, lookups: Lookups): seq<Change> {
    if changes == [] then []
    else
      var n := |changes| - 1;
      var before := FirstPerPath(changes[..n], doc, lookups);
      if Touches(changes[n], doc, lookups) && !HasPath(before, changes[n].path) then before + [changes[n]] else before
  }

  lemma WithFileTwice(affect: DocAffect, change: Change, first: bool, second: bool)
    ensures WithFile(WithFile(affect, change, first), change, second) == WithFile(affect, change, first || second)
  {
    var once := WithFile(affect, change, first);
    if !HasPath(affect.files, change.path) {
      assert once.files[|affect.files|].path == change.path;
    }
  }

  /** Adding to documents once or more often is the same. */
  lemma {:induction false} AddAllAt(affected: map<DocId, DocAffect>, docs: seq<DocId>, add: DocAffect -> DocAffect, doc: DocId)
    requires forall affect :: add(add(affect)) == add(affect)
    ensures var after := AddAll(affected, docs, add);
            && (doc in after <==> doc in affected || doc in docs)
            && AffectOf(after, doc) == if doc in docs then add(AffectOf(affected, doc)) else AffectOf(affected, doc)
  {
    if docs != [] {
      var n := |docs| - 1;
      AddAllAt(affected, docs[..n], add, doc);
      assert docs == docs[..n] + [docs[n]];
      assert doc in docs <==> doc in docs[..n] || doc == docs[n];
    }
  }

  lemma AddingIsIdempotent(change: Change, fromDocLink: bool)
    ensures forall affect :: Adding(change, fromDocLink)(Adding(change, fromDocLink)(affect)) == Adding(change, fromDocLink)(affect)
  {
    forall affect ensures Adding(change, fromDocLink)(Adding(change, fromDocLink)(affect)) == Adding(change, fromDocLink)(affect) {
      WithFileTwice(affect, change, fromDocLink, fromDocLink);
    }
  }

  /** Adding one change extends the affect of each document it touches, once. */
  lemma AddChangeAt(affected: map<DocId, DocAffect>, change: Change, lookups: Lookups, doc: DocId)
    ensures var after := AddChange(affected, change, lookups);
            && (doc in after <==> doc in affected || Touches(change, doc, lookups))
            && AffectOf(after, doc) == if Touches(change, doc, lookups)
                                       then WithFile(AffectOf(affected, doc), change, Links(change, doc, lookups))
                                       else AffectOf(affected, doc)
  {
    if !lookups.noisy(change.path) {
      var linked, registered := lookups.Linked(change.path), lookups.Registered(change.path);
      AddingIsIdempotent(change, true);
      AddingIsIdempotent(change, false);
      AddAllAt(affected, linked, Adding(change, true), doc);
      AddAllAt(AddAll(affected, linked, Adding(change, true)), registered, Adding(change, false), doc);
      WithFileTwice(AffectOf(affected, doc), change, true, false);
    }
  }

  predicate Touched(changes: seq<Change>, doc: DocId, lookups: Lookups) {
    exists i :: 0 <= i < |changes| && Touches(changes[i], doc, lookups)
  }

  predicate LinkTouched(changes: seq<Change>, doc: DocId, lookups: Lookups) {
    exists i :: 0 <= i < |changes| && Links(changes[i], doc, lookups)
  }

  lemma TouchedOneMore(changes: seq<Change>, last: Change, doc: DocId, lookups: Lookups)
    ensures Touched(changes + [last], doc, lookups) <==> Touched(changes, doc, lookups) || Touches(last, doc, lookups)
    ensures LinkTouched(changes + [last], doc, lookups) <==> LinkTouched(changes, doc, lookups) || Links(last, doc, lookups)
  {
    var longer := changes + [last];
    assert longer[|changes|] == last;
    assert forall i :: 0 <= i < |changes| ==> longer[i] == changes[i];
  }

  /** What the changes make of a document that may already be in the map. */
  function AffectBy(changes: seq<Change>, doc: DocId, lookups: Lookups): DocAffect {
    DocAffect(FirstPerPath(changes, doc, lookups), LinkTouched(changes, doc, lookups))
  }

  lemma AffectByOneMore(changes: seq<Change>, last: Change, doc: DocId, lookups: Lookups)
    ensures AffectBy(changes + [last], doc, lookups) ==
            if Touches(last, doc, lookups) then WithFile(AffectBy(changes, doc, lookups), last, Links(last, doc, lookups))
            else AffectBy(changes, doc, lookups)
  {
    assert (changes + [last])[..|changes|] == changes;
    TouchedOneMore(changes, last, doc, lookups);
  }

  /** The affected map is the join of the non-noisy changes with links and registry: a document is in it iff
      some such change touches it; its files are those changes, the first of each path; and it has a
      document link iff one of them came through a link. */
  lemma {:induction false} AffectedIsJoin(changes: seq<Change>, lookups: Lookups, doc: DocId)
    ensures doc in Affected(changes, lookups) <==> Touched(changes, doc, lookups)
    ensures AffectOf(Affected(changes, lookups), doc) == AffectBy(changes, doc, lookups)
  {
    if changes != [] {
      var n := |changes| - 1;
      AffectedIsJoin(changes[..n], lookups, doc);
      AddChangeAt(Affected(changes[..n], lookups), changes[n], lookups, doc);
      assert changes == changes[..n] + [changes[n]];
      TouchedOneMore(changes[..n], changes[n], doc, lookups);
      AffectByOneMore(changes[..n], changes[n], doc, lookups);
    }
  }

  /** The files of a document have distinct paths. */
  lemma {:induction false} FilesAreDistinct(changes: seq<Change>, doc: DocId, lookups: Lookups)
    ensures DistinctPaths(FirstPerPath(changes, doc, lookups))
  {
    if changes != [] {
      FilesAreDistinct(changes[..|changes| - 1], doc, lookups);
    }
  }

  /** Every touching path is among the document's files. */
  lemma {:induction false} FilesCoverTouches(changes: seq<Change>, doc: DocId, lookups: Lookups, k: nat)
    requires k < |changes| && Touches(changes[k], doc, lookups)
    ensures HasPath(FirstPerPath(changes, doc, lookups), changes[k].path)
  {
    var n := |changes| - 1;
    var files, all := FirstPerPath(changes[..n], doc, lookups), FirstPerPath(changes, doc, lookups);
    assert files <= all;
    if k < n {
      FilesCoverTouches(changes[..n], doc, lookups, k);
      var i :| 0 <= i < |files| && files[i].path == changes[..n][k].path;
      assert all[i].path == changes[k].path;
    } else if !HasPath(files, changes[n].path) {
      assert all[|files|].path == changes[n].path;
    }
  }

  predicate FirstTouch(changes: seq<Change>, file: Change, doc: DocId, lookups: Lookups, k: nat) {
    && k < |changes| && changes[k] == file && Touches(file, doc, lookups)
    && forall j :: 0 <= j < k ==> changes[j].path != file.path
  }

  /** Each file is the first change of its path in the list. */
  lemma {:induction false} FilesAreFirst(changes: seq<Change>, doc: DocId, lookups: Lookups, i: nat)
    requires i < |FirstPerPath(changes, doc, lookups)|
    ensures exists k: nat :: FirstTouch(changes, FirstPerPath(changes, doc, lookups)[i], doc, lookups, k)
  {
    var n := |changes| - 1;
    var files, file := FirstPerPath(changes[..n], doc, lookups), FirstPerPath(changes, doc, lookups)[i];
    if i < |files| {
      FilesAreFirst(changes[..n], doc, lookups, i);
      var k: nat :| FirstTouch(changes[..n], file, doc, lookups, k);
      assert FirstTouch(changes, file, doc, lookups, k);
    } else {
      forall j | 0 <= j < n ensures changes[j].path != file.path {
        if changes[j].path == file.path {
          FilesCoverTouches(changes[..n], doc, lookups, j);
        }
      }
      assert FirstTouch(changes, file, doc, lookups, n);
    }
  }

  function Touching(changes: seq<Change>, doc: DocId, lookups: Lookups): seq<Change> {
    if changes == [] then []
    else
      var n := |changes| - 1;
      Touching(changes[..n], doc, lookups) + if Touches(changes[n], doc, lookups) then [changes[n]] else []
  }

  /** When no path is listed twice, as in a scan of one repository, a document's files are all changes that touch it. */
  lemma {:induction false} DistinctAreAllKept(changes: seq<Change>, doc: DocId, lookups: Lookups)
    requires DistinctPaths(changes)
    ensures FirstPerPath(changes, doc, lookups) == Touching(changes, doc, lookups)
  {
    if changes != [] {
      var n := |changes| - 1;
      DistinctAreAllKept(changes[..n], doc, lookups);
      var files := FirstPerPath(changes[..n], doc, lookups);
      if HasPath(files, changes[n].path) {
        var i: nat :| i < |files| && files[i].path == changes[n].path;
        FilesAreFirst(changes[..n], doc, lookups, i);
        assert false;
      }
    }
  }

  lemma {:induction false} InTouching(changes: seq<Change>, doc: DocId, lookups: Lookups, file: Change)
    ensures file in Touching(changes, doc, lookups) <==> file in changes && Touches(file, doc, lookups)
  {
    if changes != [] {
      var n := |changes| - 1;
      InTouching(changes[..n], doc, lookups, file);
      assert changes == changes[..n] + [changes[n]];
    }
  }

  /** With one repository, a document's files are the newest changes of the paths that touch it. */
  lemma FilesOfOneRepository(lines: seq<string>, mappedAs: string, doc: DocId, lookups: Lookups, file: Change)
    ensures var changes := Listed([Repository(true, mappedAs, Some(lines))]);
            file in AffectOf(Affected(changes, lookups), doc).files <==>
              Touches(file, doc, lookups) && exists k: nat :: NewestOfPath(lines, file, k)
  {
    PrimaryAlone(lines, mappedAs);
    AffectedIsJoin(Recent(lines), lookups, doc);
    FilesAreNewest(lines, doc, lookups, file);
  }

  lemma FilesAreNewest(lines: seq<string>, doc: DocId, lookups: Lookups, file: Change)
    ensures file in FirstPerPath(Recent(lines), doc, lookups) <==>
            Touches(file, doc, lookups) && exists k: nat :: NewestOfPath(lines, file, k)
  {
    RecentIsDistinct(lines);
    DistinctAreAllKept(Recent(lines), doc, lookups);
    InTouching(Recent(lines), doc, lookups, file);
    RecentIsNewest(lines, file);
  }

  // ----- repeated changes -----

  lemma InWithoutRepeats(changes: seq<Change>, change: Change)
    ensures change in WithoutRepeats(changes) <==> change in changes
  {
    if changes != [] {
      var n := |changes| - 1;
      InWithoutRepeats(changes[..n], change);
      assert changes == changes[..n] + [changes[n]];
    }
  }

  lemma {:induction false} RepeatsAddNoFile(changes: seq<Change>, doc: DocId, lookups: Lookups)
    ensures AffectBy(WithoutRepeats(changes), doc, lookups) == AffectBy(changes, doc, lookups)
  {
    if changes != [] {
      var n := |changes| - 1;
      var before, last := changes[..n], changes[n];
      assert changes == before + [last];
      RepeatsAddNoFile(before, doc, lookups);
      RepeatsOneMore(before, last);
      AffectByOneMore(before, last, doc, lookups);
      AffectByOneMore(WithoutRepeats(before), last, doc, lookups);
      if last in before {
        if Touches(last, doc, lookups) {
          RepeatIsKnown(before, last, doc, lookups);
        }
        assert WithoutRepeats(before) + [] == WithoutRepeats(before);
      }
    }
  }

  lemma RepeatIsKnown(changes: seq<Change>, change: Change, doc: DocId, lookups: Lookups)
    requires change in changes && Touches(change, doc, lookups)
    ensures WithFile(AffectBy(changes, doc, lookups), change, Links(change, doc, lookups)) == AffectBy(changes, doc, lookups)
  {
    var k: nat :| k < |changes| && changes[k] == change;
    FilesCoverTouches(changes, doc, lookups, k);
  }

  /** Removing repeated changes before phase 1 makes no difference to any document. */
  lemma RepeatsDoNotMatter(changes: seq<Change>, lookups: Lookups)
    ensures Affected(WithoutRepeats(changes), lookups) == Affected(changes, lookups)
  {
    var once, all := Affected(WithoutRepeats(changes), lookups), Affected(changes, lookups);
    forall doc ensures (doc in once <==> doc in all) && AffectOf(once, doc) == AffectOf(all, doc) {
      AffectedIsJoin(changes, lookups, doc);
      AffectedIsJoin(WithoutRepeats(changes), lookups, doc);
      RepeatsAddNoFile(changes, doc, lookups);
      TouchedIsFiles(changes, doc, lookups);
      TouchedIsFiles(WithoutRepeats(changes), doc, lookups);
    }
    forall doc | doc in all ensures once[doc] == all[doc] {
      assert AffectOf(once, doc) == AffectOf(all, doc);
    }
    assert once.Keys == all.Keys;
  }

  lemma TouchedIsFiles(changes: seq<Change>, doc: DocId, lookups: Lookups)
    ensures Touched(changes, doc, lookups) <==> FirstPerPath(changes, doc, lookups) != []
  {
    var files := FirstPerPath(changes, doc, lookups);
    if Touched(changes, doc, lookups) {
      var k: nat :| k < |changes| && Touches(changes[k], doc, lookups);
      FilesCoverTouches(changes, doc, lookups, k);
    }
    if files != [] {
      FilesAreFirst(changes, doc, lookups, 0);
      var k: nat :| FirstTouch(changes, files[0], doc, lookups, k);
    }
  }

  // ----- severity -----

  datatype Confidence = High | Medium

  predicate Destructive(change: Change) {
    change.changeType == "D" || change.changeType == "R"
  }

  /** The path counts as deleted or renamed for the document. */
  predicate SeenDestroyed(files: seq<Change>, path: string) {
    exists i :: 0 <= i < |files| && files[i].path == path && Destructive(files[i])
  }

  predicate DestroyedType(changeType: Option<string>) {
    changeType == Some("D") || changeType == Some("R")
  }

  lemma SeenOneMore(files: seq<Change>, file: Change, path: string)
    ensures SeenDestroyed(files + [file], path) <==> SeenDestroyed(files, path) || (file.path == path && Destructive(file))
  {
    var longer := files + [file];
    assert longer[|files|] == file && forall i :: 0 <= i < |files| ==> longer[i] == files[i];
  }

  lemma {:induction false} SeenIsFirstType(changes: seq<Change>, doc: DocId, lookups: Lookups, path: string)
    requires TouchesPath(path, doc, lookups)
    ensures HasPath(FirstPerPath(changes, doc, lookups), path) <==> FirstType(changes, path).Some?
    ensures SeenDestroyed(FirstPerPath(changes, doc, lookups), path) <==> DestroyedType(FirstType(changes, path))
  {
    if changes != [] {
      var n := |changes| - 1;
      var files := FirstPerPath(changes[..n], doc, lookups);
      SeenIsFirstType(changes[..n], doc, lookups, path);
      SeenOneMore(files, changes[n], path);
      PathsOneMore(files, changes[n]);
    }
  }

  /** For any repositories and logs: a path counts as deleted or renamed for a document at that path exactly when the
      newest line whose last field it is, in the first repository that has such a line, is a deletion or a rename. */
  lemma DestructionCountsIff(repositories: seq<Repository>, doc: DocId, lookups: Lookups, path: string)
    requires Readable(repositories) && TouchesPath(path, doc, lookups)
    ensures SeenDestroyed(AffectOf(Affected(Listed(repositories), lookups), doc).files, path) <==>
              exists r: nat, k: nat :: Decides(repositories, path, "D", r, k) || Decides(repositories, path, "R", r, k)
  {
    AffectedIsJoin(Listed(repositories), lookups, doc);
    SeenIsFirstType(Listed(repositories), doc, lookups, path);
    FirstTypeIs(repositories, path, "D");
    FirstTypeIs(repositories, path, "R");
  }

  /** A project with one repository, whose log has these entries. */
  function OneRepository(entries: seq<Entry>, mappedAs: string): seq<Repository> {
    [Repository(true, mappedAs, Some(LinesOf(entries)))]
  }

  predicate WordPaths(entries: seq<Entry>) {
    forall i :: 0 <= i < |entries| ==> entries[i].Printable() && IsWord(entries[i].path)
  }

  /** The newest entry that leaves a file at the path or deletes it there: the old path of a rename does not count. */
  predicate NewestAt(entries: seq<Entry>, path: string, k: nat) {
    k < |entries| && entries[k].path == path && forall j :: 0 <= j < k ==> entries[j].path != path
  }

  lemma DecidesInOne(entries: seq<Entry>, mappedAs: string, path: string, changeType: string, r: nat, k: nat)
    requires WordPaths(entries)
    ensures Decides(OneRepository(entries, mappedAs), path, changeType, r, k) <==>
              r == 0 && NewestAt(entries, path, k) && [entries[k].Status()[0]] == changeType
  {
    var lines, repository := LinesOf(entries), OneRepository(entries, mappedAs)[0];
    forall i | 0 <= i < |entries|
      ensures NamesPath(repository, lines[i], path) <==> entries[i].path == path
      ensures Parsed(lines[i]) == Some(Change(entries[i].path, [entries[i].Status()[0]]))
    {
      WordPathIsKept(entries[i]);
    }
  }

  /** In one repository whose paths have no blanks, a removed path counts exactly when the newest entry at that path is a
      deletion of it or a rename to it. So a file that was renamed away, or has been restored, does not count. */
  lemma RemovalCountsIff(entries: seq<Entry>, mappedAs: string, doc: DocId, lookups: Lookups, path: string)
    requires WordPaths(entries) && TouchesPath(path, doc, lookups)
    ensures SeenDestroyed(AffectOf(Affected(Listed(OneRepository(entries, mappedAs)), lookups), doc).files, path) <==>
              exists k: nat :: NewestAt(entries, path, k) && (entries[k].Deleted? || entries[k].Renamed?)
  {
    var repositories := OneRepository(entries, mappedAs);
    DestructionCountsIff(repositories, doc, lookups, path);
    forall r: nat, k: nat
      ensures Decides(repositories, path, "D", r, k) <==> r == 0 && NewestAt(entries, path, k) && entries[k].Deleted?
      ensures Decides(repositories, path, "R", r, k) <==> r == 0 && NewestAt(entries, path, k) && entries[k].Renamed?
    {
      DecidesInOne(entries, mappedAs, path, "D", r, k);
      DecidesInOne(entries, mappedAs, path, "R", r, k);
    }
    if k: nat :| NewestAt(entries, path, k) && (entries[k].Deleted? || entries[k].Renamed?) {
      assert Decides(repositories, path, "D", 0, k) || Decides(repositories, path, "R", 0, k);
    }
  }

  // ----- removals that reach no document -----

  /** What a single line changes reaches only documents at its last word. */
  lemma OneLineReaches(entry: Entry, mappedAs: string, doc: DocId, lookups: Lookups)
    requires entry.Printable() && entry.Words() != []
    ensures doc in Affected(Listed(OneRepository([entry], mappedAs)), lookups) <==>
              TouchesPath(entry.Words()[|entry.Words()| - 1], doc, lookups)
  {
    var line, last := entry.Line(), entry.Words()[|entry.Words()| - 1];
    LastWordIsThePath(entry);
    assert LinesOf([entry]) == [] + [line];
    PrimaryAlone([line], mappedAs);
    RecentOneMore([], line);
    var changes := [Change(last, [entry.Status()[0]])];
    assert [] + changes == changes;
    AffectedIsJoin(changes, lookups, doc);
    assert changes[0].path == last;
  }

  /** A document at a path that is renamed away is not reached at all. */
  lemma RenamedAwayIsMissed(score: string, from: string, to: string, mappedAs: string, doc: DocId, lookups: Lookups)
    requires Renamed(score, from, to).Printable() && IsWord(to)
    requires TouchesPath(from, doc, lookups) && !TouchesPath(to, doc, lookups)
    ensures var entry := Renamed(score, from, to);
            entry.Removes(from) && doc !in Affected(Listed(OneRepository([entry], mappedAs)), lookups)
  {
    var entry := Renamed(score, from, to);
    OneWord(to);
    assert entry.Words()[|entry.Words()| - 1] == to;
    OneLineReaches(entry, mappedAs, doc, lookups);
  }

  /** Neither is one at a deleted path that has a blank in it, unless it is at the last word of the path too. */
  lemma BlankPathIsMissed(before: string, word: string, mappedAs: string, doc: DocId, lookups: Lookups)
    requires IsWord(word) && TouchesPath(before + [' '] + word, doc, lookups) && !TouchesPath(word, doc, lookups)
    ensures var entry := Deleted(before + [' '] + word);
            entry.Removes(before + [' '] + word) && doc !in Affected(Listed(OneRepository([entry], mappedAs)), lookups)
  {
    var entry := Deleted(before + [' '] + word);
    FieldsJoin(before, ' ', word);
    OneWord(word);
    assert entry.Words()[|entry.Words()| - 1] == word;
    OneLineReaches(entry, mappedAs, doc, lookups);
  }

  /** Deleted, then added again, a path counts as added; the other way round it counts as deleted. */
  lemma RestoredFileIsNotDestroyed(path: string, mappedAs: string, doc: DocId, lookups: Lookups)
    requires IsWord(path) && TouchesPath(path, doc, lookups)
    ensures !SeenDestroyed(AffectOf(Affected(Listed(OneRepository([Added(path), Deleted(path)], mappedAs)), lookups), doc).files, path)
    ensures SeenDestroyed(AffectOf(Affected(Listed(OneRepository([Deleted(path), Added(path)], mappedAs)), lookups), doc).files, path)
  {
    RemovalCountsIff([Added(path), Deleted(path)], mappedAs, doc, lookups, path);
    RemovalCountsIff([Deleted(path), Added(path)], mappedAs, doc, lookups, path);
    assert NewestAt([Added(path), Deleted(path)], path, 0) && NewestAt([Deleted(path), Added(path)], path, 0);
  }

  /** Deleted in the second of two repositories that share logical paths, and added in the first, it counts as added. */
  lemma EarlierRepositoryDecides(path: string, mappedAs: string, doc: DocId, lookups: Lookups)
    requires IsWord(path) && TouchesPath(path, doc, lookups)
    ensures var repositories := OneRepository([Added(path)], mappedAs) + OneRepository([Deleted(path)], mappedAs);
            !SeenDestroyed(AffectOf(Affected(Listed(repositories), lookups), doc).files, path)
  {
    var repositories := OneRepository([Added(path)], mappedAs) + OneRepository([Deleted(path)], mappedAs);
    DestructionCountsIff(repositories, doc, lookups, path);
    WordPathIsKept(Added(path));
    assert repositories[0].log.value == [Added(path).Line()];
    assert NamesPath(repositories[0], repositories[0].log.value[0], path);
    assert Named(repositories[0], repositories[0].log.value, path);
  }

  /** The severity scale of the change signals, as the comment above the code gives it: destructive changes, or
      many files behind a link, are high; a link or many files are medium; the rest is low. */
  method CodeChangeSeverity(files: seq<Change>, hasDocLink: bool) returns (severity: nat, confidence: Confidence)
    ensures 1 <= severity <= 3
    ensures severity == 3 <==> (exists i :: 0 <= i < |files| && Destructive(files[i])) || (|files| >= 3 && hasDocLink)
    ensures severity == 1 <==> |files| < 3 && !hasDocLink && forall i :: 0 <= i < |files| ==> !Destructive(files[i])
    ensures confidence == High <==> hasDocLink
    ensures severity == Severity(files, hasDocLink) && confidence == ConfidenceOf(hasDocLink)
  {
    var hasDelete := false;
    for i := 0 to |files|
      invariant hasDelete <==> exists j :: 0 <= j < i && Destructive(files[j])
    {
      if Destructive(files[i]) {
        hasDelete := true;
        break;
      }
    }
    confidence := if hasDocLink then High else Medium;
    if hasDelete && hasDocLink {
      severity := 3;
    } else if hasDelete || (|files| >= 3 && hasDocLink) {
      severity := 3;
    } else if hasDocLink || |files| >= 3 {
      severity := 2;
    } else {
      severity := 1;
    }
  }

  function Severity(files: seq<Change>, hasDocLink: bool): nat {
    if (exists i :: 0 <= i < |files| && Destructive(files[i])) || (|files| >= 3 && hasDocLink) then 3
    else if hasDocLink || |files| >= 3 then 2
    else 1
  }

  function ConfidenceOf(hasDocLink: bool): Confidence {
    if hasDocLink then High else Medium
  }

  // ----- phases 2 and 3: stale marks and signals -----

  datatype Trigger = CodeChange | TimeDecay

  datatype Signal = Signal(project: ProjectId, doc: DocId, trigger: Trigger, severity: nat, files: seq<Change>,
                           confidence: Confidence, daysStale: int, isOpen: bool)

  /** Create inserts the row and then reads it back: Unread has inserted it and still reports an error. */
  datatype Outcome = Created | Unread | Failed

  /** What the store answers during one run. `listed` is whether the open signals could be listed, `decayed` the
      documents of the project past the threshold (None when that query failed). */
  datatype Answers = Answers(listed: bool, decayed: Option<set<DocId>>, marks: (Trigger, DocId) -> bool, creates: (Trigger, DocId) -> Outcome)
  {
    function Decayed(): set<DocId> {
      if decayed.Some? then decayed.value else {}
    }
  }

  /** One run of one project. */
  datatype Scan = Scan(project: ProjectId, threshold: int, affected: map<DocId, DocAffect>, answers: Answers)
  {
    function CodeSignal(doc: DocId): Signal
      requires doc in affected
    {
      var affect := affected[doc];
      Signal(project, doc, CodeChange, Severity(affect.files, affect.hasDocLink), affect.files,
             ConfidenceOf(affect.hasDocLink), 0, true)
    }

    function DecaySignal(doc: DocId): Signal {
      Signal(project, doc, TimeDecay, 2, [], Medium, threshold, true)
    }

    predicate Concerns(doc: DocId) {
      doc in affected || doc in answers.Decayed()
    }

    /** The signal that phase 2 leaves in the table for a document it does not know to have one. */
    function FromCode(doc: DocId): seq<Signal> {
      if doc in affected && answers.creates(CodeChange, doc) != Failed then [CodeSignal(doc)] else []
    }

    /** The one phase 3 leaves: none when phase 2 created one. */
    function FromDecay(doc: DocId): seq<Signal> {
      if && doc in answers.Decayed() && answers.creates(TimeDecay, doc) != Failed
         && !(doc in affected && answers.creates(CodeChange, doc) == Created)
      then [DecaySignal(doc)] else []
    }

    function Raised(doc: DocId): seq<Signal> {
      FromCode(doc) + FromDecay(doc)
    }

    predicate Marked(doc: DocId) {
      || (doc in affected && answers.marks(CodeChange, doc))
      || (doc in answers.Decayed() && answers.marks(TimeDecay, doc))
    }
  }

  predicate HasOpen(signals: seq<Signal>, project: ProjectId, doc: DocId) {
    exists i :: 0 <= i < |signals| && signals[i].project == project && signals[i].doc == doc && signals[i].isOpen
  }

  /** The list of open documents, empty when it could not be loaded. */
  predicate KnownOpen(signals: seq<Signal>, scan: Scan, doc: DocId) {
    scan.answers.listed && HasOpen(signals, scan.project, doc)
  }

  function SignalsOf(signals: seq<Signal>, doc: DocId): seq<Signal> {
    if signals == [] then []
    else
      var n := |signals| - 1;
      SignalsOf(signals[..n], doc) + if signals[n].doc == doc then [signals[n]] else []
  }

  /** The meaning of phases 2 and 3, document by document and without an order: old signals stay, each document
      gains what Raised says unless it was known to have an open one, and the marks are as Marked says. */
  ghost predicate Synced(signals: seq<Signal>, stale: set<DocId>, scan: Scan, signals': seq<Signal>, stale': set<DocId>) {
    && signals <= signals'
    && (forall doc :: SignalsOf(signals'[|signals|..], doc) == if KnownOpen(signals, scan, doc) then [] else scan.Raised(doc))
    && (forall doc :: doc in stale' <==> doc in stale || scan.Marked(doc))
  }

  lemma ExtendOpen(signals: seq<Signal>, signal: Signal, project: ProjectId)
    ensures forall doc :: HasOpen(signals + [signal], project, doc) <==>
                            HasOpen(signals, project, doc) || (signal.project == project && signal.doc == doc && signal.isOpen)
  {
    var longer := signals + [signal];
    forall doc | HasOpen(signals, project, doc) || (signal.project == project && signal.doc == doc && signal.isOpen)
      ensures HasOpen(longer, project, doc)
    {
      if HasOpen(signals, project, doc) {
        var i :| 0 <= i < |signals| && signals[i].project == project && signals[i].doc == doc && signals[i].isOpen;
        assert longer[i] == signals[i];
      } else {
        assert longer[|signals|] == signal;
      }
    }
  }

  method BuildCodeSignal(scan: Scan, doc: DocId) returns (signal: Signal)
    requires doc in scan.affected
    ensures signal == scan.CodeSignal(doc)
  {
    var affect := scan.affected[doc];
    var severity, confidence := CodeChangeSeverity(affect.files, affect.hasDocLink);
    signal := Signal(scan.project, doc, CodeChange, severity, affect.files, confidence, 0, true);
  }

  class SyncService {
    var signals: seq<Signal>
    var stale: set<DocId>

    constructor ()
      ensures signals == [] && stale == {}
    {
      signals, stale := [], {};
    }

    method ListOpenDocumentIDs(scan: Scan) returns (openDocs: set<DocId>)
      ensures forall doc :: doc in openDocs <==> KnownOpen(signals, scan, doc)
    {
      openDocs := {};
      if scan.answers.listed {
        for i := 0 to |signals|
          invariant forall doc :: doc in openDocs <==> HasOpen(signals[..i], scan.project, doc)
        {
          assert signals[..i + 1] == signals[..i] + [signals[i]];
          ExtendOpen(signals[..i], signals[i], scan.project);
          if signals[i].project == scan.project && signals[i].isOpen {
            openDocs := openDocs + {signals[i].doc};
          }
        }
        assert signals[..|signals|] == signals;
      }
    }

    /** MarkStale and, unless the document is known to have an open signal, Create. */
    method Raise(signal: Signal, marked: bool, outcome: Outcome, openDocs: set<DocId>) returns (openDocs': set<DocId>)
      modifies this
      ensures stale == old(stale) + (if marked then {signal.doc} else {})
      ensures signals == old(signals) + Row(signal, outcome, openDocs)
      ensures openDocs' == openDocs + (if outcome == Created then {signal.doc} else {})
    {
      openDocs' := openDocs;
      if marked {
        stale := stale + {signal.doc};
      }
      if signal.doc in openDocs {
        return;
      }
      if outcome != Failed {
        signals := signals + [signal];
      }
      if outcome != Created {
        return;
      }
      openDocs' := openDocs + {signal.doc};
    }

    /** Phase 2: the map is walked in any order. */
    method RaiseCodeChanges(scan: Scan, openDocs: set<DocId>) returns (openDocs': set<DocId>)
      modifies this
      requires OpenNow(signals, openDocs, scan, {}, {})
      ensures Walked(old(signals), old(stale), scan, scan.affected.Keys, {}, signals, stale, openDocs')
    {
      openDocs' := openDocs;
      var pending := scan.affected.Keys;
      ghost var coded: set<DocId> := {};
      while pending != {}
        invariant pending == scan.affected.Keys - coded && coded <= scan.affected.Keys
        invariant Walked(old(signals), old(stale), scan, coded, {}, signals, stale, openDocs')
        decreases pending
      {
        var doc :| doc in pending;
        var signal := BuildCodeSignal(scan, doc);
        CodeStep(old(signals), old(stale), scan, coded, doc, signals, stale, openDocs');
        openDocs' := Raise(signal, scan.answers.marks(CodeChange, doc), scan.answers.creates(CodeChange, doc), openDocs');
        coded := coded + {doc};
        pending := pending - {doc};
      }
      assert coded == scan.affected.Keys;
    }

    /** Phase 3. */
    method RaiseTimeDecays(scan: Scan, openDocs: set<DocId>, ghost before: seq<Signal>, ghost marked: set<DocId>)
      modifies this
      requires Walked(before, marked, scan, scan.affected.Keys, {}, signals, stale, openDocs)
      ensures Synced(before, marked, scan, signals, stale)
    {
      var openDocs' := openDocs;
      var pending := scan.answers.Decayed();
      ghost var decayed: set<DocId> := {};
      while pending != {}
        invariant pending == scan.answers.Decayed() - decayed && decayed <= scan.answers.Decayed()
        invariant Walked(before, marked, scan, scan.affected.Keys, decayed, signals, stale, openDocs')
        decreases pending
      {
        var doc :| doc in pending;
        var signal := Signal(scan.project, doc, TimeDecay, 2, [], Medium, scan.threshold, true);
        DecayStep(before, marked, scan, decayed, doc, signals, stale, openDocs');
        openDocs' := Raise(signal, scan.answers.marks(TimeDecay, doc), scan.answers.creates(TimeDecay, doc), openDocs');
        decayed := decayed + {doc};
        pending := pending - {doc};
      }
      assert decayed == scan.answers.Decayed();
      AllWalked(before, marked, scan, signals, stale, openDocs');
    }

    /** Phases 2 and 3 of Run. */
    method Sync(scan: Scan)
      modifies this
      ensures Synced(old(signals), old(stale), scan, signals, stale)
    {
      var openDocs := ListOpenDocumentIDs(scan);
      openDocs := RaiseCodeChanges(scan, openDocs);
      RaiseTimeDecays(scan, openDocs, old(signals), old(stale));
    }

    /** Run: a repository that cannot be read ends it before anything is changed. */
    method Run(project: ProjectId, threshold: int, repositories: seq<Repository>, links: string -> Option<seq<DocId>>,
               registry: string -> Option<seq<DocId>>, answers: Answers)
      modifies this
      ensures if Readable(repositories)
              then var affected := Affected(Listed(repositories), Lookups(IsNoisyPath, links, registry));
                   Synced(old(signals), old(stale), Scan(project, threshold, affected, answers), signals, stale)
              else signals == old(signals) && stale == old(stale)
    {
      var changes := CollectChanges(repositories);
      if changes.None? {
        return;
      }
      RepeatsDoNotMatter(Listed(repositories), Lookups(IsNoisyPath, links, registry));
      var affected := BuildAffected(changes.value, Lookups(IsNoisyPath, links, registry));
      Sync(Scan(project, threshold, affected, answers));
    }
  }

  // ----- the two walks, after the documents `coded` and then `decayed` have been visited -----

  function RaisedIn(scan: Scan, coded: set<DocId>, decayed: set<DocId>, doc: DocId): seq<Signal> {
    (if doc in coded then scan.FromCode(doc) else []) + (if doc in decayed then scan.FromDecay(doc) else [])
  }

  ghost predicate Gained(signals: seq<Signal>, gained: seq<Signal>, scan: Scan, coded: set<DocId>, decayed: set<DocId>) {
    forall doc :: SignalsOf(gained, doc) == if KnownOpen(signals, scan, doc) then [] else RaisedIn(scan, coded, decayed, doc)
  }

  ghost predicate OpenNow(signals: seq<Signal>, openDocs: set<DocId>, scan: Scan, coded: set<DocId>, decayed: set<DocId>) {
    forall doc :: doc in openDocs <==>
      || KnownOpen(signals, scan, doc)
      || (doc in coded && scan.answers.creates(CodeChange, doc) == Created)
      || (doc in decayed && scan.answers.creates(TimeDecay, doc) == Created)
  }

  ghost predicate MarkedNow(stale: set<DocId>, stale': set<DocId>, scan: Scan, coded: set<DocId>, decayed: set<DocId>) {
    forall doc :: doc in stale' <==>
      || doc in stale
      || (doc in coded && scan.answers.marks(CodeChange, doc))
      || (doc in decayed && scan.answers.marks(TimeDecay, doc))
  }

  lemma SignalsOfOne(signals: seq<Signal>, signal: Signal, doc: DocId)
    ensures SignalsOf(signals + [signal], doc) == SignalsOf(signals, doc) + if signal.doc == doc then [signal] else []
  {
    assert (signals + [signal])[..|signals|] == signals;
  }

  ghost predicate Walked(signals: seq<Signal>, stale: set<DocId>, scan: Scan, coded: set<DocId>, decayed: set<DocId>,
                         signals': seq<Signal>, stale': set<DocId>, openDocs: set<DocId>) {
    && signals <= signals'
    && Gained(signals, signals'[|signals|..], scan, coded, decayed)
    && OpenNow(signals, openDocs, scan, coded, decayed)
    && MarkedNow(stale, stale', scan, coded, decayed)
  }

  /** What Raise adds to the signals. */
  function Row(signal: Signal, outcome: Outcome, openDocs: set<DocId>): seq<Signal> {
    if signal.doc in openDocs || outcome == Failed then [] else [signal]
  }

  lemma GainedByCode(signals: seq<Signal>, gained: seq<Signal>, scan: Scan, coded: set<DocId>, doc: DocId, openDocs: set<DocId>)
    requires doc in scan.affected && doc !in coded
    requires Gained(signals, gained, scan, coded, {}) && OpenNow(signals, openDocs, scan, coded, {})
    ensures Gained(signals, gained + Row(scan.CodeSignal(doc), scan.answers.creates(CodeChange, doc), openDocs), scan, coded + {doc}, {})
  {
    var row := Row(scan.CodeSignal(doc), scan.answers.creates(CodeChange, doc), openDocs);
    forall d ensures SignalsOf(gained + row, d) == if KnownOpen(signals, scan, d) then [] else RaisedIn(scan, coded + {doc}, {}, d) {
      CodeGainAt(signals, gained, scan, coded, doc, openDocs, d);
    }
  }

  lemma CodeGainAt(signals: seq<Signal>, gained: seq<Signal>, scan: Scan, coded: set<DocId>, doc: DocId, openDocs: set<DocId>, d: DocId)
    requires doc in scan.affected && doc !in coded
    requires Gained(signals, gained, scan, coded, {}) && OpenNow(signals, openDocs, scan, coded, {})
    ensures SignalsOf(gained + Row(scan.CodeSignal(doc), scan.answers.creates(CodeChange, doc), openDocs), d) ==
            if KnownOpen(signals, scan, d) then [] else RaisedIn(scan, coded + {doc}, {}, d)
  {
    RowAdds(gained, scan.CodeSignal(doc), scan.answers.creates(CodeChange, doc), openDocs, d);
    assert SignalsOf(gained, d) == if KnownOpen(signals, scan, d) then [] else RaisedIn(scan, coded, {}, d);
    if d == doc {
      assert doc in openDocs <==> KnownOpen(signals, scan, doc);
      CodeRow(scan, coded, doc, openDocs);
    } else {
      RaisedElsewhere(scan, coded, {}, doc, d);
    }
  }

  lemma CodeRow(scan: Scan, coded: set<DocId>, doc: DocId, openDocs: set<DocId>)
    requires doc in scan.affected && doc !in coded
    ensures RaisedIn(scan, coded, {}, doc) == [] && RaisedIn(scan, coded + {doc}, {}, doc) == scan.FromCode(doc)
    ensures Row(scan.CodeSignal(doc), scan.answers.creates(CodeChange, doc), openDocs) == if doc in openDocs then [] else scan.FromCode(doc)
  {
  }

  lemma RaisedElsewhere(scan: Scan, coded: set<DocId>, decayed: set<DocId>, doc: DocId, d: DocId)
    requires d != doc
    ensures RaisedIn(scan, coded + {doc}, decayed, d) == RaisedIn(scan, coded, decayed, d) == RaisedIn(scan, coded, decayed + {doc}, d)
  {
  }

  /** Row adds to the signals of its own document only. */
  lemma RowAdds(gained: seq<Signal>, signal: Signal, outcome: Outcome, openDocs: set<DocId>, d: DocId)
    ensures SignalsOf(gained + Row(signal, outcome, openDocs), d) ==
            SignalsOf(gained, d) + if d == signal.doc then Row(signal, outcome, openDocs) else []
  {
    SignalsOfOne(gained, signal, d);
    assert gained + [] == gained && SignalsOf(gained, d) + [] == SignalsOf(gained, d);
  }

  lemma GainedByDecay(signals: seq<Signal>, gained: seq<Signal>, scan: Scan, decayed: set<DocId>, doc: DocId, openDocs: set<DocId>)
    requires doc in scan.answers.Decayed() && doc !in decayed
    requires Gained(signals, gained, scan, scan.affected.Keys, decayed) && OpenNow(signals, openDocs, scan, scan.affected.Keys, decayed)
    ensures Gained(signals, gained + Row(scan.DecaySignal(doc), scan.answers.creates(TimeDecay, doc), openDocs),
                   scan, scan.affected.Keys, decayed + {doc})
  {
    var row := Row(scan.DecaySignal(doc), scan.answers.creates(TimeDecay, doc), openDocs);
    forall d ensures SignalsOf(gained + row, d) ==
                     if KnownOpen(signals, scan, d) then [] else RaisedIn(scan, scan.affected.Keys, decayed + {doc}, d)
    {
      DecayGainAt(signals, gained, scan, decayed, doc, openDocs, d);
    }
  }

  lemma DecayGainAt(signals: seq<Signal>, gained: seq<Signal>, scan: Scan, decayed: set<DocId>, doc: DocId, openDocs: set<DocId>, d: DocId)
    requires doc in scan.answers.Decayed() && doc !in decayed
    requires Gained(signals, gained, scan, scan.affected.Keys, decayed) && OpenNow(signals, openDocs, scan, scan.affected.Keys, decayed)
    ensures SignalsOf(gained + Row(scan.DecaySignal(doc), scan.answers.creates(TimeDecay, doc), openDocs), d) ==
            if KnownOpen(signals, scan, d) then [] else RaisedIn(scan, scan.affected.Keys, decayed + {doc}, d)
  {
    var outcome, coded := scan.answers.creates(TimeDecay, doc), scan.affected.Keys;
    assert SignalsOf(gained, d) == if KnownOpen(signals, scan, d) then [] else RaisedIn(scan, coded, decayed, d);
    RowAdds(gained, scan.DecaySignal(doc), outcome, openDocs, d);
    if d == doc {
      assert doc in openDocs <==> KnownOpen(signals, scan, doc) || (doc in coded && scan.answers.creates(CodeChange, doc) == Created);
      DecayRow(scan, decayed, doc, openDocs, KnownOpen(signals, scan, doc));
    } else {
      RaisedElsewhere(scan, coded, decayed, doc, d);
    }
  }

  lemma DecayRow(scan: Scan, decayed: set<DocId>, doc: DocId, openDocs: set<DocId>, known: bool)
    requires doc in scan.answers.Decayed() && doc !in decayed
    requires doc in openDocs <==> known || (doc in scan.affected && scan.answers.creates(CodeChange, doc) == Created)
    ensures var row := Row(scan.DecaySignal(doc), scan.answers.creates(TimeDecay, doc), openDocs);
            if known then row == []
            else RaisedIn(scan, scan.affected.Keys, decayed, doc) + row == RaisedIn(scan, scan.affected.Keys, decayed + {doc}, doc)
  {
    if !known {
      var code := if doc in scan.affected.Keys then scan.FromCode(doc) else [];
      assert RaisedIn(scan, scan.affected.Keys, decayed, doc) == code + [] == code;
      assert Row(scan.DecaySignal(doc), scan.answers.creates(TimeDecay, doc), openDocs) == scan.FromDecay(doc);
    }
  }

  lemma RowExtends(signals: seq<Signal>, signals': seq<Signal>, row: seq<Signal>)
    requires signals <= signals'
    ensures signals <= signals' + row && (signals' + row)[|signals|..] == signals'[|signals|..] + row
  {
  }

  lemma OpenStep(signals: seq<Signal>, openDocs: set<DocId>, scan: Scan, coded: set<DocId>, decayed: set<DocId>,
                 trigger: Trigger, doc: DocId)
    requires OpenNow(signals, openDocs, scan, coded, decayed)
    ensures var openDocs' := openDocs + (if scan.answers.creates(trigger, doc) == Created then {doc} else {});
            if trigger == CodeChange then OpenNow(signals, openDocs', scan, coded + {doc}, decayed)
            else OpenNow(signals, openDocs', scan, coded, decayed + {doc})
  {
  }

  lemma MarkStep(stale: set<DocId>, stale': set<DocId>, scan: Scan, coded: set<DocId>, decayed: set<DocId>,
                 trigger: Trigger, doc: DocId)
    requires MarkedNow(stale, stale', scan, coded, decayed)
    ensures var stale'' := stale' + (if scan.answers.marks(trigger, doc) then {doc} else {});
            if trigger == CodeChange then MarkedNow(stale, stale'', scan, coded + {doc}, decayed)
            else MarkedNow(stale, stale'', scan, coded, decayed + {doc})
  {
  }

  lemma CodeStep(signals: seq<Signal>, stale: set<DocId>, scan: Scan, coded: set<DocId>, doc: DocId,
                 signals': seq<Signal>, stale': set<DocId>, openDocs: set<DocId>)
    requires doc in scan.affected && doc !in coded
    requires Walked(signals, stale, scan, coded, {}, signals', stale', openDocs)
    ensures var outcome := scan.answers.creates(CodeChange, doc);
            Walked(signals, stale, scan, coded + {doc}, {}, signals' + Row(scan.CodeSignal(doc), outcome, openDocs),
                   stale' + (if scan.answers.marks(CodeChange, doc) then {doc} else {}),
                   openDocs + (if outcome == Created then {doc} else {}))
  {
    GainedByCode(signals, signals'[|signals|..], scan, coded, doc, openDocs);
    RowExtends(signals, signals', Row(scan.CodeSignal(doc), scan.answers.creates(CodeChange, doc), openDocs));
    OpenStep(signals, openDocs, scan, coded, {}, CodeChange, doc);
    MarkStep(stale, stale', scan, coded, {}, CodeChange, doc);
  }

  lemma DecayStep(signals: seq<Signal>, stale: set<DocId>, scan: Scan, decayed: set<DocId>, doc: DocId,
                  signals': seq<Signal>, stale': set<DocId>, openDocs: set<DocId>)
    requires doc in scan.answers.Decayed() && doc !in decayed
    requires Walked(signals, stale, scan, scan.affected.Keys, decayed, signals', stale', openDocs)
    ensures var outcome := scan.answers.creates(TimeDecay, doc);
            Walked(signals, stale, scan, scan.affected.Keys, decayed + {doc}, signals' + Row(scan.DecaySignal(doc), outcome, openDocs),
                   stale' + (if scan.answers.marks(TimeDecay, doc) then {doc} else {}),
                   openDocs + (if outcome == Created then {doc} else {}))
  {
    GainedByDecay(signals, signals'[|signals|..], scan, decayed, doc, openDocs);
    RowExtends(signals, signals', Row(scan.DecaySignal(doc), scan.answers.creates(TimeDecay, doc), openDocs));
    OpenStep(signals, openDocs, scan, scan.affected.Keys, decayed, TimeDecay, doc);
    MarkStep(stale, stale', scan, scan.affected.Keys, decayed, TimeDecay, doc);
  }

  lemma AllWalked(signals: seq<Signal>, stale: set<DocId>, scan: Scan, signals': seq<Signal>, stale': set<DocId>, openDocs: set<DocId>)
    requires Walked(signals, stale, scan, scan.affected.Keys, scan.answers.Decayed(), signals', stale', openDocs)
    ensures Synced(signals, stale, scan, signals', stale')
  {
    forall doc ensures RaisedIn(scan, scan.affected.Keys, scan.answers.Decayed(), doc) == scan.Raised(doc) {
      assert doc !in scan.affected ==> scan.FromCode(doc) == [];
      assert doc !in scan.answers.Decayed() ==> scan.FromDecay(doc) == [];
    }
  }

  // ----- what follows from Synced -----

  /** With working queries and store calls, every affected or decayed document ends stale with an open signal,
      and each document gains at most one: one exactly when it is affected or decayed and had none open in the
      project, made by the code change when there is one. */
  lemma EachGainsAtMostOne(signals: seq<Signal>, stale: set<DocId>, scan: Scan, signals': seq<Signal>, stale': set<DocId>, doc: DocId)
    requires Synced(signals, stale, scan, signals', stale') && Working(scan)
    ensures var gained := SignalsOf(signals'[|signals|..], doc);
            gained == if HasOpen(signals, scan.project, doc) || !scan.Concerns(doc) then []
                      else if doc in scan.affected then [scan.CodeSignal(doc)] else [scan.DecaySignal(doc)]
    ensures scan.Concerns(doc) ==> doc in stale' && HasOpen(signals', scan.project, doc)
  {
    var gained := signals'[|signals|..];
    if scan.Concerns(doc) {
      if HasOpen(signals, scan.project, doc) {
        HasOpenLasts(signals, signals', scan.project, doc);
      } else {
        InSignalsOf(gained, doc, SignalsOf(gained, doc)[0]);
        var i :| 0 <= i < |gained| && gained[i] == SignalsOf(gained, doc)[0];
        assert signals'[|signals| + i] == gained[i];
      }
    }
  }

  ghost predicate Working(scan: Scan) {
    && scan.answers.listed && scan.answers.decayed.Some?
    && forall doc, trigger :: scan.answers.marks(trigger, doc) && scan.answers.creates(trigger, doc) == Created
  }

  lemma HasOpenLasts(signals: seq<Signal>, signals': seq<Signal>, project: ProjectId, doc: DocId)
    requires signals <= signals' && HasOpen(signals, project, doc)
    ensures HasOpen(signals', project, doc)
  {
    var i :| 0 <= i < |signals| && signals[i].project == project && signals[i].doc == doc && signals[i].isOpen;
    assert signals'[i] == signals[i];
  }

  lemma {:induction false} InSignalsOf(signals: seq<Signal>, doc: DocId, signal: Signal)
    ensures signal in SignalsOf(signals, doc) <==> signal in signals && signal.doc == doc
  {
    if signals != [] {
      var n := |signals| - 1;
      InSignalsOf(signals[..n], doc, signal);
      assert signals == signals[..n] + [signals[n]];
    }
  }

  /** A second run over the same changes, whatever fails in it, adds no signal as long as it can list the open
      ones; and no mark is new. */
  lemma RerunAddsNothing(signals: seq<Signal>, stale: set<DocId>, scan: Scan, signals': seq<Signal>, stale': set<DocId>,
                         again: Scan, signals'': seq<Signal>, stale'': set<DocId>)
    requires Synced(signals, stale, scan, signals', stale') && Working(scan)
    requires again.project == scan.project && again.affected == scan.affected && again.answers.listed
    requires again.answers.Decayed() == scan.answers.Decayed()
    requires Synced(signals', stale', again, signals'', stale'')
    ensures signals'' == signals' && stale'' == stale'
  {
    var gained := signals''[|signals'|..];
    if gained != [] {
      var doc := gained[0].doc;
      InSignalsOf(gained, doc, gained[0]);
      EachGainsAtMostOne(signals, stale, scan, signals', stale', doc);
      assert false;
    }
    assert signals'' == signals' + gained;
    forall doc ensures doc in stale'' <==> doc in stale' {
      EachGainsAtMostOne(signals, stale, scan, signals', stale', doc);
    }
  }

  // ----- when a document ends with two open signals -----

  function OpenCount(signals: seq<Signal>, project: ProjectId, doc: DocId): nat {
    if signals == [] then 0
    else
      var n := |signals| - 1;
      var last := signals[n];
      OpenCount(signals[..n], project, doc) + if last.project == project && last.doc == doc && last.isOpen then 1 else 0
  }

  /** The list could not be loaded and the document with an open signal gets another one. */
  predicate RaisedUnseen(signals: seq<Signal>, scan: Scan, doc: DocId) {
    && !scan.answers.listed && HasOpen(signals, scan.project, doc)
    && (|| (doc in scan.affected && scan.answers.creates(CodeChange, doc) != Failed)
        || (doc in scan.answers.Decayed() && scan.answers.creates(TimeDecay, doc) != Failed))
  }

  /** Phase 2 inserted the signal but could not read it back, so phase 3 does not know of it. */
  predicate RaisedTwice(signals: seq<Signal>, scan: Scan, doc: DocId) {
    && !KnownOpen(signals, scan, doc)
    && doc in scan.affected && scan.answers.creates(CodeChange, doc) == Unread
    && doc in scan.answers.Decayed() && scan.answers.creates(TimeDecay, doc) != Failed
  }

  /** Exactly when one run, whatever fails in it, leaves a document with more than one open signal. */
  lemma SecondOpenSignalIff(signals: seq<Signal>, stale: set<DocId>, scan: Scan, signals': seq<Signal>, stale': set<DocId>, doc: DocId)
    requires Synced(signals, stale, scan, signals', stale')
    requires OpenCount(signals, scan.project, doc) <= 1
    ensures OpenCount(signals', scan.project, doc) > 1 <==> RaisedUnseen(signals, scan, doc) || RaisedTwice(signals, scan, doc)
  {
    var gained := signals'[|signals|..];
    assert signals' == signals + gained;
    OpenCountJoins(signals, gained, scan.project, doc);
    RaisedAreOpen(scan, doc);
    OpenCountIsLength(gained, scan.project, doc);
    HasOpenIsCount(signals, scan.project, doc);
    RaisedLength(scan, doc);
  }

  /** Such a run: the signal of the code change was inserted but could not be read back. */
  lemma UnreadSignalIsRaisedAgain(project: ProjectId, threshold: int, affect: DocAffect, doc: DocId)
    ensures var scan := Scan(project, threshold, map[doc := affect], UnreadAnswers(doc));
            var signals' := [scan.CodeSignal(doc), scan.DecaySignal(doc)];
            Synced([], {}, scan, signals', {doc}) && OpenCount(signals', project, doc) == 2
  {
    var scan := Scan(project, threshold, map[doc := affect], UnreadAnswers(doc));
    var code, decay := scan.CodeSignal(doc), scan.DecaySignal(doc);
    var signals' := [code, decay];
    assert signals'[..1] == [code] && [code][..0] == [] && signals'[0..] == signals';
    forall d ensures SignalsOf(signals', d) == scan.Raised(d) {
      assert SignalsOf([code], d) == if d == doc then [code] else [];
    }
    assert OpenCount([code], project, doc) == 1;
  }

  /** And one that could not list the open signals. */
  lemma UnlistedSignalIsRaisedAgain(project: ProjectId, threshold: int, affect: DocAffect, doc: DocId, known: Signal)
    requires known.project == project && known.doc == doc && known.isOpen
    ensures var scan := Scan(project, threshold, map[doc := affect], UnlistedAnswers());
            var signals' := [known, scan.CodeSignal(doc)];
            Synced([known], {}, scan, signals', {doc}) && OpenCount([known], project, doc) == 1 && OpenCount(signals', project, doc) == 2
  {
    var scan := Scan(project, threshold, map[doc := affect], UnlistedAnswers());
    var code := scan.CodeSignal(doc);
    var signals' := [known, code];
    assert signals'[..1] == [known] && signals'[1..] == [code] && [known][..0] == [] && [code][..0] == [];
    forall d ensures SignalsOf([code], d) == scan.Raised(d) {
      assert scan.FromDecay(d) == [] && scan.FromCode(d) == if d == doc then [code] else [];
    }
  }

  function UnlistedAnswers(): Answers {
    Answers(false, Some({}), (trigger, d) => true, (trigger, d) => Created)
  }

  function UnreadAnswers(doc: DocId): Answers {
    Answers(true, Some({doc}), (trigger, d) => true, (trigger, d) => if trigger == CodeChange then Unread else Created)
  }

  lemma RaisedAreOpen(scan: Scan, doc: DocId)
    ensures forall signal :: signal in scan.Raised(doc) ==> signal.project == scan.project && signal.isOpen
  {
  }

  lemma RaisedLength(scan: Scan, doc: DocId)
    ensures |scan.Raised(doc)| > 0 <==> || (doc in scan.affected && scan.answers.creates(CodeChange, doc) != Failed)
                                        || (doc in scan.answers.Decayed() && scan.answers.creates(TimeDecay, doc) != Failed)
    ensures |scan.Raised(doc)| > 1 <==> && doc in scan.affected && scan.answers.creates(CodeChange, doc) == Unread
                                        && doc in scan.answers.Decayed() && scan.answers.creates(TimeDecay, doc) != Failed
  {
  }

  lemma {:induction false} OpenCountJoins(signals: seq<Signal>, more: seq<Signal>, project: ProjectId, doc: DocId)
    ensures OpenCount(signals + more, project, doc) == OpenCount(signals, project, doc) + OpenCount(more, project, doc)
  {
    if more == [] {
      assert signals + more == signals;
    } else {
      var n := |more| - 1;
      assert (signals + more)[..|signals| + n] == signals + more[..n];
      OpenCountJoins(signals, more[..n], project, doc);
    }
  }

  lemma {:induction false} OpenCountIsLength(signals: seq<Signal>, project: ProjectId, doc: DocId)
    requires forall signal :: signal in SignalsOf(signals, doc) ==> signal.project == project && signal.isOpen
    ensures OpenCount(signals, project, doc) == |SignalsOf(signals, doc)|
  {
    if signals != [] {
      var n := |signals| - 1;
      assert SignalsOf(signals[..n], doc) <= SignalsOf(signals, doc);
      assert signals[n].doc == doc ==> SignalsOf(signals, doc)[|SignalsOf(signals[..n], doc)|] == signals[n];
      OpenCountIsLength(signals[..n], project, doc);
    }
  }

  lemma {:induction false} HasOpenIsCount(signals: seq<Signal>, project: ProjectId, doc: DocId)
    ensures HasOpen(signals, project, doc) <==> OpenCount(signals, project, doc) > 0
  {
    if signals != [] {
      var n := |signals| - 1;
      HasOpenIsCount(signals[..n], project, doc);
      ExtendOpen(signals[..n], signals[n], project);
      assert signals == signals[..n] + [signals[n]];
    }
  }

  // ----- what a new signal says -----

  /** The signal of a code change: the document's files, high severity for a deletion or rename or three files behind a
      link, low for fewer than three registered ones, and more confidence behind a link. */
  predicate IsChangeSignal(signal: Signal, scan: Scan, doc: DocId)
    requires doc in scan.affected
  {
    var files, linked := scan.affected[doc].files, scan.affected[doc].hasDocLink;
    var destroyed := exists i :: 0 <= i < |files| && (files[i].changeType == "D" || files[i].changeType == "R");
    && signal.project == scan.project && signal.doc == doc && signal.trigger == CodeChange && signal.isOpen
    && signal.files == files && signal.daysStale == 0
    && 1 <= signal.severity <= 3
    && (signal.severity == 3 <==> destroyed || (|files| >= 3 && linked))
    && (signal.severity == 1 <==> !destroyed && |files| < 3 && !linked)
    && (signal.confidence == High <==> linked)
  }

  /** The signal of a document that has aged: medium, without files, and it tells the threshold. */
  predicate IsDecaySignal(signal: Signal, scan: Scan, doc: DocId) {
    && signal.project == scan.project && signal.doc == doc && signal.trigger == TimeDecay && signal.isOpen
    && signal.files == [] && signal.daysStale == scan.threshold && signal.severity == 2 && signal.confidence == Medium
  }

  /** Whatever fails in a run, each signal it adds is of one of the two kinds, for a document that is affected or has
      aged. */
  lemma NewSignalsSayWhy(signals: seq<Signal>, stale: set<DocId>, scan: Scan, signals': seq<Signal>, stale': set<DocId>, i: nat)
    requires Synced(signals, stale, scan, signals', stale') && |signals| <= i < |signals'|
    ensures var doc := signals'[i].doc;
            || (doc in scan.affected && IsChangeSignal(signals'[i], scan, doc))
            || (doc in scan.answers.Decayed() && IsDecaySignal(signals'[i], scan, doc))
  {
    var gained, doc := signals'[|signals|..], signals'[i].doc;
    assert gained[i - |signals|] == signals'[i];
    InSignalsOf(gained, doc, signals'[i]);
    assert signals'[i] in scan.Raised(doc);
    RaisedSayWhy(scan, doc, signals'[i]);
  }

  lemma RaisedSayWhy(scan: Scan, doc: DocId, signal: Signal)
    requires signal in scan.Raised(doc)
    ensures || (doc in scan.affected && IsChangeSignal(signal, scan, doc))
            || (doc in scan.answers.Decayed() && IsDecaySignal(signal, scan, doc))
  {
    if signal in scan.FromCode(doc) {
      var files := scan.affected[doc].files;
      assert (exists i :: 0 <= i < |files| && Destructive(files[i])) <==>
             (exists i :: 0 <= i < |files| && (files[i].changeType == "D" || files[i].changeType == "R"));
    }
  }

  // ----- file names -----

  /** The base of a path is what stands between its last slash and the slashes it may end with. */
  predicate IsBase(path: string, base: string, a: nat, b: nat) {
    && a <= b <= |path| && base == path[a..b] && '/' !in base && base != ""
    && (a == 0 || path[a - 1] == '/') && forall i :: b <= i < |path| ==> path[i] == '/'
  }

  lemma {:induction false} StripsSlashes(path: string)
    ensures WithoutTrailingSlashes(path) <= path
    ensures forall i :: |WithoutTrailingSlashes(path)| <= i < |path| ==> path[i] == '/'
    ensures var s := WithoutTrailingSlashes(path); s != "" ==> s[|s| - 1] != '/'
  {
    if path != "" && path[|path| - 1] == '/' {
      StripsSlashes(path[..|path| - 1]);
    }
  }

  lemma {:induction false} AfterSlash(path: string) returns (a: nat)
    ensures a <= |path| && AfterLastSlash(path) == path[a..] && '/' !in path[a..] && (a == 0 || path[a - 1] == '/')
  {
    if path == "" || path[|path| - 1] == '/' {
      a := |path|;
    } else {
      var n := |path| - 1;
      a := AfterSlash(path[..n]);
      assert path[a..] == path[..n][a..] + [path[n]];
    }
  }

  lemma BaseIsLastName(path: string) returns (a: nat, b: nat)
    requires exists i :: 0 <= i < |path| && path[i] != '/'
    ensures IsBase(path, Base(path), a, b)
  {
    StripsSlashes(path);
    var stripped := WithoutTrailingSlashes(path);
    var i :| 0 <= i < |path| && path[i] != '/';
    assert stripped != "";
    a := AfterSlash(stripped);
    b := |stripped|;
    assert stripped == path[..b] && stripped[a..] == path[a..b];
  }

  const LISTED_DIRS: set<string> :=
    {"vendor/", "node_modules/", ".git/", "dist/", "build/", "__pycache__/", ".next/", "coverage/"}

  const LISTED_NAMES: set<string> :=
    {"_test.go", "_test.ts", "_test.tsx", ".test.ts", ".test.tsx", ".test.js", ".spec.ts", ".spec.js", ".pb.go", ".pb.gw.go",
     "_gen.go", ".generated.", "package-lock.json", "yarn.lock", "go.sum", ".min.js", ".min.css"}

  function UnderDir(lower: string): string -> bool {
    d => HasPrefix(lower, d) || Contains(lower, "/" + d)
  }

  function NamedWith(base: string): string -> bool {
    n => Contains(base, n)
  }

  lemma InList(items: seq<string>, listed: set<string>, test: string -> bool)
    requires forall d :: d in items <==> d in listed
    ensures (exists i :: 0 <= i < |items| && test(items[i])) <==> exists d :: d in listed && test(d)
  {
    if d :| d in listed && test(d) {
      var i :| 0 <= i < |items| && items[i] == d;
    }
    if i :| 0 <= i < |items| && test(items[i]) {
      assert items[i] in items;
    }
  }

  /** The filter's two lists: directories anywhere in the path, and texts anywhere in the file's name; their order makes
      no difference. */
  lemma NoisyIffListed(path: string)
    ensures IsNoisyPath(path) <==>
              || (exists d :: d in LISTED_DIRS && UnderDir(Lower(path))(d))
              || (exists n :: n in LISTED_NAMES && NamedWith(Base(Lower(path)))(n))
  {
    SuffixesCountAnywhere(path);
    DirsAreListed();
    NamesAreListed();
    InList(NOISY_DIRS, LISTED_DIRS, UnderDir(Lower(path)));
    InList(NOISY_SUFFIXES, LISTED_NAMES, NamedWith(Base(Lower(path))));
    ListsDecide(Lower(path), Base(Lower(path)));
  }

  lemma ListsDecide(lower: string, base: string)
    ensures (exists i :: 0 <= i < |NOISY_DIRS| && UnderDir(lower)(NOISY_DIRS[i])) <==>
            (exists i :: 0 <= i < |NOISY_DIRS| && (HasPrefix(lower, NOISY_DIRS[i]) || Contains(lower, "/" + NOISY_DIRS[i])))
    ensures (exists i :: 0 <= i < |NOISY_SUFFIXES| && NamedWith(base)(NOISY_SUFFIXES[i])) <==>
            (exists i :: 0 <= i < |NOISY_SUFFIXES| && Contains(base, NOISY_SUFFIXES[i]))
  {
  }

  lemma DirsAreListed()
    ensures forall d :: d in NOISY_DIRS <==> d in LISTED_DIRS
  {
  }

  lemma NamesAreListed()
    ensures forall n :: n in NOISY_SUFFIXES <==> n in LISTED_NAMES
  {
  }
}
