/** From the lines of `git log --name-status` to the changed files of a scan, over all repositories of a project. */
module GitScanner {
  import opened Options
  import opened Text

  /** The change type is the first character of git's status: A, D, M or R. */
  datatype Change = Change(path: string, changeType: string)

  predicate HasPath(files: seq<Change>, path: string) {
    exists i :: 0 <= i < |files| && files[i].path == path
  }

  ghost predicate DistinctPaths(files: seq<Change>) {
    forall i, j :: 0 <= i < j < |files| ==> files[i].path != files[j].path
  }

  // ----- one repository -----

  /** The status and the last path of a line; a line of fewer than two fields tells nothing. */
  function Parsed(line: string): Option<Change> {
    var parts := Fields(TrimSpace(line));
    FieldsAreWords(TrimSpace(line));
    if |parts| < 2 then None else Some(Change(parts[|parts| - 1], [parts[0][0]]))
  }

  function OneMoreLine(files: seq<Change>, parsed: Option<Change>): seq<Change> {
    if parsed.Some? && !HasPath(files, parsed.value.path) then files + [parsed.value] else files
  }

  function Recent(lines: seq<string>): seq<Change> {
    if lines == [] then [] else OneMoreLine(Recent(lines[..|lines| - 1]), Parsed(lines[|lines| - 1]))
  }

  lemma RecentOneMore(lines: seq<string>, line: string)
    ensures Recent(lines + [line]) == OneMoreLine(Recent(lines), Parsed(line))
  {
    assert (lines + [line])[..|lines|] == lines;
  }

  /** The loop of RecentChanges with its set of seen paths. */
  method RecentChanges(lines: seq<string>) returns (files: seq<Change>)
    ensures files == Recent(lines)
  {
    files := [];
    var seen: set<string> := {};
    for i := 0 to |lines|
      invariant files == Recent(lines[..i])
      invariant forall path :: path in seen <==> HasPath(files, path)
    {
      assert lines[..i + 1][..i] == lines[..i];
      var line := TrimSpace(lines[i]);
      if line == "" {
        continue;
      }
      var parts := Fields(line);
      FieldsAreWords(line);
      if |parts| < 2 {
        continue;
      }
      var change := Change(parts[|parts| - 1], [parts[0][0]]);
      if change.path !in seen {
        PathsOneMore(files, change);
        seen := seen + {change.path};
        files := files + [change];
      }
    }
    assert lines[..|lines|] == lines;
  }

  lemma PathsOneMore(files: seq<Change>, change: Change)
    ensures forall path :: HasPath(files + [change], path) <==> HasPath(files, path) || path == change.path
  {
    var longer := files + [change];
    assert longer[|files|] == change;
    assert forall i :: 0 <= i < |files| ==> longer[i] == files[i];
  }

  predicate ChangesPath(line: string, path: string) {
    Parsed(line).Some? && Parsed(line).value.path == path
  }

  /** The log is newest first: the k-th line is the newest change of its path. */
  predicate NewestOfPath(lines: seq<string>, change: Change, k: nat) {
    k < |lines| && Parsed(lines[k]) == Some(change) && forall j :: 0 <= j < k ==> !ChangesPath(lines[j], change.path)
  }

  lemma {:induction false} RecentHasPath(lines: seq<string>, path: string)
    ensures HasPath(Recent(lines), path) <==> exists k :: 0 <= k < |lines| && ChangesPath(lines[k], path)
  {
    if lines != [] {
      var n := |lines| - 1;
      RecentHasPath(lines[..n], path);
      assert forall k :: 0 <= k < n ==> lines[..n][k] == lines[k];
      if Parsed(lines[n]).Some? {
        PathsOneMore(Recent(lines[..n]), Parsed(lines[n]).value);
      }
    }
  }

  /** Each path that changed is listed once, with its newest change. */
  lemma {:induction false} RecentIsNewest(lines: seq<string>, change: Change)
    ensures change in Recent(lines) <==> exists k: nat :: NewestOfPath(lines, change, k)
  {
    if lines != [] {
      var n := |lines| - 1;
      RecentIsNewest(lines[..n], change);
      RecentHasPath(lines[..n], change.path);
      assert forall k :: 0 <= k < n ==> lines[..n][k] == lines[k];
      forall k: nat | k < n ensures NewestOfPath(lines[..n], change, k) <==> NewestOfPath(lines, change, k) {
      }
      assert NewestOfPath(lines, change, n) <==> Parsed(lines[n]) == Some(change) && !HasPath(Recent(lines[..n]), change.path);
    }
  }

  lemma {:induction false} RecentIsDistinct(lines: seq<string>)
    ensures DistinctPaths(Recent(lines))
  {
    if lines != [] {
      RecentIsDistinct(lines[..|lines| - 1]);
    }
  }

  // ----- all repositories of a project -----

  /** A mapped repository and the lines of its log since the last scan; None if it is no git repository or its
      log could not be read. A project without mappings is one primary repository. */
  datatype Repository = Repository(isPrimary: bool, mappedAs: string, log: Option<seq<string>>)
  {
    function LogicalPath(path: string): string {
      if !isPrimary && TrimSpace(mappedAs) != "" then TrimSpace(mappedAs) + "/" + path else path
    }

    function Logical(change: Change): Change {
      Change(LogicalPath(change.path), change.changeType)
    }
  }

  predicate Readable(repositories: seq<Repository>) {
    forall i :: 0 <= i < |repositories| ==> repositories[i].log.Some?
  }

  function LogicalChanges(files: seq<Change>, repository: Repository): seq<Change> {
    if files == [] then []
    else LogicalChanges(files[..|files| - 1], repository) + [repository.Logical(files[|files| - 1])]
  }

  /** The changes of all repositories, one after another. */
  function Listed(repositories: seq<Repository>): seq<Change>
    requires Readable(repositories)
  {
    if repositories == [] then []
    else
      var last := repositories[|repositories| - 1];
      Listed(repositories[..|repositories| - 1]) + LogicalChanges(Recent(last.log.value), last)
  }

  /** The first of equal changes. */
  function WithoutRepeats(changes: seq<Change>): seq<Change> {
    if changes == [] then []
    else
      var n := |changes| - 1;
      WithoutRepeats(changes[..n]) + if changes[n] in changes[..n] then [] else [changes[n]]
  }

  function KeyOf(change: Change): string {
    change.path + "|" + change.changeType
  }

  predicate OneCharacter(changes: seq<Change>) {
    forall i :: 0 <= i < |changes| ==> |changes[i].changeType| == 1
  }

  /** Because a change type is one character, no two changes share a key, whatever their paths hold. */
  lemma KeysDiffer(a: Change, b: Change)
    requires |a.changeType| == 1 && |b.changeType| == 1
    ensures KeyOf(a) == KeyOf(b) <==> a == b
  {
    if KeyOf(a) == KeyOf(b) {
      assert KeyOf(a)[|a.path| + 1..] == a.changeType && KeyOf(b)[|b.path| + 1..] == b.changeType;
      assert KeyOf(a)[..|a.path|] == a.path && KeyOf(b)[..|b.path|] == b.path;
    }
  }

  lemma {:induction false} RecentIsOneCharacter(lines: seq<string>)
    ensures OneCharacter(Recent(lines))
  {
    if lines != [] {
      RecentIsOneCharacter(lines[..|lines| - 1]);
    }
  }

  lemma RepeatsOneMore(changes: seq<Change>, change: Change)
    ensures WithoutRepeats(changes + [change]) == WithoutRepeats(changes) + if change in changes then [] else [change]
  {
    assert (changes + [change])[..|changes|] == changes;
  }

  lemma ListedOneMore(repositories: seq<Repository>, i: nat)
    requires i < |repositories| && Readable(repositories[..i])
    ensures repositories[i].log.None? ==> !Readable(repositories)
    ensures repositories[i].log.Some? ==>
              && Readable(repositories[..i + 1])
              && Listed(repositories[..i + 1]) ==
                 Listed(repositories[..i]) + LogicalChanges(Recent(repositories[i].log.value), repositories[i])
  {
    assert repositories[..i + 1][..i] == repositories[..i];
    assert forall j :: 0 <= j < i ==> repositories[..i][j] == repositories[j];
  }

  /** The loop over the repositories. */
  method CollectChanges(repositories: seq<Repository>) returns (changes: Option<seq<Change>>)
    ensures changes == if Readable(repositories) then Some(WithoutRepeats(Listed(repositories))) else None
  {
    var changedFiles: seq<Change> := [];
    var seen: set<string> := {};
    ghost var listed: seq<Change> := [];
    for i := 0 to |repositories|
      invariant Readable(repositories[..i]) && listed == Listed(repositories[..i])
      invariant Collected(listed, changedFiles, seen)
    {
      ListedOneMore(repositories, i);
      if repositories[i].log.None? {
        return None;
      }
      var recent := RecentChanges(repositories[i].log.value);
      RecentIsOneCharacter(repositories[i].log.value);
      changedFiles, seen := AppendChanges(repositories[i], recent, changedFiles, seen, listed);
      listed := listed + LogicalChanges(recent, repositories[i]);
    }
    assert repositories[..|repositories|] == repositories;
    return Some(changedFiles);
  }

  /** The loop over one repository's files. */
  method AppendChanges(repository: Repository, recent: seq<Change>, changedFiles: seq<Change>, seen: set<string>, ghost listed: seq<Change>)
    returns (changedFiles': seq<Change>, seen': set<string>)
    requires Collected(listed, changedFiles, seen) && OneCharacter(recent)
    ensures Collected(listed + LogicalChanges(recent, repository), changedFiles', seen')
  {
    changedFiles', seen' := changedFiles, seen;
    ghost var done := listed;
    for i := 0 to |recent|
      invariant done == listed + LogicalChanges(recent[..i], repository)
      invariant Collected(done, changedFiles', seen')
    {
      LogicalOneMore(listed, recent, repository, i);
      changedFiles', seen' := AppendLogicalChange(repository.Logical(recent[i]), changedFiles', seen', done);
      done := done + [repository.Logical(recent[i])];
    }
    assert recent[..|recent|] == recent;
  }

  lemma LogicalOneMore(listed: seq<Change>, recent: seq<Change>, repository: Repository, i: nat)
    requires i < |recent|
    ensures listed + LogicalChanges(recent[..i + 1], repository) ==
            listed + LogicalChanges(recent[..i], repository) + [repository.Logical(recent[i])]
  {
    assert recent[..i + 1][..i] == recent[..i];
  }

  /** The closure of that name; `seen` holds the keys of what has been listed. */
  method AppendLogicalChange(change: Change, changedFiles: seq<Change>, seen: set<string>, ghost listed: seq<Change>)
    returns (changedFiles': seq<Change>, seen': set<string>)
    requires Collected(listed, changedFiles, seen) && |change.changeType| == 1
    ensures Collected(listed + [change], changedFiles', seen')
  {
    CollectedOneMore(listed, change, changedFiles, seen);
    var key := KeyOf(change);
    if key in seen {
      return changedFiles, seen;
    }
    return changedFiles + [change], seen + {key};
  }

  predicate HasKey(listed: seq<Change>, key: string) {
    exists i :: 0 <= i < |listed| && KeyOf(listed[i]) == key
  }

  ghost predicate Keyed(listed: seq<Change>, seen: set<string>) {
    && OneCharacter(listed)
    && (forall key :: key in seen <==> HasKey(listed, key))
  }

  ghost predicate Collected(listed: seq<Change>, changedFiles: seq<Change>, seen: set<string>) {
    changedFiles == WithoutRepeats(listed) && Keyed(listed, seen)
  }

  lemma SeenIff(listed: seq<Change>, change: Change, seen: set<string>)
    requires Keyed(listed, seen) && |change.changeType| == 1
    ensures KeyOf(change) in seen <==> change in listed
  {
    forall i | 0 <= i < |listed| ensures KeyOf(listed[i]) == KeyOf(change) <==> listed[i] == change {
      KeysDiffer(listed[i], change);
    }
  }

  lemma KeyedOneMore(listed: seq<Change>, change: Change, seen: set<string>)
    requires Keyed(listed, seen) && |change.changeType| == 1
    ensures Keyed(listed + [change], seen + {KeyOf(change)})
  {
    var longer := listed + [change];
    assert longer[|listed|] == change;
    assert forall i :: 0 <= i < |listed| ==> longer[i] == listed[i];
  }

  lemma CollectedOneMore(listed: seq<Change>, change: Change, changedFiles: seq<Change>, seen: set<string>)
    requires Collected(listed, changedFiles, seen) && |change.changeType| == 1
    ensures if KeyOf(change) in seen then Collected(listed + [change], changedFiles, seen)
            else Collected(listed + [change], changedFiles + [change], seen + {KeyOf(change)})
  {
    SeenIff(listed, change, seen);
    RepeatsOneMore(listed, change);
    KeyedOneMore(listed, change, seen);
    if KeyOf(change) in seen {
      assert seen + {KeyOf(change)} == seen;
      assert WithoutRepeats(listed) + [] == WithoutRepeats(listed);
    }
  }

  lemma {:induction false} PrimaryPathsStay(files: seq<Change>, repository: Repository)
    requires repository.isPrimary
    ensures LogicalChanges(files, repository) == files
  {
    if files != [] {
      PrimaryPathsStay(files[..|files| - 1], repository);
    }
  }

  /** A single primary repository lists its paths once and as they are. */
  lemma PrimaryAlone(lines: seq<string>, mappedAs: string)
    ensures Listed([Repository(true, mappedAs, Some(lines))]) == Recent(lines)
  {
    var repository := Repository(true, mappedAs, Some(lines));
    assert [repository][..0] == [];
    PrimaryPathsStay(Recent(lines), repository);
  }

  // ----- which line decides how a path counts -----

  /** The line's last field, as a logical path, is `path`. */
  predicate NamesPath(repository: Repository, line: string, path: string) {
    Parsed(line).Some? && repository.LogicalPath(Parsed(line).value.path) == path
  }

  /** The k-th line of the r-th repository is the newest one there that names the path, no earlier repository names it,
      and its change is of this type. */
  predicate Decides(repositories: seq<Repository>, path: string, changeType: string, r: nat, k: nat)
    requires Readable(repositories)
  {
    && r < |repositories| && NewestNaming(repositories[r], repositories[r].log.value, path, changeType, k)
    && forall q :: 0 <= q < r ==> !Named(repositories[q], repositories[q].log.value, path)
  }

  predicate Named(repository: Repository, lines: seq<string>, path: string) {
    exists j :: 0 <= j < |lines| && NamesPath(repository, lines[j], path)
  }

  predicate NewestNaming(repository: Repository, lines: seq<string>, path: string, changeType: string, k: nat) {
    && k < |lines| && NamesPath(repository, lines[k], path) && Parsed(lines[k]).value.changeType == changeType
    && forall j :: 0 <= j < k ==> !NamesPath(repository, lines[j], path)
  }

  /** The type of the first change of the path. */
  function FirstType(changes: seq<Change>, path: string): Option<string> {
    if changes == [] then None
    else
      var n := |changes| - 1;
      Or(FirstType(changes[..n], path), if changes[n].path == path then Some(changes[n].changeType) else None)
  }

  function Or<T>(first: Option<T>, second: Option<T>): Option<T> {
    if first.Some? then first else second
  }

  lemma FirstTypeOneMore(changes: seq<Change>, change: Change, path: string)
    ensures FirstType(changes + [change], path) == Or(FirstType(changes, path), if change.path == path then Some(change.changeType) else None)
  {
    assert (changes + [change])[..|changes|] == changes;
  }

  lemma {:induction false} FirstTypeJoins(changes: seq<Change>, more: seq<Change>, path: string)
    ensures FirstType(changes + more, path) == Or(FirstType(changes, path), FirstType(more, path))
  {
    if more == [] {
      assert changes + more == changes;
    } else {
      var n := |more| - 1;
      assert changes + more == changes + more[..n] + [more[n]];
      FirstTypeJoins(changes, more[..n], path);
      FirstTypeOneMore(changes + more[..n], more[n], path);
    }
  }

  lemma {:induction false} FirstTypeIffPath(changes: seq<Change>, path: string)
    ensures FirstType(changes, path).Some? <==> HasPath(changes, path)
  {
    if changes != [] {
      var n := |changes| - 1;
      FirstTypeIffPath(changes[..n], path);
      PathsOneMore(changes[..n], changes[n]);
      assert changes == changes[..n] + [changes[n]];
    }
  }

  function NewestType(repository: Repository, lines: seq<string>, path: string): Option<string> {
    if lines == [] then None
    else
      var n := |lines| - 1;
      Or(NewestType(repository, lines[..n], path),
         if NamesPath(repository, lines[n], path) then Some(Parsed(lines[n]).value.changeType) else None)
  }

  lemma {:induction false} LogicalHasPath(files: seq<Change>, repository: Repository, path: string)
    ensures HasPath(files, path) ==> HasPath(LogicalChanges(files, repository), repository.LogicalPath(path))
  {
    if files != [] {
      var n := |files| - 1;
      LogicalHasPath(files[..n], repository, path);
      PathsOneMore(files[..n], files[n]);
      PathsOneMore(LogicalChanges(files[..n], repository), repository.Logical(files[n]));
      assert files == files[..n] + [files[n]];
    }
  }

  lemma LogicalAddsOne(files: seq<Change>, change: Change, repository: Repository)
    ensures LogicalChanges(files + [change], repository) == LogicalChanges(files, repository) + [repository.Logical(change)]
  {
    assert (files + [change])[..|files|] == files;
  }

  /** A path that is dropped because it has been seen is one whose logical path has a type. */
  lemma NewestOneMore(files: seq<Change>, parsed: Option<Change>, repository: Repository, path: string)
    ensures FirstType(LogicalChanges(OneMoreLine(files, parsed), repository), path) ==
            Or(FirstType(LogicalChanges(files, repository), path),
               if parsed.Some? && repository.LogicalPath(parsed.value.path) == path then Some(parsed.value.changeType) else None)
  {
    if parsed.Some? && !HasPath(files, parsed.value.path) {
      LogicalAddsOne(files, parsed.value, repository);
      FirstTypeOneMore(LogicalChanges(files, repository), repository.Logical(parsed.value), path);
    } else if parsed.Some? {
      LogicalHasPath(files, repository, parsed.value.path);
      FirstTypeIffPath(LogicalChanges(files, repository), path);
    }
  }

  lemma {:induction false} RecentHasNewest(repository: Repository, lines: seq<string>, path: string)
    ensures FirstType(LogicalChanges(Recent(lines), repository), path) == NewestType(repository, lines, path)
  {
    if lines != [] {
      var n := |lines| - 1;
      RecentHasNewest(repository, lines[..n], path);
      NewestOneMore(Recent(lines[..n]), Parsed(lines[n]), repository, path);
    }
  }

  lemma NamedOneMore(repository: Repository, lines: seq<string>, line: string, path: string, changeType: string)
    ensures Named(repository, lines + [line], path) <==> Named(repository, lines, path) || NamesPath(repository, line, path)
    ensures forall k: nat :: k < |lines| ==>
              (NewestNaming(repository, lines + [line], path, changeType, k) <==> NewestNaming(repository, lines, path, changeType, k))
    ensures NewestNaming(repository, lines + [line], path, changeType, |lines|) <==>
              !Named(repository, lines, path) && NamesPath(repository, line, path) && Parsed(line).value.changeType == changeType
  {
    var longer := lines + [line];
    assert longer[|lines|] == line && forall j :: 0 <= j < |lines| ==> longer[j] == lines[j];
  }

  lemma {:induction false} NewestTypeIs(repository: Repository, lines: seq<string>, path: string, changeType: string)
    ensures NewestType(repository, lines, path) == Some(changeType) <==> exists k: nat :: NewestNaming(repository, lines, path, changeType, k)
    ensures NewestType(repository, lines, path).Some? <==> Named(repository, lines, path)
  {
    if lines != [] {
      var n := |lines| - 1;
      assert lines == lines[..n] + [lines[n]];
      NewestTypeIs(repository, lines[..n], path, changeType);
      NamedOneMore(repository, lines[..n], lines[n], path, changeType);
    }
  }

  function ProjectType(repositories: seq<Repository>, path: string): Option<string>
    requires Readable(repositories)
  {
    if repositories == [] then None
    else
      var n := |repositories| - 1;
      Or(ProjectType(repositories[..n], path), NewestType(repositories[n], repositories[n].log.value, path))
  }

  lemma {:induction false} ListedHasProjectType(repositories: seq<Repository>, path: string)
    requires Readable(repositories)
    ensures FirstType(Listed(repositories), path) == ProjectType(repositories, path)
  {
    if repositories != [] {
      var n := |repositories| - 1;
      var last := repositories[n];
      ListedHasProjectType(repositories[..n], path);
      FirstTypeJoins(Listed(repositories[..n]), LogicalChanges(Recent(last.log.value), last), path);
      RecentHasNewest(last, last.log.value, path);
    }
  }

  ghost predicate NamedIn(repositories: seq<Repository>, path: string)
    requires Readable(repositories)
  {
    exists q :: 0 <= q < |repositories| && Named(repositories[q], repositories[q].log.value, path)
  }

  lemma DecidesOneMore(repositories: seq<Repository>, last: Repository, path: string, changeType: string)
    requires Readable(repositories) && last.log.Some?
    ensures Readable(repositories + [last])
    ensures NamedIn(repositories + [last], path) <==> NamedIn(repositories, path) || Named(last, last.log.value, path)
    ensures forall r: nat, k: nat :: Decides(repositories + [last], path, changeType, r, k) <==>
              || Decides(repositories, path, changeType, r, k)
              || (r == |repositories| && !NamedIn(repositories, path) && NewestNaming(last, last.log.value, path, changeType, k))
  {
    var longer := repositories + [last];
    assert longer[|repositories|] == last && forall q :: 0 <= q < |repositories| ==> longer[q] == repositories[q];
  }

  lemma DecidedIsNamed(repositories: seq<Repository>, path: string, changeType: string)
    requires Readable(repositories)
    ensures (exists r: nat, k: nat :: Decides(repositories, path, changeType, r, k)) ==> NamedIn(repositories, path)
  {
    if r: nat, k: nat :| Decides(repositories, path, changeType, r, k) {
      assert Named(repositories[r], repositories[r].log.value, path);
    }
  }

  lemma {:induction false} ProjectTypeIs(repositories: seq<Repository>, path: string, changeType: string)
    requires Readable(repositories)
    ensures ProjectType(repositories, path) == Some(changeType) <==> exists r: nat, k: nat :: Decides(repositories, path, changeType, r, k)
    ensures ProjectType(repositories, path).Some? <==> NamedIn(repositories, path)
  {
    if repositories == [] {
      DecidedIsNamed(repositories, path, changeType);
    } else {
      var n := |repositories| - 1;
      var before, last := repositories[..n], repositories[n];
      assert repositories == before + [last];
      ProjectTypeIs(before, path, changeType);
      NewestTypeIs(last, last.log.value, path, changeType);
      DecidesOneMore(before, last, path, changeType);
      DecidedIsNamed(before, path, changeType);
      if ProjectType(before, path) == Some(changeType) {
        var r: nat, k: nat :| Decides(before, path, changeType, r, k);
        assert Decides(repositories, path, changeType, r, k);
      } else if ProjectType(before, path) == None && NewestType(last, last.log.value, path) == Some(changeType) {
        var k: nat :| NewestNaming(last, last.log.value, path, changeType, k);
        assert Decides(repositories, path, changeType, n, k);
      }
    }
  }

  /** The change of a logical path that comes first in the list is the one of the line that decides. */
  lemma FirstTypeIs(repositories: seq<Repository>, path: string, changeType: string)
    requires Readable(repositories)
    ensures FirstType(Listed(repositories), path) == Some(changeType) <==> exists r: nat, k: nat :: Decides(repositories, path, changeType, r, k)
  {
    ListedHasProjectType(repositories, path);
    ProjectTypeIs(repositories, path, changeType);
  }

  // ----- the lines git prints -----

  /** What a commit did to a file: the status, the score of a rename, and the paths. */
  datatype Entry = Added(path: string) | Modified(path: string) | Deleted(path: string) | Renamed(score: string, from: string, path: string)
  {
    predicate Printable() {
      Renamed? ==> forall i :: 0 <= i < |score| ==> score[i] !in SPACES
    }

    function Status(): string {
      match this
      case Added(_) => "A"
      case Modified(_) => "M"
      case Deleted(_) => "D"
      case Renamed(score, _, _) => "R" + score
    }

    function Line(): string {
      if Renamed? then Status() + "\t" + from + "\t" + path else Status() + "\t" + path
    }

    /** No file is at this path any more. */
    predicate Removes(removed: string) {
      (Deleted? && path == removed) || (Renamed? && from == removed)
    }

    /** The words of its paths. */
    function Words(): seq<string> {
      if Renamed? then Fields(from) + Fields(path) else Fields(path)
    }
  }

  lemma StatusIsWord(entry: Entry)
    requires entry.Printable()
    ensures IsWord(entry.Status())
  {
  }

  lemma FieldsAfterTab(status: string, rest: string)
    requires IsWord(status)
    ensures Fields(status + "\t" + rest) == [status] + Fields(rest)
  {
    var tail := "\t" + rest;
    FieldsOfWord(status, tail);
    assert tail[1..] == rest;
    assert status + "\t" + rest == status + tail;
  }

  lemma FieldsOfLine(entry: Entry)
    requires entry.Printable()
    ensures Fields(entry.Line()) == [entry.Status()] + entry.Words()
  {
    StatusIsWord(entry);
    if entry.Renamed? {
      FieldsAfterTab(entry.Status(), entry.from + "\t" + entry.path);
      FieldsJoin(entry.from, '\t', entry.path);
      TabsAssociate(entry.Status(), entry.from, entry.path);
    } else {
      FieldsAfterTab(entry.Status(), entry.path);
    }
  }

  lemma TabsAssociate(a: string, b: string, c: string)
    ensures a + "\t" + (b + "\t" + c) == a + "\t" + b + "\t" + c
  {
  }

  /** What the scanner makes of a line: the type is the status letter, and the path is the last word of all paths in
      it, so a rename's old path and all but the last word of a path with blanks are lost. */
  lemma LastWordIsThePath(entry: Entry)
    requires entry.Printable()
    ensures Parsed(entry.Line()) ==
            if entry.Words() == [] then None else Some(Change(entry.Words()[|entry.Words()| - 1], [entry.Status()[0]]))
  {
    FieldsOfTrim(entry.Line());
    FieldsOfLine(entry);
  }

  lemma OneWord(word: string)
    requires IsWord(word)
    ensures Fields(word) == [word]
  {
    FieldsOfWord(word, "");
    assert word + "" == word;
  }

  /** A path without blanks is taken as it is. */
  lemma WordPathIsKept(entry: Entry)
    requires entry.Printable() && IsWord(entry.path)
    ensures Parsed(entry.Line()) == Some(Change(entry.path, [entry.Status()[0]]))
  {
    LastWordIsThePath(entry);
    OneWord(entry.path);
  }

  function LinesOf(entries: seq<Entry>): seq<string> {
    seq(|entries|, i requires 0 <= i < |entries| => entries[i].Line())
  }

  // ----- logical paths -----

  /** The primary repository's paths are taken as they are, those of another one stand under its name; so within a
      repository different files stay different. */
  lemma LogicalPathsAre(repository: Repository, path: string, other: string)
    ensures var logical := repository.LogicalPath(path);
            && (repository.isPrimary || TrimSpace(repository.mappedAs) == "" ==> logical == path)
            && (!repository.isPrimary && TrimSpace(repository.mappedAs) != "" ==>
                  && TrimSpace(repository.mappedAs) + "/" <= logical && HasSuffix(logical, path)
                  && |logical| == |TrimSpace(repository.mappedAs)| + 1 + |path|)
            && (logical == repository.LogicalPath(other) <==> path == other)
  {
    var name := TrimSpace(repository.mappedAs) + "/";
    assert (name + path)[|name|..] == path && (name + other)[|name|..] == other;
  }
}
