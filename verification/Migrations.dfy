/** The migration runner: every pending file in sorted order, each in its own transaction, stopping at the first
    error; and what any number of interrupted runs leaves. */
module Migrations {
  import opened Sequences
  import opened Sorting
  import opened Text

  type Version = string

  // ----- which files -----

  datatype Entry = Entry(name: string, isDir: bool)

  predicate IsMigration(entry: Entry) {
    !entry.isDir && HasSuffix(entry.name, ".sql") && !HasSuffix(entry.name, ".down.sql")
  }

  function MigrationNames(entries: seq<Entry>): seq<Version> {
    if entries == [] then []
    else
      var n := |entries| - 1;
      MigrationNames(entries[..n]) + if IsMigration(entries[n]) then [entries[n].name] else []
  }

  function MigrationFiles(entries: seq<Entry>): seq<Version> {
    StableSort(MigrationNames(entries), StringBefore)
  }

  method ListMigrationFiles(entries: seq<Entry>) returns (files: seq<Version>)
    ensures files == MigrationFiles(entries)
  {
    files := [];
    for i := 0 to |entries|
      invariant files == MigrationNames(entries[..i])
    {
      assert entries[..i + 1][..i] == entries[..i];
      var entry := entries[i];
      if entry.isDir || !HasSuffix(entry.name, ".sql") {
        continue;
      }
      if HasSuffix(entry.name, ".down.sql") {
        continue;
      }
      files := files + [entry.name];
    }
    assert entries[..|entries|] == entries;
    files := StableSort(files, StringBefore);
  }

  /** The files are in byte order, and a name is among them iff it is a forward migration's. */
  lemma FilesAreTheMigrations(entries: seq<Entry>, name: Version)
    ensures Ordered(MigrationFiles(entries), StringBefore)
    ensures name in MigrationFiles(entries) <==>
              && HasSuffix(name, ".sql") && !HasSuffix(name, ".down.sql")
              && exists i :: 0 <= i < |entries| && entries[i].name == name && !entries[i].isDir
  {
    StringOrder();
    SortOrders(MigrationNames(entries), StringBefore);
    NamesAreTheMigrations(entries, name);
    assert name in MigrationFiles(entries) <==> name in multiset(MigrationFiles(entries));
    assert name in MigrationNames(entries) <==> name in multiset(MigrationNames(entries));
  }

  /** The list does not depend on the order the directory is read in. */
  lemma ListingOrderDoesNotMatter(entries: seq<Entry>, shuffled: seq<Entry>)
    requires multiset(MigrationNames(entries)) == multiset(MigrationNames(shuffled))
    ensures MigrationFiles(entries) == MigrationFiles(shuffled)
  {
    StringOrder();
    var names := MigrationNames(entries);
    forall a, b | a in names && b in names && StringBefore(a, b) && StringBefore(b, a) ensures a == b {
      StringBeforeIsTotal(a, b);
    }
    SortIgnoresOrder(names, MigrationNames(shuffled), StringBefore);
  }

  lemma {:induction false} NamesAreTheMigrations(entries: seq<Entry>, name: Version)
    ensures name in MigrationNames(entries) <==> exists i :: 0 <= i < |entries| && IsMigration(entries[i]) && entries[i].name == name
  {
    if entries != [] {
      var n := |entries| - 1;
      NamesAreTheMigrations(entries[..n], name);
      assert forall i :: 0 <= i < n ==> entries[..n][i] == entries[i];
    }
  }

  // ----- the runner -----

  /** schema_migrations, and the bodies executed and committed, in order. */
  datatype Db = Db(recorded: seq<Version>, schema: seq<string>)

  /** How the iteration for one file goes: Fine; an error before, in or after the transaction with nothing
      committed; or a commit that took effect although it reported an error. */
  datatype Outcome = Fine | CheckFails | ReadFails | BeginFails | ExecuteFails | RecordFails | CommitLost | CommitLate

  datatype Release = Release(files: seq<Version>, body: Version -> string)

  function Applied(db: Db, file: Version, body: Version -> string): Db {
    Db(db.recorded + [file], db.schema + [body(file)])
  }

  class Database {
    var db: Db

    constructor ()
      ensures db == Db([], [])
    {
      db := Db([], []);
    }

    /** From the directory listing to the last file. */
    method RunMigrationsFromFS(entries: seq<Entry>, body: Version -> string, outcomes: Version -> Outcome) returns (ok: bool)
      modifies this
      ensures Ran(old(db), Release(MigrationFiles(entries), body), outcomes, db, ok)
    {
      var files := ListMigrationFiles(entries);
      ok := RunMigrations(Release(files, body), outcomes);
    }

    /** The loop over the sorted files; `outcomes` is what happens at each. */
    method RunMigrations(release: Release, outcomes: Version -> Outcome) returns (ok: bool)
      modifies this
      ensures Ran(old(db), release, outcomes, db, ok)
    {
      var i := 0;
      ghost var before := db;
      while i < |release.files|
        invariant 0 <= i <= |release.files|
        invariant After(before, release, outcomes, i) == (db, true)
      {
        var file := release.files[i];
        var outcome := outcomes(file);
        AfterStops(before, release, outcomes, i + 1);
        i := i + 1;
        if outcome == CheckFails {
          return false;
        }
        if file in db.recorded {
          continue;
        }
        if outcome == ReadFails || outcome == BeginFails {
          return false;
        }
        var tx := db;
        if outcome == ExecuteFails {
          return false;
        }
        tx := tx.(schema := tx.schema + [release.body(file)]);
        if outcome == RecordFails {
          return false;
        }
        tx := tx.(recorded := tx.recorded + [file]);
        if outcome != CommitLost {
          db := tx;
        }
        if outcome != Fine {
          return false;
        }
      }
      ok := true;
    }
  }

  /** State and health of the run after the first `n` files. */
  function After(db: Db, release: Release, outcomes: Version -> Outcome, n: nat): (Db, bool)
    requires n <= |release.files|
  {
    if n == 0 then (db, true)
    else
      var (before, going) := After(db, release, outcomes, n - 1);
      var file := release.files[n - 1];
      if !going then (before, false)
      else if outcomes(file) == CheckFails then (before, false)
      else if file in before.recorded then (before, true)
      else if outcomes(file) == Fine then (Applied(before, file, release.body), true)
      else if outcomes(file) == CommitLate then (Applied(before, file, release.body), false)
      else (before, false)
  }

  predicate Ran(db: Db, release: Release, outcomes: Version -> Outcome, db': Db, ok: bool) {
    After(db, release, outcomes, |release.files|) == (db', ok)
  }

  /** A run that has stopped stays as it is. */
  lemma {:induction false} AfterStops(db: Db, release: Release, outcomes: Version -> Outcome, n: nat)
    requires n <= |release.files|
    ensures !After(db, release, outcomes, n).1 ==> After(db, release, outcomes, |release.files|) == After(db, release, outcomes, n)
    decreases |release.files| - n
  {
    if n < |release.files| {
      AfterStops(db, release, outcomes, n + 1);
    }
  }

  // ----- one run -----

  function Missing(files: seq<Version>, recorded: seq<Version>): seq<Version> {
    if files == [] then []
    else
      var n := |files| - 1;
      Missing(files[..n], recorded) + if files[n] in recorded then [] else [files[n]]
  }

  function Bodies(files: seq<Version>, body: Version -> string): seq<string> {
    seq(|files|, i requires 0 <= i < |files| => body(files[i]))
  }

  lemma {:induction false} MissingAre(files: seq<Version>, recorded: seq<Version>, file: Version)
    ensures file in Missing(files, recorded) <==> file in files && file !in recorded
  {
    if files != [] {
      var n := |files| - 1;
      MissingAre(files[..n], recorded, file);
      assert files == files[..n] + [files[n]];
    }
  }

  /** `db'` has `done` on top of `db`, each recorded and its body executed once, in order. */
  ghost predicate Advanced(db: Db, release: Release, done: seq<Version>, db': Db) {
    && db'.recorded == db.recorded + done
    && db'.schema == db.schema + Bodies(done, release.body)
  }

  lemma AdvancedByOne(db: Db, release: Release, done: seq<Version>, file: Version, db': Db)
    requires Advanced(db, release, done, db')
    ensures Advanced(db, release, done + [file], Applied(db', file, release.body))
  {
    assert Bodies(done + [file], release.body) == Bodies(done, release.body) + [release.body(file)];
  }

  lemma MissingOneMore(files: seq<Version>, recorded: seq<Version>, file: Version)
    ensures Missing(files + [file], recorded) == Missing(files, recorded) + if file in recorded then [] else [file]
  {
    assert (files + [file])[..|files|] == files;
  }

  ghost predicate SomeAdvanced(db: Db, release: Release, files: seq<Version>, db': Db) {
    exists done :: done <= Missing(files, db.recorded) && Advanced(db, release, done, db')
  }

  /** A run, wherever it is interrupted, commits the first of the missing files in order; if it completes, all. */
  lemma {:induction false} RunAdvances(db: Db, release: Release, outcomes: Version -> Outcome, n: nat)
    requires Distinct(release.files) && n <= |release.files|
    ensures SomeAdvanced(db, release, release.files[..n], After(db, release, outcomes, n).0)
    ensures After(db, release, outcomes, n).1 ==>
              Advanced(db, release, Missing(release.files[..n], db.recorded), After(db, release, outcomes, n).0)
  {
    if n == 0 {
      assert Advanced(db, release, [], db);
    } else {
      var earlier, file := release.files[..n - 1], release.files[n - 1];
      assert release.files[..n] == earlier + [file];
      RunAdvances(db, release, outcomes, n - 1);
      OneFile(db, release, outcomes, n, earlier, file);
    }
  }

  lemma OneFile(db: Db, release: Release, outcomes: Version -> Outcome, n: nat, earlier: seq<Version>, file: Version)
    requires 0 < n <= |release.files| && file == release.files[n - 1] && file !in earlier
    requires SomeAdvanced(db, release, earlier, After(db, release, outcomes, n - 1).0)
    requires After(db, release, outcomes, n - 1).1 ==>
               Advanced(db, release, Missing(earlier, db.recorded), After(db, release, outcomes, n - 1).0)
    ensures SomeAdvanced(db, release, earlier + [file], After(db, release, outcomes, n).0)
    ensures After(db, release, outcomes, n).1 ==>
              Advanced(db, release, Missing(earlier + [file], db.recorded), After(db, release, outcomes, n).0)
  {
    var (before, going) := After(db, release, outcomes, n - 1);
    var missing := Missing(earlier, db.recorded);
    MissingOneMore(earlier, db.recorded, file);
    if going {
      MissingAre(earlier, db.recorded, file);
      AdvancedByOne(db, release, missing, file, before);
      assert missing + [] == missing;
      assert missing <= Missing(earlier + [file], db.recorded);
    } else {
      var done :| done <= missing && Advanced(db, release, done, before);
      assert done <= Missing(earlier + [file], db.recorded);
    }
  }

  // ----- any number of runs -----

  /** The first `count` files applied: recorded in order, and the schema their bodies in order, each once. */
  ghost predicate PrefixApplied(release: Release, count: nat, db: Db) {
    && count <= |release.files|
    && db.recorded == release.files[..count]
    && db.schema == Bodies(release.files[..count], release.body)
  }

  lemma InPrefix(files: seq<Version>, count: nat, i: nat)
    requires Distinct(files) && count <= |files| && i < |files|
    ensures files[i] in files[..count] <==> i < count
  {
    if i < count {
      assert files[..count][i] == files[i];
    }
  }

  lemma {:induction false} MissingOfPrefix(files: seq<Version>, count: nat, n: nat)
    requires Distinct(files) && count <= |files| && n <= |files|
    ensures Missing(files[..n], files[..count]) == if n <= count then [] else files[count..n]
  {
    if n > 0 {
      MissingOfPrefix(files, count, n - 1);
      InPrefix(files, count, n - 1);
      assert files[..n] == files[..n - 1] + [files[n - 1]];
      MissingOneMore(files[..n - 1], files[..count], files[n - 1]);
      if n > count {
        assert files[count..n] == files[count..n - 1] + [files[n - 1]];
      }
    }
  }

  ghost predicate AppliedFrom(release: Release, count: nat, db: Db) {
    exists reached: nat :: count <= reached && PrefixApplied(release, reached, db)
  }

  lemma RunFromPrefix(release: Release, count: nat, db: Db, outcomes: Version -> Outcome)
    requires Distinct(release.files) && PrefixApplied(release, count, db)
    ensures AppliedFrom(release, count, After(db, release, outcomes, |release.files|).0)
    ensures After(db, release, outcomes, |release.files|).1 ==>
              PrefixApplied(release, |release.files|, After(db, release, outcomes, |release.files|).0)
  {
    var files := release.files;
    var (db', ok) := After(db, release, outcomes, |files|);
    assert files[..|files|] == files;
    MissingOfPrefix(files, count, |files|);
    RunAdvances(db, release, outcomes, |files|);
    var done :| done <= Missing(files, db.recorded) && Advanced(db, release, done, db');
    PrefixGrows(release, count, db, done, db');
    var reached: nat := count + |done|;
    assert PrefixApplied(release, reached, db');
    if ok {
      PrefixGrows(release, count, db, files[count..], db');
    }
  }

  lemma PrefixGrows(release: Release, count: nat, db: Db, done: seq<Version>, db': Db)
    requires PrefixApplied(release, count, db) && done <= release.files[count..] && Advanced(db, release, done, db')
    ensures PrefixApplied(release, count + |done|, db')
  {
    var applied := release.files[..count + |done|];
    assert applied == release.files[..count] + done;
    assert Bodies(applied, release.body) == Bodies(release.files[..count], release.body) + Bodies(done, release.body);
  }

  function Attempts(release: Release, attempts: seq<Version -> Outcome>): Db {
    if attempts == [] then Db([], [])
    else After(Attempts(release, attempts[..|attempts| - 1]), release, attempts[|attempts| - 1], |release.files|).0
  }

  /** Interrupted anywhere and retried any number of times, the runner has applied a prefix of the sorted files. */
  lemma {:induction false} InterruptedRunsKeepPrefix(release: Release, attempts: seq<Version -> Outcome>)
    requires Distinct(release.files)
    ensures AppliedFrom(release, 0, Attempts(release, attempts))
  {
    if attempts == [] {
      assert PrefixApplied(release, 0, Db([], []));
    } else {
      InterruptedRunsKeepPrefix(release, attempts[..|attempts| - 1]);
      var count: nat :| PrefixApplied(release, count, Attempts(release, attempts[..|attempts| - 1]));
      RunFromPrefix(release, count, Attempts(release, attempts[..|attempts| - 1]), attempts[|attempts| - 1]);
      var reached: nat :| count <= reached && PrefixApplied(release, reached, Attempts(release, attempts));
    }
  }

  /** After any attempts, a run that reports success has applied every file, and the next run, whatever happens in
      it, changes nothing. */
  lemma CompletedRunAppliesAll(release: Release, attempts: seq<Version -> Outcome>, last: Version -> Outcome, next: Version -> Outcome)
    requires Distinct(release.files)
    requires After(Attempts(release, attempts), release, last, |release.files|).1
    ensures var db := Attempts(release, attempts + [last]);
            PrefixApplied(release, |release.files|, db) && After(db, release, next, |release.files|).0 == db
  {
    InterruptedRunsKeepPrefix(release, attempts);
    var count: nat :| PrefixApplied(release, count, Attempts(release, attempts));
    RunFromPrefix(release, count, Attempts(release, attempts), last);
    assert (attempts + [last])[..|attempts|] == attempts;
    var db := Attempts(release, attempts + [last]);
    RunFromPrefix(release, |release.files|, db, next);
  }

  /** A run in which nothing fails completes, from whatever state earlier attempts left. */
  lemma {:induction false} UndisturbedRunCompletes(db: Db, release: Release, n: nat)
    requires n <= |release.files|
    ensures After(db, release, _ => Fine, n).1
  {
    if n > 0 {
      UndisturbedRunCompletes(db, release, n - 1);
    }
  }

  // ----- a new release on top of an old one -----

  /** A database taken from one release to the next has the same history as a fresh one exactly when the new
      release only appends files; then its schema is the fresh one's too, provided old bodies are unchanged. */
  lemma UpgradeMatchesFreshIff(older: Release, newer: Release, db: Db, outcomes: Version -> Outcome)
    requires Distinct(older.files) && Distinct(newer.files) && PrefixApplied(older, |older.files|, db)
    requires After(db, newer, outcomes, |newer.files|).1
    ensures var db' := After(db, newer, outcomes, |newer.files|).0;
            && (db'.recorded == newer.files <==> older.files <= newer.files)
            && (older.files <= newer.files && older.body == newer.body ==> PrefixApplied(newer, |newer.files|, db'))
  {
    assert newer.files[..|newer.files|] == newer.files && older.files[..|older.files|] == older.files;
    RunAdvances(db, newer, outcomes, |newer.files|);
    if older.files <= newer.files {
      assert newer.files[..|older.files|] == older.files;
      AppendedOnly(older.files, newer.files);
      if older.body == newer.body {
        PrefixGrows(newer, |older.files|, db, newer.files[|older.files|..], After(db, newer, outcomes, |newer.files|).0);
      }
    }
  }

  lemma AppendedOnly(older: seq<Version>, newer: seq<Version>)
    requires Distinct(newer) && older <= newer
    ensures Missing(newer, older) == newer[|older|..] && newer == older + Missing(newer, older)
  {
    assert newer[..|newer|] == newer && newer[..|older|] == older;
    MissingOfPrefix(newer, |older|, |newer|);
  }

  lemma {:induction false} NoneMissing(files: seq<Version>, recorded: seq<Version>)
    requires forall i :: 0 <= i < |files| ==> files[i] in recorded
    ensures Missing(files, recorded) == []
  {
    if files != [] {
      NoneMissing(files[..|files| - 1], recorded);
    }
  }

  lemma {:induction false} MissingJoins(earlier: seq<Version>, later: seq<Version>, recorded: seq<Version>)
    ensures Missing(earlier + later, recorded) == Missing(earlier, recorded) + Missing(later, recorded)
  {
    if later == [] {
      assert earlier + later == earlier;
    } else {
      var n := |later| - 1;
      assert later == later[..n] + [later[n]] && earlier + later == earlier + later[..n] + [later[n]];
      MissingJoins(earlier, later[..n], recorded);
      MissingOneMore(earlier + later[..n], recorded, later[n]);
    }
  }

  /** Such a release: a file that sorts before others is applied after them, although nothing fails. */
  lemma InsertedFileComesLast(before: seq<Version>, inserted: Version, after: seq<Version>, older: Release, newer: Release, db: Db)
    requires older.files == before + after && newer.files == before + [inserted] + after && after != []
    requires Distinct(newer.files) && PrefixApplied(older, |older.files|, db)
    ensures After(db, newer, _ => Fine, |newer.files|).0.recorded == before + after + [inserted] != newer.files
  {
    var recorded := before + after;
    assert older.files[..|older.files|] == recorded && newer.files[..|newer.files|] == newer.files;
    UndisturbedRunCompletes(db, newer, |newer.files|);
    RunAdvances(db, newer, _ => Fine, |newer.files|);
    InsertedIsMissing(before, inserted, after);
    assert newer.files[|before|] == inserted && newer.files[|before| + 1] == after[0] && recorded[|before|] == after[0];
  }

  lemma InsertedIsMissing(before: seq<Version>, inserted: Version, after: seq<Version>)
    requires Distinct(before + [inserted] + after)
    ensures Missing(before + [inserted] + after, before + after) == [inserted]
  {
    var files, recorded := before + [inserted] + after, before + after;
    assert inserted !in recorded by {
      assert forall i :: 0 <= i < |before| ==> files[i] == before[i];
      assert forall i :: 0 <= i < |after| ==> files[|before| + 1 + i] == after[i];
      assert files[|before|] == inserted;
    }
    NoneMissing(before, recorded);
    NoneMissing(after, recorded);
    MissingOneMore(before, recorded, inserted);
    MissingJoins(before + [inserted], after, recorded);
  }

  // ----- the file list has no duplicates -----

  ghost predicate DistinctNames(entries: seq<Entry>) {
    forall i, j :: 0 <= i < j < |entries| ==> entries[i].name != entries[j].name
  }

  /** What the theorems above require of the files holds of every directory listing. */
  lemma MigrationFilesAreDistinct(entries: seq<Entry>)
    requires DistinctNames(entries)
    ensures Distinct(MigrationFiles(entries))
  {
    StringOrder();
    SortOrders(MigrationNames(entries), StringBefore);
    NamesAreDistinct(entries);
    DistinctByCounts(MigrationNames(entries), MigrationFiles(entries));
  }

  lemma {:induction false} NamesAreDistinct(entries: seq<Entry>)
    requires DistinctNames(entries)
    ensures Distinct(MigrationNames(entries))
  {
    if entries != [] {
      var n := |entries| - 1;
      NamesAreDistinct(entries[..n]);
      NamesAreTheMigrations(entries[..n], entries[n].name);
    }
  }

  lemma DistinctByCounts(files: seq<Version>, sorted: seq<Version>)
    requires Distinct(files) && multiset(files) == multiset(sorted)
    ensures Distinct(sorted)
  {
    forall i, j | 0 <= i < j < |sorted| ensures sorted[i] != sorted[j] {
      if sorted[i] == sorted[j] {
        assert sorted == sorted[..j] + [sorted[j]] + sorted[j + 1..];
        assert sorted[i] in sorted[..j];
        assert multiset(sorted)[sorted[j]] >= 2;
        CountsAtMostOne(files, sorted[j]);
      }
    }
  }

  lemma {:induction false} CountsAtMostOne(files: seq<Version>, file: Version)
    requires Distinct(files)
    ensures multiset(files)[file] <= 1
  {
    if files != [] {
      var n := |files| - 1;
      assert files == files[..n] + [files[n]];
      CountsAtMostOne(files[..n], file);
      assert files[n] !in files[..n];
    }
  }
}
