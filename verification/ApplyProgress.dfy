/** The apply protocol never deadlocks and always finishes: every transaction takes its one candidate
    row before its one title key, so some statement can always run, and each one uses up work. */
module ApplyProgress {
  import opened Options
  import opened CandidateDb
  import opened ApplyProtocol

  predicate AllFinished(s: Sys) {
    forall t :: t in s.txns ==> s.txns[t].stage.Finished?
  }

  /** A statement that is not a failure of the store. */
  predicate Forward(step: Step) {
    step.OfApply() && !step.Abort? && (step.Commit? ==> step.answered)
  }

  lemma FreshTaskExists(s: Sys) returns (task: TaskId)
    ensures FreshTask(s, task)
  {
    var used := s.db.tasks.Keys + s.applied + set t | t in s.txns && s.txns[t].stage.HasTask() :: s.txns[t].stage.newTask;
    task := AboveAll(used);
    assert forall t :: t in s.txns && s.txns[t].stage.HasTask() ==> s.txns[t].stage.newTask in used;
  }

  lemma FreshLineageExists(s: Sys) returns (lineage: LineageId)
    ensures FreshLineage(s, lineage)
  {
    var used := s.db.lineage.Keys + set t | t in s.txns && s.txns[t].stage.HasLineage() :: s.txns[t].stage.newLineage;
    lineage := AboveAll(used);
    assert forall t :: t in s.txns && s.txns[t].stage.HasLineage() ==> s.txns[t].stage.newLineage in used;
  }

  lemma {:induction false} AboveAll(used: set<nat>) returns (n: nat)
    ensures forall k :: k in used ==> k < n
    decreases |used|
  {
    if used == {} {
      n := 0;
    } else {
      var k :| k in used;
      n := AboveAll(used - {k});
      assert forall j :: j in used ==> j == k || j in used - {k};
      n := if n <= k then k + 1 else n;
    }
  }

  /** A transaction past both locks can always run its next statement. */
  lemma PastLocksCanRun(hash: KeyHash, s: Sys, t: TxnId) returns (step: Step)
    requires t in s.txns && s.txns[t].stage.HoldsKey()
    ensures Forward(step) && Enabled(hash, s, step)
  {
    var id := s.txns[t].id;
    match s.txns[t].stage
    case KeyLocked(_) =>
      if NoLineage(s.db, id) {
        step := ReadLineage(t, None);
      } else {
        var l :| l in s.db.lineage && LineageOf(s.db, l, id);
        step := ReadLineage(t, Some(l));
      }
    case LineageRead(_, _, _) => step := ReadTask(t);
    case LineageAbsent(_) =>
      var project, key := s.txns[t].Project(), s.txns[t].Key();
      if NoOpenDuplicate(s.db, project, key) {
        step := CheckDuplicate(t, None);
      } else {
        var task :| task in s.db.tasks && OpenDuplicate(s.db, task, project, key);
        step := CheckDuplicate(t, Some(task));
      }
    case DuplicateAbsent(_) =>
      var task := FreshTaskExists(s);
      step := InsertTask(t, task);
    case TaskInserted(_, _) =>
      var lineage := FreshLineageExists(s);
      step := InsertLineage(t, lineage);
    case LineageInserted(_, _, _) => step := StageRow(t);
    case TaskRead(_, _, _) => step := Commit(t, true);
    case RowStaged(_, _, _) => step := Commit(t, true);
  }

  /** No deadlock: while a transaction is unfinished, some transaction's next statement is enabled. */
  lemma SomeStatementCanRun(hash: KeyHash, s: Sys) returns (step: Step)
    requires !AllFinished(s)
    ensures Forward(step) && Enabled(hash, s, step)
  {
    if t :| t in s.txns && s.txns[t].stage.HoldsKey() {
      step := PastLocksCanRun(hash, s, t);
    } else if t :| t in s.txns && s.txns[t].stage.RowLocked? {
      step := LockKey(t);      // no one holds a key
    } else {
      var t :| t in s.txns && !s.txns[t].stage.Finished?;
      step := LockRow(t);      // no one holds a row
    }
  }

  // ----- a measure on the remaining statements -----

  function Remaining(stage: Stage): nat {
    match stage
    case Begun => 9
    case RowLocked(_) => 8
    case KeyLocked(_) => 7
    case LineageRead(_, _, _) => 6
    case TaskRead(_, _, _) => 5
    case LineageAbsent(_) => 5
    case DuplicateAbsent(_) => 4
    case TaskInserted(_, _) => 3
    case LineageInserted(_, _, _) => 2
    case RowStaged(_, _, _) => 1
    case Finished(_) => 0
  }

  ghost function Work(txns: map<TxnId, Txn>): nat
    decreases |txns|
  {
    if txns == map[] then 0
    else
      var t :| t in txns;
      Remaining(txns[t].stage) + Work(txns - {t})
  }

  lemma {:induction false} WorkSplits(txns: map<TxnId, Txn>, t: TxnId)
    requires t in txns
    ensures Work(txns) == Remaining(txns[t].stage) + Work(txns - {t})
    decreases |txns|
  {
    var o :| o in txns && Work(txns) == Remaining(txns[o].stage) + Work(txns - {o});
    if o != t {
      WorkSplits(txns - {o}, t);
      WorkSplits(txns - {t}, o);
      assert txns - {o} - {t} == txns - {t} - {o};
    }
  }

  lemma ChangingOne(txns: map<TxnId, Txn>, t: TxnId, txn: Txn)
    requires t in txns
    ensures Work(txns[t := txn]) + Remaining(txns[t].stage) == Work(txns) + Remaining(txn.stage)
  {
    WorkSplits(txns, t);
    WorkSplits(txns[t := txn], t);
    assert txns[t := txn] - {t} == txns - {t};
  }

  /** Every statement of an apply, a failing one included, uses up work. */
  lemma StatementUsesWork(hash: KeyHash, s: Sys, step: Step)
    requires Enabled(hash, s, step) && step.OfApply()
    ensures Work(Do(hash, s, step).txns) < Work(s.txns)
  {
    var next := Do(hash, s, step);
    ChangingOne(s.txns, step.t, next.txns[step.t]);
  }

  /** Nothing else adds work, but for a new transaction. */
  lemma OtherStepWork(hash: KeyHash, s: Sys, step: Step)
    requires Enabled(hash, s, step) && !step.OfApply()
    ensures Work(Do(hash, s, step).txns) == Work(s.txns) + if step.Begin? then 9 else 0
  {
    if step.Begin? {
      var txns := Do(hash, s, step).txns;
      WorkSplits(txns, step.t);
      assert txns - {step.t} == s.txns;
    }
  }

  function Statements(steps: seq<Step>): nat {
    if steps == [] then 0 else (if steps[0].OfApply() then 1 else 0) + Statements(steps[1..])
  }

  function Begins(steps: seq<Step>): nat {
    if steps == [] then 0 else (if steps[0].Begin? then 1 else 0) + Begins(steps[1..])
  }

  /** In any run, at most nine statements for each apply that began. */
  lemma {:induction false} RunsAreBounded(hash: KeyHash, s: Sys, steps: seq<Step>)
    requires ValidRun(hash, s, steps)
    ensures Statements(steps) + Work(RunAll(hash, s, steps).txns) <= Work(s.txns) + 9 * Begins(steps)
    decreases |steps|
  {
    if steps != [] {
      if steps[0].OfApply() { StatementUsesWork(hash, s, steps[0]); } else { OtherStepWork(hash, s, steps[0]); }
      RunsAreBounded(hash, Do(hash, s, steps[0]), steps[1..]);
    }
  }

  /** From every state the transactions can all be brought to an end, without a failing statement. */
  lemma {:induction false} EveryApplyCanFinish(hash: KeyHash, s: Sys) returns (steps: seq<Step>)
    ensures ValidRun(hash, s, steps)
    ensures forall i :: 0 <= i < |steps| ==> Forward(steps[i])
    ensures AllFinished(RunAll(hash, s, steps))
    decreases Work(s.txns)
  {
    if AllFinished(s) {
      steps := [];
    } else {
      var step := SomeStatementCanRun(hash, s);
      StatementUsesWork(hash, s, step);
      var rest := EveryApplyCanFinish(hash, Do(hash, s, step));
      steps := [step] + rest;
      assert steps[1..] == rest;
    }
  }
}
