# Verified models of the planning core

A Dafny model of the server's and the connector's planning work: turning a reviewed candidate into a task,
probing and reporting from the connector, account bindings, drift sync, planning runs, migrations, prompt
templates and draft ranking. Each module states what its part of the program is relied on for and proves it for
every input, every failure pattern or every interleaving.

`dafny verify dfyconfig.toml` checks the whole project.

## How the model is built

Code that changes things step by step is a class or a method with loops, proved against functions and relations
on values; the theorems are lemmas about those. What such a function computes is stated a second time by what the
request and the row hold, without naming it. Concurrent code is, besides, a step system (`Enabled`, `Do`,
`RunAll`) at the granularity of its locked sections or SQL statements, with an invariant kept by every step.

| module | part of the program |
|---|---|
| `CandidateDb`, `CandidateStore`, `CandidateResults` | candidates, tasks, lineage, audit rows; `Update`, `ApplyToTaskWithMode`, authoring, each call alone; what each request gives, column by column |
| `ApplyProtocol`, `ApplyProgress`, `ApplyOnce`, `ApplyRaces` | many apply transactions at once: safety, progress, no second task, and the races that are open |
| `ProbeWorker` | probe queue, worker, heartbeat outbox |
| `Activities`, `Hub`, `HubStreams`, `HubDelivery`, `HubLimits`, `ActivityReporter` | coalescing reports, fan-out to subscribers, caps and eviction |
| `AccountBindings`, `BindingResults`, `BindingUniqueness` | active and primary bindings, what each request gives, CLI auto-resolution |
| `GitScanner`, `DriftSync` | changed files over all repositories; affected documents, stale marks, drift signals |
| `AgentRuns`, `PlanningSaga` | agent runs by idempotency key; one planning run over three tables, with compensation |
| `Migrations`, `AlterTableSplit`, `AlterTableParts` | the migration runner; splitting ALTER TABLE for SQLite and what the parts are |
| `Template` | `{{KEY}}` substitution |
| `Scoring`, `FirstOccurrences`, `Ranking` | score arithmetic; first titles; duplicates, evidence, sorting, ranks |
| `Options`, `Sequences`, `Text`, `Sorting` | shared helpers: optional values, distinctness, trimming, case and words, stable sorting |

Assumptions:

- A committed transaction is one step, except in `ApplyProtocol`, where every statement is, under READ COMMITTED with
  PostgreSQL's row locks. A title lock may be any function of project and title, because `hashtext` can collide, which
  the comment above the lock rules out; a constant function is SQLite's single writer, for which a transaction waits
  five seconds at most. SQLite has no row locks: there a transaction that has read what another one is writing fails
  with BUSY, which is a failing statement here.
- New identifiers (UUIDs) are fresh. Audit timestamps strictly increase. A hub `unsub` is called once.
- Text is ASCII. SQL's TRIM cuts blanks and Go's TrimSpace all white space; that the two agree on the titles that
  are stored is proved, not assumed. Scores are reals. Clock times are whole milliseconds.
- Errors of stores and providers are inputs. Where a store method writes a row and then reads it back, "written
  and still an error" is one of its outcomes.

## What turned out not to hold

Each is kept as the code has it, with the exact condition and an input that fails (named second).

- A commit of a first apply is what an apply alone would do exactly when nobody has created an open task of the
  same title by hand meanwhile: hand-made tasks take no title lock (`FirstApplyIsAtomic`; `HandMadeTaskBreaksAtomicity`).
  A repeated one answers a task that may have been deleted since it was read (`RepeatedApplyIsAtomic`;
  `DeletedTaskBreaksAtomicity`).
- An update read before an apply committed sets an applied candidate back to its earlier status, unless the audit
  refuses it (`StaleUpdateRevertsStatusIff`; `PendingUpdateRevertsStatus`). The next apply makes no second task, answers
  the known one and puts the status right (`NoDoubleApply`, `RetryRestoresApplied`).
- An update run after another change of role breaks the audit chain, whether it changes the role itself or stores the
  one it read without an audit row, exactly when the role it read is no longer current and the audit does not refuse
  it (`StaleWriteKeepsTrailIff`; `StaleUpdatesBreakTrail`).
- A document can end a drift sync with two open signals: when the open signals could not be listed, or when phase 2
  inserted a signal it could not read back and phase 3 raises another (`SecondOpenSignalIff`;
  `UnlistedSignalIsRaisedAgain`, `UnreadSignalIsRaisedAgain`).
- A path that was deleted or renamed away does not always count as destroyed for the documents at it. It does exactly
  when the newest line of the log whose last field it is, in the first repository that has such a line, is a deletion
  or a rename (`DestructionCountsIff`; for one repository and paths without blanks `RemovalCountsIff`). Inputs that fail:
  a path renamed away (`RenamedAwayIsMissed`), one with a blank in it (`BlankPathIsMissed`), one restored since
  (`RestoredFileIsNotDestroyed`) and one that an earlier repository lists otherwise (`EarlierRepositoryDecides`).
- A planning run that fails because its row, or its agent run's row, could not be read back after the insert is not
  rolled back (`RunWithBindingSnapshot`; `LeaveUnreadRow`); a queued run left so refuses every later attempt of its
  requirement, however many there are (`LeftBehindRunBlocks`).
- A database upgraded over two releases has the history of a fresh one exactly when the newer release only appends
  migration files (`UpgradeMatchesFreshIff`; `InsertedFileComesLast` is a release that does not).
- The parts of a split ALTER TABLE statement all add a column exactly when what follows the table's name begins with
  ADD COLUMN or with a cut (`PartsAddColumns`). The word after ALTER TABLE is taken for the name whatever it is, so
  ALTER TABLE IF EXISTS gives parts that alter a table `IF`, the first of which adds no column (`IfExistsIsMisread`).
  A body that begins with a cut loses its blank first clause (`ClausesAreTheTexts`; `LeadingComma`). Literals are not
  known: a comma in one is a cut when ADD COLUMN follows it (`LiteralIsCut`).
- The comment above the template pattern allows keys that begin with a digit or `_`; the pattern does not, and the
  model follows the pattern: such a placeholder is never replaced (`DocumentedKeyIff`).

## Model

| member | source | states |
|---|---|---|
| CandidateDb.StoredTitleMatchesKey | backend/internal/store/backlog_candidate_store.go:927-974 | A task stored under the trimmed title is found by LOWER(TRIM(title)) with the key that Go normalises, for every title |
| ApplyProtocol.StepKeeps | backend/internal/store/backlog_candidate_store.go:480-614 | Every statement of every apply, and every client step between, keeps the invariant: what a transaction has read under its locks stays true until it ends |
| ApplyProtocol.EveryRunKeeps | backend/internal/store/backlog_candidate_store.go:480-614 | So does every interleaving of any length |
| ApplyProtocol.PublishKeepsOther | backend/internal/store/backlog_candidate_store.go:952-959 | A commit invalidates nothing another transaction has read, because row lock and title lock keep them apart |
| ApplyProtocol.UpdateWriteKeeps | backend/internal/store/backlog_candidate_store.go:420-432 | A stale update's write, computed from an old read, keeps the invariant too |
| ApplyProtocol.ApplySafety | backend/internal/store/backlog_candidate_store.go:480-614 | From the empty database, in every interleaving: one lineage row per candidate, its task exists, and no two open tasks made by applies share project and title |
| ApplyProgress.SomeStatementCanRun | backend/internal/store/backlog_candidate_store.go:488-503 | No deadlock: while an apply is unfinished, in any state, some apply's next statement is enabled |
| ApplyProgress.StatementUsesWork | backend/internal/store/backlog_candidate_store.go:488-614 | Each statement, a failing one included, lowers the work that remains |
| ApplyProgress.OtherStepWork | backend/internal/store/backlog_candidate_store.go:463-488 | Nothing else changes the work, but that an apply that begins adds nine statements |
| ApplyProgress.RunsAreBounded | backend/internal/store/backlog_candidate_store.go:463-614 | In any run at most nine statements for each apply begun |
| ApplyProgress.EveryApplyCanFinish | backend/internal/store/backlog_candidate_store.go:488-614 | From every state all applies can be brought to their end without a failing statement |
| ApplyOnce.FirstApplyIsAtomic | backend/internal/store/backlog_candidate_store.go:536-614 | A first apply commits what it would have done alone, iff no open task of this title has appeared by hand, and answers so unless the answer gets lost |
| ApplyOnce.RepeatedApplyIsAtomic | backend/internal/store/backlog_candidate_store.go:505-535 | A repeated apply commits what it would have done alone, iff the task it read still exists, and answers so unless the answer gets lost |
| ApplyOnce.RefusalIsAtomic | backend/internal/store/backlog_candidate_store.go:488-560 | A refused apply answers what it would have answered alone at that moment; the audit's refusal iff no open task of the title has appeared |
| ApplyRaces.HandMadeTaskBreaksAtomicity | backend/internal/store/backlog_candidate_store.go:536-614 | A run from the empty database: a task made by hand after the duplicate check, then a commit that no apply alone would make, whatever it answers |
| ApplyRaces.DeletedTaskBreaksAtomicity | backend/internal/store/backlog_candidate_store.go:505-535 | A run from the empty database: the task is deleted after it was read, and the repeated apply commits what no apply alone would |
| ApplyRaces.PendingUpdateRevertsStatus | backend/internal/store/backlog_candidate_store.go:278-432 | A run from the empty database: any update read before an apply commits, and not refused, takes the status applied away when it is written |
| ApplyOnce.StatementAddsNothing | backend/internal/store/backlog_candidate_store.go:505-535 | A statement of an apply of an applied candidate adds no task, lineage or audit row, and if it ends the apply, that has failed in the store, met a blank title, or answers the known task and lineage as already applied and leaves the candidate applied |
| ApplyOnce.LineageLasts | backend/internal/store/backlog_candidate_store.go:1025-1047 | A candidate's lineage row lasts through every step as long as task and candidate do |
| ApplyOnce.NoDoubleApply | backend/internal/store/backlog_candidate_store.go:505-535 | Through any run with stale updates and any number of applies, while the task lives: no apply of the candidate makes a second task, and each that ends without a store failure, a lost answer or a blank title answers the one task and lineage and sets the status back to applied |
| ApplyOnce.StaleUpdateRevertsStatusIff | backend/internal/store/backlog_candidate_store.go:278-288 | After a stale update an applied candidate is still applied iff it was and the audit refuses the update; lineage and task stay |
| ApplyOnce.RetryRestoresApplied | backend/internal/store/backlog_candidate_store.go:505-535 | With its row and its title's key free, an apply after that can run its five statements and ends with the known task and the status applied |
| CandidateStore.BacklogCandidateStore.Merge | backend/internal/store/backlog_candidate_store.go:290-415 | Validation and merging of a patch give the planned row, or the refusal of the first check that fails |
| CandidateStore.BacklogCandidateStore.Update | backend/internal/store/backlog_candidate_store.go:278-439 | An update alone, with any failing read, write or lost answer, does what PlanUpdate and WriteUpdate say: role and audit row together or neither |
| CandidateStore.BacklogCandidateStore.ApplyToTaskWithMode | backend/internal/store/backlog_candidate_store.go:463-614 | An apply alone, with any failing read, write or lost answer, does what AppliesTo says in each of its branches, or nothing |
| CandidateResults.ModeAcceptedIff | backend/internal/store/backlog_candidate_store.go:464-478 | Manual for no mode or `manual`, role dispatch for `role_dispatch` with a known trimmed role, otherwise the one refusal |
| CandidateResults.ActorAcceptedIff | backend/internal/audit/audit.go:142-206 | A router with a confidence in 0..1 and any other known kind without one are accepted, no one else |
| CandidateResults.ApplyMakesTask | backend/internal/store/backlog_candidate_store.go:536-614 | A first apply that succeeds made the task it answers, with the row's trimmed texts, to do, with the source of its mode and queued only for a role; its lineage row; status, role and audit row of the candidate; and nothing else |
| CandidateResults.AnsweredApplyMakesTask | backend/internal/store/backlog_candidate_store.go:463-614 | The same of the store's answer, whatever in the database fails |
| CandidateResults.CommitMakesTask | backend/internal/store/backlog_candidate_store.go:536-614 | The same of a commit among other transactions, whether its answer arrives or not |
| CandidateResults.RepeatedApplyChangesStatus | backend/internal/store/backlog_candidate_store.go:505-535 | A repeated apply answers the candidate's lineage row and its task and changes the status at most |
| CandidateResults.ApplyAnswers | backend/internal/store/backlog_candidate_store.go:488-548 | Exactly when an apply gives each of its answers; a failure changes nothing |
| CandidateResults.UpdateStores | backend/internal/store/backlog_candidate_store.go:296-439 | An update that succeeds stored each given field in its own column, the status its text names, kept the others, and wrote an audit row exactly if the role changed |
| CandidateResults.StaleUpdateStores | backend/internal/store/backlog_candidate_store.go:386-432 | The late write of an update stores what was asked for on top of what it had read, with an audit row from the role it had read |
| CandidateResults.AnsweredUpdateStores | backend/internal/store/backlog_candidate_store.go:278-439 | The same of the store's answer, whatever in the database fails; an update that answers an error is stored as asked or not at all |
| CandidateResults.UpdateSucceedsIff | backend/internal/store/backlog_candidate_store.go:286-385 | Exactly when an update succeeds, and when it is refused for an applied candidate or for changing nothing |
| CandidateResults.ReviewDecidesApply | backend/internal/store/backlog_candidate_store.go:327-536 | An apply after an update with a status is refused as not approved exactly if that was `rejected` |
| CandidateStore.BacklogCandidateStore.EnrichWithAuthoring | backend/internal/store/backlog_candidate_store.go:242-263 | Each listed candidate with a role gets its newest audit row; a failing lookup skips that candidate only |
| CandidateStore.AuthoringIsNewest | backend/internal/audit/audit.go:209-256 | The authoring is the newest audit row of the candidate, and none exactly if it shows no role, the lookup fails or nothing was recorded |
| CandidateStore.LatestEndsChain | backend/internal/audit/audit.go:209-256 | The latest audit row of a chain of role changes holds the role the chain ends in |
| CandidateStore.AuditTrail | backend/internal/store/backlog_candidate_store.go:338-418 | After any atomic calls a candidate's audit rows lead from its draft role to its current one, each changing something, and the latest and the authoring describe the current role |
| CandidateStore.RefusedActorWritesNothing | backend/internal/audit/audit.go:142-206 | An actor that the audit refuses changes no role and writes no audit row, through update or apply |
| CandidateStore.StaleWriteKeepsTrailIff | backend/internal/store/backlog_candidate_store.go:420-432 | The late write of any update keeps the chain iff the role it read is still current, or it changes the role and the audit refuses it |
| CandidateStore.StaleUpdatesBreakTrail | backend/internal/store/backlog_candidate_store.go:338-432 | A trace of the store to a history in which a late write of either kind breaks the chain |
| ProbeWorker.ProbeService.EnqueuePending | backend/internal/connector/service.go:880-901 | The first announced request of each id that is neither blank nor pending is queued as it is, in order, and every announced id is pending |
| ProbeWorker.ProbeService.DequeueNextProbe | backend/internal/connector/service.go:951-960 | The oldest queued probe is taken |
| ProbeWorker.ProbeService.RequeueResults | backend/internal/connector/service.go:132-138 | A failed heartbeat's results go back in front of newer ones |
| ProbeWorker.AcceptedIsFresh | backend/internal/connector/service.go:888-900 | The probes accepted have ids, none pending before and none twice, and every announced id ends up pending |
| ProbeWorker.AcceptedAre | backend/internal/connector/service.go:888-900 | The accepted requests are exactly the first announced ones of each new id, unchanged and in order |
| ProbeWorker.HistoryGrows | backend/internal/connector/service.go:880-901 | In every step, accepted grows by those requests at an enqueue and announced by what a heartbeat brings |
| ProbeWorker.StepKeeps | backend/internal/connector/service.go:85-146 | Every locked section of the two goroutines keeps conservation, exact dedup set and wake-up |
| ProbeWorker.ProbesConserved | backend/internal/connector/service.go:121-146 | Always: completed = delivered ++ in-flight batch ++ outbox; the requests accepted are those started and then those queued, each as a heartbeat announced it; the ids started are those completed and the one running, which started last; and the pending ids are those queued or running, none twice |
| ProbeWorker.WakesWithoutTick | backend/internal/connector/service.go:902-933 | A waiting worker with a non-empty queue reaches the queue without the 5 s tick: a token is there or about to be sent |
| Hub.RemoveInPlace | backend/internal/activity/hub.go:169-177 | Shifting the slice in place removes the channel and keeps the rest in order |
| Hub.ActivityHub.Update | backend/internal/activity/hub.go:101-114 | Each subscriber is offered the activity once, into at most 8 slots |
| Hub.ActivityHub.SubscribeInternal | backend/internal/activity/hub.go:150-186 | A subscription is refused at the cap and otherwise registered last, starting from the current activity |
| Hub.ActivityHub.Unsubscribe | backend/internal/activity/hub.go:165-185 | Channel and count go, a count of zero goes altogether |
| Hub.ActivityHub.PurgeIdle | backend/internal/activity/hub.go:81-90 | Exactly the idle activities older than the limit are evicted |
| Hub.ActivityHub.RestoreFromDB | backend/internal/activity/hub.go:203-211 | Restored activities do not overwrite present ones |
| HubLimits.ThreeStreamsPerUser | backend/internal/activity/hub.go:140-160 | In every reachable state a user may open a stream exactly while fewer than three of the user's are live; a refusal changes nothing; without user or cap a stream can always be opened |
| HubLimits.EndingMakesRoom | backend/internal/activity/hub.go:163-186 | Ending a stream changes no other and makes room for one of its user |
| HubLimits.EightWait | backend/internal/activity/hub.go:106-113 | A send goes in while fewer than eight updates wait and is lost otherwise |
| HubLimits.OldestIsReceived | backend/internal/activity/hub.go:159-159 | A reader takes the oldest update that waits |
| HubLimits.IdleForFiveMinutes | backend/internal/activity/hub.go:81-90 | Evicted is exactly what is idle, has a time and is more than five minutes old |
| HubLimits.RestoreOverwritesNothing | backend/internal/activity/hub.go:203-211 | A restore adds exactly what is missing |
| HubLimits.UpdateIsCurrent | backend/internal/activity/hub.go:101-104 | An update becomes its connector's current activity and touches no other |
| HubStreams.StepKeepsRegistry | backend/internal/activity/hub.go:150-187 | Subscriber lists and user counts stay those of the live channels through every step |
| HubDelivery.RegistryExact | backend/internal/activity/hub.go:150-187 | In every reachable state: subscribers are the live channels in registration order without duplicates, counts are the live capped subscriptions, never zero entries, never above 3 |
| HubDelivery.DeliveredAtMostOnce | backend/internal/activity/hub.go:101-114 | With any concurrent publishers a channel is offered an update at most once, and none from before it registered |
| HubDelivery.StreamHasNoGap | backend/internal/activity/hub.go:101-160 | With one publisher at a time per connector a stream's updates come in order, and if its buffer never filled they are all since registration but at most one still in flight |
| HubDelivery.StartsFromLatest | backend/internal/activity/hub.go:154-160 | The initial activity is the last one published before registration, and if there is none although one was published, that was idle: nothing lies between it and the stream |
| ActivityReporter.ActivityReporter.Report | backend/internal/connector/activity_reporter.go:49-79 | A report of the same phase in the window is merged into the queued entry, any other is appended |
| ActivityReporter.ActivityReporter.Flush | backend/internal/connector/activity_reporter.go:111-120 | A flush takes the whole queue |
| ActivityReporter.CoalescingLosesNoPhase | backend/internal/connector/activity_reporter.go:49-71 | For any reports and flushes: entries stand for consecutive blocks of reports, phases without adjacent repeats are the reports', and equal neighbours queued together are 500 ms apart |
| ActivityReporter.LastEntryIsLastReport | backend/internal/connector/activity_reporter.go:56-71 | The last entry agrees with the last report on everything but StartedAt |
| ActivityReporter.ReportsMergeInTime | backend/internal/connector/activity_reporter.go:49-79 | After any reports and flushes a report is merged exactly if the last queued entry has its phase and was appended less than 500 ms ago; all but the start is then the report's |
| AccountBindings.NamespacesAgree | backend/internal/store/account_binding_store.go:160-168 | The SQL index expression and the Go function give every provider the same namespace |
| AccountBindings.AccountBindingStore.Create | backend/internal/store/account_binding_store.go:371-505 | Create deactivates, counts, demotes and inserts as one transaction |
| AccountBindings.AccountBindingStore.Update | backend/internal/store/account_binding_store.go:508-640 | Update demotes the others and writes its columns as one transaction |
| BindingResults.CreateGives | backend/internal/store/account_binding_store.go:371-505 | The new row is active, has the trimmed label or `default`, and is primary as asked or else exactly if no other active row shares its namespace; the others lose only what one row may have; exactly which requests fail |
| BindingResults.UpdateGives | backend/internal/store/account_binding_store.go:508-640 | Each given field reaches its own column, the rest stays; the other rows lose only what one row may have; it fails exactly for a label that is taken |
| AccountBindings.AccountBindingStore.Delete | backend/internal/store/account_binding_store.go:642-655 | Delete removes the user's row with the id and no other |
| AccountBindings.AccountBindingStore.ResolveCliBinding | backend/internal/handlers/planning_runs.go:341-383 | The loop finds the first active primary CLI row, else the first active one, else nothing |
| BindingResults.ResolvedIs | backend/internal/handlers/planning_runs.go:341-383 | The first usable primary row, without one the first usable row, and nothing only if no row is usable |
| BindingUniqueness.StepKeeps | backend/internal/store/account_binding_store.go:577-604 | Creates, deletes and updates written from old reads keep the uniqueness of active and primary rows |
| BindingUniqueness.BindingsUnique | backend/internal/store/account_binding_store.go:119-158 | In every reachable table, stale updates included: one active row per user and provider, one primary row per user and namespace |
| BindingUniqueness.ExactlyOnePrimary | backend/internal/store/account_binding_store.go:436-465 | With atomic calls, no deletes and no explicit false, a namespace that has a row has exactly one primary row |
| BindingUniqueness.ResolutionPicksPrimary | backend/internal/handlers/planning_runs.go:341-383 | Auto-resolution then picks that row if it is active, else the first active CLI row, else nothing |
| GitScanner.RecentChanges | backend/internal/git/scanner.go:68-93 | The loop over the log's lines with its set of seen paths computes Recent |
| GitScanner.RecentIsNewest | backend/internal/git/scanner.go:56-93 | A change is listed iff it is the newest of its path in the log |
| GitScanner.RecentIsDistinct | backend/internal/git/scanner.go:88-91 | No path is listed twice |
| GitScanner.CollectChanges | backend/internal/git/sync_service.go:174-232 | The loops over repositories and files list the logical changes without repeats, or stop at the first repository that cannot be read |
| GitScanner.KeysDiffer | backend/internal/git/sync_service.go:182-189 | The key path|type tells all changes apart, whatever characters their paths hold |
| GitScanner.LogicalPathsAre | backend/internal/git/sync_service.go:208-216 | Paths of the primary repository as they are, others under their repository's name; different files stay different |
| GitScanner.LastWordIsThePath | backend/internal/git/scanner.go:75-87 | For every entry git prints, the scanner takes the status letter and the last word of its paths |
| GitScanner.FirstTypeIs | backend/internal/git/sync_service.go:191-216 | The first listed change of a logical path is that of the newest line naming it in the first repository that does |
| DriftSync.NoisyPath | backend/internal/git/sync_service.go:55-81 | The two loops over directories and suffixes decide IsNoisyPath |
| DriftSync.SuffixesCountAnywhere | backend/internal/git/sync_service.go:75-79 | The suffix list in effect matches anywhere in the file name |
| DriftSync.NoisyIgnoresCase | backend/internal/git/sync_service.go:56 | The filter ignores case |
| DriftSync.NoisyIffListed | backend/internal/git/sync_service.go:55-81 | Noisy is exactly a path under one of the listed directories or with one of the listed texts in its file's name |
| DriftSync.BaseIsLastName | backend/internal/git/sync_service.go:75-79 | filepath.Base is what stands behind the last slash, slashes at the end aside |
| DriftSync.BuildAffected | backend/internal/git/sync_service.go:251-297 | The nested loops compute Affected |
| DriftSync.AffectedIsJoin | backend/internal/git/sync_service.go:251-297 | The affected map is the join of non-noisy changes with links and registry; hasDocLink iff a linked path changed |
| DriftSync.FilesAreDistinct | backend/internal/git/sync_service.go:257-265 | A document's files have distinct paths |
| DriftSync.FilesCoverTouches | backend/internal/git/sync_service.go:266-272 | Every path that touches a document is among its files |
| DriftSync.FilesAreFirst | backend/internal/git/sync_service.go:257-272 | Each file is the first change of its path in the list, which matters where repositories share a logical path |
| DriftSync.DistinctAreAllKept | backend/internal/git/sync_service.go:257-272 | Where no path is listed twice, a document's files are exactly the changes that touch it |
| DriftSync.FilesOfOneRepository | backend/internal/git/sync_service.go:215-297 | With one repository, a document's files are the newest changes of the paths that touch it |
| DriftSync.RepeatsDoNotMatter | backend/internal/git/sync_service.go:182-189 | Dropping repeated (path, type) pairs before phase 1 makes no difference to any document |
| DriftSync.DestructionCountsIff | backend/internal/git/sync_service.go:174-297 | For any repositories and logs, a path counts as deleted or renamed for a document at it iff the newest line with it as last field, in the first repository that has one, is a D or R line |
| DriftSync.RemovalCountsIff | backend/internal/git/scanner.go:68-93 | In one repository whose paths have no blanks: iff the newest entry at the path, the new path of a rename, is a deletion or a rename |
| DriftSync.RenamedAwayIsMissed | backend/internal/git/scanner.go:83-87 | A document at a path that is renamed away is not affected at all, unless it is at the new path too |
| DriftSync.BlankPathIsMissed | backend/internal/git/scanner.go:79-87 | Nor is one at a deleted path with a blank, unless it is at the path's last word too |
| DriftSync.EarlierRepositoryDecides | backend/internal/git/sync_service.go:191-216 | Deleted in a later repository, added in an earlier one under the same logical path, it counts as added |
| DriftSync.RestoredFileIsNotDestroyed | backend/internal/git/scanner.go:68-93 | Any path deleted and added again counts as added; added and then deleted, as deleted |
| DriftSync.CodeChangeSeverity | backend/internal/git/sync_service.go:85-118 | Severity 3 iff something was deleted or renamed, or three files and a link; 1 iff none of the conditions; confidence high iff linked |
| DriftSync.SyncService.Raise | backend/internal/git/sync_service.go:303-347 | One document: marked stale, and a signal unless one is known open |
| DriftSync.SyncService.Sync | backend/internal/git/sync_service.go:299-388 | Phases 2 and 3, for any map order and any failures, have the order-free meaning Synced |
| DriftSync.SyncService.Run | backend/internal/git/sync_service.go:174-388 | From the repositories' logs on, with the noise filter: the same, and nothing at all when a repository cannot be read |
| DriftSync.EachGainsAtMostOne | backend/internal/git/sync_service.go:299-388 | With working calls every affected or decayed document is stale with an open signal, and gains one iff it had none in the project, by the code change if there is one |
| DriftSync.RerunAddsNothing | backend/internal/git/sync_service.go:234-388 | An unchanged second run, whatever fails in it, adds no signal and no mark if it can list the open signals |
| DriftSync.NewSignalsSayWhy | backend/internal/git/sync_service.go:299-388 | Each new signal is a code change with the document's files, severity and confidence by them, or a time decay with the threshold |
| DriftSync.SecondOpenSignalIff | backend/internal/git/sync_service.go:234-238 | Exactly which failures leave a document with two open signals |
| DriftSync.UnreadSignalIsRaisedAgain | backend/internal/git/sync_service.go:329-388 | A run that leaves two: the first signal was inserted but could not be read back |
| DriftSync.UnlistedSignalIsRaisedAgain | backend/internal/git/sync_service.go:234-238 | Another: the open signals could not be listed |
| AgentRuns.AgentRunStore.CreateOrGetByIdempotency | backend/internal/store/agent_run_store.go:53-72 | A free key gives a new row, a taken one the row that holds it, or a mismatch if that is another project's |
| AgentRuns.AgentRunStore.Update | backend/internal/store/agent_run_store.go:92-148 | The merged row is written, completed_at set or cleared with the status |
| AgentRuns.CreateTakesRequest | backend/internal/store/agent_run_store.go:53-72 | A new run has each text of the request in its own column, is running, and is the only row that is new |
| AgentRuns.UpdateTakesPatch | backend/internal/store/agent_run_store.go:92-148 | Each field of the patch reaches its own column, the others stay; the completion time is kept, set or cleared by the status |
| AgentRuns.EveryRunKeeps | backend/internal/store/agent_run_store.go:126-136 | Over any calls and failures keys stay unique and completed_at is set exactly on completed and failed runs |
| AgentRuns.KeyLasts | backend/internal/store/agent_run_store.go:92-148 | No call takes a run, its key or its project away |
| AgentRuns.AskingAgainFindsTheSame | backend/internal/store/agent_run_store.go:53-72 | The same key, after any calls, finds the same run and adds none |
| AgentRuns.FinishTimeKept | backend/internal/store/agent_run_store.go:126-136 | A finished run that is not reopened keeps its completion time |
| PlanningSaga.KeysAgreeIff | backend/internal/planning/orchestrator.go:184-186 | Two runs share an agent run key iff their trimmed ids are equal |
| PlanningSaga.Orchestrator.CreateWithBinding | backend/internal/store/planning_run_store.go:53-126 | The insert as queued, refused while the requirement has an active run |
| PlanningSaga.Orchestrator.CreateDraftsForPlanningRun | backend/internal/store/backlog_candidate_store.go:69-153 | All drafts or none become candidates of the run |
| PlanningSaga.DraftsBecomeCandidates | backend/internal/store/backlog_candidate_store.go:80-139 | One candidate per draft, in order, of the run and the requirement, with the draft's trimmed title and role, a blank role being none, and its rank or its place |
| PlanningSaga.AgentRunTellsOutcome | backend/internal/planning/orchestrator.go:113-182 | The agent run's key leads to the run, and it ends with the text and message of its outcome |
| PlanningSaga.FailureNamesItsStep | backend/internal/planning/orchestrator.go:92-169 | A reported failure names a step that failed after all steps before it went well; none is reported only if all went well |
| PlanningSaga.StatusWritesAre | backend/internal/store/planning_run_store.go:147-220 | The first start is kept, the end is now, an error names its failure, and the dispatch follows for a connector's run only |
| PlanningSaga.Orchestrator.FailRunPair | backend/internal/planning/orchestrator.go:171-182 | The three compensating writes, each with its own outcome |
| PlanningSaga.Orchestrator.RunWithBindingSnapshot | backend/internal/planning/orchestrator.go:92-169 | For every pattern of failures: the error is the first step's that fails; success is carried out or handed over; with working compensation an error leaves everything rolled back, the run failed for the reported reason, iff it is not one of the two unread inserts; nothing else is touched |
| PlanningSaga.LeaveUnreadRow | backend/internal/planning/orchestrator.go:101-125 | From empty tables, either unread insert: the attempt fails and its row stays as inserted although compensation works |
| PlanningSaga.RetryIsAccepted | backend/internal/planning/orchestrator.go:101-104 | After a rolled-back attempt the requirement is as free as before |
| PlanningSaga.LeftBehindRunBlocks | backend/internal/store/planning_run_store.go:118-126 | A run left queued by an unread insert refuses every later attempt of its requirement, through any number of other attempts |
| Migrations.ListMigrationFiles | backend/internal/database/database.go:181-202 | The loop and the sort give MigrationFiles |
| Migrations.FilesAreTheMigrations | backend/internal/database/database.go:186-202 | The files are in byte order and are exactly the names that end in .sql but not .down.sql and are no directories |
| Migrations.ListingOrderDoesNotMatter | backend/internal/database/database.go:202 | The order of the listing makes no difference |
| Migrations.MigrationFilesAreDistinct | backend/internal/database/database.go:186-202 | No file is listed twice |
| Migrations.Database.RunMigrations | backend/internal/database/database.go:204-249 | The loop does what After says file by file, each outcome ending the run where the code does |
| Migrations.Database.RunMigrationsFromFS | backend/internal/database/database.go:167-252 | From the directory listing to the last file, the same with MigrationFiles |
| Migrations.RunAdvances | backend/internal/database/database.go:204-249 | A run interrupted anywhere commits the first of the missing files in order, each body once with its record; a completed one all |
| Migrations.InterruptedRunsKeepPrefix | backend/internal/database/database.go:186-252 | After any number of interrupted runs the recorded versions are a prefix of the sorted files and the schema its bodies in order |
| Migrations.CompletedRunAppliesAll | backend/internal/database/database.go:186-252 | A run that reports success has applied all files and the next changes nothing |
| Migrations.UndisturbedRunCompletes | backend/internal/database/database.go:204-252 | A run in which nothing fails completes from any state |
| Migrations.UpgradeMatchesFreshIff | backend/internal/database/database.go:202-211 | An upgraded database has a fresh one's history iff the new release only appends files |
| Migrations.InsertedFileComesLast | backend/internal/database/database.go:202-211 | A release that inserts a file before others: it is applied after them, although nothing fails |
| AlterTableSplit.SplitAlterTableAddColumns | backend/internal/database/database.go:319-362 | The scanner with its three indices computes SplitStatement |
| AlterTableSplit.SplitBody | backend/internal/database/database.go:337-356 | The loop cuts the body into the clauses of its spans |
| AlterTableSplit.SpansTile | backend/internal/database/database.go:339-356 | The pieces cover the body end to end, but for the stretch from each cut's comma to its ADD COLUMN |
| AlterTableSplit.CutIff | backend/internal/database/database.go:340-352 | A cut is exactly a comma with ADD COLUMN behind it and nothing but blanks, tabs and line ends between |
| AlterTableSplit.TextsRejoinToBody | backend/internal/database/database.go:337-356 | Pieces and separators together are the body, and every separator is a comma and white space |
| AlterTableSplit.TextIsUncut | backend/internal/database/database.go:347-352 | No piece has a further cut in it |
| AlterTableSplit.ClausesAreTheTexts | backend/internal/database/database.go:335-361 | The statements are the pieces in order, trimmed, behind the prefix; only a body that begins with a cut gives one less |
| AlterTableSplit.SplittingAgainChangesNothing | backend/internal/database/database.go:319-362 | For every statement, splitting a part again returns it unchanged |
| AlterTableParts.PartsJoinToBody | backend/internal/database/database.go:319-362 | The statements split off, without their prefix and joined at commas, are the body but for white space at the cuts; a leading cut adds a blank clause |
| AlterTableParts.TwoColumnsAreSplit | backend/internal/database/database.go:314-362 | ALTER TABLE t ADD COLUMN a, ADD COLUMN b becomes exactly the two statements, for every table and columns without an inner cut |
| AlterTableParts.PartsAddColumns | backend/internal/database/database.go:339-356 | Every part but the first adds a column, and the first one iff the body begins with ADD COLUMN or with a cut |
| AlterTableParts.IfExistsIsMisread | backend/internal/database/database.go:325-335 | ALTER TABLE IF EXISTS with any table and two columns is split into parts that alter a table IF, the first of which adds no column |
| AlterTableParts.LiteralIsCut | backend/internal/database/database.go:339-356 | A statement with one column whose default literal has a comma and ADD COLUMN in it is split within the literal |
| AlterTableParts.LeadingComma | backend/internal/database/database.go:335-356 | A body that begins with a comma has one statement less than pieces |
| Template.HeadIff | backend/internal/prompts/render.go:44 | The pattern matches at a place iff {{KEY}} stands there for a key |
| Template.FirstMatchIsLeftmost | backend/internal/prompts/render.go:122-123 | Replacement goes on at the leftmost match |
| Template.PrintOfLex | backend/internal/prompts/render.go:122-134 | Lexing into literals and placeholders loses nothing |
| Template.LexIsCanonical | backend/internal/prompts/render.go:122-134 | No literal contains a placeholder |
| Template.LexOfPrint | backend/internal/prompts/render.go:122-134 | Every canonical token list is what lexing its text gives |
| Template.TokensAreUnique | backend/internal/prompts/render.go:44 | A text has exactly one canonical reading, brace runs included |
| Template.ReplaceIsRender | backend/internal/prompts/render.go:122-134 | Replacing renders the original's tokens once each: inserted text is not scanned |
| Template.SubstituteIsRender | backend/internal/prompts/render.go:122-134 | Substitution leaves literals and unknown placeholders and inserts known values verbatim |
| Template.SubstituteUntouched | backend/internal/prompts/render.go:128-133 | Unknown keys, and keys mapped to their own placeholder, leave the text unchanged |
| Template.DocumentedKeyIff | backend/internal/prompts/render.go:39-44 | A text in double braces is replaced exactly if it is a known name of capitals, digits and `_` that begins with a capital; a key with another start, which the comment allows, never |
| Scoring.RoundTenthKeeps | backend/internal/planning/generator.go:884-886 | Rounding what is rounded changes nothing |
| Scoring.RoundTenthIsNear | backend/internal/planning/generator.go:884-886 | Rounding gives tenths within half a tenth |
| Scoring.PriorityIsWhatIsShown | backend/internal/planning/generator.go:207-216 | Final priority = clamp(seed + shown bonus - shown penalty), in 0..100 |
| Scoring.EvidenceRaisesDuplicatesLower | backend/internal/planning/generator.go:848-862 | Evidence never lowers a score, duplicates never raise one; one duplicate less outweighs one line of evidence less |
| Scoring.WeightedScoreIsMonotone | backend/internal/planning/generator.go:836-846 | The weighted score rises with each factor and falls with effort and penalty |
| Scoring.WeightOrder | backend/internal/planning/generator.go:838-844 | Impact counts more than urgency, urgency than unlocking, that than risk reduction, that than confidence; effort costs what risk reduction gives |
| Scoring.MarksInPoints | backend/internal/planning/generator.go:836-846 | What each mark is worth in points |
| Scoring.BreakdownShowsMarks | backend/internal/planning/generator.go:185-216 | The breakdown shows each mark in percent in its own place, bonus, penalty and results |
| Scoring.ConfidenceIsExact | backend/internal/planning/generator.go:858-862 | Final confidence = clamp(seed + 2.5 for each of up to four lines - 9 for each duplicate) |
| Scoring.PenaltyIs | backend/internal/planning/generator.go:828-834 | The first duplicate costs 0.10 of confidence, each further one 0.03, until nothing is left |
| Scoring.KindsLead | backend/internal/planning/openai_compatible_provider.go:294-372 | In the same place and context implementation leads in impact, integration in what it unlocks, validation in risk reduction and little effort |
| Scoring.ContextHelps | backend/internal/planning/openai_compatible_provider.go:316-355 | Failures and age raise validation, related documents implementation |
| Scoring.EarlyBonus | backend/internal/planning/openai_compatible_provider.go:261-277 | The first three places get three, two and one hundredths |
| Scoring.FinalPriorityIsMonotone | backend/internal/planning/openai_compatible_provider.go:277-373 | Through both counts of duplicates: earlier, with more evidence and no more duplicates never ranks lower; with fewer duplicates neither, though a line of evidence and the last open task are gone |
| Ranking.SameTitleIff | backend/internal/planning/generator.go:888-890 | Titles are the same iff their words agree but for case |
| FirstOccurrences.PicksAreFirst | backend/internal/planning/openai_compatible_provider.go:263-272 | A candidate is kept iff its title is not blank and is the first of its normalised form |
| Ranking.BuildOpenAICompatibleDrafts | backend/internal/planning/openai_compatible_provider.go:261-393 | Collecting, scoring, sorting and numbering give RankedDrafts |
| Ranking.RankedAreSortedAndNumbered | backend/internal/planning/openai_compatible_provider.go:378-391 | The result is the scored drafts rearranged, by falling priority then title, ranks 1..n |
| Ranking.RankedByPriorityThenTitle | backend/internal/planning/openai_compatible_provider.go:383-391 | Falling priority, then titles in the order of bytes, ranks from one |
| Ranking.ScoredAreFirstOccurrences | backend/internal/planning/openai_compatible_provider.go:263-376 | The drafts stand for exactly the first occurrences |
| Ranking.DraftTellsCandidate | backend/internal/planning/openai_compatible_provider.go:263-376 | Each draft has its candidate's trimmed texts or the context's, the kind that was named, and the open tasks of its title for duplicates |
| Ranking.KindIsNamed | backend/internal/planning/openai_compatible_provider.go:395-408 | The kind is the named one, ignoring case and blanks, and otherwise that of the place |
| Ranking.ScoredTitlesDiffer | backend/internal/planning/openai_compatible_provider.go:268-272 | No two drafts have the same normalised title |
| Ranking.RankedPriorityIsShown | backend/internal/planning/openai_compatible_provider.go:378-382 | Every draft's priority is in 0..100 and what its breakdown adds up to |
| Ranking.RankingIgnoresOrder | backend/internal/planning/openai_compatible_provider.go:383-388 | With different titles the ranking does not depend on the order before it |
| FirstOccurrences.DedupedAreFirst | backend/internal/planning/generator.go:904-920 | dedupeStrings keeps exactly the first of the texts that differ in case only |
| FirstOccurrences.DedupedTwice | backend/internal/planning/generator.go:595-601 | Deduplicating again, as happens to the duplicate titles, changes nothing |
| Ranking.SummarizeOpenTaskTitles | backend/internal/planning/generator.go:785-801 | The first titles that are not blank, none iff no task has one |
| Ranking.FindDuplicateTitles | backend/internal/planning/generator.go:803-815 | The loop and dedupeStrings give DuplicateTitles |
| Ranking.DuplicatesIff | backend/internal/planning/generator.go:803-815 | A title has duplicates iff an open task's title has the same words but for case |
| Ranking.EvidenceSpeaks | backend/internal/planning/openai_compatible_provider.go:296-361 | Evidence is made of the lines of the candidate's kind, the one on its duplicates included |
| Ranking.SpeakingIsEvidence | backend/internal/planning/openai_compatible_provider.go:296-361 | Each such line that is not blank is there, but for case |
| Ranking.FewerDuplicatesRankNoLower | backend/internal/planning/openai_compatible_provider.go:248-376 | From candidate and open tasks to priority: with fewer duplicate tasks, even with no open task left, a candidate's priority does not fall |
| Sorting.SortIsStable | backend/internal/planning/openai_compatible_provider.go:383-388 | Drafts that tie keep their order |
| Sorting.StringBeforeIsLexicographic | backend/internal/database/database.go:202-202 | A text comes before those it begins, and otherwise the first place where two differ decides |

## Left out

- Committing a backlog item (backend/internal/store/backlog_item_store.go:300-460) also writes lineage rows with a candidate id; one lineage row per candidate is claimed for candidates without such rows.
- Retitling and reopening tasks: uniqueness of open titles is not claimed when a client does so.
- Which row the lookups with ORDER BY ... LIMIT 1 return when several match: any matching row is allowed.
- CandidateStore.AuditTrail: is stated for atomic updates, because a stale one can break the chain; StaleWriteKeepsTrailIff says exactly when, for both kinds of update.
- At-most-once execution of probes: a heartbeat answer older than a finished probe may announce it again; only dedup in the queue is claimed.
- A heartbeat's batch counts as delivered when it is acknowledged; what the server does with a batch whose answer was lost is not modelled.
- The shared backing array of the hub's slices: a registry entry is a value; the in-place shift is shown by RemoveInPlace on its own array. In the stream theorems RestoreFromDB comes before the first update, as at the start of the server.
- The flush loop's signal and its posting of entries: a flush is its locked section, and posting failures are ignored as in the code.
- Validation of binding requests (URL, model names, key shapes), encryption, and the unique indexes as such. A transaction of BindingUniqueness is one step, so two creates whose statements interleave, which the indexes are there for, are not covered; only an update may write what it computed from an old read. A row lock is not taken by the binding updates, nor assumed.
- AccountBindings.AccountBindingStore.Create: does not validate the request or hold the columns that no uniqueness or resolution depends on.
- AccountBindings.AccountBindingStore.Update: likewise, validation and the other columns are left out.
- PlanningSaga.Orchestrator.CreateWithBinding: does not hold the columns of selection, binding snapshot and connector.
- Ranking.BuildOpenAICompatibleDrafts: takes the wording of the lines of evidence as an input; how many count, and which depend on duplicates, is modelled.
- Running git: the lines of each repository's log are an input, or that it could not be read; nor is cloning a managed repository or choosing the branch modelled. A path that git prints in quotes (with quotes, backslashes or control characters) is taken as printed.
- The computation of document age: which documents are past the threshold is an input, one row per document. The wording of signals, summaries and messages is left out or an input.
- PlanningSaga.Orchestrator.RunWithBindingSnapshot: does not let other clients or a connector act on the run between its steps, because the claim is about failures of its own steps; selection details and the binding snapshot are not part of the row.
- Cancelling, leasing and claiming of planning runs.
- Creation of schema_migrations and reading the directory: a failure there changes nothing. execMulti and the rewriting for SQLite: a migration's body is one text.
- AlterTableSplit.SplitAlterTableAddColumns: text before ALTER TABLE in a split statement is dropped, as in the code; nothing is claimed about it.
- Frontmatter of prompts and loading them.
- The wording of evidence, urgency keywords, document and drift selection: they enter the ranking as inputs. The generator for deterministic drafts shares scoring and ranking and is not modelled apart.
- IEEE rounding, Unicode case and white space.
- The event broker, HTTP handlers, router, frontend, CLI, cryptography, sessions, subprocesses and adapters.
