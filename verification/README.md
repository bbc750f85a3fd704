# Verified model of muzilla's review store, full-text indexes, benchmark checks and text diff

This project models four parts of muzilla in Dafny and proves what they promise.

**The review store** (`ReviewSchema`, `ReviewStatements`, `ReviewStore`, `ReviewInvariants`,
`ReviewCurrent`, `ReviewRuns`, `ReviewUndos`, `ReviewTransitions`,
`ReviewEffects`, `ReviewExample`). Migrations 0011, 0014, 0015, 0017 and 0018 put a
state machine into SQLite: bundles in eight states, immutable snapshots, numbered revisions with one
current marker, operations with decisions, apply runs, attempts and undo runs, held together by
triggers, scope checks and partial unique indexes. `Exec` says what one statement does to all tables:
BEFORE triggers, row write, index check, AFTER triggers, foreign keys, and nothing at all after an
abort. `Store` is the same as an object whose tables are updated in place with rollback, proved equal
to `Exec` statement by statement. A `History` is any sequence of statements from empty tables; every
step names the version of the state trigger in force, so the theorems also hold across upgrades and
downgrades.

**The full-text indexes** (`FullText`, `InboxBackfill`). An external-content index is a multiset of
postings that three triggers keep up to date; 'delete' removes the postings of the values it is
handed. The tokenizer is an arbitrary function and the column list an arbitrary projection, used once
for tracks and once for the review inbox, whose backfill from the review store is modelled too.

**The benchmark checks** (`SamplerProtocol`, `SamplerSummary`, `SamplerRuns`, `Thresholds`, `ProcessTree`,
`Percentile`). The two-thread sampler is a state machine over its atomic regions, the class
`ResourceSampler` runs those regions, and the summary, the threshold evaluator, the process-tree loop
and the percentile are modelled on top of it. Times are reals, the collector and the clock are inputs.

**The text diff** (`TextDiff`). The two-ended scan with its overlap guard.

Five expectations turn out false of the code, and each is replaced by its exact condition:

- A visible bundle always has a current revision. The state triggers fire on UPDATE only, so an INSERT
  that names a visible state gets past them (`VisibleInsertCommits`). The property holds for a bundle
  over a run exactly when no such INSERT of it is committed (`VisibleAlwaysHasCurrentIff`).
- An undo run belongs to the bundle of its apply run. 0018 does not ask (`ForeignUndoCommits`); it holds
  over a run exactly when no INSERT of an undo run for another bundle is committed (`UndosAlwaysAgreeIff`).
- The threshold evaluator is total and fail-closed. It raises when a throughput is derived from an
  integer too large for a double (`HugeDurationRaises`), and when it reports as invalid something that
  Python refuses to turn into text, such as an integer of more than 4300 digits
  (`LongMeasurementRaises`); `RaisesIff` says exactly when.
- The inbox column `format` is the file extension. It is everything after the first dot
  (`FormatIsNotAlwaysExtension`, `FormatIsExtensionIff`).
- The spans of two well-formed texts are well-formed. The scan compares UTF-16 code units, so it can cut a
  surrogate pair (`HalfIsKept`); `SpansWellFormedIff` says exactly when it does not.

## Model

| member | source | states |
|---|---|---|
| ReviewStore.Store.InsertBundle | migrations/versions/0011_review_bundle_foundation.py:25-51 | inserting a bundle writes the row and takes it back when the active-key index fails |
| ReviewStore.Store.UpdateBundle | migrations/versions/0011_review_bundle_foundation.py:342-388 | an update that names the state passes the three state triggers before the write, the active-key index after it |
| ReviewStore.Store.WriteCurrentRow | migrations/versions/0011_review_bundle_foundation.py:398-444 | one row of an is_current update: frozen and successor checks, write, index, promotion of the successor |
| ReviewStore.Store.SetCurrent | migrations/versions/0011_review_bundle_foundation.py:102-108 | a multi-row is_current update over a fixed row list restores every row when one of them aborts |
| ReviewStore.Store.InsertRevision | migrations/versions/0011_review_bundle_foundation.py:70-108 | inserting a revision: snapshot scope, then numbers, idempotent successor, current index and foreign keys |
| ReviewStore.Store.DeleteRevision | migrations/versions/0011_review_bundle_foundation.py:445-454 | deleting a revision takes its operations along unless it is a settled bundle's current one or is referenced |
| ReviewStore.Store.InsertOperation | migrations/versions/0011_review_bundle_foundation.py:455-465 | inserting an operation: snapshot and revision of one bundle, unique position |
| ReviewStore.Store.SetDecision | migrations/versions/0011_review_bundle_foundation.py:466-479 | a decision is written unless the trigger freezes it |
| ReviewStore.Store.InsertRun | migrations/versions/0011_review_bundle_foundation.py:480-488 | inserting an apply run: revision of the same bundle, idempotency key, one active run |
| ReviewStore.Store.InsertAttempt | migrations/versions/0011_review_bundle_foundation.py:499-508 | inserting an attempt: operation and run of one revision |
| ReviewStore.Store.InsertUndo | migrations/versions/0018_review_undo_runs.py:21-63 | inserting an undo run: one per apply run, one per key, one active per bundle |
| ReviewStore.Store.Execute | migrations/versions/0011_review_bundle_foundation.py:305-509 | every statement, run in place, ends in the state and with the abort reason that `Exec` gives |
| ReviewStore.Store.Play | migrations/versions/0011_review_bundle_foundation.py:305-509 | playing a run on a new store goes through exactly the states the theorems speak of |
| ReviewEffects.AbortedLeavesNothing | migrations/versions/0011_review_bundle_foundation.py:305-509 | an aborted statement leaves the store as it was |
| ReviewEffects.InsertBundleEffect | migrations/versions/0011_review_bundle_foundation.py:25-51 | exactly when a bundle can be inserted, and the store it leaves |
| ReviewEffects.UpdateBundleEffect | migrations/versions/0011_review_bundle_foundation.py:342-388 | exactly when a bundle can be updated: allowed transition, a current revision if visible, one with an accepted operation if applying, a key no other active bundle holds; only the named columns change |
| ReviewEffects.InsertSnapshotEffect | migrations/versions/0011_review_bundle_foundation.py:54-68 | a snapshot needs its bundle and a digest new to it |
| ReviewEffects.DeleteSnapshotEffect | migrations/versions/0011_review_bundle_foundation.py:70-145 | a snapshot can be deleted exactly when no revision and no operation refers to it |
| ReviewEffects.InsertRevisionEffect | migrations/versions/0011_review_bundle_foundation.py:70-108 | a revision needs a snapshot of its bundle, a new number, no sibling with its digest, and no second current one |
| ReviewEffects.SetMarkerEffect | migrations/versions/0011_review_bundle_foundation.py:398-406 | setting the marker goes through exactly while the bundle is preparing or under review and no other row is current, and makes that row current |
| ReviewEffects.ClearMarkerEffect | migrations/versions/0011_review_bundle_foundation.py:398-444 | clearing a marker in a preparing bundle, or where there is none, writes just that |
| ReviewEffects.ClosedMarkerStays | migrations/versions/0011_review_bundle_foundation.py:398-406 | in every other state writing is_current aborts |
| ReviewEffects.SetCurrentInOrder | migrations/versions/0011_review_bundle_foundation.py:398-444 | a multi-row update is its rows one after the other, up to the first that aborts |
| ReviewEffects.DeleteRevisionEffect | migrations/versions/0011_review_bundle_foundation.py:445-454 | exactly when a revision can be deleted; exactly its operations go with it |
| ReviewEffects.InsertOperationEffect | migrations/versions/0011_review_bundle_foundation.py:455-465 | an operation needs a revision and a snapshot of one bundle and a free position |
| ReviewEffects.SetDecisionEffect | migrations/versions/0011_review_bundle_foundation.py:466-479 | a decision changes exactly on the current revision of a bundle that is preparing or under review, and is what was asked for |
| ReviewEffects.DeleteOperationEffect | migrations/versions/0011_review_bundle_foundation.py:279-304 | an operation can be deleted exactly when nothing attempted it |
| ReviewEffects.InsertRunEffect | migrations/versions/0011_review_bundle_foundation.py:241-277 | exactly when an apply run can be inserted, and the store it leaves |
| ReviewEffects.UpdateRunEffect | migrations/versions/0011_review_bundle_foundation.py:241-277 | an update of a run writes state, result and error, unless a second run of the bundle became active |
| ReviewEffects.DeleteRunEffect | migrations/versions/0018_review_undo_runs.py:21-47 | a run can be deleted exactly when it was not undone; exactly its attempts go with it |
| ReviewEffects.InsertAttemptEffect | migrations/versions/0011_review_bundle_foundation.py:499-508 | an attempt needs an operation and a run of one revision, once per pair |
| ReviewEffects.UpdateAttemptEffect | migrations/versions/0011_review_bundle_foundation.py:279-341 | an update of an attempt writes state and error only |
| ReviewEffects.InsertUndoEffect | migrations/versions/0018_review_undo_runs.py:21-63 | exactly when an undo run can be inserted, and the store it leaves |
| ReviewEffects.UpdateUndoEffect | migrations/versions/0018_review_undo_runs.py:21-63 | an update of an undo run writes state, result and error, unless a second one of the bundle became active |
| ReviewEffects.ContentIsImmutable | migrations/versions/0011_review_bundle_foundation.py:307-341 | an update that names an immutable column of an existing row aborts |
| ReviewExample.ReviewGoesThrough | migrations/versions/0011_review_bundle_foundation.py:305-509 | a review from the first insert to `applied`, in which no statement aborts: the run theorems are not empty |
| ReviewInvariants.LinkedPreserved | migrations/versions/0011_review_bundle_foundation.py:307-341 | every statement keeps all foreign keys and the agreement of linked rows on their bundle |
| ReviewInvariants.IndexedPreserved | migrations/versions/0011_review_bundle_foundation.py:43-51 | every statement keeps all unique constraints and partial unique indexes |
| ReviewCurrent.RowMoves | migrations/versions/0011_review_bundle_foundation.py:411-444 | one written row moves a settled bundle's marker exactly when it clears the current row, and then to the one row numbered one higher whose parent that is |
| ReviewCurrent.SetCurrentMoves | migrations/versions/0011_review_bundle_foundation.py:398-444 | a multi-row update in any order aborts or moves the marker along a chain of rows that the table held before it |
| ReviewCurrent.MultiRowUpdateKeepsOne | migrations/versions/0011_review_bundle_foundation.py:408-444 | after a committed multi-row update a settled bundle with a current revision has exactly one |
| ReviewCurrent.SetCurrentFrozen | migrations/versions/0011_review_bundle_foundation.py:398-406 | outside review no update of is_current changes a row of the bundle |
| ReviewCurrent.CurrentMoves | migrations/versions/0011_review_bundle_foundation.py:398-454 | no statement takes the current revision from a bundle that left `preparing`; only an is_current update moves it, along existing rows, and never once the bundle is frozen |
| ReviewRuns.VisibleInsertCommits | migrations/versions/0011_review_bundle_foundation.py:32 | an INSERT that names a visible state is accepted and leaves the bundle without a current revision |
| ReviewRuns.VisibleHasCurrentIff | migrations/versions/0011_review_bundle_foundation.py:360-371 | a committed statement leaves all visible bundles with a current revision exactly when it is no such INSERT |
| ReviewRuns.VisibleAlwaysHasCurrentIff | migrations/versions/0011_review_bundle_foundation.py:360-371 | over a whole run, each bundle has a current revision whenever visible exactly when no such INSERT of it was committed |
| ReviewRuns.OnceVisibleOneCurrent | migrations/versions/0011_review_bundle_foundation.py:408-454 | a bundle that became visible other than by such an INSERT has exactly one current revision in every later state |
| ReviewRuns.CurrentHistory | migrations/versions/0011_review_bundle_foundation.py:411-444 | the current revisions of all states in between lie on one path; each step goes from a row to the unique row numbered one higher whose parent it is, both in the store before the step |
| ReviewRuns.NeverCurrentTwice | migrations/versions/0011_review_bundle_foundation.py:92-108 | current numbers never decrease and a replaced revision never becomes current again |
| ReviewRuns.ApplyingFreezesCurrent | migrations/versions/0015_review_bundle_reopen.py:20-37 | a bundle in one of the four apply states stays in them for ever and keeps the very same current row |
| ReviewRuns.ApplyingFreezesOperations | migrations/versions/0011_review_bundle_foundation.py:466-479 | its operations keep decision and content for as long as their rows exist, with or without a current revision |
| ReviewRuns.OwnershipCommutes | migrations/versions/0011_review_bundle_foundation.py:389-397 | in every reachable state all routes from a revision, operation, run or attempt lead to one bundle |
| ReviewRuns.AtMostOneActive | migrations/versions/0018_review_undo_runs.py:48-63 | at most one active bundle per key, active run, active undo and current revision per bundle, undo per apply run |
| ReviewTransitions.UpgradedRunsAgree | migrations/versions/0014_review_apply_retry.py:20-37 | a run without aborts goes through the same states under newer triggers |
| ReviewTransitions.OutcomesDifferIff | migrations/versions/0015_review_bundle_reopen.py:20-37 | 0014 changes the outcome of retries only, 0015 that of reopenings only |
| ReviewTransitions.FinalStates | migrations/versions/0011_review_bundle_foundation.py:342-359 | the states without an exit shrink from four to two to one |
| ReviewTransitions.DowngradesRestore | migrations/versions/0015_review_bundle_reopen.py:40-66 | each downgrade installs the relation of the version before |
| ReviewTransitions.RetryCommitsIff | migrations/versions/0014_review_apply_retry.py:20-37 | a retry goes through exactly with an accepted operation on the current revision and a key no other active bundle holds |
| ReviewTransitions.ReopenCommitsIff | migrations/versions/0015_review_bundle_reopen.py:32-33 | a reopening goes through exactly with a current revision and a free key |
| ReviewTransitions.EnteringApplying | migrations/versions/0011_review_bundle_foundation.py:372-388 | a bundle that enters applying has an accepted operation on its current revision |
| ReviewTransitions.DecisionCommitsIff | migrations/versions/0011_review_bundle_foundation.py:466-479 | a decision changes exactly on the current revision of a bundle under review, and nothing else with it |
| ReviewTransitions.DeleteRevisionCommitsIff | migrations/versions/0011_review_bundle_foundation.py:445-454 | a revision can be deleted exactly when no run uses it and it is not a settled bundle's current one |
| ReviewTransitions.RunInsertIff | migrations/versions/0011_review_bundle_foundation.py:241-277 | exactly when an apply run can be inserted |
| ReviewTransitions.UndoInsertIff | migrations/versions/0018_review_undo_runs.py:21-63 | exactly when an undo run can be inserted; the bundle of its apply run is not asked for |
| ReviewUndos.UndosAlwaysAgreeIff | migrations/versions/0018_review_undo_runs.py:21-47 | over a whole run, every undo run is of its apply run's bundle exactly when no INSERT of one for another bundle was committed |
| ReviewUndos.ForeignUndoCommits | migrations/versions/0018_review_undo_runs.py:21-47 | such an INSERT is accepted |
| ReviewTransitions.ClearCommitsIff | migrations/versions/0011_review_bundle_foundation.py:408-444 | clearing a visible bundle's marker goes through exactly when the successor exists, moves the marker there and changes no other row |
| ReviewTransitions.ClearedIsEmpty | migrations/versions/0011_review_bundle_foundation.py:407-410 | between row write and promotion the bundle has no current revision |
| FullText.PostingsCount | migrations/versions/0002_tracks_and_groups.py:135-142 | every token of a row is posted exactly once, at its own place |
| FullText.DeleteIsExactIff | migrations/versions/0002_tracks_and_groups.py:152-159 | 'delete' leaves exactly the other rows' index when the handed values cover the row's postings, and ghosts otherwise |
| FullText.TriggersKeepRebuilt | migrations/versions/0002_tracks_and_groups.py:143-171 | one insert, update (also of the row id) or delete with its trigger keeps the index equal to a rebuild |
| FullText.IndexStaysRebuilt | migrations/versions/0002_tracks_and_groups.py:143-171 | so does any run of them |
| FullText.LookupIsScan | migrations/versions/0002_tracks_and_groups.py:131-142 | looking up a token finds exactly the rows a full scan finds |
| FullText.IndexedTable.Insert | migrations/versions/0002_tracks_and_groups.py:143-150 | a row is inserted unless its id is taken, and the index stays in step |
| FullText.IndexedTable.Update | migrations/versions/0002_tracks_and_groups.py:161-171 | a row, and with it its id, is replaced unless the new id is taken, and the index stays in step |
| FullText.IndexedTable.Delete | migrations/versions/0002_tracks_and_groups.py:152-159 | a row is deleted and the index stays in step |
| FullText.IndexedTable.Search | migrations/versions/0002_tracks_and_groups.py:131-142 | a search answers as a scan of the current rows would |
| FullText.NewTracks | migrations/versions/0002_tracks_and_groups.py:135-142 | the track table with its four indexed columns starts in step |
| FullText.TracksAreFound | migrations/versions/0002_tracks_and_groups.py:135-142 | a search finds exactly the tracks whose title, artist, album or album artist holds the token |
| FullText.TrackPostings | migrations/versions/0002_tracks_and_groups.py:135-142 | the postings of a track carry the numbers of the four columns in that order |
| InboxBackfill.Backfill | migrations/versions/0017_import_review_inbox.py:118-152 | the INSERT ... SELECT succeeds exactly when no bundle joins twice, writes one row per joined revision, and leaves nothing otherwise |
| InboxBackfill.Upgrade | migrations/versions/0017_import_review_inbox.py:28-152 | the new evidence and confidence columns are NULL, so every backfilled row has no candidate evidence and no score and is labelled by its state alone; the index is in step |
| InboxBackfill.UpgradeReachable | migrations/versions/0017_import_review_inbox.py:28-152 | on every store that a run has produced the upgrade goes through; the inbox has exactly the bundles with a current revision, each row shows its bundle, revision and snapshot column by column, and counts the accepted, pending and rejected operations |
| InboxBackfill.BackfillCannotClash | migrations/versions/0017_import_review_inbox.py:147-152 | in every reachable store no bundle joins twice, so the primary key cannot clash |
| InboxBackfill.BackfillIsComplete | migrations/versions/0017_import_review_inbox.py:118-152 | in every reachable store the backfilled rows are the bundles with a current revision, and the three counts add up to the operations |
| InboxBackfill.BackfilledRowsAreFound | migrations/versions/0017_import_review_inbox.py:88-95 | after the backfill a search finds exactly the bundles whose row has the token in one of the eight indexed columns |
| InboxBackfill.InboxSearch | migrations/versions/0017_import_review_inbox.py:81-95 | a search finds exactly the rows with the token in one of the eight columns |
| InboxBackfill.FormatIs | migrations/versions/0017_import_review_inbox.py:128-130 | the format is what follows the first dot, in small letters, and NULL without a dot |
| InboxBackfill.FormatIsExtensionIff | migrations/versions/0017_import_review_inbox.py:128-130 | the format column is the extension exactly when the name has one dot |
| InboxBackfill.FormatIsNotAlwaysExtension | migrations/versions/0017_import_review_inbox.py:128-130 | a file name with two dots gets more than its extension |
| SamplerProtocol.NoReadingVanishes | scripts/perf_benchmark.py:536-565 | a reading is either recorded or rejected with an error, reported errors are kept, and a collection that is malformed or raises leaves one more |
| SamplerProtocol.CleanReading | scripts/perf_benchmark.py:546-555 | recorded readings are never negative, and never zero where that cannot be |
| SamplerProtocol.RecordedIsReading | scripts/perf_benchmark.py:546-555 | exactly which readings are recorded, each with its own value |
| SamplerProtocol.ErrorsAre | scripts/perf_benchmark.py:546-562 | exactly which names get an error, and which error wins |
| SamplerProtocol.EveryStateSound | scripts/perf_benchmark.py:518-622 | the invariant of both threads holds after every event of every interleaving |
| SamplerProtocol.SamplesInOrder | scripts/perf_benchmark.py:578-582 | samples are numbered 1..n in order of time and only the last can be terminal |
| SamplerProtocol.ClosedForEver | scripts/perf_benchmark.py:593-622 | once closed the list never changes, and the cached result stays the same and in agreement with it |
| SamplerProtocol.AtMostTwoMoreAfterStop | scripts/perf_benchmark.py:584-622 | after the stop event at most the sample in flight and the terminal one are added |
| SamplerProtocol.StoppedMeansTerminal | scripts/perf_benchmark.py:606-622 | a result says stopped exactly when the list ends in the terminal sample |
| SamplerProtocol.StoppedIffExited | scripts/perf_benchmark.py:606-622 | in every interleaving a started sampler ends stopped, with its terminal sample, exactly when the worker had exited as the join returned |
| SamplerRuns.OrdinaryRunResult | scripts/perf_benchmark.py:518-622 | the ordinary run, with any number of turns, caches one sample per turn and the terminal one, each with its number, reading and start time |
| SamplerRuns.OrdinaryRunIsComplete | scripts/perf_benchmark.py:518-714 | a run with good readings has a complete summary |
| SamplerRuns.HangingRun | scripts/perf_benchmark.py:606-616 | when the worker hangs, the result is not stopped and the late sample is dropped |
| SamplerRuns.NeverStarted | scripts/perf_benchmark.py:518-605 | without a started worker the result is empty, and a later start() does nothing |
| SamplerProtocol.ResourceSampler.Start | scripts/perf_benchmark.py:518-530 | start() launches once, and closes the sampler when the launch fails |
| SamplerProtocol.ResourceSampler.Append | scripts/perf_benchmark.py:578-582 | the lock region appends the next number, or nothing once closed |
| SamplerProtocol.ResourceSampler.WorkerCheck | scripts/perf_benchmark.py:584-588 | the loop test of the worker |
| SamplerProtocol.ResourceSampler.Stop | scripts/perf_benchmark.py:593-605 | stop() returns the cached result, gives up without a worker, or sets the event |
| SamplerProtocol.ResourceSampler.JoinReturns | scripts/perf_benchmark.py:606-616 | after the join, a live worker means the timeout branch |
| SamplerProtocol.ResourceSampler.Close | scripts/perf_benchmark.py:618-622 | closing after the terminal sample |
| SamplerProtocol.ResourceSampler.Finish | scripts/perf_benchmark.py:618-622 | the finishing time and the samples are fixed in the cached result |
| SamplerProtocol.ResourceSampler.Play | scripts/perf_benchmark.py:518-622 | any interleaving, played on the object, goes through exactly the states that the theorems speak of |
| SamplerSummary.GapsTelescope | scripts/perf_benchmark.py:635-641 | with monotone times the gaps add up to the run |
| SamplerSummary.GapOkIffCovered | scripts/perf_benchmark.py:635-643 | the gap test passes exactly when every window of the allowed gap inside the run contains a sample |
| SamplerSummary.LengthBound | scripts/perf_benchmark.py:635-643 | a run whose gaps pass is at most (n + 1) allowed gaps long |
| SamplerSummary.MetricCompleteIff | scripts/perf_benchmark.py:655-683 | a metric is complete exactly when sampling is usable, every sample has it, none has an error against it, and a required one is not zero throughout |
| SamplerSummary.CompleteMaximum | scripts/perf_benchmark.py:684-697 | the maximum of a complete metric is attained and bounds all samples |
| SamplerSummary.ReportsMaximum | scripts/perf_benchmark.py:656-690 | the reported maximum is the greatest value that any sample has, complete or not |
| SamplerSummary.ReportsSamples | scripts/perf_benchmark.py:656-695 | the counts, the samples without a required metric, and the errors that count against a metric |
| SamplerSummary.ReportedIff | scripts/perf_benchmark.py:651-697 | a metric is reported exactly when it is required or mentioned by a sample |
| SamplerSummary.Summarize | scripts/perf_benchmark.py:624-714 | a metric has an authoritative maximum exactly when complete; the summary is complete exactly when sampling is usable and every required metric has one |
| SamplerSummary.CompleteRun | scripts/perf_benchmark.py:712-714 | for every interleaving, a complete summary means covered windows, bounded length, true maxima, and positive ones for required metrics |
| SamplerSummary.CompleteIff | scripts/perf_benchmark.py:643-714 | for every interleaving, the summary is complete exactly when the sampler stopped with its terminal sample, every window of the allowed gap holds a sample, and every sample speaks for the required metrics |
| Thresholds.ObservesFirstSource | scripts/perf_benchmark.py:757-784 | a key is read from the first of its sources that has a value, under that source's name; a missing throughput is the dataset's count over the seconds of the cold scan |
| Thresholds.StoringIsInvisible | scripts/perf_benchmark.py:770-784 | storing the derived throughput changes no other key's evaluation |
| Thresholds.RaisesIff | scripts/perf_benchmark.py:770-820 | exactly when evaluating a key raises: a throughput derived from too large an integer, or an invalid measurement, target or operator that has no text |
| Thresholds.HugeDurationRaises | scripts/perf_benchmark.py:774-779 | a concrete duration that raises |
| Thresholds.LongMeasurementRaises | scripts/perf_benchmark.py:798-804 | so does every measurement 10^k with k from 4300 on, when it is reported as invalid |
| Thresholds.PowerPrintsIff | scripts/perf_benchmark.py:798-804 | 10^k has a text exactly for k below 4300 |
| Thresholds.OverflowIsHalfway | scripts/perf_benchmark.py:204-211 | integers overflow from halfway between the largest double and 2^1024 on |
| Thresholds.Evaluate | scripts/perf_benchmark.py:741-857 | every key is evaluated as if alone, failures follow the manifest's order, and the call raises exactly when some key does |
| Thresholds.JudgedFits | scripts/perf_benchmark.py:794-855 | status, observed number, target, operator, source and note of every evaluation, from what was measured |
| Thresholds.ThroughputEvaluated | scripts/perf_benchmark.py:770-784 | the derived throughput is count over duration, and passes exactly when that stands in the operator's relation to the target |
| Thresholds.FailuresInOrder | scripts/perf_benchmark.py:752-857 | failures come in the order of the manifest |
| Thresholds.PassMeansMeets | scripts/perf_benchmark.py:801-855 | a key passes exactly when measurement and target are finite and the operator holds between them |
| Thresholds.NoFailureIff | scripts/perf_benchmark.py:741-857 | there is no failure exactly when every key is met |
| Thresholds.OneFailurePerKey | scripts/perf_benchmark.py:741-857 | exactly one failure for each key that did not pass |
| Thresholds.OrderDoesNotMatter | scripts/perf_benchmark.py:752-757 | listing the same specifications in another order changes nothing but the order of the failures |
| ProcessTree.Owned | scripts/perf_benchmark.py:262-269 | the loop ends with exactly the descendants of the application, cycles or not |
| ProcessTree.SumWithout | scripts/perf_benchmark.py:270 | the memory sum does not depend on the order of the set |
| ProcessTree.SumOfAnyListing | scripts/perf_benchmark.py:270 | the sum of a set is that of any listing of it without repetition |
| ProcessTree.TreeRss | scripts/perf_benchmark.py:260-270 | every descendant counts once; no result when the application is not in the snapshot |
| Percentile.OrderIndependent | scripts/perf_benchmark.py:1239-1246 | the percentile depends on the multiset of samples only |
| Percentile.CoversNinetyFivePercent | scripts/perf_benchmark.py:1239-1246 | it is a sample, more than 95 percent are at most it, few enough are above, and the index is never clamped |
| Percentile.IsOrderStatistic | scripts/perf_benchmark.py:1239-1246 | it is the only number with at most floor(95n/100) samples below it and more than that at most it; 0 without samples |
| TextDiff.CommonPrefixIsLongest | frontend/src/lib/diff.ts:9-10 | exactly the lengths up to the computed prefix are shared |
| TextDiff.CommonSuffixIsLongest | frontend/src/lib/diff.ts:12-19 | exactly the lengths up to the common suffix are shared |
| TextDiff.Scan | frontend/src/lib/diff.ts:9-19 | the two loops stop at the longest prefix and at the longest suffix that does not overlap it |
| TextDiff.DiffText | frontend/src/lib/diff.ts:5-38 | the spans are the shared ends around the two middles, without empty spans |
| TextDiff.RoundTrip | frontend/src/lib/diff.ts:21-38 | the spans spell both texts, and exchanging the deletion for the insertion turns one into the other |
| TextDiff.KeptLength | frontend/src/lib/diff.ts:9-22 | the kept length is the smaller of prefix plus suffix and the shorter text |
| TextDiff.KeptSpansAreTheEnds | frontend/src/lib/diff.ts:21-38 | on both sides the kept spans spell exactly the two ends |
| TextDiff.KeptUnits | frontend/src/lib/diff.ts:9-38 | the kept spans are as long as the common ends allow, and equal texts are kept whole |
| TextDiff.Optimal | frontend/src/lib/diff.ts:9-22 | no other single hunk keeps more or has a shorter middle |
| TextDiff.MiddlesDiffer | frontend/src/lib/diff.ts:21-22 | two non-empty middles differ in their first and last characters |
| TextDiff.SpansWellFormedIff | frontend/src/lib/diff.ts:9-38 | for well-formed texts all spans are well-formed exactly when no kept end cuts a surrogate pair of either text |
| TextDiff.HalfIsKept | frontend/src/lib/diff.ts:9-10 | two characters that share their first half: the kept span is that half alone |

## Left out

- Task attempts, asset candidates and file journals: further tables of the same kind that no theorem above reads.
- Deleting a bundle with its cascades, changing primary keys, and INSERT OR REPLACE: engine detail outside the triggers.
- UPDATE of the bundle or revision columns of apply_runs and review_undo_runs: no trigger guards them, so a statement that rewrote them could break ownership; the model has no such statement.
- Which abort message wins when several triggers fire: SQLite leaves the order open; the model takes the order of creation and no theorem depends on it.
- JSON payload checks, column types and plain indexes: typed rows stand for them; of a snapshot payload only the file name and path are kept.
- FTS5 ranking and query syntax: a query is one token.
- Other constraints on the tracks table, such as the unique path: they only make more statements abort.
- Process, HTTP and file access of the benchmark, and the parsing of ps and lsof output: parsed snapshots, a clock and a collector are inputs.
- Rounding: the three decimals of offsets and durations, and the conversion of integers above 2^53 to doubles are not modelled; rounding the throughput is an arbitrary function that may yield infinity. The index int(n * 0.95) is taken as floor(95n/100).
- ProcessTree.TreeRss: the sum is in KiB; dividing it by 1024 is left out.
- The interpreter's settings: Python's default limit of 4300 digits for integers turned into text is taken as fixed, and nesting deeper than its recursion limit is not modelled.
- Texts of messages, the text that stands for an invalid measurement or target in an evaluation, timestamps and hardware details in published reports.
- Concurrent calls of start() and stop(): both belong to the main thread.
