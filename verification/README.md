# Syncle: a verified model of the sync engine

Syncle moves rows between databases. A bridge ("hook") reads a source by replay, by
polling or from a change stream, and writes to database or HTTP destinations. Its
promises are that runs survive restarts, that nothing is lost, and that nothing is
written twice. This project models the code behind those promises in Dafny and proves
what it does, for every input and for every history of crashes and retries.

`dafny verify dfyconfig.toml` checks the whole project.

## What is modelled

| file | what it covers |
|---|---|
| `KeyedTable.dfy` | a table under keyed upserts and deletes; why a replayed stretch of a log does no harm |
| `MysqlCursor.dfy` | the text, the parser and the order of MySQL change cursors |
| `CdcPipeline.dfy` | the change pipeline: watermark, numbering, delivery, recording, resume cursor |
| `DatabaseSink.dfy` | the database destination: projection, statements, batches, retries, mirrors |
| `Mirroring.dfy` | the change pipeline into the database destination, end to end |
| `RunStore.dfy` | delivery rows, counters and lifecycle calls of a run |
| `ReplayRunner.dfy` | the replay worker over `RunStore` |
| `TablePaging.dfy` | keyset and OFFSET paging, the pages of a backup |
| `WatchEngine.dfy` | the change detector of watch hooks, in its three strategies |
| `WatchPoll.dfy` | the poll loop around it, under each strategy and under crashes |
| `SqlScript.dfy` | the statement splitter, the scripts it inverts and the statements it keeps |
| `SqlLiterals.dfy` | SQL literals and the engine reading them back |
| `SqlDump.dfy` | the SQL backup |
| `SqlReading.dfy` | the engine reading the statements of a backup |
| `SqlRestore.dfy` | the restore, and the database it rebuilds |
| `WhereBuilder.dfy` | parameterised WHERE, UPDATE and DELETE |
| `BulkRestore.dfy` | values through a JSON backup, and the chunked restore |
| `AdapterPool.dfy` | the pool of live adapters |
| `Wrappers.dfy` | Option and Result |

Objects whose methods change their fields are classes here too. Each such method is
proved equal to a function of the object's state; the database destination is proved
against what may have been written for any faults, and the replay worker against an
invariant, a relation to the state before, and what an undisturbed execution reaches.
The results about whole histories are proved about those functions and that invariant.
A database call or `$transaction` is one atomic step. The target of the change pipeline
and of the replay worker is any one target of the destination: the others may fail or
succeed with it or without it. What the environment decides (the outcome of a sink call, whether a write
to the store succeeds, where a process dies, what a user cancels or skips, the order of
rows that share a timestamp) is a parameter or a nondeterministic choice, so the results
hold for all of it.

## Where the code does not meet its promise

The model keeps what the code does. The lemmas named here prove exactly when the promise
holds, or show the input for which it does not.

- A watch poll that dies between recording a row and saving the sequence reuses that
  sequence, although the comment at hook-watch.service.ts:233-236 rules this out
  (`WatchPoll.ReuseExactly`, `OccupiedExactly`, `CrashReusesSequence`). Every other
  crash is safe (`RecordsKeepTheirSequence`).
- In insert mode a retried delivery is clean for a target only if the failed attempt
  wrote nothing to it, although database-sink.service.ts:22-28 calls the retry clean. A
  table without a unique key gets the rows twice (`DatabaseSink.InsertRetryDuplicates`);
  a table with one rejects every later attempt (`DatabaseSink.InsertRetryConflicts`).
- A change the sink did not write is passed over under an exact condition on the
  outcomes (`CdcPipeline.PassedOverExactly`), and for good once the persisted cursor is
  past it (`CdcPipeline.PassedForGood`). A change that was written to a target can be
  recorded as failed, again under an exact condition; it takes no fault of the store
  when another target of the same destination fails (`CdcPipeline.FailedThoughWritten`).
  A recorded success is always true (`CdcPipeline.SuccessIsTrue`).
- An update that changes the key leaves the old row in the target
  (`DatabaseSink.ChangeIsMirrored`).
- The comment that zero-padded binlog names compare lexically
  (mysql-cdc.provider.ts:53) holds while the number of digits stays the same
  (`MysqlCursor.BinlogNameOrder`, `SeventhDigitIsDropped`).
- A cursor in the older `file:pos` form is misread when the file name ends in a colon
  and a number (`MysqlCursor.LegacyReadsBack`).
- A keyset replay resumed past the end of a non-empty table starts over
  (`TablePaging.KeysetRefinesOffset`).
- Recording a delivery again with another row count breaks the counters
  (`RunStore.RecordConserves`).
- A timestamp poll can be stuck when the limit does not exceed the number of remembered
  boundary keys (`WatchEngine.ProgressNeedsWideLimit`); a page of rows without a
  timestamp is emitted again and again (`WatchEngine.NullRowsRepeat`); an increment poll
  whose page cuts a tie loses the rest of it, and a first one loses the rows without a
  value that its page has no room for (`WatchEngine.IncrementLosesOnlyTies`).
- A restored JSON object that looks like an encoded buffer becomes bytes
  (`BulkRestore.ValueSurvives`, `RestoreIsFaithfulExactly`), and a table wider than the
  driver's parameter limit cannot be restored (`BulkRestore.BindLimitExactly`).
- A statement comes back from the splitter whole if and only if it is made of plain text
  and closed literals (`SqlScript.SplitKeepsExactly`). One quote in a table's name is
  enough to break a backup of the tool's own making (`SqlScript.StrayQuoteSwallows`,
  `SqlDump.QuotedNameBreaksDump`).
- A snapshot watch, whose polls always fetch full pages, is sure to emit no key twice
  if and only if its window has room for the whole table
  (`WatchEngine.SnapshotNeedsRoom`).
- Joining an adapter that is being opened does not compare revisions: the joiner gets a
  current one if and only if that open was started under the revision it asked for
  (`AdapterPool.JoinIsCurrentExactly`, `JoinMayBeStale`).

## Model

| member | source | states |
|---|---|---|
| KeyedTable.SegmentAbsorbsCell | packages/core/src/adapters/sql/base-sql-adapter.ts:448-503 | for one key, a segment of upserts and deletes absorbs any contiguous piece of itself that was applied before, from any content |
| KeyedTable.SegmentAbsorbs | packages/core/src/adapters/sql/base-sql-adapter.ts:448-503 | the same for a whole table: replaying the enclosing segment gives what applying it once gives |
| KeyedTable.PrefixAbsorbed | apps/api/src/hooks/database-sink.service.ts:22-28 | a batch absorbs any prefix of itself written by a failed attempt |
| MysqlCursor.SplitInvertsPrint | apps/api/src/hooks/cdc/providers/mysql-cdc.provider.ts:63-75 | the parser gives back file, position and row of a printed cursor, for any file name, colons included |
| MysqlCursor.LegacyReadsBack | apps/api/src/hooks/cdc/providers/mysql-cdc.provider.ts:58-75 | a `file:pos` cursor is read as one if and only if the file name does not end in a numeric segment |
| MysqlCursor.StrictTotalOrder | apps/api/src/hooks/cdc/providers/mysql-cdc.provider.ts:48-56 | the cursor order is irreflexive, transitive, total and asymmetric |
| MysqlCursor.PrintedOrder | apps/api/src/hooks/cdc/providers/mysql-cdc.provider.ts:48-56 | on printed cursors `cursorAfter` compares the parsed triples, and different triples are ordered exactly one way |
| MysqlCursor.NoWatermark | apps/api/src/hooks/cdc/providers/mysql-cdc.provider.ts:48-56 | without a watermark, or with an empty one, every cursor counts as new; with one of any form the parsed triples decide |
| MysqlCursor.LegacyWatermark | apps/api/src/hooks/cdc/providers/mysql-cdc.provider.ts:58-62 | a watermark in the older form lies before every row of its event and after every earlier event of the file |
| MysqlCursor.BinlogNameOrder | apps/api/src/hooks/cdc/providers/mysql-cdc.provider.ts:53 | exactly which later binlog files count as later: those whose leading digits still reach the earlier number |
| MysqlCursor.EqualWidthOrder | apps/api/src/hooks/cdc/providers/mysql-cdc.provider.ts:53 | with names of equal width every cursor of a later file is after every cursor of an earlier one |
| MysqlCursor.SeventhDigitIsDropped | apps/api/src/hooks/cdc/providers/mysql-cdc.provider.ts:53 | every cursor of file 1000000 counts as a replay behind file 999999 |
| CdcPipeline.HookCdcService.constructor | apps/api/src/hooks/hook-cdc.service.ts:168-177 | a new run: no deliveries, sequence 0, no cursor, no stream |
| CdcPipeline.HookCdcService.BeginStream | apps/api/src/hooks/hook-cdc.service.ts:226-277 | refuses a second live stream; else starts at the persisted sequence and watermark |
| CdcPipeline.HookCdcService.Teardown | apps/api/src/hooks/hook-cdc.service.ts:217-222 | drops the live stream and nothing durable |
| CdcPipeline.HookCdcService.RecordDelivery | apps/api/src/hooks/hook-run.service.ts:591-621 | the delivery row of one sequence is replaced, no other |
| CdcPipeline.HookCdcService.ProcessChange | apps/api/src/hooks/hook-cdc.service.ts:312-386 | one change under any outcome of the sink, a failed one after this target was written included, and of the three writes, and a crash between any two, as a function of the state |
| CdcPipeline.WatermarkExact | apps/api/src/hooks/hook-cdc.service.ts:320-322 | the watermark after n changes lets through exactly the changes from the n-th on |
| CdcPipeline.WatermarkIsText | apps/api/src/hooks/cdc/providers/mysql-cdc.provider.ts:48-56 | the order the pipeline uses on positions is the provider's `cursorAfter` on their printed form, with and without a watermark |
| CdcPipeline.ResumesRightAfter | apps/api/src/hooks/cdc/cdc-provider.ts:94-99 | a provider that continues after the persisted cursor continues at the first change not passed |
| CdcPipeline.HistoryKeepsInv | apps/api/src/hooks/hook-cdc.service.ts:299-386 | over every history numbering, position and replay safety hold at once |
| CdcPipeline.Convergence | apps/api/src/hooks/hook-cdc.service.ts:311-386 | after any history with any faults, once the log is processed, every key all of whose changes are stored as successes holds what the log applied once gives it; if all keys are, so does the whole target |
| CdcPipeline.ConvergenceWithLosses | apps/api/src/hooks/hook-cdc.service.ts:311-386 | the same where changes were refused: a key none of whose written changes is stored as failed holds the log applied once without the changes that never got through |
| CdcPipeline.StableNumbering | apps/api/src/hooks/hook-cdc.service.ts:299-386 | change k is only ever recorded under sequence k, and everything processed has a delivery row, across all restarts |
| CdcPipeline.OncePerLife | apps/api/src/hooks/hook-cdc.service.ts:293-322 | within one life of a stream the changes let through are a contiguous stretch of the log, each once, in order |
| CdcPipeline.SuccessIsTrue | apps/api/src/hooks/hook-cdc.service.ts:337-349 | in every history a delivery row that says success is of a change that reached the target |
| CdcPipeline.FailedThoughWritten | apps/api/src/hooks/hook-cdc.service.ts:337-376 | for every state, exactly the outcomes under which a change without a row is written to a target and yet recorded as failed: another target fails, the sink throws late, or a write to the store fails |
| CdcPipeline.PassedOverExactly | apps/api/src/hooks/hook-cdc.service.ts:337-383 | for every state, exactly the outcomes under which the stream goes on past an unwritten change, and under which the run row does |
| CdcPipeline.GoesOnExactly | apps/api/src/hooks/hook-cdc.service.ts:320-383 | for every state and every outcome, exactly when the stream goes on behind a change and when the run row does; a change written without a fault takes both on, and one behind the watermark changes nothing |
| CdcPipeline.RowAfterExactly | apps/api/src/hooks/hook-cdc.service.ts:337-376 | the delivery row a change leaves, whatever the row said before: a replay turns a failure into a success and back; no other row changes |
| CdcPipeline.PassedForGood | apps/api/src/hooks/hook-cdc.service.ts:299-386 | below the persisted cursor nothing is processed again, whatever happens later: the rows stay, and a change that had not reached the target never does |
| CdcPipeline.CalmRunFinishes | apps/api/src/hooks/hook-cdc.service.ts:226-386 | progress: from any state any history can reach, a restart and one emission of each remaining change without faults process the whole log and store each of them as a success |
| CdcPipeline.CalmRunConverges | apps/api/src/hooks/hook-cdc.service.ts:226-386 | so, with no earlier failure on record, the target then holds the log applied once |
| DatabaseSink.MapRow | packages/core/src/hooks/bridge.ts:68-83 | the projection of a row: every column as it is, or the mapped columns with NULL for a missing source |
| DatabaseSink.MappedExactly | packages/core/src/hooks/bridge.ts:75-78 | without a mapping a row goes as it is; with one it has the mapped columns and no other |
| DatabaseSink.ProjectionColumns | packages/core/src/hooks/bridge.ts:73-83 | a projection has exactly the mapped target columns, each fed by the last mapping that names it |
| DatabaseSink.DatabaseSinkService.constructor | apps/api/src/hooks/database-sink.service.ts:54-57 | the service over its targets and their tables |
| DatabaseSink.DatabaseSinkService.WriteBatch | apps/api/src/hooks/database-sink.service.ts:124-157 | a table holds exactly the rows written before the first failing statement |
| DatabaseSink.DatabaseSinkService.WriteRows | apps/api/src/hooks/database-sink.service.ts:113-177 | success if and only if nothing fails; a failed batch leaves a transactional target unchanged and any other with a prefix |
| DatabaseSink.DatabaseSinkService.Deliver | apps/api/src/hooks/database-sink.service.ts:71-110 | each target took its whole batch if and only if no fault of its own stopped it, whatever the others did; success if and only if all did; the first error is the first failing target |
| DatabaseSink.UpsertIsKeyedWrite | packages/core/src/adapters/sql/base-sql-adapter.ts:473-503 | setting only the columns outside the key merges the row under its key and keeps the unique index |
| DatabaseSink.DeleteIsKeyedWrite | packages/core/src/adapters/sql/base-sql-adapter.ts:448-465 | deleting by equality on the key columns removes exactly the row stored under that key |
| DatabaseSink.InsertStores | packages/core/src/adapters/sql/base-sql-adapter.ts:397-411 | every case of an insert: the row stored at the end of a heap or under its new key, all others as they were, or the reason it fails |
| DatabaseSink.DeleteKeepsOthers | packages/core/src/adapters/sql/base-sql-adapter.ts:448-465 | in a table without a key a delete keeps exactly the rows that do not match, in their order |
| DatabaseSink.BatchIsKeyedWrites | apps/api/src/hooks/database-sink.service.ts:124-157 | an upsert or delete batch that goes through is its list of keyed writes |
| DatabaseSink.RetryEqualsOnePass | apps/api/src/hooks/database-sink.service.ts:15-28 | after any failed attempts an upsert or delete batch ends as it would have ended at first: with the same table, or with the same error |
| DatabaseSink.InsertRetryDuplicates | apps/api/src/hooks/database-sink.service.ts:22-28 | in insert mode, into a table without a unique key, a retry is clean if and only if the failed attempt wrote nothing |
| DatabaseSink.InsertRetryConflicts | apps/api/src/hooks/database-sink.service.ts:22-28 | into a table with one, a failed attempt that wrote something makes every retry fail at its first row, for good |
| DatabaseSink.ChangeIsMirrored | apps/api/src/hooks/database-sink.service.ts:124-157 | one emitted change keeps a mirror of the source a mirror if and only if it does not move a row to another key, with or without a column mapping |
| DatabaseSink.LogIsMirrored | apps/api/src/hooks/database-sink.service.ts:124-157 | a log of such changes carries a mirror of the first source state to a mirror of the last |
| Mirroring.SinkAppliesChange | apps/api/src/hooks/database-sink.service.ts:71-157 | the destination's batch for one change, when it goes through, is the one keyed write of that change |
| Mirroring.EveryChangeIsADelivery | apps/api/src/hooks/hook-cdc.service.ts:324-349 | in every history each change that passes takes the target where a delivery of its one row would take it |
| Mirroring.EveryDeliveryIsAResult | apps/api/src/hooks/database-sink.service.ts:71-110 | whatever a delivery of one change to several targets does to one of them is one of the sink results the pipeline is proved for |
| Mirroring.MirrorAfterAnyHistory | apps/api/src/hooks/hook-cdc.service.ts:311-386 | end to end: after any history over the log of a source history, every key whose changes are stored as successes holds what the last source state holds, and if all are, the target is its mirror; where the source keys its rows the target is well keyed at all times |
| Mirroring.MirrorAtLast | apps/api/src/hooks/hook-cdc.service.ts:226-386 | progress end to end: after any history that left no failure on record, a restart and one calm emission of each remaining change make the target the mirror of the last source state |
| RunStore.RecordConserves | apps/api/src/hooks/hook-run.service.ts:556-622 | recording keeps each counter equal to its sum if and only if the sequence is new or comes with its stored row count |
| RunStore.SkipConserves | apps/api/src/hooks/hook-run.service.ts:434-479 | skipping keeps the counters, touches no existing row, and gives each other sequence one skipped row |
| RunStore.CallsConserve | apps/api/src/hooks/hook-run.service.ts:434-622 | after any calls that give each sequence one row count the three counters are the sums by status |
| RunStore.LastBatch | apps/api/src/hooks/hook-run.service.ts:447-457 | the row count of a skipped sequence is the size of that batch, for the last one too |
| RunStore.CompletedCountersAddUp | apps/api/src/hooks/hook-run.service.ts:434-622 | when the batches of an n-row source have rows, sent, failed and skipped add up to n |
| RunStore.HookRun.constructor | apps/api/src/hooks/hook-run.service.ts:214-222 | a queued run with no deliveries and zero counters |
| RunStore.HookRun.RecordDelivery | apps/api/src/hooks/hook-run.service.ts:556-622 | delivery row and counters after the upsert, the old status taken off the counters |
| RunStore.HookRun.SkipDeliveries | apps/api/src/hooks/hook-run.service.ts:434-479 | rows and counter after skipping, and the number of rows created |
| RunStore.HookRun.Resume | apps/api/src/hooks/hook-run.service.ts:290-314 | refused unless failed, canceled, paused or interrupted; the cursor stays |
| RunStore.HookRun.RetryFailed | apps/api/src/hooks/hook-run.service.ts:235-261 | refused unless terminal with a failed delivery; else queued from the start |
| RunStore.HookRun.Cancel | apps/api/src/hooks/hook-run.service.ts:345-358 | a run that is not terminal is marked canceling |
| ReplayRunner.HookRunProcessor.constructor | apps/api/src/hooks/hook-run.processor.ts:72-108 | a new run satisfies the invariant of every run |
| ReplayRunner.HookRunProcessor.Flush | apps/api/src/hooks/hook-run.processor.ts:155-184 | a settled sequence changes nothing; any other is sent exactly once as its own slice, and stored with the outcome the sink reported unless the worker dies or throws first; it asks to abort if and only if a call failed under onError=abort; delivered rows stay |
| ReplayRunner.HookRunProcessor.FlushFull | apps/api/src/hooks/hook-run.processor.ts:116-127 | after a full batch the checkpoint is the start of the next batch and nothing below it is missing; under onError=abort the run only goes on behind a delivered batch, and undisturbed it ends as failed exactly when the call failed; the worker may end between the record and the checkpoint |
| ReplayRunner.HookRunProcessor.FinishStream | apps/api/src/hooks/hook-run.processor.ts:130-142 | the rest is flushed under the same rule of aborting, and completed is only reached with every batch covered, unless the worker ends before it says so |
| ReplayRunner.HookRunProcessor.FinalizeThrown | apps/api/src/hooks/hook-run.processor.ts:143-151 | a throw ends the run as canceled exactly when a cancel is pending, else as failed |
| ReplayRunner.HookRunProcessor.Execute | apps/api/src/hooks/hook-run.processor.ts:72-152 | keeps the invariant under any crash or throw between two calls, cancel or skip; the calls go out in order from the checkpoint, none twice and none for a sequence that was settled or skipped at the start; under onError=abort no call follows a failed one and only a run whose calls all succeeded completes; with no fault but the sink's it ends failed exactly when a call failed under onError=abort, else completed with no batch left out |
| ReplayRunner.HookRunProcessor.Process | apps/api/src/hooks/hook-run.processor.ts:53-70 | a run that ended is left exactly as it is, one that is canceling becomes canceled and nothing else changes, any other is executed, with all that Execute promises |
| ReplayRunner.HookRunProcessor.RetryCalmly | apps/api/src/hooks/hook-run.service.ts:227-261 | a retry of failed deliveries that nothing disturbs completes, leaves no failed delivery and a failed count of zero |
| ReplayRunner.HookRunProcessor.History | apps/api/src/hooks/hook-run.processor.ts:53-184 | the invariant holds after any history of executions, crashes (those between record and checkpoint included), cancels, skips, resumes and retries, and a delivered sequence stays delivered |
| ReplayRunner.Coverage | apps/api/src/hooks/hook-run.processor.ts:107-142 | the checkpoint is batch-aligned, every row below it lies in a recorded batch, and a completed run has recorded the batch of every row |
| ReplayRunner.StreamIsSource | apps/api/src/hooks/hook-run.processor.ts:200-279 | in every state of a run both paging loops, started at the checkpoint, stream the rest of the source in order, each row under its own index |
| ReplayRunner.AtLeastOnce | apps/api/src/hooks/hook-run.processor.ts:155-184 | a row whose batch is stored as delivered was handed over in a call that reported success, one stored as failed in a call that did not, and a completed run handed over or skipped every row |
| ReplayRunner.SameKeySameRows | apps/api/src/hooks/hook-run.processor.ts:165-176 | sends under one idempotency key carry the same slice of the source, and none is for a sequence already stored as delivered |
| ReplayRunner.DeliveredRunIsWhole | apps/api/src/hooks/hook-run.processor.ts:155-184 | a completed run with every batch delivered has counted each row once and shows the whole source in the target |
| ReplayRunner.CountersOf | apps/api/src/hooks/hook-run.service.ts:555-622 | in every state each counter is the sum of its status, and a completed run's three counters add up to the source |
| TablePaging.PageIsNextStretch | packages/core/src/adapters/sql/base-sql-adapter.ts:302-361 | a page is the next stretch of the selection, as long as the limit, the row bound and the rest allow, and `hasMore` tells exactly whether more follows |
| TablePaging.SelectAfter | apps/api/src/hooks/hook-run.processor.ts:239-252 | AND-ing `key > last` to the filters cuts off exactly the rows already yielded |
| TablePaging.SelectIs | apps/api/src/hooks/hook-run.processor.ts:239-252 | a row is selected if and only if it is in the table, the hook's filters keep it and its key lies behind the one given |
| TablePaging.StreamKeyset | apps/api/src/hooks/hook-run.processor.ts:221-260 | the keyset loop ends and yields the selected rows from the start position, each under its own index |
| TablePaging.StreamOffset | apps/api/src/hooks/hook-run.processor.ts:262-278 | the OFFSET loop ends and yields the selected rows from the start position, each under its own index |
| TablePaging.SeekLastKey | apps/api/src/hooks/hook-run.processor.ts:224-237 | a resume finds the key of the row before the cursor, or none past the end |
| TablePaging.KeysetRefinesOffset | apps/api/src/hooks/hook-run.processor.ts:208-279 | both loops yield the same items if and only if the start lies in the selection or the selection is empty |
| TablePaging.BothYieldRest | apps/api/src/hooks/hook-run.processor.ts:208-279 | from anywhere in the selection both loops yield exactly its rest, in order, each row under its own index |
| TablePaging.KeysetOnlyOnPrimaryKey | apps/api/src/hooks/hook-run.processor.ts:286-315 | keyset paging is chosen exactly when the order is the one-column primary key ascending; without an order the run is refused |
| TablePaging.OrderExactly | apps/api/src/hooks/hook-run.processor.ts:286-315 | the sort asked for; else every column of the primary key ascending, in key order; else a refusal |
| TablePaging.ForEachRowBatch | packages/core/src/adapters/sql/base-sql-adapter.ts:607-626 | the pages concatenate to the table, all full but the last |
| WatchEngine.AdvanceByTimestamp | packages/core/src/hooks/watch.ts:189-226 | the loops compute new rows, maximum, boundary keys and the union when the boundary did not move |
| WatchEngine.PollIsExact | packages/core/src/hooks/watch.ts:142-226 | one poll, for any limit and tie order, emits each row it newly marks as passed exactly once and no row passed before |
| WatchEngine.TimestampWatchIsExact | packages/core/src/hooks/watch.ts:142-226 | after any polls and arrivals rows below the cursor were emitted exactly once, rows at it once if and only if remembered, none above |
| WatchEngine.ProgressNeedsWideLimit | packages/core/src/hooks/watch.ts:189-226 | with a row left to emit, every poll emits one if and only if the limit exceeds the remembered boundary keys |
| WatchEngine.FixedTableDrains | packages/core/src/hooks/watch.ts:189-226 | a fixed table with tie groups smaller than the limit is drained by as many polls as it has rows left |
| WatchEngine.NullRowsRepeat | packages/core/src/hooks/watch.ts:195-206 | rows without a timestamp: a page of only such rows repeats, and any other page shuts them out for good |
| WatchEngine.AdvanceByIncrement | packages/core/src/hooks/watch.ts:171-187 | the backward search finds the last value that is not NULL |
| WatchEngine.IncrementLosesOnlyTies | packages/core/src/hooks/watch.ts:133-187 | an increment poll emits all it moves past if and only if its page holds every row of its last value and, on a first poll, every row without one; a page without values leaves the cursor |
| WatchEngine.AdvanceBySnapshot | packages/core/src/hooks/watch.ts:228-241 | the scan and the cut of the seen window |
| WatchEngine.SnapshotWindow | packages/core/src/hooks/watch.ts:228-241 | the window never outgrows its bound, and any `maxTracked` + 1 consecutive emissions are of different keys |
| WatchEngine.FewKeysNeverRepeat | packages/core/src/hooks/watch.ts:228-241 | with at most `maxTracked` keys overall no key is emitted twice |
| WatchEngine.SnapshotNeedsRoom | apps/api/src/hooks/hook-watch.service.ts:187-205 | for polls of any limit up to the window: no full pages ever emit a key twice if and only if the window has room for the table |
| WatchEngine.Advance | packages/core/src/hooks/watch.ts:165-242 | the choice of the strategy, with a cursor of another strategy falling to the snapshot scan |
| WatchEngine.OtherCursor | packages/core/src/hooks/watch.ts:228-242 | a cursor left by another strategy: the poll takes one row of each key it does not remember and no other, and its cursor is the window of the last keys |
| WatchEngine.PollIsSafe | packages/core/src/hooks/watch.ts:165-242 | one poll under any strategy moves the cursor past nothing it did not emit; each row it moves past is emitted exactly once and none a second time, for snapshots if the window has room |
| WatchPoll.HookWatchService.constructor | apps/api/src/hooks/hook-watch.service.ts:102-112 | a new watch run from the beginning, under its strategy |
| WatchPoll.HookWatchService.RunPoll | apps/api/src/hooks/hook-watch.service.ts:158-250 | one poll under any strategy, cut short after any number of persisted steps, as a function of the store |
| WatchPoll.AtLeastOnce | apps/api/src/hooks/hook-watch.service.ts:207-247 | under each of the three strategies and at every crash point the persisted cursor has passed only rows handed over and recorded; sequences below cursorOffset are recorded, none above it |
| WatchPoll.WholePollsAreExact | apps/api/src/hooks/hook-watch.service.ts:158-250 | without interruptions delivery is exactly once under each strategy: every passed row was handed over once and no other; for snapshots as long as the window has room |
| WatchPoll.LoopRefinesDetector | apps/api/src/hooks/hook-watch.service.ts:158-250 | without interruptions the timestamp loop refines the change detector: cursor and handed-over rows are those of the detector |
| WatchPoll.ReuseExactly | apps/api/src/hooks/hook-watch.service.ts:232-240 | a poll records over an existing sequence if and only if it starts on an occupied one and lives to record a row |
| WatchPoll.OccupiedExactly | apps/api/src/hooks/hook-watch.service.ts:232-240 | the next sequence is occupied after a poll if and only if it died between a record and its checkpoint, or found it so and ended before one |
| WatchPoll.RecordsKeepTheirSequence | apps/api/src/hooks/hook-watch.service.ts:232-240 | if no poll dies in that gap, the k-th record is under sequence k and is never overwritten |
| WatchPoll.CrashReusesSequence | apps/api/src/hooks/hook-watch.service.ts:232-240 | two rows, one crash: the second poll records the other row over the first delivery |
| SqlScript.SplitSqlStatements | packages/core/src/adapters/sql/base-sql-adapter.ts:895-938 | the scanner loop with its two inner comment loops, as a function of the text |
| SqlScript.SplitInvertsJoin | packages/core/src/adapters/sql/base-sql-adapter.ts:890-938 | any script of line comments, closed block comments, blank lines and clean statements splits into exactly the statements, whatever their literals hold |
| SqlScript.SplitKeepsExactly | packages/core/src/adapters/sql/base-sql-adapter.ts:895-938 | a statement and its semicolon split into exactly that statement if and only if it is made of plain text and closed literals |
| SqlScript.StrayQuoteSwallows | packages/core/src/adapters/sql/base-sql-adapter.ts:902-917 | after any clean lines, a statement whose only quote has no partner does not come back: what stands in its place runs on behind its semicolon, whatever the rest of the script holds |
| SqlLiterals.LiteralReadsBack | packages/core/src/adapters/sql/base-sql-adapter.ts:726-733 | a string literal reads back as its text under the engine's rule and ends at its own closing quote |
| SqlLiterals.HexReadsBack | packages/core/src/adapters/sql/base-sql-adapter.ts:713-717 | the digits of a binary literal give back its bytes |
| SqlLiterals.ValueReadsBack | packages/core/src/adapters/sql/base-sql-adapter.ts:719-734 | every printed value reads back as what it stands for, up to its own end |
| SqlLiterals.RowReadsBack | packages/core/src/adapters/sql/base-sql-adapter.ts:685-686 | a printed row reads back value by value |
| SqlDump.Backup | packages/core/src/adapters/sql/base-sql-adapter.ts:670-692 | the script is the header and, for each table, its CREATE, its INSERTs and the blank lines |
| SqlDump.CreateTableClean | packages/core/src/adapters/sql/base-sql-adapter.ts:695-711 | a CREATE TABLE from clean names, types and defaults has no stray quote, semicolon or comment opener |
| SqlDump.InsertClean | packages/core/src/adapters/sql/base-sql-adapter.ts:679-688 | nor has an INSERT, whatever its values are |
| SqlDump.SplitInvertsDump | packages/core/src/adapters/sql/base-sql-adapter.ts:670-692 | splitting a generated backup gives exactly the generated statements, in order |
| SqlDump.QuotedNameBreaksDump | packages/core/src/adapters/sql/base-sql-adapter.ts:670-711 | a backup never splits into its statements if the name of some table brings the only quote of its CREATE TABLE, whatever the rows, the clean tables before it and any tables behind it hold |
| SqlDump.BackupThenSplit | packages/core/src/adapters/sql/base-sql-adapter.ts:736-745 | the same for the two loops, one after the other |
| SqlDump.InsertHoldsRow | packages/core/src/adapters/sql/base-sql-adapter.ts:684-688 | an INSERT of the backup reads back as its row, missing columns as NULL |
| SqlReading.NameReadsBack | packages/core/src/adapters/sql/postgres-adapter.ts:102-104 | a quoted name reads back, whatever it holds |
| SqlReading.InsertReadsBack | packages/core/src/adapters/sql/base-sql-adapter.ts:674-688 | an INSERT of the backup reads back into its own table, each column with the row's value for that column and NULL where it has none |
| SqlReading.CreateReadsBack | packages/core/src/adapters/sql/base-sql-adapter.ts:695-711 | a CREATE TABLE of the backup reads back as the table: name, schema, each column with its type, NOT NULL exactly where it is not nullable, its default unless a sequence backs it, and the primary key |
| SqlRestore.Restore | packages/core/src/adapters/sql/base-sql-adapter.ts:736-745 | the statements of the script run in order up to the first that fails; the count is theirs, and an error leaves those before it done |
| SqlRestore.BackupRestores | packages/core/src/adapters/sql/base-sql-adapter.ts:645-745 | end to end: restoring the script of a backup into a database without those tables runs every statement and rebuilds every table, definition and rows in order, whatever the values hold; nothing else changes |
| SqlRestore.BackupThenRestore | packages/core/src/adapters/sql/base-sql-adapter.ts:645-745 | the same for the loops that write the script, split it and run it |
| WhereBuilder.BuildWhere | packages/core/src/adapters/sql/base-sql-adapter.ts:241-300 | the conditions, parameters and errors of any filter list and start index |
| WhereBuilder.BuildFailsExactly | packages/core/src/adapters/sql/base-sql-adapter.ts:292-296 | building fails if and only if some operator is unsupported |
| WhereBuilder.HolesInOrder | packages/core/src/adapters/sql/base-sql-adapter.ts:241-300 | placeholders are numbered start, start + 1, ... in textual order, one for each parameter |
| WhereBuilder.BindingsAgree | packages/core/src/adapters/sql/base-sql-adapter.ts:143-147 | so numbered and positional engines bind the same values, whatever parameters come before and after |
| WhereBuilder.WhereKeepsMeaning | packages/core/src/adapters/sql/base-sql-adapter.ts:241-300 | the clause keeps a row if and only if every filter holds, each operator with its own comparison or pattern, under both bindings and SQL's three-valued logic; an empty `in` keeps none |
| WhereBuilder.UpdateRow | packages/core/src/adapters/sql/base-sql-adapter.ts:413-446 | SET and WHERE with their running placeholder index, and the two refusals |
| WhereBuilder.UpdateKeepsMeaning | packages/core/src/adapters/sql/base-sql-adapter.ts:424-445 | each change goes to its own column under both bindings, and a row changes if and only if it carries the identity |
| WhereBuilder.DeleteRow | packages/core/src/adapters/sql/base-sql-adapter.ts:448-465 | the conditions and parameters of a delete, and its refusal |
| WhereBuilder.DeleteKeepsMeaning | packages/core/src/adapters/sql/base-sql-adapter.ts:456-464 | a delete removes exactly the rows that carry the identity |
| BulkRestore.ValueSurvives | packages/core/src/adapters/sql/base-sql-adapter.ts:855-888 | a value comes back as expected if and only if it is not an object that looks like an encoded buffer, and such an object comes back as the bytes it spells |
| BulkRestore.BulkInsert | packages/core/src/adapters/sql/base-sql-adapter.ts:796-829 | the statements are the cells in slices of the batch size, and the count is the number of rows |
| BulkRestore.InsertsStoreAll | packages/core/src/adapters/sql/base-sql-adapter.ts:811-827 | executed, the statements store every cell once, in row-major order, all rows in order |
| BulkRestore.TuplesInOrder | packages/core/src/adapters/sql/base-sql-adapter.ts:813-821 | placeholders run from 1 without a gap in every statement |
| BulkRestore.BindLimitExactly | packages/core/src/adapters/sql/base-sql-adapter.ts:787-808 | no statement exceeds the parameter limit if and only if the table is no wider than the limit |
| BulkRestore.RestoreIsFaithfulExactly | packages/core/src/adapters/sql/base-sql-adapter.ts:645-667 | a JSON backup restores every cell as expected if and only if no cell is an object that looks like an encoded buffer |
| AdapterPool.AdapterPoolService.constructor | apps/api/src/connections/adapter-pool.service.ts:20-33 | an empty pool |
| AdapterPool.AdapterPoolService.Acquire | apps/api/src/connections/adapter-pool.service.ts:60-84 | hit, join or a new open, and the maps after it |
| AdapterPool.AdapterPoolService.StaleClosed | apps/api/src/connections/adapter-pool.service.ts:93-96 | the new adapter is created once the stale one is closed |
| AdapterPool.AdapterPoolService.ConnectEnded | apps/api/src/connections/adapter-pool.service.ts:96-102 | a connected adapter is cached under its key and revision; a failed one is not |
| AdapterPool.AdapterPoolService.Settle | apps/api/src/connections/adapter-pool.service.ts:79-81 | the promise is dropped and its waiters get the adapter or the error |
| AdapterPool.AdapterPoolService.Sweep | apps/api/src/connections/adapter-pool.service.ts:43-52 | exactly the idle entries are closed and removed |
| AdapterPool.AdapterPoolService.EvictBegin | apps/api/src/connections/adapter-pool.service.ts:132-138 | the eviction waits for exactly the opens in flight of the connection |
| AdapterPool.AdapterPoolService.EvictFinish | apps/api/src/connections/adapter-pool.service.ts:140-146 | exactly the entries of the connection are closed and removed |
| AdapterPool.Ownership | apps/api/src/connections/adapter-pool.service.ts:60-103 | under every interleaving one open per key, and each connected adapter cached under one key or closed once, never both |
| AdapterPool.HitIsLive | apps/api/src/connections/adapter-pool.service.ts:67-72 | a cache hit was created for this key under the revision just resolved, is connected, and was never closed before |
| AdapterPool.AcquireExactly | apps/api/src/connections/adapter-pool.service.ts:60-84 | an acquire is a hit if and only if an adapter is cached under the revision resolved, joins if and only if there is none and an open is in flight, and else starts its own |
| AdapterPool.ConnectedIsHit | apps/api/src/connections/adapter-pool.service.ts:67-102 | an adapter that connected is what the next request of its revision gets |
| AdapterPool.SweepSparesRecent | apps/api/src/connections/adapter-pool.service.ts:43-72 | a sweep closes an adapter if and only if its last use is longer ago than the idle time; a hit counts as a use |
| AdapterPool.EvictionCatchesOpens | apps/api/src/connections/adapter-pool.service.ts:132-146 | after an eviction nothing of the connection is cached, and an open still in flight began after it did |
| AdapterPool.EvictionSparesOthers | apps/api/src/connections/adapter-pool.service.ts:132-146 | the entries of other connections stay cached as they are, and exactly the adapters of this one are closed |
| AdapterPool.OpenHandsOut | apps/api/src/connections/adapter-pool.service.ts:74-102 | an open hands out a connected adapter made for the key and the revision it was started with |
| AdapterPool.JoinIsCurrentExactly | apps/api/src/connections/adapter-pool.service.ts:74-81 | in every history a joiner gets an adapter made for its key, and one of its revision if and only if the open it joined was started under that revision |
| AdapterPool.JoinMayBeStale | apps/api/src/connections/adapter-pool.service.ts:74-77 | a concrete input: a join gets the older revision, and the next request replaces it |

## Left out

- Drivers, sockets, Prisma, BullMQ, Redis, timers, retries inside the HTTP sink and fetch: outcomes are parameters, and each store call is one atomic step.
- A commit that fails after the server applied it: a failed commit counts as rolled back.
- Nested transactions, and engines that run `withTransaction` without a dedicated connection.
- Creating missing target tables and affected-row counts: they add no state the results speak of.
- MySQL's upsert clause, which re-assigns a key column when no other column is left: it has the same effect as the modelled one.
- The queue in front of `processChange`: changes are taken one at a time, which is what it guarantees.
- A first start of a change stream without a cursor begins at a fixed origin of the log; providers that start "from now" pick that origin.
- Real change providers: strictly increasing cursors and resuming right after one are taken as their contract. MySQL's restart drops the row index of its cursor, which the replay results cover as an overlap.
- Concurrent `recordDelivery` calls: they read before their transaction, so recording calls do not overlap here.
- Resuming a run after its batch size was edited, and `resendFailed`, which sends a captured body again.
- The order of `markRunning` against a cancel from another process, and the rule of one active run per hook.
- Replay from a query, from MongoDB and from Redis, and estimated totals: the replay source is a fixed sequence of rows and its total is exact.
- CdcPipeline.HookCdcService.RecordDelivery: keeps only the change and the status of a delivery row; counters and response texts are not part of the change pipeline's model (RunStore models the counters).
- WatchPoll.AtLeastOnce: asks of a table what each strategy is meant for: a value of its own and rising in an increment column, a timestamp not below the cursor in a timestamp column, unique keys.
- WatchEngine.AdvanceByTimestamp: timestamps are integers in their order; mixed types, which the code compares as text, are not modelled.
- WatchEngine.TimestampWatchIsExact: rows keep their timestamp; detecting updates is not claimed, since the code dedupes by key alone.
- Watch scheduling, the adaptive cadence, and a watch that starts from now.
- The page limit of the snapshot scan, which can hide rows beyond it.
- A `file:pos` cursor whose last segment JavaScript reads as infinite: positions are integers here, and that segment counts as 0 like one that is no number.
- JavaScript compares strings by UTF-16 code units; strings here compare by character.
- JavaScript's Number() on text is a parameter; that it reads printed decimals back is all that is assumed.
- SqlLiterals.ValueReadsBack: how numbers and dates print is a parameter; they are assumed to hold no quote, comma or parenthesis.
- SqlDump.SplitInvertsDump: names, types and defaults are assumed clean and the database name to be one line; what one quote in a name does is SqlDump.QuotedNameBreaksDump.
- SqlReading.CreateReadsBack: a type is assumed not to read as a constraint or default (no ` DEFAULT `, and no ` NOT NULL` at the end of a nullable one), and neither it nor a default to break the line outside quotes; the reader is a line-based reading of this statement, not the engine's grammar.
- SqlRestore.BackupRestores: the engine checks no key or constraint while it takes the rows, which the backed-up table met already.
- WhereBuilder.BuildWhere: conditions are kept as terms, not as text; LIKE matching and the string conversion of a pattern are parameters.
- BulkRestore.ValueSurvives: base64, JSON text and Buffer.from on an array are parameters; numbers are those JSON can hold, and BigInt values, which JSON.stringify refuses, are left out.
- AdapterPool.AdapterPoolService.EvictFinish: keys are pairs of connection and database instead of joined text, so ids that contain the separator are not modelled.
- `onModuleDestroy` of the pool, `test` connections, and what callers do with an adapter that is closed while they use it.
- LIKE patterns, payload templates, type names, crypto, backoff, the web app, authentication, settings and workspaces.
