# Loan snapshot ingestion: a verified model

A bank exports the loans and the installment plans of a tenant as two JSON arrays.  A gateway
accepts sync requests, a worker ingests the two exports through a native adapter into a
Postgres warehouse, and a user may cancel.  This project models that path and proves what it
is for:

* **The protocol** (`Sync*.dfy`).  Redis locks and cancel flags, job rows, the task queue, the
  workers and the committed snapshots form a transition system with one action per access to
  the shared state.  A cancel request is both one step and six separate steps.  Proved over all
  runs: a live job holds its slice lock or is flagged; a job that commits held its lock at its
  last flag check; a flag set before that check prevents the commit for good; when cancels are
  not interrupted, at most one job is in the pipeline of a slice and no lock leaks; and when
  they are, exactly which jobs stay alone there.
  `SyncBackend` is the same protocol as programs over the stores, with everybody else running
  between any two accesses of a worker.
* **The codec** (`Bytes`, `Json`, `Framing`, `JsonRowStream`, `BankExport`, `ExportReading`).
  The bank's encoder and the adapter's incremental scanner (RFC 8259, sections 4, 5 and 7).
  Proved: the scanner depends only on the bytes, not on the chunks; it frames any object of any
  depth; exports are read back exactly; an export cut by its size limit or by the connection
  never makes up a row, and when the cut is noticed.
* **The snapshot** (`Warehouse`, `Dedup`, `SnapshotState`, `SnapshotWriter`, `Validation`,
  `Progress`, `Pipeline`, `EndToEnd`).  Batches, deduplication and chunked upserts in one
  transaction, driven by two validating loops with cancel points.  Proved: the run replaces
  exactly its slice by the last accepted credit of each account and all accepted payments, or
  changes nothing, and exactly when it does the one or the other.
* **Dates, numbers and pages** (`Trimming`, `Dates`, `Integers`, `Division`, `Pagination`).

The model takes the form of the program: objects whose methods change their fields are classes,
their methods are proved against functions of the old state, and what the program promises is
proved about those functions as lemmas.

`Byte` is written as a character below 256, so that tokens can be spelled out; `Text` is valid
UTF-8.  Some predicates are quantified over slices or over delivered results
(`SnapshotState.InOrder`, `JsonRowStream.Delivers`) so that a proof unfolds them only where it
names one.

## What the code does that its documentation does not say

* `Architecture.md:59` says that a QUEUED cancel frees the lock because no writer has started,
  and the diagram there (line 131) leaves a cancelled job CANCELLED.  Neither holds in all
  runs.  `CancelledOverwrittenByProcessing` and `CancelledOverwrittenByCompleted` are runs in
  which CANCELLED is overwritten, and `CancelledIsPermanentIff` says exactly when it is not.
  `InterruptedCancelLetsTwoIn` is a run in which a cancel request, interrupted after it has read
  QUEUED, frees the lock of a running job, and two jobs are in the pipeline of one slice.
  `StaysAloneIff` says exactly when a job stays alone.  Of two jobs side by side the one that
  lost its lock is flagged; `OneUnflaggedIngestPerSlice` and `CancelIsEffective` bound the harm.
* A payments export that repeats its rows, as the bank's multiplied export does, is refused by
  the unique key of payments (`LoadRepeatedPayments`).
* The scanner takes the end of the bytes between two rows for the end of the array
  (`adapter/src/stream.rs:114-117`).  So an export that is closed early between two rows is
  accepted as complete: `EarlyCloseIsNoticedExactly` says exactly when, and `LoadClosedExports`
  what the slice is replaced by.
* Without rows the requested page number is not clamped and a page before it is announced
  (`NoRowsNotClamped`, `PreviousExactly`).

## Assumptions

* Job identifiers are fresh, and each task is delivered once.
* No lock or flag expires while its job lives.
* The row of a job is not deleted while its worker runs; rows of waiting, discarded and ended
  jobs may be.
* A sync request (acquire, create the row, enqueue, store the task key) is one step that does not
  fail part way.  So its second lookup of the active job, after a second failed acquire, has
  nothing to find and is not modelled.
* A revoked task that has not started may or may not be discarded.
* The Redis calls of a worker's `finally` block, and those before its `try` block, do not fail.
* While a transaction is open nobody else commits to the two tables; a COMMIT that reports a
  failure has not taken effect.
* Row counts stay below 2^32.

## Model

| member | source | states |
|---|---|---|
| SyncInvariants.StepKeepsInv | api/apps/etl/tasks.py:82-185 | every access of the gateway, of a cancel request (whole or split) or of a worker keeps the invariant that ties locks, flags, rows and program counters |
| SyncInvariants.InvAlongRun | api/apps/etl/tasks.py:82-185 | so the invariant holds in every state of every run |
| SyncInvariants.CancelStepKeepsInv | api/apps/etl/services/cancel_sync.py:45-86 | one step of a cancel request that interleaves with workers keeps it |
| SyncTheorems.LiveJobIsLockedOrFlagged | api/apps/etl/services/cancel_sync.py:41-87 | a live job has lost its slice lock exactly when a cancel that read QUEUED has released it, and then its flag is set; so it holds its lock or is flagged |
| SyncTheorems.CommitHeldLockAtLastCheck | adapter/src/pipeline.rs:345-363 | every committing job held its lock, unflagged, at its last flag check, and did nothing but save progress between that check and the commit |
| SyncTheorems.FlagStays | api/apps/etl/tasks.py:183-185 | a cancel flag, whenever it is set for a job that exists, stays set until its worker's exit |
| SyncTheorems.CancelIsEffective | api/apps/etl/tasks.py:56-79 | a flag set before the last check: in no state of the whole run in which the job exists does the warehouse show it, and in no state at all if its name was not in use from the start; and the flag stays set until the worker's exit |
| SyncTheorems.OneUnflaggedIngestPerSlice | api/apps/etl/tasks.py:87-115 | with cancels interleaving freely, at most one unflagged job per slice is in the pipeline, and it owns the lock |
| SyncTheorems.PhaseMoves | api/apps/etl/tasks.py:103-115 | no step takes a worker back over its last flag check or its commit, the last check passes only with the flag clear, a commit ends the phase that check opened, and a flag survives the phase before it |
| SyncUninterrupted.MutualExclusion | api/apps/etl/tasks.py:96-115 | when cancel requests are not interrupted, at most one job per slice is ever in the pipeline, and it owns the lock |
| SyncUninterrupted.NoLeakedLock | api/apps/etl/tasks.py:183-185 | then a lock names a job with a task that will start, or a worker that has not released, or no row |
| SyncUninterrupted.SyncRecoversOrphan | api/apps/etl/views.py:96-123 | then a sync request is accepted exactly when the slice is free or its lock is an orphan, owns the lock afterwards, and moves nothing else |
| SyncUninterrupted.StepKeepsCalm | api/apps/etl/services/cancel_sync.py:81-84 | every step keeps the stronger invariant behind these three |
| SyncCancelled.CancelledIsPermanentIff | api/apps/etl/tasks.py:96-144 | a row that shows CANCELLED shows it for ever if and only if its worker does not stand before one of its three status writes |
| SyncCancelled.CancelledOverwrittenByProcessing | api/apps/etl/tasks.py:87-104 | a run in which CANCELLED is overwritten by PROCESSING and stays so when the worker has left |
| SyncCancelled.CancelledOverwrittenByCompleted | api/apps/etl/tasks.py:118-134 | a run from the empty system in which CANCELLED is overwritten by COMPLETED after the exit check, the snapshot being committed |
| SyncCancelled.UninterruptedStepsAreOneCancel | api/apps/etl/services/cancel_sync.py:41-87 | the six accesses of a cancel request, uninterrupted, are the one-step cancel |
| SyncCancelled.InterruptedCancelLetsTwoIn | api/apps/etl/services/cancel_sync.py:46-84 | a run in which an interrupted cancel lets two jobs into the pipeline of one slice |
| SyncAlone.StaysAloneIff | api/apps/etl/services/cancel_sync.py:45-84 | a job in the pipeline stays alone in its slice, whatever happens, if and only if it is alone now and no cancel request that read it as QUEUED has released its lock or is still under way |
| SyncAlone.AloneForever | api/apps/etl/tasks.py:96-115 | the one half: the lock of a job that is not threatened keeps every other job of its slice out, for as long as it is in the pipeline |
| SyncAlone.ThreatenedGetsCompany | api/apps/etl/services/cancel_sync.py:81-84 | the other half: from any state with such a request there is a run that brings a second job in |
| SyncBackend.Backend.ReleaseSyncLock | api/apps/core/services/redis_lock.py:4-31 | compare and delete: afterwards the job does not hold the slice, and every other lock is as it was |
| SyncBackend.Backend.ActiveJob | api/apps/etl/views.py:66-77 | the job that holds the slice; an orphan lock is dropped on the way |
| SyncBackend.Backend.AcquireOrFindActive | api/apps/etl/views.py:96-104 | acquired exactly if the slice was free or its lock an orphan; else the job that holds it |
| SyncBackend.Backend.SyncData | api/apps/etl/views.py:93-123 | the request is the protocol's sync step: the whole new state, and the reply that goes with it |
| SyncBackend.Backend.MarkCancelled | api/apps/etl/services/cancel_sync.py:45-86 | flag, revoke, row, lock and key, as the protocol's cancel step |
| SyncBackend.Backend.CancelSyncJob | api/apps/etl/services/cancel_sync.py:41-87 | cancels exactly queued and processing jobs, and changes nothing otherwise |
| SyncBackend.Backend.IsCancelRequested | api/apps/etl/services/cancel_sync.py:32-33 | the flag, read where the worker reads it, as one protocol step |
| SyncBackend.Backend.ClearCancelFlags | api/apps/etl/services/cancel_sync.py:36-38 | both keys of the job are gone, as one protocol step |
| SyncBackend.Backend.UpdateJob | api/apps/etl/tasks.py:30-33 | a save, which fails when the row is gone, as one protocol step |
| SyncBackend.Backend.OnProgress | api/apps/etl/tasks.py:57-59 | the callback goes on exactly if the flag is clear |
| SyncBackend.Backend.TryBlock | api/apps/etl/tasks.py:92-182 | however it ends, the worker stands before its release, and it reports completion only if it committed |
| SyncBackend.Backend.RunEtlPipeline | api/apps/etl/tasks.py:82-185 | with everybody else running between any two accesses: the execution is a run of the protocol, the task ends, its lock is given back unless its row was deleted, completion means a commit, and a job flagged before it starts is cancelled and never commits |
| Json.RowReadBack | external_bank/bank/services/streaming.py:41-42 | every encoded row, with quotes, backslashes, control characters and any UTF-8 in it, is parsed back field by field |
| Framing.ObjectIsFramed | adapter/src/stream.rs:195-228 | for any JSON object, of any depth, with braces or escaped quotes in strings, followed by anything, the scanner takes exactly its bytes |
| Framing.RowIsFramed | adapter/src/stream.rs:195-228 | and so it does for every row the bank encodes |
| Framing.CutRowIsNotFramed | adapter/src/stream.rs:195-228 | a proper prefix of a row before bytes without a closing brace is never taken for an object |
| JsonRowStream.ChunkedReader.SkipUntil | adapter/src/stream.rs:156-172 | the unread bytes after the first occurrence of the byte, over any chunks; an error exactly if there is none |
| JsonRowStream.ChunkedReader.SkipWhitespaceAndCommas | adapter/src/stream.rs:174-193 | exactly the leading filler is consumed; an error exactly if a broken source runs out |
| JsonRowStream.ChunkedReader.PeekByte | adapter/src/stream.rs:151-154 | the next unread byte, left unread |
| JsonRowStream.ChunkedReader.ReadJsonObject | adapter/src/stream.rs:195-228 | the framed object and the rest unread, or an error exactly if no object is framed |
| JsonRowStream.ChunkedReader.NextRow | adapter/src/stream.rs:91-145 | the result and the new state are those of the pure reader on the unread bytes, so they do not depend on the chunks, whatever the bytes are |
| JsonRowStream.ChunkedReader.ReadAll | adapter/src/stream.rs:91-149 | repeated calls give the rows, the end or error and the row count of the pure reader |
| BankExport.SinglePassJson | external_bank/bank/services/streaming.py:45-53 | the chunks sent are the listing of the encoded rows |
| BankExport.MultipliedJson | external_bank/bank/services/streaming.py:56-83 | the chunks sent are the rows repeated, cut where the size limit falls, and closed |
| BankExport.MultipliedSize | external_bank/bank/services/streaming.py:56-83 | never more than max(limit, 2) + 2 bytes |
| ExportReading.SinglePassRoundTrip | external_bank/bank/services/streaming.py:45-53 | the plain export of any rows is read back as exactly those rows in order, then the end, all counted |
| ExportReading.MultipliedIsRead | external_bank/bank/services/streaming.py:56-83 | for every multiplier and limit the reader gets a prefix of the repeated rows, and an error exactly if the limit falls inside a row |
| ExportReading.CutExportIsRead | adapter/src/stream.rs:103-145 | what is read from any proper prefix of a plain export, from a source that breaks there or is closed there |
| ExportReading.BreakIsNoticed | adapter/src/stream.rs:156-228 | a connection that breaks before the last byte is never taken for the end, and the rows read are a prefix |
| ExportReading.EarlyCloseIsNoticedExactly | adapter/src/stream.rs:113-117 | an early close is taken for the end exactly if the array was open and the cut is not inside a row |
| ExportReading.ClosedExportIsRead | adapter/src/stream.rs:103-145 | what is read from any first bytes of a plain export, all of them included, when the source is closed there |
| ExportReading.ExportAndRead | adapter/src/stream.rs:91-145 | the adapter reads the bank's rows from the plain export sent in any chunks |
| Warehouse.ClearedIsEmpty | adapter/src/db.rs:130-146 | the two DELETE statements leave the slice without credits and payments, every other slice as it was, and no payment without its credit |
| Warehouse.UpsertIsSound | adapter/src/db.rs:275-304 | the upsert keeps ids distinct and below the sequence, and every payment with its credit |
| Warehouse.UpsertKeepsRows | adapter/src/db.rs:275-304 | it leaves every other slice, and the id of every row there was |
| Warehouse.UpsertShows | adapter/src/db.rs:275-304 | afterwards the slice shows the listed credits, the last of each account, over what it showed |
| Warehouse.LastWinsConcat | adapter/src/db.rs:163-194 | the last credit per account of two lists is that of the second over that of the first, so batch and chunk borders do not matter |
| Dedup.DedupCredits | adapter/src/db.rs:179-188 | one entry per account, the last one, in first-occurrence order; pairwise distinct keys |
| SnapshotState.RefusedOnlyForDuplicates | api/apps/etl/models.py:99-100 | payments whose (account, installment) pairs are distinct, also from those written, are refused by no key |
| SnapshotState.InsertEffect | adapter/src/db.rs:370-428 | the payments of a statement join those shown, each under the credit of its own account in its own slice |
| SnapshotState.CreditStatementInOrder | adapter/src/db.rs:275-316 | a credit statement with its recorded ids keeps the state of a half-filled snapshot and every id |
| SnapshotState.IdsOfWritten | adapter/src/db.rs:312-316 | the map of credit ids has exactly the accounts written |
| SnapshotWriter.Writer.DeleteSlice | adapter/src/db.rs:130-156 | the writer starts from the emptied slice, or the transaction is lost |
| SnapshotWriter.Writer.RecordIds | adapter/src/db.rs:312-316 | the map of credit ids is the account-to-id view of the slice |
| SnapshotWriter.Writer.InsertCreditsMulti | adapter/src/db.rs:196-319 | the chunk is shown, ids stay, and it fails only on a database fault or for an account named twice |
| SnapshotWriter.Writer.FlushCredits | adapter/src/db.rs:171-194 | everything pushed is written, last credit per account, ids stay; it never fails for an account named twice |
| SnapshotWriter.Writer.PushCredit | adapter/src/db.rs:163-169 | one more credit is pushed, and the batch stays below its size and is emptied exactly when it is full |
| SnapshotWriter.WaitingIsRemainder | adapter/src/db.rs:163-169 | what waits in the batch is what is left over from full batches |
| SnapshotWriter.Writer.FlushPayments | adapter/src/db.rs:329-368 | everything pushed is written; a credit id is missing only for an account that is not in the map; else only a fault or a repeated pair refuses it |
| SnapshotWriter.Writer.PushPayment | adapter/src/db.rs:321-327 | one more payment is pushed, and the batch stays below its size |
| SnapshotWriter.Writer.InsertPaymentsMulti | adapter/src/db.rs:370-432 | the chunk is shown and counted, or refused for a fault or a repeated pair |
| SnapshotWriter.Writer.Commit | adapter/src/db.rs:434-442 | publishes the slice with the last credit per account and all payments pushed and every other slice as it was, and counts the payments; or publishes nothing, for a fault, a repeated pair or an unknown account |
| Validation.CollectCells | adapter/src/pipeline.rs:85-113 | the cells of the columns in order, and exactly the errors of those that cannot be read, appended to the log |
| Validation.NullOrLogged | adapter/src/pipeline.rs:85-113 | a cell is null exactly if it was blank or is in the log, and never for both reasons |
| Validation.CreditCellsExplained | adapter/src/pipeline.rs:139-166 | so it is for each of the twelve validated cells of an accepted credit and the log of its row |
| Validation.PaymentCellsExplained | adapter/src/pipeline.rs:196-211 | and for each of the eleven of an accepted payment |
| Integers.ReadExactly | adapter/src/parser.rs:71-76 | a text is read as a number exactly if it is that number written, with an optional sign and leading zeros, and the number fits 32 bits |
| Validation.ParseCreditRow | adapter/src/pipeline.rs:115-167 | the credit and the log entries of the row; without an account no credit and one rejection |
| Validation.ParsePaymentRow | adapter/src/pipeline.rs:169-212 | the payment and the log entries of the row; without a known account no payment and one rejection |
| Validation.CreditRowsAreCounted | adapter/src/pipeline.rs:246-260 | accepted credits and rejections add up to the credit rows |
| Validation.PaymentRowsAreCounted | adapter/src/pipeline.rs:309-322 | accepted payments and rejections add up to the payment rows |
| Validation.AcceptedPaymentsAreKnown | adapter/src/pipeline.rs:186-194 | every accepted payment has a known account |
| Progress.CreditPhaseIsPlain | adapter/src/pipeline.rs:74-77 | for 32-bit rows nothing saturates and no cast truncates; within 5 to 39 |
| Progress.CreditPhaseGrows | adapter/src/pipeline.rs:74-77 | more rows, no less progress |
| Progress.PaymentPhaseIsPlain | adapter/src/pipeline.rs:79-83 | the same for payments, unless the number of credits is within 2^32 of the 64-bit limit |
| Progress.PaymentPhaseInRange | adapter/src/pipeline.rs:79-83 | within 40 to 89, for any number of credits |
| Progress.PaymentPhaseGrows | adapter/src/pipeline.rs:79-83 | more rows, no less progress, for any number of credits |
| Progress.ProgressNeverGoesBack | adapter/src/pipeline.rs:261-361 | 5, the credit phase, 40, the payment phase, 95 and 100 are a non-decreasing sequence for all row counts |
| Pipeline.LoadCredits | adapter/src/pipeline.rs:246-279 | after the loop the stream is at its end, and writer, log, known accounts and reports are what the rows read amount to; it ends early only for the callback, a fault or the stream |
| Pipeline.CreditsDone | adapter/src/pipeline.rs:281-303 | all credits are written, the known accounts are exactly those with an id, and 40 is reported |
| Pipeline.LoadPayments | adapter/src/pipeline.rs:309-343 | the same for payments; the missing credit id is not among the reasons to stop |
| Pipeline.Finish | adapter/src/pipeline.rs:345-390 | 95 is reported, and success exactly if the callback goes on, the database works and no pair is repeated; a failed commit changes nothing and is logged as PIPELINE_ERROR |
| Pipeline.RunPipeline | adapter/src/pipeline.rs:214-391 | all or nothing: success exactly if both streams are read to their end, no pair of accepted payments is repeated, the callback never stopped it and the database did not fail; then exactly this slice is replaced, and else the warehouse is unchanged.  The counts, log and reports are those of the rows in every outcome: cancelled exactly if the callback said to abort, with what had been read by then and the number of credits that full batches had taken to the database; a failed commit is logged as PIPELINE_ERROR; the reports of any run are the first ones of a full run |
| Pipeline.RowsAreConserved | adapter/src/pipeline.rs:246-380 | on success, rows processed = accepted credits + payments ingested + rejections logged, and no more credits ingested than accepted |
| Pipeline.KnownExactly | adapter/src/db.rs:159-161 | the credits ingested are counted by the accounts of accepted credits, each once |
| Pipeline.FullRunProgress | adapter/src/pipeline.rs:261-361 | the percentages of a full run, from the 5 before it to the 100 after it, never go back |
| Pipeline.AnyRunProgress | adapter/src/pipeline.rs:261-361 | nor do those of a run that ends early |
| EndToEnd.LoadPlainExport | adapter/src/pipeline.rs:214-391 | the slice ends up with the accepted rows of the bank's own lists, in whatever chunks they arrive |
| EndToEnd.LoadCutExport | external_bank/bank/services/streaming.py:72-77 | an export cut inside a row by its size limit changes nothing |
| EndToEnd.LoadBrokenExport | adapter/src/pipeline.rs:246-249 | a connection that breaks anywhere inside either export changes nothing |
| EndToEnd.LoadClosedExports | adapter/src/stream.rs:113-117 | connections closed without notice after any number of bytes: the slice is replaced by the rows before the cuts exactly if neither cut is noticed, and nothing else stops the run |
| EndToEnd.LoadRepeatedPayments | external_bank/bank/services/streaming.py:67-81 | a payments export of at least two whole passes is never loaded, if one of its payments is accepted |
| Trimming.TrimmedIsCore | adapter/src/parser.rs:26-29 | trimming takes off white-space characters only and leaves none at either end |
| Trimming.PaddingIsTrimmed | adapter/src/parser.rs:26-29 | any white space around a core is taken off |
| Dates.AcceptedExactly | adapter/src/parser.rs:25-47 | a value is accepted exactly if, trimmed, it is a day of the calendar in one of the three forms, and the result is that day in the ISO form |
| Dates.FormsAgree | adapter/src/parser.rs:8-37 | the three forms of a day, with any white space around, give the same ISO text |
| Dates.OneForm | adapter/src/parser.rs:8-23 | no text matches two of the expressions, so their order does not matter |
| Dates.ParseDateIsIdempotent | adapter/src/parser.rs:25-47 | what the parser returned it returns unchanged |
| Dates.AcceptedReachesDatabase | adapter/src/db.rs:15-19 | a day that was accepted reaches the statement as that day |
| Dates.NeverDropped | adapter/src/db.rs:15-19 | the parameter is null exactly if the value was blank or refused |
| Pagination.ServedPageHasRows | api/apps/etl/services/warehouse.py:48-65 | with rows, any request gets the nearest existing page, which has rows, and full ones before the last |
| Pagination.NoRowsNotClamped | api/apps/etl/services/warehouse.py:53-55 | without rows the requested page is not clamped |
| Pagination.PreviousExactly | api/apps/etl/services/warehouse.py:77 | the announced previous page exists exactly unless there are no rows and a later page was asked for |
| Pagination.PagesPartition | api/apps/etl/services/warehouse.py:48-65 | pages one to the last, one after the other, are the ordered rows |
| Pagination.RowIsOnItsPage | api/apps/etl/services/warehouse.py:64-65 | every row is on one page, at one place |
| Pagination.FollowShowsAll | api/apps/etl/services/warehouse.py:72-79 | following the next page from the first shows every row once, in order, and stops after the last |

## Left out

- JsonRowStream.ChunkedReader.NextRow: parses objects whose values are strings, null or booleans, which is what the bank emits; for numbers and nested values, which serde_json accepts as well, the model reports a parse error.  The 32-bit row counter and the 32-bit brace depth do not wrap, and chunks may be empty.
- JsonRowStream.ChunkedReader.ReadAll: the same objects with numbers or nested values end the reading.
- Dates.NeverDropped: the parameter reads the ISO form only; that chrono also takes shorter numbers and signs does not matter for text the parser returned.
- Validation.CollectCells: whether a text is a decimal is an abstract predicate.
- SyncBackend.Backend.RunEtlPipeline: the pipeline inside a worker is a list of reports and an ending; what it writes is the subject of `Pipeline.RunPipeline`.
- Column by column copying: a row carries its key, its validated cells and the row it came from; the integer columns, the text columns and the JSON attributes are copied from that row.
- Statements fail by an oracle, except for the two unique keys and the foreign key of payments, which are modelled; a failed statement draws no ids.
- A stream that cannot be opened is a broken source without bytes.
- Messages of errors, timestamps, durations, the validation summary and the trimming of stored errors.
- Redelivery of tasks, expiry of keys, deletion of the rows of running jobs and a sync request that fails part way.
- Reading the CSV files of the bank; the model starts from the list of rows.
- HTTP, TLS, the Tokio runtime, PyO3 and the interpreter lock.
- Authentication, permissions, serializers, templates, the dashboard and the profiling aggregates.
- The ordering of a page's query and concurrent changes between two page requests; the model starts from the ordered rows.
