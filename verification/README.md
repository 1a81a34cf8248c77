# Protocols of mailmux, mailindex and mailtx

mailmux watches IMAP mailboxes, stores every email with one event, and runs
configured processors on the events. mailindex keeps a search index next to a
canonical document store. mailtx is a processor that turns bank emails into
ledger transactions. All three are small protocols over durable state: several
actors race, any of them may stop between two statements, and the state they
leave must still be right. This project models those protocols and proves what
they keep.

Statements of a database, commits of the index, renames of directories and posts
to the ledger are atomic steps. What the surroundings do (the IMAP server, the
processors, the ledger endpoint, clocks, uploads, failures and crashes) is an
input or a choice of the step, and every result holds for all of them. Code that
changes state is written as classes and methods over that state; the step
machines say what happens when several of them interleave.

| file | what it holds |
|---|---|
| `wrappers.dfy`, `ordered.dfy` | Option and Result; ascending id sequences as returned by `ORDER BY id` |
| `jobs.dfy`, `job_protocol.dfy`, `job_invariant.dfy`, `job_runs.dfy` | the job tables, all actors racing over them, what each step keeps, and what holds in all runs |
| `job_execution.dfy`, `scheduler.dfy`, `replay.dfy` | one job as a method with everybody else at work in between; the dispatch and the retry sweep, and the explicit replay, each job in a turn of its own |
| `event_polling.dfy`, `registry.dfy` | batches of undispatched events; which processors an event is for |
| `circuit_breaker.dfy`, `document_key.dfy`, `char_budget.dfy`, `normalize.dfy` | four small exact algorithms |
| `canonical_store.dfy`, `index_writer.dfy` | the document table with its compare-and-set marks; the index and its writer queue |
| `index_protocol.dfy`, `index_invariant.dfy`, `index_steps.dfy` | uploads, server and rebuild as separate processes in any interleaving; the exact condition under which each step keeps agreement |
| `index_alone.dfy`, `index_runs.dfy`, `index_overlap.dfy` | rebuilds without a server beside them, what holds in all runs, and reachable states in which an overlap breaks it |
| `index_drain.dfy`, `rebuild.dfy` | one drain; one rebuild on a file tree |
| `backfill_sql.dfy`, `backfill_run.dfy` | the compiler from a filter to SQL; the backfill loop |
| `incremental_sync.dfy` | incremental sync of one mailbox (UIDs as in section 2.3.1.1 of RFC 3501) |
| `transfer_store.dfy`, `transfer_ledger.dfy`, `ledger_conservation.dfy`, `ledger_repeats.dfy`, `ledger_runs.dfy`, `mailtx_run.dfy` | transfer rules and pending legs; the steps of mailtx on the ledger; what each step, and each repetition, does to the money; what holds in all runs; one invocation of mailtx |

## Where the code does not do what it says

- A job that a crash leaves `in_progress` stays so for good. The design document
  (mailmux/docs/design.md:203-212) says such jobs are put back to `pending`; no
  code does, and a replay skips them (`JobRuns.CrashedJobsStayInProgress`).
- A failed insert during a sync is logged as to be retried in the next cycle, but
  the checkpoint has passed it and it is lost (`IncrementalSync.FailedInsertIsPassed`,
  `IncrementalSync.FailedInsertIsLost`). A complete run stores everything it
  planned if and only if no insert of a new message failed.
- A crash between the two renames of a rebuild leaves no active index. A server
  started then creates an empty one, and every indexed row is missing from search
  (`IndexOverlap.CrashMidSwapThenStart`). Agreement survives such a start if and
  only if no row is indexed (`IndexOverlap.FreshServerAgreesIff`).
- The writer lock that keeps a server out during a rebuild
  (mailindex/README.md:66) is given up after the second rename
  (mailindex/src/index/rebuild.rs:176), before the rows are marked, and is never
  taken when there is no active index. A server started then can index a newer
  version; if the older one is uploaded again, the late mark declares it indexed
  and search keeps the wrong version (`IndexOverlap.LateMarkBreaksAgreement`). A
  late mark can also index a row of a worker batch under way
  (`IndexOverlap.LateMarkHitsBatch`). A mark transaction keeps agreement if and only
  if each listed row that still has the listed hash has exactly that hash in the
  index (`IndexSteps.MarksAgreeIff`), which always holds when no server is started
  during a rebuild (`IndexRuns.SeparateRunsAreCareful`).
- The id of a transfer rule joins two account ids with a colon. With colons inside
  account ids two rules share an id, and unrelated legs are coalesced
  (`LedgerRuns.CollidingIdsLoseMoney`). Handling an email conserves the ledger
  if and only if the accounts fit (`LedgerConservation.HandleConservesIff`), which they
  do when no source account id contains a colon and the account matcher names the
  configured account.
- A coalesced leg is forgotten: its row is deleted, and the transfer carries the id of
  its partner. If its email is handled again without a counterpart, the leg is stored
  again and counts twice (`LedgerRepeats.CoalescedIsForgotten`, `LedgerRepeats.CoalescedLegComesBack`).
  Handling an email again conserves the ledger if and only if the repetition fits
  (`LedgerRepeats.RepeatConservesIff`).
- A stop between an accepted transfer and the delete of its stored leg counts the
  leg twice (`LedgerConservation.StopConservesIff`); handling the same email again
  repairs it (`LedgerConservation.RetryRepairsCoalesce`). The same happens when the
  ledger accepts a transfer and its answer is lost: the stored leg stays and is posted
  again (`LedgerConservation.LostTransferConservesIff`).
- `decode_key` accepts length prefixes that `document_key` never writes, such as
  `+1` or `01` (`DocumentKey.NonCanonicalKeysCollide`).

## Model

| member | source | states |
|---|---|---|
| JobStore.JobTable.CreateJob | mailmux/src/db/jobs.rs:36-52 | inserts a pending job unless the event has one for the processor; None exactly then |
| JobStore.JobTable.RegisterEventDispatch | mailmux/src/db/jobs.rs:55-84 | inserts all missing jobs of an undispatched event, sets its marker, returns exactly the new rows; otherwise changes nothing |
| JobStore.JobTable.ClaimJob | mailmux/src/db/jobs.rs:250-253 | claims exactly pending and due failed jobs, counting an attempt |
| JobStore.JobTable.AbandonQueuedJob | mailmux/src/db/jobs.rs:256-259 | abandons exactly what could be claimed, without counting an attempt |
| JobStore.JobTable.ResetAndClaimJobForReplay | mailmux/src/db/jobs.rs:150-166 | claims any job that is not in progress and restarts its count at one |
| JobStore.JobTable.UpdateJobStatus | mailmux/src/db/jobs.rs:94-146 | overwrites the row of that id, whatever state it is in, and no other |
| JobStore.JobTable.CleanupOldEvents | mailmux/src/housekeeping.rs:35-101 | run alone, removes exactly the events created before the cutoff, dispatched and without unfinished jobs, with all their jobs; nothing of a later event disappears |
| JobStore.InsertAllExtends | mailmux/src/db/jobs.rs:75-76 | a registration adds pending jobs for the listed processors that lack one and changes no other row; keys stay unique |
| JobStore.DispatchKeepsTables | mailmux/src/db/jobs.rs:55-84 | a dispatch keeps foreign keys, unique jobs and fresh ids |
| JobInvariant.StepKeepsInv | mailmux/src/processor/scheduler.rs:80-275 | ownership, cleanup and budget invariants survive every step of dispatchers, sweeps, replays, cleanups and crashes |
| JobRuns.AtMostOneOwner | mailmux/src/db/jobs.rs:150-166 | in every run a job has at most one live owner |
| JobRuns.WritesLandOnClaimedRows | mailmux/src/db/jobs.rs:94-146 | each unguarded final write hits a row its writer claimed last, still in progress, and changes only that row |
| JobRuns.VerdictsFollowTheBudget | mailmux/src/processor/scheduler.rs:277-357 | completed exactly on success, abandoned exactly when the starts have used up max_retries, else failed with the retry time of the backoff list's entry for that many starts |
| JobRuns.CleanupIsSafe | mailmux/src/housekeeping.rs:35-101 | with others between its statements and a stale candidate set, a cleanup removes only finished jobs and events left without jobs; every job keeps its event; nothing held disappears |
| JobRuns.UndisturbedCleanup | mailmux/src/housekeeping.rs:35-101 | undisturbed, the four steps of the protocol remove exactly the old, dispatched events without unfinished jobs, and their jobs |
| JobRuns.LifetimeBound | mailmux/src/processor/scheduler.rs:277-357 | from any invariant state, starts so far and in any continuation never exceed the cap |
| JobRuns.EveryJobIsBounded | mailmux/src/processor/scheduler.rs:155-275 | the steps of any run from a new installation, and of any continuation, start a job at most max(1, max_retries) times |
| JobRuns.RetiredForever | mailmux/src/db/jobs.rs:230-247 | a job that is past the sweep's guard never comes back to it |
| JobRuns.ReplayedJobsAreNeverSwept | mailmux/src/main.rs:289-335 | after an effective replay claim no sweep or dispatcher ever starts the job again |
| JobRuns.CrashedJobsStayInProgress | mailmux/docs/design.md:203-212 | a job held at a crash stays in progress without an owner in every continuation; nothing requeues it and a replay skips it |
| JobRuns.MarkerIsSetOnce | mailmux/src/db/jobs.rs:61-81 | no step clears or changes a dispatch marker, and only an unmarked event registers |
| JobRuns.DispatchedAtMostOnce | mailmux/src/processor/scheduler.rs:80-107 | in every run, however batches overlap, an event is registered at most once |
| JobRuns.RegistrationCreatesOneJobEach | mailmux/src/db/jobs.rs:75-83 | the effective registration leaves exactly one job per listed processor, and the marker |
| JobExecution.ExecuteJob | mailmux/src/processor/scheduler.rs:155-275 | with any other actors in every pause, executing a job is a run of the protocol with the states of its claim and its write on record: finished means claimed, run and written back with the outcome of its ending, not claimed means not claimable at that moment, refused means abandoned, interrupted means locked out or dead; with nobody else at work a claimable job ends with one more attempt and the outcome of its ending |
| JobExecution.RunClaimed | mailmux/src/processor/scheduler.rs:190-275 | a claimed run is written back, completed after success and failed or abandoned after a failure; it is only interrupted by a death of the process or a lock on its row |
| JobExecution.HandleFailure | mailmux/src/processor/scheduler.rs:277-357 | reads the attempt count back and writes failed or abandoned as the protocol's verdict says |
| JobExecution.BackoffDelay | mailmux/src/processor/scheduler.rs:330-335 | the clamped list lookup yields the retry delay of the specification |
| Scheduler.ExecuteInserted | mailmux/src/processor/scheduler.rs:130-151 | each newly inserted job of a listed processor has its turn, once and in order, no other has; with unique names none is refused; undisturbed each ends with one attempt and the outcome of its ending |
| Scheduler.ProcessEvent | mailmux/src/processor/scheduler.rs:80-153 | dispatch, then a turn for each inserted row and no other, so for every listed processor that had no job; nothing when the event was dispatched before; with unique names no fresh job is ineligible; undisturbed each ends with one attempt and the outcome of its ending |
| Scheduler.RetrySweep | mailmux/src/processor/scheduler.rs:360-420 | each row of a stale scan whose event can be loaded when it is reached has its turn, once and in scan order; a row without a turn changes nothing |
| Scheduler.KeptMeans | mailmux/src/processor/scheduler.rs:375-393 | exactly the rows whose event is still there and can be loaded have a turn, in scan order |
| Scheduler.InsertedAreNew | mailmux/src/db/jobs.rs:75-83 | the returned rows are new pending jobs of this event under their processors' names |
| Scheduler.InsertedAreAll | mailmux/src/db/jobs.rs:75-83 | every listed processor that had no job of the event is among the returned rows |
| Replay.ReplayJob | mailmux/src/main.rs:289-335 | a finished replay was claimed with a fresh count and leaves completed or failed, never with a retry time; one that is not claimed was in progress or gone |
| Replay.ReplayEvent | mailmux/src/main.rs:227-340 | a rejected replay has no effect; an accepted one looks up or creates the job of each target and replays it, in order, each in its turn, up to the first that finds the event gone |
| Replay.TargetsMean | mailmux/src/main.rs:242-257 | a named replay is accepted exactly when the first registered entry of that name matches, a general one when any entry does, with the names of all that match |
| EventPolling.FetchAndDispatch | mailmux/src/processor/scheduler.rs:80-107 | a batch is the first 100 undispatched events by id; afterwards exactly those are no longer undispatched, each eligible processor has its job, and no other job is new |
| EventPolling.BatchMeans | mailmux/src/db/events.rs:111-139 | a batch holds at most 100 events, all undispatched, and an undispatched event that is left out comes after a full batch of older ones |
| EventPolling.BatchShortensQueue | mailmux/src/db/events.rs:111-139 | a batch that misses an event removes exactly 100 events ahead of it |
| EventPolling.NoStarvation | mailmux/src/db/events.rs:111-139 | an event behind k others is fetched within floor(k/100) + 1 error-free batches |
| Registry.RegisteredComesFromConfig | mailmux/src/processor/registry.rs:18-48 | registered are exactly the enabled, available configurations |
| Registry.EligibilityPathsAgree | mailmux/src/processor/registry.rs:51-98 | with unique names the list path and the named path accept the same processors |
| Registry.PathsAgreeIff | mailmux/src/processor/registry.rs:51-98 | for any configuration the two paths agree on a name exactly when its first registered entry matches the event or no entry of that name does |
| Registry.ListedMeans | mailmux/src/processor/registry.rs:18-98 | a name is listed exactly when some configured entry of it is enabled, available, subscribed to the event type and has no source list or a source with the account and, if it names mailboxes, the mailbox |
| Registry.RefusalMeans | mailmux/src/processor/registry.rs:66-98 | why the named path refuses: unknown name, not subscribed, or source excluded, in this order |
| Registry.DuplicateNamesDisagree | mailmux/src/processor/registry.rs:66-98 | a configuration with a repeated name, which validation refuses (mailmux/src/config.rs:377), on which the two paths disagree |
| CircuitBreaker.Breaker.Failure | mailmux/src/imap/mod.rs:80-102 | popping old entries from the front is filtering the whole queue by age; cleared exactly when it reaches ten |
| CircuitBreaker.QueueIsSlidingWindow | mailmux/src/imap/mod.rs:80-102 | for nondecreasing times the queue is the failures since the last cooldown that are at most 300 s old |
| CircuitBreaker.TripsIffWindowFull | mailmux/src/imap/mod.rs:89-102 | a cooldown starts exactly when that window holds ten failures |
| CircuitBreaker.TenFailuresTrip | mailmux/src/imap/mod.rs:80-102 | ten failures within 300 s never pass without a cooldown |
| CircuitBreaker.TripsAreEarned | mailmux/src/imap/mod.rs:80-102 | every cooldown is at least the tenth failure within 300 s |
| DocumentKey.RoundTrip | mailindex/src/index/mod.rs:17-32 | decoding recovers every nonempty source and id, with colons, digits and multi-byte characters |
| DocumentKey.Injective | mailindex/src/index/mod.rs:17-19 | different identities have different keys |
| DocumentKey.DecodedKeyIsCanonicalIff | mailindex/src/index/mod.rs:21-32 | an accepted key is the encoding of what it decodes to exactly when it starts with a digit from 1 to 9 |
| DocumentKey.NonCanonicalKeysCollide | mailindex/src/index/mod.rs:21-32 | two other spellings of one key that decode alike |
| CharBudget.Get | mailindex/src/search/service.rs:101-138 | body and attachments get the budget in order, a zero budget is refused, and the flag is set exactly when a part is cut |
| CharBudget.GetAttachments | mailindex/src/search/service.rs:113-137 | the loop gives each attachment what the ones before it have left |
| CharBudget.ShareIsPrefixOfJoined | mailindex/src/search/service.rs:116-137 | the shares are prefixes and concatenate to the first characters of all attachment texts; cut exactly when the texts exceed what is left |
| CharBudget.ResponseIsPrefixOfCanonical | mailindex/src/search/service.rs:109-137 | the response is the first min(budget, total) characters of body and attachments, and the flag says exactly whether total exceeds budget |
| Normalize.Clean | mailindex/src/ingest/normalize.rs:1-19 | the loop with its blank counter computes the cleaned text of the specification |
| Normalize.CleanedIsNormal | mailindex/src/ingest/normalize.rs:1-19 | no carriage return, no trailing whitespace on a line, no three blank lines in a row |
| Normalize.CleanedIsIdempotent | mailindex/src/ingest/normalize.rs:1-19 | cleaning twice is cleaning once |
| Normalize.CleanedKeepsText | mailindex/src/ingest/normalize.rs:1-19 | the non-blank lines stay, in order |
| Normalize.NormalTextStays | mailindex/src/ingest/normalize.rs:1-19 | text that already is normal is left exactly as it is |
| Normalize.NewlinesMean | mailindex/src/ingest/normalize.rs:2 | a carriage return, with a newline after it or alone, becomes one newline; text without one stays |
| CanonicalStore.Repository.Upload | mailindex/src/storage/mod.rs:125-305 | an unchanged hash keeps the row as it was; a new version is stored with its own content, pending, under the row of its identity, with the attempts kept |
| CanonicalStore.Repository.MarkAsIndexed | mailindex/src/storage/mod.rs:554-570 | marks exactly a pending row that still has the hash |
| CanonicalStore.Repository.MarkAsError | mailindex/src/storage/mod.rs:572-588 | records an error on exactly a pending row that still has the hash |
| CanonicalStore.Repository.MarkIndexedVersions | mailindex/src/storage/mod.rs:610-634 | marks the rows that still have the listed hash, in any state |
| CanonicalStore.Repository.RequeueDocument | mailindex/src/storage/mod.rs:636-659 | makes the row pending, None exactly when there is none |
| CanonicalStore.KeysAreDistinct | mailindex/src/index/mod.rs:17-19 | different rows have different index keys |
| CanonicalStore.UpsertEvolves | mailindex/src/storage/mod.rs:125-305 | an upload keeps identities unique and makes no row indexed |
| CanonicalStore.UpsertStoresVersion | mailindex/src/storage/mod.rs:125-305 | afterwards the row of the identity holds hash and content of the message, pending, or is as it was if the hash is unchanged; all other rows are untouched |
| CanonicalStore.StatementsKeepVersions | mailindex/src/storage/mod.rs:554-659 | marks and requeues keep identity, hash and content of every row |
| CanonicalStore.MarksKeepVersions | mailindex/src/storage/mod.rs:610-634 | so does a list of marks |
| IndexWriter.CommitReplaces | mailindex/src/index/worker.rs:130-138 | after delete and add of a batch every key of the batch has exactly one entry, the batch's; other keys are as before |
| IndexWriter.CommitTwice | mailindex/src/index/worker.rs:85-86 | committing a batch again after a crash changes no lookup |
| IndexWriter.BuiltIndexHolds | mailindex/src/index/rebuild.rs:137-156 | a freshly built index holds exactly the listed version under each key |
| IndexSteps.StepKeepsInvIff | mailindex/src/index/worker.rs:97-175 | every step of uploads, requeues, server, worker, rebuild, failures, panics and crashes keeps agreement and the batch invariants; four kinds of steps (a server start, the two renames and the marks of a rebuild) keep them exactly when they are careful |
| IndexSteps.BuiltIndexAgreesIff | mailindex/src/index/rebuild.rs:131-163 | a built index agrees with the table exactly when every indexed row is listed with the hash it has now |
| IndexSteps.MarksAgreeIff | mailindex/src/index/rebuild.rs:184-204 | a mark transaction keeps agreement exactly when each listed row that still has the listed hash has exactly that hash under its key |
| IndexSteps.MarksSpareIff | mailindex/src/index/rebuild.rs:184-204 | a mark transaction keeps the worker's rows unindexed and its queue harmless exactly when it marks no row of either |
| IndexAlone.StepStaysAlone | mailindex/src/index/rebuild.rs:117-205 | while no server is started during a rebuild, every step is careful: the manifest covers the indexed rows and the marks are right |
| IndexRuns.SeparateRunsAreCareful | mailindex/src/index/rebuild.rs:117-205 | every run in which servers are only started while no rebuild is under way is careful |
| IndexRuns.ServedIndexAgrees | mailindex/src/index/worker.rs:97-175 | in every careful run, overlapping ones included, each indexed row has exactly one entry in the served index, built from its current hash |
| IndexRuns.InFlightRowsAreNotIndexed | mailindex/src/index/worker.rs:105-168 | in every careful run a row inside a worker batch is never indexed |
| IndexRuns.SomeIndexAlwaysAgrees | mailindex/src/index/rebuild.rs:165-182 | at every moment of every careful run the active index, or else the backup, agrees with the table |
| IndexRuns.RebuildMarksUnchangedRows | mailindex/src/storage/mod.rs:610-634 | a mark makes a row indexed exactly when its hash is the one that was read; a changed row stays as it is |
| IndexOverlap.FreshServerAgreesIff | mailindex/src/index/rebuild.rs:165-182 | a server start without an active index keeps agreement exactly when no row is indexed |
| IndexOverlap.CrashMidSwapThenStart | mailindex/src/index/rebuild.rs:165-175 | a carefully reached state in which a server start makes the served index miss an indexed row |
| IndexOverlap.LateMarkHitsBatch | mailindex/src/index/rebuild.rs:173-204 | a carefully reached state in which a late mark indexes a row of a worker batch |
| IndexOverlap.LateMarkBreaksAgreement | mailindex/src/index/rebuild.rs:173-204 | a carefully reached state in which a late mark declares a version indexed that the served index does not hold, with no row left pending |
| IndexDrain.RunBatch | mailindex/src/index/worker.rs:125-149 | the batch reaches its commit exactly for the fates that get that far, and then everything queued is applied; otherwise the index stays and the queue is left as the fate says, empty after a rollback, else with the part of the batch up to the failure; a panic poisons the lock |
| IndexDrain.MarkBatch | mailindex/src/index/worker.rs:151-167 | every row of the batch becomes indexed, or errored with one more attempt; no other row changes |
| IndexDrain.Drain | mailindex/src/index/worker.rs:97-175 | ends with no pending row for any batch fates; a row is indexed exactly when its batch commits; agreement is kept; other rows and keys are untouched |
| IndexDrain.CommittedDrainIndexesAll | mailindex/src/index/worker.rs:151-158 | if all batches commit, every formerly pending row is indexed and the index holds exactly its version |
| IndexDrain.RerunAfterCrash | mailindex/src/index/worker.rs:84-86 | draining again after a crash between commit and marks gives the same lookups under every key |
| Rebuild.UniqueSibling | mailindex/src/index/rebuild.rs:85-94 | a returned name is free and one of the sixteen candidates; none exactly when all exist |
| Rebuild.Build | mailindex/src/index/rebuild.rs:131-163 | a finished build lists and counts every row of the table; any failure leaves only the temporary files |
| Rebuild.RestoreAfterFailedInstall | mailindex/src/index/rebuild.rs:211-225 | the backup is active again, or stays where it was |
| Rebuild.Swap | mailindex/src/index/rebuild.rs:165-182 | afterwards the new index is active, or the old one is, or the old one is the backup; other paths are untouched |
| Rebuild.MarkFromManifest | mailindex/src/index/rebuild.rs:187-205 | with uploads and requeues before every transaction, the transactions take the manifest part by part, and each indexes exactly the listed rows that then have the listed hash |
| Rebuild.MarksAreExact | mailindex/src/storage/mod.rs:610-634 | after one transaction a row listed in it is indexed exactly when its hash is the listed one |
| Rebuild.RowsAreMarkedOnce | mailindex/src/index/rebuild.rs:187-204 | every listed row has one transaction, no other touches it, and if it is indexed in the end it is as that one left it |
| Rebuild.RebuildIndex | mailindex/src/index/rebuild.rs:106-209 | for every fate of every operation a working index stays in place and existing siblings are untouched; success leaves only the new index, has listed every row and marked each in its transaction; an index in use is refused; if nothing fails, no server is up, both names are free and no row is added before the count, it succeeds |
| Rebuild.DropTemporary | mailindex/src/index/rebuild.rs:52-76 | removes at most the temporary index and its manifest |
| BackfillSql.ParsePrintDisj | mailmux/src/db/emails.rs:173-241 | reading printed conditions back with the precedence of SQL gives the same tree |
| BackfillSql.QueryBuilder.PushBind | mailmux/src/db/emails.rs:173-241 | the i-th bound value is the one of placeholder i |
| BackfillSql.QueryBuilder.PushAny | mailmux/src/db/emails.rs:180-201 | the loop with its separators prints the alternatives over consecutive placeholders |
| BackfillSql.QueryBuilder.PushSources | mailmux/src/db/emails.rs:207-229 | the nested loops print the source conditions and bind their values in order |
| BackfillSql.AppendBackfillFilters | mailmux/src/db/emails.rs:173-241 | pushes exactly the printed conjunction of the compiled filter and its binds |
| BackfillSql.SourceMeans | mailmux/src/db/emails.rs:207-229 | the condition of one source is true exactly of the rows the source matches in memory |
| BackfillSql.CompiledMeansAccepts | mailmux/src/db/emails.rs:148-165 | all conditions are true under three-valued logic exactly of the rows dated from the lower bound up to but not on the upper one, and of a listed account, mailbox, id and source, where such are listed |
| BackfillSql.BuildCountQuery | mailmux/src/db/emails.rs:244-248 | builds the tokens and binds of the COUNT query |
| BackfillSql.BuildPageQuery | mailmux/src/db/emails.rs:254-265 | builds the tokens and binds of the page query |
| BackfillSql.CountQueryCounts | mailmux/src/db/emails.rs:244-248 | executing the COUNT query counts exactly the accepted rows |
| BackfillSql.PageQuerySelects | mailmux/src/db/emails.rs:254-265 | executing the page query yields the first accepted rows above the cursor, ascending, up to the limit |
| BackfillSql.CountAndPageAgree | mailmux/src/db/emails.rs:244-265 | both queries select the same rows |
| BackfillSql.NullDateNeverSelected | mailmux/src/db/emails.rs:152-156 | a row without a date never passes a date bound |
| BackfillRun.ExecuteEmailWithRetries | mailmux/src/backfill.rs:410-460 | succeeds exactly when one of the first max_retries + 1 (saturating) attempts does, naming the first; sleeps by the schedule in between |
| BackfillRun.DelayMatchesScheduler | mailmux/src/backfill.rs:465-471 | a backfill waits as long as the scheduler does after as many attempts |
| BackfillRun.ExecutePage | mailmux/src/backfill.rs:283-336 | chunk by chunk, stopping after the first chunk with a failure exactly when fail-fast is set |
| BackfillRun.RunBackfill | mailmux/src/backfill.rs:210-357 | for every page source: processed = succeeded + failed and selected = processed + skipped; a dry run hands out nothing |
| BackfillRun.RunEndsForAReason | mailmux/src/backfill.rs:249-352 | a run skips selected emails only after a failing page request, which is its only error, after a page that found nothing, or with fail-fast after a failure |
| BackfillRun.CapSelected | mailmux/src/backfill.rs:197-203 | the smaller of the matches and the limit; nothing for a negative count |
| BackfillRun.HandedAscend | mailmux/src/backfill.rs:253-339 | no page source makes a run hand out an email twice |
| BackfillRun.BackfillRefinesSelection | mailmux/src/backfill.rs:244-339 | on a fixed table exactly the first selected matches are handed out, ascending; with fail-fast the prefix that ends at the first chunk with a failure |
| BackfillRun.MatchedIsCount | mailmux/src/backfill.rs:172-173 | the count a run starts from is the number of matches |
| IncrementalSync.Mailbox.InsertEmailWithEvent | mailmux/src/db/events.rs:41-108 | email and event together; an existing email gets no second event |
| IncrementalSync.Mailbox.IngestMessage | mailmux/src/imap/sync.rs:454-486 | a failed insert stores nothing and is not counted |
| IncrementalSync.SyncBatch | mailmux/src/imap/sync.rs:332-367 | fetch, inserts and checkpoint of one batch, or a stop somewhere inside it |
| IncrementalSync.DoIncrementalSync | mailmux/src/imap/sync.rs:231-378 | one run, stopped after any number of effects, does what the run relation says; it completes exactly when it is not stopped, for which three effects per message and three more suffice, and returns the number of new emails |
| IncrementalSync.ResumedRunStores | mailmux/src/imap/sync.rs:247-285 | with a stored UID of the same UIDVALIDITY a complete run adds exactly the messages above it and moves the checkpoint to the newest |
| IncrementalSync.FirstRunStores | mailmux/src/imap/sync.rs:247-287 | with no stored state, another UIDVALIDITY or UID 0, and no start date or cap, it adds every message from UID 1 on and leaves a checkpoint of the server's epoch |
| IncrementalSync.LimitedFirstRunStores | mailmux/src/imap/sync.rs:288-317 | with a start date or a cap it adds at least the newest eligible messages and nothing older than those |
| IncrementalSync.CheckpointAdvances | mailmux/src/imap/sync.rs:327-364 | the stored UID never decreases, and only UIDs above it are stored |
| IncrementalSync.SyncConverges | mailmux/src/imap/sync.rs:231-378 | any interrupted runs and a complete one store exactly the goal of the first on top of what was there, one event per email; with a start date at least the goal |
| IncrementalSync.GoalAboveCheckpoint | mailmux/src/imap/sync.rs:268-317 | above a checkpoint the goal is everything newer |
| IncrementalSync.GoalOfFirstSync | mailmux/src/imap/sync.rs:288-314 | on a first sync the goal is the newest of the messages since the start date, as many as configured, or all |
| IncrementalSync.StoresAllIffNoInsertFailed | mailmux/src/imap/sync.rs:350-354 | a complete run stores its goal exactly when no insert of a new message failed |
| IncrementalSync.FailedInsertIsPassed | mailmux/src/imap/sync.rs:477-486 | the checkpoint of a complete run is at or above a failed insert |
| IncrementalSync.FailedInsertIsLost | mailmux/src/imap/sync.rs:477-486 | below the checkpoint a missing message is never stored in the same epoch |
| TransferStore.FirstToFire | mailtx/src/transfer.rs:65-81 | the first rule whose account and keywords match decides |
| TransferStore.FiresMeans | mailtx/src/transfer.rs:63-86 | a rule applies to a withdrawal by its source account and withdrawal keywords, to a deposit by its destination account and deposit keywords; all must occur, in any ASCII case |
| TransferStore.FirstFiringRuleDecides | mailtx/src/transfer.rs:65-98 | the first rule that applies gives id and both accounts, or no match at all if one account is unknown |
| TransferStore.FirstAccountIsFound | mailtx/src/transfer.rs:99-106 | an account id stands for the first account of that id |
| TransferStore.MatchNamesOwnAccount | mailtx/src/transfer.rs:57-106 | the match's account on the email's side is the configured one of the resolved account |
| TransferStore.RuleIdNamesAccounts | mailtx/src/transfer.rs:87-92 | without colons in source account ids a rule id determines both accounts |
| TransferStore.PendingStore.InsertLeg | mailtx/src/transfer.rs:306-332 | adds the leg unless its external id is stored; says which |
| TransferStore.PendingStore.FindMatch | mailtx/src/transfer.rs:282-303 | an oldest counterpart of the same rule and amount within the window, none exactly when there is none |
| TransferStore.PendingStore.DrainExpired | mailtx/src/transfer.rs:205-270 | exactly the rows past the window, oldest first |
| TransferStore.DeleteMeans | mailtx/src/transfer.rs:273-278 | a delete removes exactly the rows of that id |
| TransferStore.DeleteRemovesOne | mailtx/src/transfer.rs:273-278 | with unique ids a delete takes out the one row and keeps the order of the others |
| TransferStore.InsertKeepsKeys | mailtx/src/transfer.rs:186-192 | row ids and non-null external ids stay unique |
| TransferLedger.Endpoint.PostTransaction | mailtx/src/endpoint/firefly.rs:190-225 | a known external id is accepted without posting; else posts unless refused; an answer may be lost |
| TransferLedger.StepIsSafe | mailtx/src/main.rs:70-117 | unique ids and the states between a post and its delete survive every step and stop |
| LedgerRuns.OneTransactionPerId | mailtx/src/endpoint/firefly.rs:190-225 | over all runs the ledger holds at most one transaction per external id, and pending external ids are distinct |
| TransferLedger.RowsLeaveOnlyPosted | mailtx/src/main.rs:95-106 | a leg only leaves the table after a post was accepted under its own or its partner's id |
| LedgerConservation.FlushConserves | mailtx/src/main.rs:70-117 | flushing an expired leg moves its effect from the table to the ledger |
| LedgerConservation.TransferEffects | mailtx/src/main.rs:244-275 | a transfer has the effect of its two legs on every account exactly when the accounts fit |
| LedgerConservation.LegEffects | mailtx/src/main.rs:276-307 | a stored leg has the effect of its email exactly when its account fits |
| LedgerConservation.HandleConservesIff | mailtx/src/main.rs:224-340 | handling a fresh email conserves every account exactly when the accounts fit |
| LedgerConservation.FittingEmailConservesIff | mailtx/src/main.rs:224-340 | for every answer of the endpoint, handling a fresh, fitting email conserves exactly unless the answer to an accepted transfer of money is lost |
| LedgerConservation.LostTransferConservesIff | mailtx/src/main.rs:252-275 | a transfer whose answer is lost conserves exactly when it moves nothing |
| LedgerConservation.StopConservesIff | mailtx/src/main.rs:254-256 | a stop conserves exactly when it does not fall between an accepted post and its delete |
| LedgerConservation.RetryRepairsCoalesce | mailtx/src/main.rs:244-256 | handling the same email again after such a stop restores conservation |
| LedgerRepeats.RepeatConservesIff | mailtx/src/main.rs:224-340 | handling an email again conserves every account exactly when its post is known, its leg is still stored, or the new posting replaces exactly the stored legs |
| LedgerRepeats.CoalescedIsForgotten | mailtx/src/main.rs:244-275 | after a coalesced leg is deleted its id is neither stored nor in the ledger |
| LedgerRepeats.CoalescedLegComesBack | mailtx/src/main.rs:276-307 | its email, handled again without a counterpart, stores the leg a second time and breaks conservation |
| LedgerRuns.LedgerConserves | mailtx/src/main.rs:70-340 | at every moment of every orderly run, for every account, posted and pending effects equal the sum of the handled emails' effects |
| LedgerRuns.CollidingIdsLoseMoney | mailtx/src/transfer.rs:87-92 | an orderly run over account ids with colons that takes money from an account no email mentions |
| MailtxRun.FlushExpired | mailtx/src/main.rs:70-117 | a flush, cut off anywhere, is a run of the ledger and handles no email; uncut, exactly the expired rows whose posts were accepted are gone and every post that was not refused is in the ledger; it conserves the ledger |
| MailtxRun.HandleEmail | mailtx/src/main.rs:224-340 | post, store or coalesce by the rule, as a run of the ledger; a coalesced email leaves exactly the old rows without the matched one, a first leg is added, any other result leaves the table; unless cut off, a fresh, fitting email conserves the ledger exactly unless the answer to a transfer is lost |
| MailtxRun.Run | mailtx/src/main.rs:54-343 | a whole invocation, cut off anywhere, is a run of the ledger; one that is not cut off, for a fresh email with resolved accounts, conserves the ledger exactly unless the answer to a transfer is lost |

## Left out

- IMAP transport, TLS, IDLE and wire parsing: the server is a set of UIDs.
- PostgreSQL, Turso, SQLite and Tantivy internals, LISTEN/NOTIFY and scoring: only the statements, commits and row locks the protocols rely on.
- HTTP, authentication, MCP, views, health, metrics, logging and the command line: no state that the protocols depend on.
- MIME, HTML and PDF extraction, SHA-256, regular expressions for account matching, language models: their results are inputs.
- Messages, outputs and other texts of a job: the protocol writes fixed texts in their place.
- Shutdown signals and grace periods: a stop may come after any effect.
- Narration, category, tags and dates of a transaction: passed through unchanged; amounts are whole cents.
- `reset_job_for_replay`, `mark_indexed_any` and attempt increments by the final write: nothing calls them.
- JobInvariant.StepKeepsInv: any job id may be picked, so the order and limit of the sweep's scan are not part of it; a statement that waits for a lock does not run until the lock is free.
- Scheduler.RetrySweep: whether an event can be loaded and the scan are inputs; the scan has at most 50 due rows, because its order uses a creation time that the table does not carry here.
- JobExecution.ExecuteJob: a statement on a row that stays locked, a failed statement and a death of the process all end as an interruption.
- IndexRuns.ServedIndexAgrees: at the level of hashes; producer metadata is not hashed, and a row and its attachments are read by separate statements, so the content of an entry may be newer or mixed. Runs with a step that is not careful are excluded; each such step breaks the invariant (`IndexSteps.StepKeepsInvIff`).
- IndexSteps.StepKeepsInvIff: one rebuild process at a time. What a server does after a rebuild that holds no lock has moved its open directory away is not modelled; that step is not careful.
- IndexDrain.Drain: no uploads during the drain and no failing database statement; both are steps of the index protocol.
- Rebuild.RebuildIndex: no server is started between its beginning and its last mark (`IndexOverlap` says what one could do); an active directory without a `meta.json` is not modelled; a manifest path that exists already under a fresh name would be overwritten.
- IncrementalSync.SyncConverges: within one UIDVALIDITY epoch, with a stable server that returns exactly the requested ranges in ascending order and without failed inserts; the wrap of a stored UID of 2^32 - 1 is not modelled. With a start date the result is a lower and an upper bound, since ranges and resumed runs also fetch what the date filtered out.
- IncrementalSync.Mailbox.IngestMessage: an insert whose commit succeeds while its answer is lost is not modelled.
- BackfillRun.RunBackfill: the calls of one chunk are made one after the other; the progress log is left out.
- BackfillSql.CountQueryCounts: the text up to and including WHERE is one token, and texts are compared for equality only.
- EventPolling.NoStarvation: needs error-free batches and that no smaller id becomes undispatched.
- Rules of retry jitter, rate limits and cooldown lengths: bounded waiting without effect on state.
