# The transcription service's queue, acks and trash retention, verified

This project models the core of the local transcription service in Dafny and proves what it is built
to guarantee: the lease-based job queue in SQLite with any number of workers, the acknowledgement
protocol that moves transcripts to the trash, the retention passes that empty the trash, the textual
timestamps all of it compares, and the failure counter.

`dafny verify dfyconfig.toml` checks everything.

## How the model is built

**Layers.** The code that changes things step by step is imperative here too, and every such method is
proved against a specification whose properties are then proved for all inputs or all runs.

| layer | modules |
|---|---|
| values and their texts | `Timestamps`, `Jobs` |
| what each SQL statement means on a table of jobs | `JobTable` |
| the store as a class over text rows, and the counter class | `JobStore`, `Metrics` |
| the queue, then the whole service, as a transition system | `Queue`, `Service` |
| what every reachable state and every run keeps | `QueueInvariant`, `QueueTheorems`, `Draining`, `AckTheorems`, `AckRaces` |
| the worker's loop and its iterations, one ack, one result request, run among all others | `Runtime`, `Iterations`, `Worker`, `Ack` |
| the retention policy, its theorems, racing passes, run_cleanup | `Retention`, `RetentionTheorems`, `WalkOrder`, `Cleanup`, `RunCleanup` |

**Transition system.** A state holds the rows, one program counter with local snapshot per worker, the
files, a monotone clock, the counter, and the ack requests in progress, each with its own program
counter. One event is one SQL statement, one file operation, one counter update or one clock tick.
Events interleave in any order. `claim` is two events, the UPDATE and the later `get`, which may see
another worker's lease. Any worker may crash at any point, which also stands for cancellation, a
database exception and a write that fails before creating the file; a write may also fail after
creating it. Any ack may be cut off between any two steps, and its rename may be refused. A clock
reading used by a statement may be any earlier value of the clock. Lease tokens and job ids are fresh
when drawn. The state also keeps a history that nothing reads: per job its claims, how each lease
ended and its pipeline starts; tokens issued; first claims in order; counts made, refused and lost.

**Code among others.** `Runtime`, `Worker` and `Ack` hold the methods as the code runs them. Wherever
the code awaits, and between two file operations of an ack, a method calls `Others`, whose contract
promises only that the system took some run of events and this caller's own program counter stayed
put; its body does nothing, and callers can rely on the contract alone. Every action is recorded as an event of the transition system, so a method's contract says its
real steps are a run of the system, and every theorem about runs applies to it.

**Text.** `JobStore` keeps the rows as SQLite has them, times as text, and compares text. The proof
that each statement nevertheless decides as the timestamps would rests on `Timestamps.TextOrder`: the
written form has no fraction when the microseconds are 0, so two texts may differ in length, and the
order still agrees because `+` sorts before `.`. Section 5.1 of RFC 3339 promises this only for equal
fraction digits.

## Where the code and its documentation differ

The model follows the code.

- `CleanupReport` documents `kept` as the files not selected (retention.py:164-189). The code computes
  walked minus deleted minus already gone, so files whose unlink failed count as kept
  (`Cleanup.KeptCountsAFailedUnlink`), and a dry run counts every file. The count is as documented exactly
  when no unlink failed (`Cleanup.KeptMeansUnselected`), in a dry run exactly when nothing is selected
  (`RunCleanup.TrashFolder.RunCleanup`).
- HLD-001 section 12 says a full disk marks the job failed. The `OSError` of `write_text` leaves
  `process_one` (worker.py:205-207), the row keeps its lease, and the job is reclaimed later.
- HLD-001 section 9 draws `attempt++` on the reclaim arrows. Only `claim` increments it.
- The transition list in models.py:18-25 has only PROCESSING -> FAILED and no deferral. A CLAIMED job is
  failed too when its attempts are used up (worker.py:166-182), and PROCESSING returns to QUEUED by
  `defer_retry`.
- `MoveOutcome.moved` is documented twice: as "this call performed the rename" on the field and as "or
  was already in the trash" on the function. The code does the first.
- `transcripts.py` and the ack handler promise that retries converge. The exact condition is that the
  rename is neither refused nor overtaken (`AckRaces.ConvergesUnlessRenameLost`). Two acks of one job in
  different processes can overtake each other between the existence check and the rename; the slower
  one then answers `transcript_moved=False` (`AckRaces.SlowerAckIsTold`). A later ack that meets no fault
  and no interference converges (`AckTheorems.AckConverges`).
- Cleanup is meant to run beside other cleanup processes (retention.py:164-181). The sort is stable, so files of one
  mtime keep the order in which the directory was listed, and passes that list it differently can delete
  together what either would keep (`Cleanup.TwoPassesDeleteBothTies`). They never do if they list in one
  order (`Cleanup.OrderedPassesNeverDeleteMore`), or, in any orders, exactly when the ties are safe
  (`Cleanup.NeverDeleteMoreExactlyWhenTiesAreSafe`): any two files of one mtime that are within the TTL
  are either all within the cap together with everything newer, or neither fits beside what is newer.

## Model

| member | source | states |
|---|---|---|
| Timestamps.ParseOfIso | src/local_transcription_service/models.py:131-146 | Parsing the written form of any UTC datetime gives it back, with or without a fraction |
| Timestamps.TextOrderIsTimeOrder | src/local_transcription_service/queue/store.py:499-509 | Byte order of two written UTC datetimes is time order, although their lengths may differ |
| Timestamps.TailOrder | src/local_transcription_service/queue/store.py:499-509 | The case RFC 3339 leaves out: a missing fraction sorts below every fraction of the same second |
| Timestamps.TextOrder | src/local_transcription_service/queue/store.py:178-188 | On the time line: `<` and `<=` on texts are `<` and `<=` on instants, equal texts are equal instants, and a written instant parses to itself |
| Timestamps.WrittenForm | src/local_transcription_service/queue/store.py:499-509 | The written form, on a moment without and one with microseconds |
| Timestamps.At | src/local_transcription_service/queue/store.py:499-509 | Every instant of the years 1 to 9999 is the position of a valid calendar datetime, leap years included |
| Timestamps.KnownMoments | src/local_transcription_service/queue/store.py:499-509 | The Unix epoch and the days after February 1900 and 2000 are where the calendar has them |
| Jobs.RoundTrip | src/local_transcription_service/models.py:78-128 | `from_row(to_row(job))` is the job, for every job |
| Jobs.RowColumns | src/local_transcription_service/models.py:78-96 | Each column of the row says what its field says: status in lower case, times as text, the retryable flag as 1 or 0, absent values as NULL |
| JobStore.TextSelectsTheSame | src/local_transcription_service/queue/store.py:178-188 | The claim subquery's textual WHERE and ORDER BY choose the same rows as the real timestamps |
| JobStore.TextExpiredIsExpired | src/local_transcription_service/queue/store.py:415-422 | The textual lease test expires exactly the leases that are over |
| JobStore.JobStore.Submit | src/local_transcription_service/queue/store.py:111-141 | Adds one QUEUED row with that url and creation time, attempt 0 and every other column empty, or nothing when the id is taken |
| JobStore.JobStore.ClaimUpdate | src/local_transcription_service/queue/store.py:166-196 | Claims one due row and changes only it: CLAIMED under the token and lease, attempt one up. A row never deferred goes before every deferred one, the older first; deferred rows go by retry time, then age. None exactly when no row is due |
| JobStore.JobStore.MarkProcessing | src/local_transcription_service/queue/store.py:199-222 | A CLAIMED row under this token becomes PROCESSING and gets its start time; nothing else changes, and the result says whether it did |
| JobStore.JobStore.MarkDone | src/local_transcription_service/queue/store.py:224-254 | A PROCESSING row under this token becomes DONE with path and finish time and loses its lease; nothing else changes, and the result says whether it did |
| JobStore.JobStore.MarkFailed | src/local_transcription_service/queue/store.py:256-290 | A CLAIMED or PROCESSING row under this token becomes FAILED with the error and finish time and loses its lease; nothing else changes, and the result says whether it did |
| JobStore.JobStore.DeferRetry | src/local_transcription_service/queue/store.py:292-329 | A CLAIMED or PROCESSING row under this token becomes QUEUED with the retry time and loses its lease; nothing else changes, and the result says whether it did |
| JobStore.JobStore.ReclaimExpired | src/local_transcription_service/queue/store.py:404-427 | Every CLAIMED or PROCESSING row whose lease ended before now becomes QUEUED without a lease and is otherwise unchanged, retry time and attempt included; every other row is unchanged; returns how many it released |
| JobStore.JobStore.MarkAcked | src/local_transcription_service/queue/store.py:362-376 | Sets acked_at once, on a DONE row without one; reports whether this call did |
| JobStore.JobStore.UpdateTranscriptPath | src/local_transcription_service/queue/store.py:381-400 | Overwrites the path of that row only |
| JobStore.JobStore.Get | src/local_transcription_service/queue/store.py:458-469 | Decoding the text row gives exactly the job stored, None only for an unknown id |
| Metrics.ErrorRateCounter.Increment | src/local_transcription_service/metrics.py:55-63 | Counts one; counts + ticked + reset-away stay equal to all increments, per code |
| Metrics.ErrorRateCounter.Tick | src/local_transcription_service/metrics.py:65-73 | Hands out all counts and empties the counter, conserving them |
| Metrics.ErrorRateCounter.Reset | src/local_transcription_service/metrics.py:75-82 | Empties the counter; what it throws away is accounted for |
| QueueInvariant.InvStep | src/local_transcription_service/worker.py:147-367 | Every event by any worker, reclaim, submit or crash keeps the queue's invariant on rows, leases, tokens, history, order and counts |
| QueueInvariant.NoRevival | src/local_transcription_service/queue/store.py:172-190 | A row never takes back a token it stopped carrying |
| Service.SInvStep | src/local_transcription_service/api/jobs.py:250-331 | Queue events and ack steps together keep the service's invariant, files included |
| Service.RunKeepsInv | src/local_transcription_service/worker.py:109-143 | So does every run, of any length and interleaving |
| Service.DoneIsAbsorbing | src/local_transcription_service/queue/store.py:224-254 | No queue event changes a DONE row in any column |
| QueueTheorems.PipelineStarts | src/local_transcription_service/worker.py:159-196 | In every interleaving a job's pipeline starts at most max_attempts times, with pairwise distinct attempt numbers in 1..max_attempts |
| QueueTheorems.EnteringThePipeline | src/local_transcription_service/worker.py:184-196 | A worker enters the pipeline only by a successful mark_processing of the row it holds, and that start is the one recorded, under that row's attempt |
| QueueTheorems.AttemptBudget | src/local_transcription_service/worker.py:166-182 | attempt <= max(1, max_attempts) + times reclaimed, in every reachable state |
| QueueTheorems.MaxAttemptsBranchNeedsReclaims | src/local_transcription_service/worker.py:166-182 | With max_attempts >= 1 the MAX_ATTEMPTS branch is reached only by jobs reclaimed at least that many times |
| QueueTheorems.RetryableFailureIsTheLastAttempt | src/local_transcription_service/worker.py:325-357 | A FAILED row with a retryable error has attempt exactly max_attempts |
| QueueTheorems.FallThroughChangesNothing | src/local_transcription_service/worker.py:346-357 | After a refused defer_retry the fall-through mark_failed changes no row |
| QueueTheorems.ErrorsAreKept | src/local_transcription_service/worker.py:325-367 | A job is deferred, failed and counted with the error its pipeline raised; below max_attempts a retryable one goes to the defer |
| QueueTheorems.MaxAttemptsInFields | src/local_transcription_service/worker.py:159-184 | A fetched job goes to the pipeline if and only if attempt <= max_attempts; above it fails as MAX_ATTEMPTS, not retryable, with the limit in the message |
| QueueTheorems.LeaseAccounting | src/local_transcription_service/queue/store.py:166-196 | In every reachable state attempt = reclaims + defers + (1 if terminal) + (1 if active); every claim opened one lease, every lease but an active one has exactly one end; DONE means one completed, FAILED one given up |
| QueueTheorems.LeaseEndsAreFinal | src/local_transcription_service/queue/store.py:236-422 | A lease end, once recorded, is never rewritten, in any continuation |
| QueueTheorems.RetiredForGood | src/local_transcription_service/queue/store.py:199-329 | Once no row carries a token, no mark_processing, mark_done, mark_failed or defer_retry with it succeeds or changes a row, in any continuation |
| QueueTheorems.DroppedTokensRetire | src/local_transcription_service/queue/store.py:236-422 | A row that drops a token leaves no row carrying it |
| QueueTheorems.FirstClaimsAreFifo | src/local_transcription_service/queue/store.py:178-188 | If A was in the table, created earlier, when B was first claimed, A had been claimed before, whatever defers and reclaims occurred |
| QueueTheorems.FreshJobsGoFirst | src/local_transcription_service/queue/store.py:178-188 | In every run a job that was ever deferred is claimed only when every queued job was; a never-deferred queued job is no older than the claimed one, and a due deferred one not before it |
| QueueTheorems.BackoffIsRespected | src/local_transcription_service/worker.py:325-333 | The claim after a defer reads a clock at least retry_backoff_seconds after the failure's reading, and until then the row's retry time is exactly that; no lease is reclaimed before its expiry |
| QueueTheorems.SecondsAreSeconds | src/local_transcription_service/queue/store.py:166-168 | Lease and backoff seconds are the calendar's: a claim's lease ends lease_ttl_seconds after its reading |
| QueueTheorems.ReclaimedIsEligible | src/local_transcription_service/queue/store.py:404-427 | In every reachable state a reclaimed job is eligible at the current clock: its leftover retry time is past, since the lease's claim was |
| QueueTheorems.ErrorCountsAreConserved | src/local_transcription_service/worker.py:353-367 | Per code: ticked + counted + still owed + lost to crashes = FAILED rows + refused mark_failed calls |
| QueueTheorems.CounterIsExact | src/local_transcription_service/worker.py:166-182 | With no reclaim and no crash between failing and counting, the counter equals the FAILED rows per code |
| Draining.ClaimsAreBounded | src/local_transcription_service/worker.py:147-226 | In every run: claims made + work left <= work at the start + max(1, max_attempts) per submit + one per reclaimed lease |
| Draining.BudgetInFields | src/local_transcription_service/worker.py:147-226 | The bound in numbers: a queued job is worth max(1, max_attempts - attempt), a submit max(1, max_attempts), a reclaim the number of leases over |
| Draining.DrainingTerminates | src/local_transcription_service/worker.py:147-226 | Without submits and reclaims, any number of workers claim at most the sum of max(1, max_attempts - attempt) over the queued jobs, for any pipeline outcomes |
| Worker.Worker.ClaimLoop | src/local_transcription_service/worker.py:237-260 | Every turn is one iteration with its own result, among any interference, at an ascending point of the run; the claims made are the busy turns plus at most the broken ones; busy turns plus the work left are at most the work there was plus what submits and reclaims brought, so without those at most the sum of max(1, max_attempts - attempt); a broken turn has a reason; an idle turn saw every queued job wait for a time later than its reading |
| Worker.Worker.ProcessOne | src/local_transcription_service/worker.py:147-226 | Among any interference, the iteration's own steps are exactly process_one's on the row its claim fetched, with every reading made during the call: MAX_ATTEMPTS above the limit; a failed pipeline carries the PipelineError's own code, message and flag, or PIPELINE_TRANSIENT and retryable for any other exception; a retryable error below max_attempts is deferred, and the job is failed after that only if the defer was refused; a transcript is written before mark_done. True took one claim, False none, and after False every queued job waits for a time later than a reading made during the call; it raises only for a stated reason |
| Worker.Worker.HandlePipelineFailure | src/local_transcription_service/worker.py:306-367 | A retryable error below max_attempts: one defer, and mark_failed and count only if the defer was refused. Any other error: mark_failed and count. It raises only on a database fault or a date out of range |
| Worker.Worker.DeferRetry | src/local_transcription_service/worker.py:325-345 | Deferred if and only if the row was active under the job's token; then the row alone is QUEUED with a retry time retry_backoff_seconds after a reading made during the call |
| Worker.Worker.WriteTranscript | src/local_transcription_service/worker.py:205-207 | A write that fails ends the iteration, with or without a file behind; the write changes no row, so the job keeps its lease until it is reclaimed |
| Worker.Worker.ReclaimOnce | src/local_transcription_service/worker.py:228-233 | One reclaim statement with a reading made during the call: afterwards no CLAIMED or PROCESSING row has a lease that ended before it, the released rows are those that had, otherwise unchanged, and the count is their number |
| Runtime.Runtime.Submit | src/local_transcription_service/queue/store.py:111-141 | The INSERT succeeds if and only if the id was free at that moment; then, and only then, one submit event is recorded and the row holds the url and, as creation time, a reading made during the call; afterwards the id has a row |
| Runtime.Runtime.TickCounter | src/local_transcription_service/metrics.py:65-73 | A tick is one event of the system: its snapshot joins the history of ticks |
| AckTheorems.TranscriptIsNeverLost | src/local_transcription_service/queue/transcripts.py:80-159 | In every reachable state a DONE job has a file at its recorded path or at trash/basename(path) |
| AckTheorems.MissingExactlyWhileHalfMoved | src/local_transcription_service/api/jobs.py:131-174 | TRANSCRIPT_MISSING is answered if and only if the file was moved and the recorded path has not followed |
| AckTheorems.AcksAgree | src/local_transcription_service/api/jobs.py:188-356 | All accepted acks of a job carry the row's acked_at, and at most one says it was the first |
| AckTheorems.AckedAtIsForever | src/local_transcription_service/queue/store.py:362-379 | acked_at never changes once set, in any continuation |
| AckTheorems.FinishedIsForever | src/local_transcription_service/queue/store.py:224-254 | A DONE job stays DONE and a trashed transcript stays in the trash, in any continuation |
| AckTheorems.AckConverges | src/local_transcription_service/api/jobs.py:250-331 | From any reachable state, one ack of a DONE job without fault or interference ends within ten steps with the file and the path in the trash, transcript_moved true and the result served |
| AckRaces.ConvergesUnlessRenameLost | src/local_transcription_service/queue/transcripts.py:132-152 | Under any interference and any faults, an accepted ack has moved the transcript, with row, response and result agreeing, if and only if its rename was neither refused nor overtaken; transcript_moved says which, and the response's path is in the trash or in results accordingly |
| AckRaces.SlowerAckIsTold | src/local_transcription_service/queue/transcripts.py:90-152 | From any state with a DONE job still in results, a run of two fault-free acks whose slower one is accepted with transcript_moved false |
| AckRaces.UnmovedIsReachable | src/local_transcription_service/worker.py:147-226 | Such a state is reachable: one worker takes a submitted job to DONE |
| AckRaces.AloneLosesNothing | src/local_transcription_service/api/jobs.py:250-331 | An ack that runs alone and meets no fault loses no rename |
| AckTheorems.MovedIfGone | src/local_transcription_service/api/jobs.py:131-174 | A DONE row read at any earlier time still leads to the file: where it said, or in the trash |
| Ack.AckEndpoint.AckJob | src/local_transcription_service/api/jobs.py:188-356 | Among any interference the response is the system's response and is true when sent; 503 only if one of the five statements raised; already_acked tells whether acked_at was set before this ack's UPDATE, and a first ack's acked_at is a reading made during the call; an accepted ack has converged, and says so, if and only if its rename was neither refused nor overtaken |
| Ack.AckEndpoint.PreFlight | src/local_transcription_service/api/jobs.py:250-268 | 404 if and only if the job is unknown, 409 if and only if it is known and not DONE |
| Ack.AckEndpoint.MoveToTrash | src/local_transcription_service/queue/transcripts.py:42-159 | A destination returned is trash/basename(source) and holds the file, whoever moved it; `moved` also means the source is gone |
| Ack.AckEndpoint.Rename | src/local_transcription_service/queue/transcripts.py:132-159 | Moved if and only if a destination is returned; then the file is there and not at the source |
| Ack.AckEndpoint.Discover | src/local_transcription_service/queue/transcripts.py:90-113 | With the source gone, the outcome is the canonical trash file if and only if it is there |
| Ack.AckEndpoint.ResponseHolds | src/local_transcription_service/api/jobs.py:318-356 | An accepted response's acked_at is the row's, and transcript_moved means the file is in the trash |
| Ack.ResultEndpoint.ServeResult | src/local_transcription_service/api/jobs.py:131-174 | 404 and 410 exactly for unknown, unfinished and failed jobs; a path served is the recorded one and holds the file; TRANSCRIPT_MISSING if and only if the job was DONE and its recorded path holds no file, and then the transcript is in the trash by now |
| Retention.SortSorts | src/local_transcription_service/retention.py:122 | Sorting by mtime is ascending and a permutation |
| Retention.SortCommutesWithout | src/local_transcription_service/retention.py:122 | The stable sort commutes with taking any files away |
| Retention.RetentionPolicy.SelectForDeletion | src/local_transcription_service/retention.py:93-161 | In days and bytes: a prefix of the stable mtime order with every file older than ttl_days * 86400 seconds; what is kept is younger and within the cap, and the last file selected was stale or did not fit beside it. With all files within the cap, exactly the stale ones |
| Retention.RetentionPolicy.SizePass | src/local_transcription_service/retention.py:142-156 | Selects a prefix of the survivors that is enough, and one file fewer is not |
| Retention.RetentionPolicy.TtlPass | src/local_transcription_service/retention.py:125-133 | Splits the sorted files at ttl_days * 86400 seconds before now, keeping their order |
| RetentionTheorems.SelectionIsLeast | src/local_transcription_service/retention.py:93-161 | Selected and kept files make up the stable mtime order; what is kept is within TTL and cap; dropping k oldest files achieves that if and only if k is at least the selection's length |
| RetentionTheorems.SortKeepsTies | src/local_transcription_service/retention.py:122 | Files of equal mtime keep the order of the walk |
| RetentionTheorems.NoPassSelectsMore | src/local_transcription_service/retention.py:93-161 | For any set of files missing from a walk in the same order and any now <= T, the selection is contained in the full selection at T |
| RetentionTheorems.PassesCompose | src/local_transcription_service/retention.py:93-161 | Selecting at now2 is selecting at now1 and then, among the files left, at now2 |
| RetentionTheorems.SecondPassIsIdle | src/local_transcription_service/retention.py:93-161 | A second pass at the same time selects nothing |
| RetentionTheorems.LeftIsKept | src/local_transcription_service/retention.py:120-161 | The files left by a pass, in mtime order, are the tail it kept |
| WalkOrder.WalksAgreeExactlyWhenTiesAreSafe | src/local_transcription_service/retention.py:120-161 | Every walk of the same files selects the same set if and only if the ties are safe, a condition on the files alone |
| WalkOrder.SelectedByAge | src/local_transcription_service/retention.py:120-161 | Under that condition a file is selected over any walk if and only if it is stale or the files at least as young exceed the cap |
| WalkOrder.AnyWalkSelectsNoMore | src/local_transcription_service/retention.py:93-161 | Under that condition a walk that sees some of the files, in any order, at any time up to T, selects nothing that a pass over all at T keeps |
| WalkOrder.WalksDisagree | src/local_transcription_service/retention.py:120-122 | Otherwise some file is selected over one walk and kept over another |
| Cleanup.PassesNeverDeleteMore | src/local_transcription_service/retention.py:252-388 | However many passes race over however ordered listings, fail half-way or repeat up to time T, while files arrive, no file is deleted that one pass over all of them at T would keep over any walk, if the ties are safe at T |
| Cleanup.NeverDeleteMoreExactlyWhenTiesAreSafe | src/local_transcription_service/retention.py:252-388 | That holds of every run, whatever files arrive meanwhile, if and only if the ties are safe at the latest time |
| Cleanup.OrderedPassesNeverDeleteMore | src/local_transcription_service/retention.py:252-388 | Passes that list in one order never delete more than one pass at the latest time, ties or not |
| Cleanup.TwoPassesDeleteBothTies | src/local_transcription_service/retention.py:252-388 | A run of two passes that list two tied files in opposite orders and delete both, where either alone keeps one |
| Cleanup.CountersAddUp | src/local_transcription_service/retention.py:327-388 | `deleted` and `freed_bytes` of all passes sum exactly to the files and bytes gone, at every moment |
| Cleanup.CleanPassMeetsThePolicy | src/local_transcription_service/retention.py:252-388 | Once a pass has finished without a stat or unlink error, what is left of the files there when it began is within TTL and cap, whatever other passes did |
| Cleanup.KeptMeansUnselected | src/local_transcription_service/retention.py:164-189 | `kept` is the number of unselected files plus failed unlinks: as documented if and only if no unlink failed |
| Cleanup.KeptCountsAFailedUnlink | src/local_transcription_service/retention.py:327-388 | A run with a failed unlink, after which `kept` counts a selected file |
| RunCleanup.TrashFolder.RunCleanup | src/local_transcription_service/retention.py:192-388 | The pass this call made is one pass of the racing-passes system, and its report is that pass's counters; it sees every file there whose stat works, and every selected file whose unlink works is gone afterwards; a dry run unlinks nothing, and reports as documented if and only if nothing is selected |
| RunCleanup.TrashFolder.UnlinkEntry | src/local_transcription_service/retention.py:327-366 | Deleted if the file was there at that moment, gone if it was not, failed if the unlink was refused; unless it failed the file is not there afterwards |

## Left out

- SQLite itself: statements are taken as atomic; schema creation and migration, busy_timeout, `ping_writable`, `list_by_status` and `count_by_status` are not modelled.
- The pipeline (downloading, audio conversion, speech recognition): an oracle that returns a text, a `PipelineError` or another exception. Text and file contents are not modelled, only which files exist; nothing is claimed about which worker's text a transcript holds.
- Real time and scheduling: a nondeterministic monotone clock and arbitrary interleaving. There is no lease renewal in the service, so nothing is claimed about one pipeline running at a time, and no fairness is assumed.
- The sleeping of the claim loop, and the reclaim and retention loops: they only repeat the modelled calls, in any order and number.
- Duplicate fresh names: tokens and generated job ids are assumed never to repeat. An empty job id given to `submit` is replaced by a generated one in the service; the model takes the id after that choice.
- A restart's loss of the in-memory counter: a crash here stops a worker's iteration, not the process that holds the counter.
- HTTP routing, schemas, authentication, configuration, logging, the `on_done` hook and command-line handling.
- Directory creation, symlinks, path resolution, subdirectories of the trash, an unreadable or missing trash directory, and retention arguments out of range. A path is a directory (results or trash) and a name, and a job id is one path component.
- Files removed or moved by an operator, and trash cleanup racing the ack of the same file: the ack theorems assume nobody deletes transcripts.
- Jobs.FromRow: other spellings that Python's `fromisoformat` accepts count as undecodable, and so does a row with an error code but no message; the service writes neither.
- Timestamps with a non-zero offset: `_iso` does not convert them, so order of texts is proved for UTC only.
- File times and the current time of the retention policy are real numbers; rounding of floating-point seconds is not modelled.
- Cleanup: a file that changes its mtime or size, or a name used again, while passes run.
- Exceptions other than database errors in the ack handler (for instance creating the trash directory fails): in the system they are faults like any other, with the response 503 standing for every failed request.
