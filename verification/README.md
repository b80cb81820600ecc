# Verified model of the backup server's own algorithms

The repository is a backup server around rclone. This project models the parts
that are its own: how it picks files for a restore test, schedules overlapping
sync pairs, keeps its job history and push outbox in SQLite, tails logs, reads
remote listings, compiles filters, watches progress, receives uploads from
devices, captures and restores snapshots, and guards against vanishing data.
Everything outside (rclone, the operating system, digests, clocks, regular
expressions) appears as a parameter or as a choice the environment makes.

Where the source changes things step by step the model has a class or a method
with loops, proved against specification functions; the theorems are lemmas
about those functions and about every run of operations. A run is a sequence of
whole transactions or steps in any order, so a theorem about runs covers every
interleaving, and every moment at which the server may stop where stops matter.

## Modules

- `RestoreSampling`: the byte-budgeted sample, with the exchange argument for the eviction heap.
- `PairPlanner`, `PairScheduler`: which pairs overlap, and the parallel job loop as a transition system and a class.
- `PushOutbox`, `PushDispatch`: devices, claims, leases, finishes and pruning; and any number of dispatchers at work on
  them between revocations, registrations and crashes.
- `JobTables`, `JobLifecycle`, `ScheduleState`, `JobDatabase`: the job tables, what holds over every run of transactions,
  and the methods statement by statement; `SummaryReports`, `JobAttempts`: what a summary reports and what becomes of
  every attempt; `BaselineEvidence`, `BaselineSuccess`, `EvidenceLog`: the evidence that outlives deletable history.
- `LogTail`: the cache of log tails against plain reads, of growing files and of any others.
- `Utf8`, `RemoteListing`: the incremental decoder against the encoding, and the streaming reader of a JSON array.
- `FilterCompiler`, `FilterOptions`: the filter rules under first-match semantics, compiling twice, and what any list of
  arguments means, option by option.
- `ProgressTracker`: the chunk-fed progress tracker.
- `DependencyLock`: the lock-file printer and its checker.
- `BoundedWalk`, `RecoverySnapshots`: the bounded directory walk; inventory, capture, loader and restore.
- `VaultUpload`, `VaultBlobs`: resumable uploads with crash points, and the shared content-addressed blobs with their
  transfers, rescues and removals.
- `Quarantine`: baselines, quarantines and acknowledgements.
- `Results`, `Text`: options, results and the string operations several modules share.

## Where code and promises part

For each of these there is an input for which the expected property fails, and
the exact condition under which it holds.

- A remote listing that turns invalid UTF-8 after the 501st object is refused or truncated depending on where the blocks
  are cut (`RemoteListing.BadByteCuts`, `RemoteListing.Utf8CutsAgreeExactly`).
- The reader of remote listings allows any Unicode white space between tokens, more than section 2 of RFC 8259
  (`RemoteListing.NoBreakIsListed`, `RemoteListing.JsonExactly`).
- Compiling compiled filters again changes nothing exactly when no `--exclude` or `--include` pattern is empty
  (`FilterCompiler.EmptyPatternChanges`, `FilterOptions.OptionsCompileTwice`).
- The log cache agrees with plain reads of files that only grow, and after a truncation in place shows stale bytes when
  the file has grown past its old size with the same boundary byte (`LogTail.SpliceAfterTruncation`,
  `LogTail.QuietReadExactly`).
- Attempts of a push message pass `max_attempts` when leases run out, because only an explicit finish enforces the limit
  (`PushOutbox.AttemptsPassTheLimit`, `PushOutbox.PastTheLimitExactly`).
- A reserved history key is lost, and its pair counts as new again, when a result names another key
  (`BaselineEvidence.LostKey`, `BaselineEvidence.SeenExactly`).
- Replaying the schedule backfill can overwrite the definition's name and a winner's slot
  (`ScheduleState.ReplayOverwrites`, `ScheduleState.ReplayChangesNothingExactly`); a second replay changes nothing more
  (`ScheduleState.SecondReplayChangesNothing`).
- A printed lock is accepted exactly when every pin is one stripped line without ` --hash=`
  (`DependencyLock.MarkedIsRefused`, `DependencyLock.AcceptedIffClean`).
- A pair that the quarantine of an overlapping configured pair blocks cannot always release it by its own acknowledgement
  (`Quarantine.StaysBlocked`, `Quarantine.AcknowledgingUnblocks`).
- A removal that stops between its second and third unlink leaves a ready receipt without its blob
  (`VaultBlobs.ReadyWithoutBlob`, `VaultBlobs.ReadyLacksBlobExactly`).

Two more results go against what one might expect, for all inputs: a cycle of log lines stops counting as progress
exactly when it has at most 64 distinct lines (`ProgressTracker.CycleAdvances`), and an expired push message fails even
under a running lease (`PushOutbox.ClaimOfHeldRow`).

## Model

| member | source | states |
|---|---|---|
| RestoreSampling.SelectBudgetedSample | app/jobs/restore_sampling.py:38-87 | Limits of another type are refused, empty limits select nothing; otherwise the result is, of the candidates themselves, a choice of first usable occurrences with their own sizes, in input order and within the budget, with as many files as any such choice up to the wanted number: the order-greedy one whenever that has as many, and else the cheapest of a prefix, earlier files on equal sizes. |
| RestoreSampling.SettledIsOptimal | app/jobs/restore_sampling.py:70-81 | What the eviction heap keeps of a prefix has the largest feasible number of files, and no choice with as many files has fewer bytes. |
| RestoreSampling.SettledPush | app/jobs/restore_sampling.py:74-76 | Taking a file that fits keeps the heap settled. |
| RestoreSampling.SettledEvict | app/jobs/restore_sampling.py:77-79 | Evicting the largest, and among equals the latest, file after an overflow keeps the heap settled. |
| RestoreSampling.Exchange | app/jobs/restore_sampling.py:70-81 | The exchange argument: when every kept file has at most w bytes and every other at least w, another choice costs at least w more bytes for each file it has more, and saves at most w for each it has fewer. |
| RestoreSampling.EligibleFiles | app/jobs/restore_sampling.py:43-59 | The loop keeps exactly the candidates that offer their path first with a size within the budget, each with its own size, in input order. |
| RestoreSampling.GreedyPass | app/jobs/restore_sampling.py:61-68 | The order-greedy pass, ending early at the wanted number. |
| RestoreSampling.HeapPass | app/jobs/restore_sampling.py:72-81 | The heap loop ends with a settled choice of the processed prefix, which is all files unless the wanted number is reached, and one file less would not have sufficed. |
| RestoreSampling.EligiblePaths | app/jobs/restore_sampling.py:43-59 | A path is eligible exactly when some valid candidate has it, and no path is eligible twice. |
| RestoreSampling.BestIsBest | app/jobs/restore_sampling.py:61-87 | What is promised of the eligible files holds of the candidates: no choice of first usable occurrences that fits has more files, up to the wanted number. |
| RestoreSampling.FirstOccurrenceWins | app/jobs/restore_sampling.py:30-31 | Candidates of which a later, smaller occurrence of a path would allow one file more, which the first occurrence rules out. |
| PairPlanner.OverlapIsNesting | app/jobs/pair_planner.py:18-41 | Two paths overlap exactly when they are of one kind and one lies at or below the other by whole folded components, or a local one cannot be resolved. |
| PairPlanner.PartsPrefix | app/jobs/pair_planner.py:28-38 | The prefix test with a slash on strings is the prefix test on path components. |
| PairPlanner.RemotePlaced | app/jobs/pair_planner.py:22-25 | A remote name, a colon, any slashes, path parts and any slashes at the end lie at those parts of that remote, up to the case of its name. |
| PairPlanner.LocalPlaced | app/jobs/pair_planner.py:9-38 | An absolute path, one that starts like an option and one without a colon lie at the folded parts of their resolved path. |
| PairPlanner.ConflictIsOverlap | app/jobs/pair_planner.py:44-51 | Two pairs conflict exactly when some endpoint of one overlaps some endpoint of the other. |
| PairScheduler.RunIsSafe | app/jobs/rclone_sync.py:1906-1961 | After every run of starts, finishes and cancellations running pairs never conflict and stay within the limit, and every selected pair is in exactly one place: waiting, running or reported. |
| PairScheduler.NeverStalls | app/jobs/rclone_sync.py:1908-1948 | While anything waits or runs a step is possible; with nothing running the first waiting pair can start. |
| PairScheduler.RunIsShort | app/jobs/rclone_sync.py:1908-1961 | Every run is finite: at most two events for each selected pair. |
| PairScheduler.ResultsStay | app/jobs/rclone_sync.py:1901-1961 | A reported result is never replaced. |
| PairScheduler.OutcomeReported | app/jobs/rclone_sync.py:1949-1961 | The outcome of every finished worker is in the final results under its pair's name. |
| PairScheduler.FinishedOnce | app/jobs/rclone_sync.py:1949-1961 | No pair finishes twice. |
| PairScheduler.RunReports | app/jobs/rclone_sync.py:1911-1923 | Everything reported is a worker's outcome or the cancellation before the start. |
| PairScheduler.NextRunnable | app/jobs/rclone_sync.py:1765-1772 | The first waiting pair that conflicts with nothing running, or none if there is none. |
| PairScheduler.PairRun.CancelPending | app/jobs/rclone_sync.py:1909-1924 | Reports exactly the waiting pairs as cancelled. |
| PairScheduler.PairRun.StartRunnable | app/jobs/rclone_sync.py:1926-1944 | Starts waiting pairs by allowed steps only and as long as one can be started; afterwards something runs if anything is left waiting. |
| PairScheduler.PairRun.Collect | app/jobs/rclone_sync.py:1949-1961 | Records one finished worker as a step of the run. |
| PairScheduler.PairRun.Loop | app/jobs/rclone_sync.py:1908-1961 | Ends with nothing waiting or running, after rounds that each cancel exactly when their check sees the cancellation while pairs wait, then start all that can be started, then collect exactly the workers the wait finds done, with what these returned or raised. |
| PairScheduler.PairRun.OneRound | app/jobs/rclone_sync.py:1909-1961 | One such round from any state of the loop; each makes the weight smaller. |
| PairScheduler.ReportedRan | app/jobs/rclone_sync.py:1949-1961 | In a run without a cancellation whatever is reported for a name is the outcome of a worker that was started for a pair of that name. |
| PairScheduler.NeverCancelled | app/jobs/rclone_sync.py:1909-1924 | When no check sees a cancellation nothing is cancelled. |
| PairScheduler.UncancelledRuns | app/jobs/rclone_sync.py:1908-1973 | When no check sees a cancellation every selected pair is started, and what is reported for it is how its own worker ended. |
| PairScheduler.RunSelected | app/jobs/rclone_sync.py:1899-1973 | The report is that of a complete run in rounds under these checks, endings and waits, one outcome per selected pair in selection order; at no moment do more workers run than allowed, or two whose endpoints overlap. |
| PairScheduler.RunJob | app/jobs/rclone_sync.py:1752-1973 | A disabled backup, nothing selected, an unnamed pair and a name repeated up to case and white space are refused, in that order; otherwise a complete run of the selected pairs is reported, with a warning exactly when endpoints of two of them overlap. |
| PairScheduler.UnfilteredAreEnabled | app/jobs/rclone_sync.py:1755 | Without a filter exactly the enabled pairs are selected, in configured order. |
| PairScheduler.FilteredAreNamed | app/jobs/rclone_sync.py:1756-1762 | With a filter the selected pairs are, for exactly those of its names that are, stripped, the name of an enabled pair, and in its order, the last enabled pair of that name. |
| PushOutbox.RunInv | app/db.py:2731-3090 | In every reachable state a row is sending exactly when it has an owner, only sending rows hold leases, and there is at most one row per message key and device. |
| PushOutbox.TerminalStays | app/db.py:2759-3090 | Sent and failed rows never change again, until they are removed. |
| PushOutbox.GoneForGood | app/db.py:2831-2877 | A removed row never comes back: ids are not used twice. |
| PushOutbox.AttemptsAreClaims | app/db.py:2879-3048 | A row's attempts are the number of claims of the run that took it, and each claim is finished at most once. |
| PushOutbox.ClaimOfHeldRow | app/db.py:2892-2947 | A claim leaves a row under a running lease alone, fails it when its message has expired, and gives it to another owner exactly when the lease has run out and the row is selected. |
| PushOutbox.OwnerKeepsRow | app/db.py:2879-3048 | Through any run without a claim after lease or expiry and without its own finish, the owner keeps the row. |
| PushOutbox.RenewingOwnerKeepsRow | app/db.py:2879-3048 | From its claim on the owner holds the row, through any run, as long as every claim comes before the end of the last lease the owner asked for and before the expiry, and it has not finished the row; the leases are those of the operations. It loses the row otherwise only by a deletion of the device, of all devices, or of expired ones after the lease. |
| PushOutbox.RenewedIsSafe | app/db.py:2949-2981 | After a renewal by the owner a claim leaves the row alone exactly when its clock is below the renewal plus the clamped lease and below the expiry. |
| PushOutbox.DueExactly | app/db.py:2892-2923 | A row may be claimed exactly when its device is registered, its next attempt has come, it has not expired, and it waits or its lease has run out. |
| PushOutbox.RetryWaits | app/db.py:3025-3046 | Over every run the first claim after a granted retry comes no earlier than the delay the finish asked for, between a second and a day. |
| PushOutbox.ExpiresAsQueued | app/db.py:2831-2877 | Every row of a reachable state was inserted by an enqueue for its device and key, and expires after the retention that asked for. |
| PushOutbox.ChangesAreStamped | app/db.py:2892-3048 | Every change carries the clock of its operation, a row that fails in a sweep says why, and an error once recorded stays until its owner finishes the row. |
| PushOutbox.FinishNeedsOwner | app/db.py:2983-3048 | A finish takes effect exactly when its caller owns the sending row, and then ends the claim: sent exactly when it says so, and waiting again exactly for a retry with the device registered, attempts left and time left, after the delay. |
| PushOutbox.AttemptsPassTheLimit | app/db.py:2892-2947 | A run in which one message is claimed n times, lease after lease, for every n its lifetime allows. |
| PushOutbox.PastTheLimitExactly | app/db.py:2892-3048 | When no finish of a row allows a retry from its m-th attempt on, its attempts pass m exactly when a claim takes the row after its m-th attempt, the lease having run out at or before that claim. |
| PushOutbox.LimitHolds | app/db.py:2892-3048 | When no claim's clock reaches the lease of a row that is being sent for the m-th time, and no finish allows a retry from its m-th attempt on, the attempts stay at most m in every reachable state, and below m while the row waits. |
| PushOutbox.EveryTargetKnown | app/db.py:2831-2877 | After an enqueue every target device has a row for the message. |
| PushOutbox.Database.PushOutboxEnqueue | app/db.py:2831-2877 | Selects the most recently registered devices that have not expired, newest first and at most the clamped limit, and inserts one row for each that has none yet. |
| PushOutbox.Database.PushOutboxClaimDue | app/db.py:2879-2947 | Refuses a blank owner; otherwise sweeps the rows and claims exactly the first due ones by time and id, up to the clamped limit, each with one attempt more and until the clamped lease ends. |
| PushOutbox.Database.PushOutboxRenewClaims | app/db.py:2949-2981 | Moves the leases of exactly the named rows the owner holds to the clock plus the clamped lease, says which those are, and changes nothing else. |
| PushOutbox.Database.PushOutboxFinish | app/db.py:2983-3048 | The finish of an owned row with its new status; a missing row or another owner's row is reported and left alone. |
| PushOutbox.Database.PushDeviceDelete | app/db.py:2759-2774 | Removes the device and exactly its rows, but not those that another than the claimant is sending. |
| PushOutbox.Database.PushDevicePruneExpired | app/db.py:2809-2829 | Removes exactly the expired devices and their rows, but not rows under a running lease. |
| PushOutbox.Database.PushOutboxPrune | app/db.py:3072-3090 | Removes exactly the sent and failed rows older than the days, at least one. |
| PushDispatch.RunGuarded | app/push_notifications.py:494-520 | In every reachable state at most one dispatcher is between its fence and the answer, and that one holds the delivery guard. |
| PushDispatch.RevocationFindsNothingInFlight | app/push_notifications.py:86-96 | While a device or all devices are revoked, no request is under way. |
| PushDispatch.RevokedIsSilent | app/push_notifications.py:495-520 | After a revocation no request to the device begins before it is registered again, whatever claims and checks were made before. |
| PushDispatch.SentWasDelivered | app/push_notifications.py:511-528 | In every reachable state each sent row had a request of one of its claims answered with success. |
| PushDispatch.OnePostPerClaim | app/push_notifications.py:407-520 | However dispatchers overlap, lose leases and crash, the requests begun for a row and those still possible never outnumber its attempts. |
| PushDispatch.WaitingShrinks | app/push_notifications.py:431-447 | Without a claim, dispatchers that may still post a row only get fewer. |
| PushDispatch.DispatchIsOutboxRun | app/push_notifications.py:397-560 | What any dispatchers do to the tables, interleaved in any way, is a run of the outbox, so its theorems hold of theirs. |
| PushDispatch.RenewsExactly | app/push_notifications.py:434-499 | Before and under the guard a message that is still its own is held for the clamped lease and goes on; any other is dropped and its row left alone. |
| PushDispatch.StartsExactly | app/push_notifications.py:500-520 | Under the guard a request begins exactly when the device is registered and has not expired; otherwise the row is given up. |
| PushDispatch.BeatsExactly | app/push_notifications.py:130-141 | A heartbeat extends the lease, or gives the request up when the row is no longer its own. |
| PushDispatch.SettlesExactly | app/push_notifications.py:521-575 | What each answer makes of a row that is still its own: sent, failed with its device to be removed, waiting again, or failed; of any other row nothing. |
| PushDispatch.RemovesExactly | app/push_notifications.py:539-541 | An invalid device goes with its rows, except those that other dispatchers are sending. |
| JobLifecycle.LeavesRunningOnce | app/db.py:1227-1308 | Over every run a job leaves running at most once: what it ended with never changes, and a deleted job does not come back. |
| JobLifecycle.StagedStays | app/db.py:1310-1345 | A staged intent keeps its status and summary for as long as its job exists, and an applied one stays applied. |
| JobLifecycle.AppliedAgrees | app/db.py:1347-1375 | In every reachable state an applied intent is what its job ended with. |
| JobLifecycle.MarkingStaysAllowed | app/db.py:1361-1375 | Once a job has ended as its intent says, marking the intent applied is never refused, whatever comes in between. |
| JobLifecycle.NoRunningOrphans | app/db.py:1761-1823 | No attempt stays running under a job that has finished, in every reachable state. |
| JobLifecycle.RunOnePerScope | app/db.py:1138-1151 | When every reservation is exclusive, no two running jobs share a scope. |
| JobDatabase.Database.JobStart | app/db.py:1100-1225 | Refuses an invalid kind, and a scope in which a job of an excluding kind runs; otherwise writes the job, with the trigger its attempts agree on and a dry run only if all are, its attempts, their seen keys and the scheduler's attempt. |
| JobDatabase.Database.JobFinish | app/db.py:1227-1308 | The compare-and-swap: the job's row as the summary says, a slot that is set and a dry run staying, with the pair results, the ended attempts and the schedule record; a job that does not run is left alone. |
| JobDatabase.Database.StorePairResults | app/db.py:1610-1773 | The loops over results and due pairs, and the attempts left running, in order. |
| JobDatabase.Database.TerminalizeRunningAttempts | app/db.py:1775-1823 | Ends exactly the running attempts of the job and records their keys as seen. |
| JobDatabase.Database.JobTerminalStage | app/db.py:1310-1345 | Staging is idempotent and refuses a different result. |
| JobDatabase.Database.JobTerminalApply | app/db.py:1347-1375 | Reads, finishes and marks in three transactions, or reports the conflict and leaves the intent pending. |
| JobDatabase.Database.JobTerminalRecoverPending | app/db.py:1398-1419 | Every pending intent is tried in the order of staging: the recovered ids are, in that order, the jobs that ran or had ended as staged; running jobs take their intent over, conflicting ones are counted as failed and left. |
| JobDatabase.Database.JobMarkStale | app/db.py:2143-2186 | Marks a running job, and only that. |
| JobDatabase.Database.JobsMarkAllRunningStale | app/db.py:2188-2242 | Marks exactly the running jobs of the kinds, all kinds when none is named. |
| JobDatabase.Database.JobsMarkStale | app/db.py:2244-2290 | Marks exactly the running jobs older than the age, at least 60 seconds, of the kind if one is given. |
| JobDatabase.Database.JobsDeleteFailed | app/db.py:42-50 | Deletes the failed, stale and cancelled jobs, but not the failed restore tests whose summary is that of a verified partial restore, with their attempts and intents. |
| JobDatabase.Database.JobsPrune | app/db.py:2720-2729 | Deletes old jobs that do not run and are not among the newest, as many as are to be kept. |
| JobDatabase.Database.ReconcileLockedScope | app/jobs/job_lifecycle.py:18-53 | With an active worker nothing changes; otherwise no job of the scope runs afterwards, a job staged while running has its staged status and not stale, the others of the scope are stale, and no other job is touched. |
| JobDatabase.Database.PairBaselineState | app/db.py:2382-2490 | The verdict with its fallbacks, and the evidence it carries over to the key. |
| JobAttempts.AttemptOfResult | app/db.py:1633-1698 | The last result about a pair decides its attempt, unless a due entry follows: key, success and dry run as reported, its first start time, and the status by what the result and the job say. |
| JobAttempts.AttemptOfDue | app/db.py:1717-1750 | A due pair of a run that failed, went stale or was cancelled shares its fate. |
| JobAttempts.AttemptLeft | app/db.py:1761-1823 | An attempt the summary does not mention is left alone, unless it still runs when its job ends: then it ends unsuccessfully, as an error unless the job was cancelled, stale or skipped. |
| JobAttempts.OtherAttemptsStay | app/db.py:1677-1823 | A finish of one job leaves the attempts of all others as they are. |
| JobAttempts.AttemptGoesStale | app/db.py:2143-2290 | Marking jobs stale ends exactly their running attempts, as stale. |
| JobAttempts.AttemptDeleted | app/db.py:74 | Deleting jobs deletes exactly their attempts. |
| JobAttempts.AttemptReserved | app/db.py:1169-1209 | A new job has one running attempt per pair name, under the key of the first attempt of that name, and the key has been seen. |
| EvidenceLog.EvidenceSummarizes | app/db.py:997-1043 | After any sightings of a key its row summarizes exactly those with a name, in whatever order: seen first and last, ever succeeded, ever ended, the latest success, and the name it had last. |
| SummaryReports.WritesAreReports | app/db.py:1623-1750 | The rows a finish writes name exactly the pairs, keys and real successes that the fields of the summary report. |
| BaselineEvidence.RunGrows | app/db.py:997-1043 | Evidence of success and of an ended attempt outlives every later transaction, deletion and pruning. |
| BaselineEvidence.SuccessIsForever | app/db.py:1699-1707 | After a finish of a running job whose summary has a named result with the key that is ok and no dry run, the verdict is "succeeded" through every later run, for every name. |
| BaselineEvidence.ProvenExactly | app/db.py:1699-1707 | After a finish, with whatever status, a key is proven exactly when it was before or a named result carries it with ok set and neither its own nor the summary's dry-run flag. |
| BaselineSuccess.SucceededIsBacked | app/db.py:2402-2471 | Over every run the verdict is "succeeded" only if such a result was reported for the key, or for the older, name-based keys that this question or an earlier one carries over. |
| BaselineSuccess.VerdictExactly | app/db.py:2396-2490 | The verdict is "succeeded" exactly with a recorded success under the key or an older one of the name, and otherwise "new" exactly when no attempt of the key is known to have ended. |
| BaselineSuccess.RunSourced | app/db.py:1677-1698 | Every successful attempt in the table of a reachable state was reported as a real success of its pair under its key. |
| BaselineEvidence.AnsweredSucceededIsForever | app/db.py:2402-2471 | A question once answered "succeeded", also on older or name-based evidence, is answered so for ever. |
| BaselineEvidence.EndedIsNeverNew | app/jobs/rclone_sync.py:1445-1475 | Once the reserved attempt's job has ended the key is never new again, so the first-run resync is never granted, provided results about the attempt carry its key and no finish with the status "running" names it. |
| BaselineEvidence.SeenExactly | app/db.py:1633-1773 | Exactly what makes a key seen when a job ends, in the tables before: it was seen already, a result or due pair of the summary names it, or an unfinished attempt of the job for a pair the summary does not mention holds it. |
| BaselineEvidence.RunUnique | app/db.py:1678-1750 | In every reachable state a job has at most one attempt per pair name. |
| BaselineEvidence.LostKey | app/db.py:1677-1698 | A run in which a result with another key makes a failed pair new again. |
| ScheduleState.ScheduleNamesWinners | app/db.py:741-841 | After every run the state names, per definition, the scheduler attempt and the successful real run with the greatest start time and job id, as last recorded. |
| ScheduleState.OrderDoesNotMatter | app/db.py:796-841 | The winning job depends only on which recordings were made, not on their order. |
| ScheduleState.BackfillKeepsWinners | app/db.py:851-880 | Replaying the rows that are left, in any order, keeps every definition's winners with status, trigger and times. |
| ScheduleState.ReplayOverwrites | app/db.py:851-880 | A run after which replaying the one row that is left overwrites a newer name and the slot of the last success. |
| ScheduleState.ReplayChangesNothingExactly | app/db.py:851-880 | After any run a replay leaves the schedule as it is exactly when, for every definition, the last name among its counting rows is the recorded one and each winner whose row is replayed has the slot of its row. |
| ScheduleState.SecondReplayChangesNothing | app/db.py:851-880 | After any run, replaying the same rows a second time changes nothing. |
| ScheduleState.AttemptStatusIsRow | app/db.py:796-841 | While the winning attempt's scheduler row exists, the recorded status is the row's. |
| LogTail.CachedReadIsPlainRead | app/jobs/log_tail.py:120-146 | For growing files a read that extends the cache returns what a plain read of the same size returns. |
| LogTail.ReadingIsTail | app/jobs/log_tail.py:120-146 | Whatever is appended while reading, the bytes are the tail of one version of the file between opening and reading. |
| LogTail.SpliceAfterTruncation | app/jobs/log_tail.py:130-142 | A truncated and regrown file with the same boundary byte for which the cached read differs from a plain one. |
| LogTail.QuietReadExactly | app/jobs/log_tail.py:105-146 | For any entry and any file, a call during which the file does not change answers with the plain tail exactly when a guard rejects the entry (another file, size, too little to show, too much appended, another boundary byte) or the bytes it shows are still in place. |
| LogTail.HistoryExactly | app/jobs/log_tail.py:105-146 | After any history of appending, cutting, rewriting and replacing, an entry stored from one version answers for a later one as a plain read does exactly when a guard rejects it or both versions agree on the bytes shown. |
| LogTail.UncutHistory | app/jobs/log_tail.py:105-146 | The cached answer is the plain tail whenever every version since begins with what the file held when the entry was stored, whatever was appended. |
| LogTail.ChangeIsRead | app/jobs/log_tail.py:47-65 | Any difference in the stat of a file that has not grown, another file under the path, a grown file with another byte at the old end, without a number, or with more appended than entry and limit hold, is answered by the plain tail, whatever the entry holds. |
| LogTail.SameStatIsHit | app/jobs/log_tail.py:109-118 | With the same stat and enough cached bytes the answer is their tail and the file is not opened. |
| LogTail.EvictedLeastRecent | app/jobs/log_tail.py:78-83 | Eviction keeps a most recently used suffix of the entries, and no more of them than needed are dropped. |
| LogTail.Cache.CachePut | app/jobs/log_tail.py:67-87 | The new entry, cut to the budget, is the most recent one behind what eviction leaves, both limits hold, and the counter is the sum of the entries; while files only grow every entry is a suffix of its file. |
| LogTail.Cache.CacheDrop | app/jobs/log_tail.py:97-102 | The key's entry is gone and the counter adjusted. |
| LogTail.Cache.Lookup | app/jobs/log_tail.py:109-118 | Finds the key's entry; a hit gives its tail and moves it to the end, a miss changes nothing. |
| LogTail.Cache.ReadTail | app/jobs/log_tail.py:105-157 | The specified answer from the entry found and what is seen of the file, whatever happens to the file, and the cache it leaves: the entry renewed, stored anew or dropped, within both limits; while files only grow, exactly the last bytes of a version at or after the first look, or nothing on an error. |
| Utf8.DecodeInBlocks | app/recovery_points.py:297-346 | Decoding block by block, with undecided bytes kept, is decoding the whole. |
| Utf8.DecodesExactly | app/recovery_points.py:297-346 | The incremental decoder takes the whole input exactly when it is the encoding of some text (section 3 of RFC 3629), and then delivers that text. |
| RemoteListing.CutsAgreeExactly | app/recovery_points.py:294-352 | All ways of cutting the output agree exactly when it has no impossible byte or is not truncated before it. |
| RemoteListing.BadByteCuts | app/recovery_points.py:338-352 | Two cuts of one output, one refused and one truncated, whenever that condition fails. |
| RemoteListing.AcceptsExactly | app/recovery_points.py:302-336 | For any incremental decoder a complete listing is returned exactly for wholly decoded output holding one array of at most 500 objects, and gives those. |
| RemoteListing.TruncatesExactly | app/recovery_points.py:342-345 | For any incremental decoder a truncated listing of the first 500 objects is returned exactly when the decodable text begins an array of 501. |
| RemoteListing.Utf8AcceptsExactly | app/recovery_points.py:294-352 | A complete listing is returned exactly for the UTF-8 encodings of arrays of at most 500 objects. |
| RemoteListing.Utf8TruncatesExactly | app/recovery_points.py:338-352 | A truncated listing is returned exactly for output that begins with the encoding of text that begins an array with one object more than is shown. |
| RemoteListing.Utf8CutsAgreeExactly | app/recovery_points.py:294-352 | All ways of cutting the output agree exactly unless it is the encoding of more than 500 objects followed by a byte impossible in UTF-8. |
| RemoteListing.NoBreakIsListed | app/recovery_points.py:302-307 | An empty array around a no-break space is listed, and is no array of RFC 8259. |
| RemoteListing.JsonExactly | app/recovery_points.py:302-336 | What is listed whole is an array of RFC 8259 exactly when all the white space skipped between its tokens is space, tab, line feed or carriage return. |
| RemoteListing.Reader.RemoteListing | app/recovery_points.py:338-352 | The loop over the blocks answers as the specified run of the parser. |
| RemoteListing.Reader.ParsePending | app/recovery_points.py:302-336 | The parse loop consumes the pending text as the specified parser does. |
| FilterCompiler.RulesMean | app/jobs/rclone_sync.py:634-660 | Read first-match-wins, the compiled rules exclude every path below a reserved name, then the excludes, then decide by the explicit filters in order, then keep the includes, and drop the rest exactly when an include exists. |
| FilterCompiler.DedupeDecidesSame | app/jobs/rclone_sync.py:658-660 | Removing repeated rules changes no decision. |
| FilterCompiler.CompileTwice | app/jobs/rclone_sync.py:577-660 | Compiling the compiled arguments again changes nothing exactly when no exclude or include pattern is empty. |
| FilterCompiler.EmptyPatternChanges | app/jobs/rclone_sync.py:634-660 | An empty exclude pattern compiles to arguments that compile to others. |
| FilterCompiler.LaterIncludesAreDead | app/jobs/rclone_sync.py:656-657 | Beside rules that were compiled with an include, further includes decide nothing. |
| FilterCompiler.NormalStays | app/rclone_args.py:140-174 | Normalizing normalized arguments changes nothing. |
| FilterCompiler.NormalizeMakesNormal | app/rclone_args.py:140-174 | Normalized arguments are in normal form: no alias is left where it would be read as a flag. |
| FilterCompiler.NormalizeFilterAliases | app/rclone_args.py:140-174 | The index loop over the arguments, refusing combined short flags. |
| FilterCompiler.ProtectedFilterArgs | app/jobs/rclone_sync.py:577-660 | Normalizing, sorting into groups and compiling, with every refusal; what that means for the arguments is `FilterOptions.OptionsDecide`. |
| FilterOptions.OptionsDecide | app/jobs/rclone_sync.py:577-660 | Of the options themselves, each in every spelling: they are refused exactly for combined short flags, a file list, delete-excluded not switched off, a missing value, an unusable filter file or a reset, with that error; otherwise the other arguments come first, and the rules exclude the reserved paths and what an exclude or exclude-from pattern matches, then decide by the filters in order, then keep what an include or include-from pattern matches, and drop the rest exactly when there is one. |
| FilterOptions.ArgumentsAreOptions | app/rclone_args.py:140-174 | Every list of arguments is a list of such options, so that holds of all arguments. |
| FilterOptions.OptionsCompileTwice | app/jobs/rclone_sync.py:577-660 | Compiling the output of any arguments again changes nothing exactly when no value of an exclude or include is blank. |
| FilterOptions.RuleLinesAreSpeaking | app/jobs/rclone_sync.py:624-630 | A filter file gives its stripped lines that are neither blank nor comments, in order. |
| FilterCompiler.SortArguments | app/jobs/rclone_sync.py:597-633 | The scan that sorts the arguments into groups and a remainder; what it makes of each option is in `FilterOptions.OptionsDecide`. |
| ProgressTracker.CutsDoNotMatter | app/jobs/rclone_sync.py:164-188 | The final state, and whether progress was reported, depend only on the text fed and not on how it was cut. |
| ProgressTracker.FeedIsChars | app/jobs/rclone_sync.py:164-188 | Feeding a chunk is feeding its characters one by one to a line reader. |
| ProgressTracker.JustSeenIsNoNews | app/jobs/rclone_sync.py:177-187 | A line just processed is remembered, among at most 64. |
| ProgressTracker.CycleAdvances | app/jobs/rclone_sync.py:179-182 | A cycle of distinct log lines keeps advancing for ever exactly when it has more than 64 of them. |
| ProgressTracker.CounterAdvances | app/jobs/rclone_sync.py:164-188 | A line that reports a counter is progress exactly when the last value reported for it before is another one, or none. |
| ProgressTracker.LogProgressTracker.Feed | app/jobs/rclone_sync.py:164-188 | The method does what the specified feed does. |
| DependencyLock.RoundTrip | scripts/update_dependency_lock.py:115-180 | For clean pins and any non-empty digest lists the checker accepts the printed lock and reads back exactly those pins and digests, in order. |
| DependencyLock.AcceptedIffClean | scripts/update_dependency_lock.py:115-180 | The printed lock is accepted exactly when every pin is clean. |
| DependencyLock.MarkedIsRefused | scripts/update_dependency_lock.py:22-26 | A pin with a hash mark in its environment marker is a pin, and the lock printed for it is refused. |
| DependencyLock.AcceptedDecodes | scripts/update_dependency_lock.py:141-180 | Any accepted lock has the line with the digest of the required pins and decodes to these in order, each with at least one digest of 64 lower-case hexadecimal digits, and the pins are clean. |
| DependencyLock.ReadRequirements | scripts/update_dependency_lock.py:35-54 | The loop over the lines; the pins read are pins, and clean but for a possible hash mark. |
| DependencyLock.ReadsExactly | scripts/update_dependency_lock.py:35-54 | Requirements are read exactly when every line that is neither blank nor a comment is a pin and no two name one distribution, and they are those lines, stripped and in order. |
| DependencyLock.PrintedLines | scripts/update_dependency_lock.py:131-137 | A pin is printed with a continuation, then a hash line for each digest, all but the last continued, and an empty line. |
| DependencyLock.BuildLock | scripts/update_dependency_lock.py:115-138 | The loops print the specified lock. |
| BoundedWalk.Run | app/recovery_walk.py:21-50 | The stack loop does exactly what recursive preorder under the entry budget does, and terminates. |
| BoundedWalk.LimitExactly | app/recovery_walk.py:29-34 | The limit error is raised exactly when the tree holds more entries than allowed, entries of directories that fail half way included. |
| BoundedWalk.EveryDirectoryOnce | app/recovery_walk.py:35-50 | The walk holds exactly the directories that following names finds, links not followed, each once, for any order the caller gives the lists. |
| BoundedWalk.ScanDirectory | app/recovery_walk.py:25-43 | One directory's entries split into directories and files, with failure and overrun. |
| BoundedWalk.EventShows | app/recovery_walk.py:25-44 | A directory read to the end reports each entry once, folders and links to folders in one list, files and other links in the other, in reading order; one that cannot be read is reported as such. |
| VaultUpload.RecoveredIsAcked | app/device_vault.py:173-199 | After recovery the part file is exactly the acknowledged chunks, its length is the recorded count, and the upload is complete exactly when that is the announced size. |
| VaultUpload.ResendingIsSafe | app/device_vault.py:501-531 | However often the client resends and the server stops, a complete upload is the client's file. |
| VaultUpload.NextChunkAccepted | app/device_vault.py:514-530 | After any calls and stops the next bytes at the acknowledged count are accepted. |
| VaultUpload.AppendAnswers | app/device_vault.py:501-531 | After any calls and stops the answer to a chunk depends on the acknowledged bytes alone: empty or over a megabyte, complete, another offset, too large, in this order, or acknowledged. |
| VaultUpload.QueueAnswers | app/device_vault.py:534-547 | An upload is queued exactly when all its bytes are acknowledged. |
| VaultUpload.Upload.AppendChunk | app/device_vault.py:501-531 | The append with its refusals, and with a stop after any number of written bytes. |
| VaultUpload.Upload.ReconcileReceived | app/device_vault.py:173-199 | Cuts off unacknowledged bytes and completes the status, or reports a damaged receipt. |
| VaultUpload.Upload.QueueCompletion | app/device_vault.py:534-547 | Queues a complete upload, once. |
| VaultBlobs.ReadyLacksBlobExactly | app/device_vault.py:1075-1083 | After any run with stops, a ready upload lacks its blob exactly when its own removal is between the unlinks of blob and receipt, or was stopped there and nothing has mended it since. |
| VaultBlobs.ReadyWithoutBlob | app/device_vault.py:1079-1083 | For every non-empty file a run after which its upload is ready and has no blob. |
| VaultBlobs.RestartAndRescue | app/device_vault.py:899-1034 | From every reachable state in which a ready upload or an imported receipt has no blob, a restart and a download that fetches fitting bytes make it ready and whole. |
| VaultBlobs.RunGood | app/device_vault.py:567-1084 | In every interleaving with stops every blob hashes to its name, transfers and rescues under way have their receipts and blobs, a removal still knows who shares its blob, and all who hold a receipt agree on its digest. |
| VaultBlobs.UnlinksExactly | app/device_vault.py:1058-1082 | In every reachable state the second unlink of a removal takes a blob exactly when it is the removed upload's and no other receipt names it. |
| VaultBlobs.BytesStay | app/device_vault.py:567-1084 | Once an upload is complete its bytes are in its part file or in its blob after every later run without its own removal: failed and repeated transfers, removals of equal uploads, rescues and stops all leave them. |
| VaultBlobs.ReadyIsWhole | app/device_vault.py:567-587 | With a digest that tells contents apart, the blob of a ready upload that has one is of the announced size and digest, in every reachable state. |
| VaultBlobs.Store.PrepareBlobLocked | app/device_vault.py:567-587 | Moves a complete part with the right digest to the blob, or reuses an intact one, or refuses. |
| VaultBlobs.Store.CompleteUpload | app/device_vault.py:723-853 | Begin, prepare, copy, receipt and release as steps of the run, failing at any of them, after the receipt was written as well; the upload ends ready exactly when all succeed. |
| VaultBlobs.Store.RestoreMissingBlob | app/device_vault.py:899-990 | Puts the fetched bytes in place and writes the receipt exactly when they have its size and digest. |
| VaultBlobs.Store.DownloadBlob | app/device_vault.py:1010-1038 | Gives the bytes the receipt announces, fetched when they are missing or the receipt is imported, and otherwise nothing; as steps of the run. |
| VaultBlobs.Store.RemoveLocalCopy | app/device_vault.py:1041-1084 | Scans the other receipts and makes the three unlinks, with a stop after the first or the second, or refuses while the upload is under way. |
| RecoverySnapshots.PublishedIsAccepted | app/recovery_snapshots.py:366-428 | Every manifest that capture publishes is accepted by the loader for the same id and data path. |
| RecoverySnapshots.VerifiedIsCaptured | app/recovery_snapshots.py:696-717 | A verified restore is byte for byte the captured folder, even if the stored copy was altered in between. |
| RecoverySnapshots.UntouchedRestores | app/recovery_snapshots.py:646-717 | An untouched snapshot always verifies, and what is restored is the captured folder. |
| RecoverySnapshots.RelativeIsStable | app/recovery_snapshots.py:46-58 | A normalized path is safe, and normalizing it again changes nothing. |
| RecoverySnapshots.RelativeExactly | app/recovery_snapshots.py:46-58 | A path is refused exactly when it is empty, too long, rooted, goes up anywhere, or has a control character, a backslash or a colon. |
| RecoverySnapshots.ListedExactly | app/recovery_snapshots.py:179-238 | A walk with distinct paths is inventoried exactly when it shows only folders and regular files that do not change while they are read, under safe paths, at most 100000 of them and no more bytes than the limit. |
| RecoverySnapshots.ListedSound | app/recovery_snapshots.py:179-238 | An inventory holds exactly the walk's files with their own sizes and digests, under normalized safe paths and within the limits. |
| RecoverySnapshots.TotalOfWalk | app/recovery_snapshots.py:217-221 | The files' sizes add up to no more than the total the walk has checked against its limit. |
| RecoverySnapshots.CaptureSnapshot | app/recovery_snapshots.py:366-429 | Publishes the manifest exactly when the three inventories agree and it fits the size limit. |
| RecoverySnapshots.CaptureLocal | app/recovery_snapshots.py:316-429 | Captures a local target exactly when there is room, every file is copied with the size, time and digest the first walk has seen, and the three inventories agree; then the copy holds just those contents. |
| RecoverySnapshots.CapturedIsTarget | app/recovery_snapshots.py:137-177 | With a digest that tells contents apart, what a capture stores is byte for byte the target its first walk has seen. |
| RecoverySnapshots.LoadManifest | app/recovery_snapshots.py:527-592 | Accepts a manifest exactly when its binding, unique safe paths, digests, counts, totals and limits are right. |
| RecoverySnapshots.RestoreSnapshot | app/recovery_snapshots.py:646-724 | Verified only if the total is within the limit, every file was copied intact and the walk of the copy matches the manifest, and always if all hold. |
| RecoverySnapshots.VerifiesShows | app/recovery_snapshots.py:696-717 | A walk that matches shows only files of the manifest, and each of them with its size and digest. |
| RecoverySnapshots.InventoryLocal | app/recovery_snapshots.py:179-238 | The loop over the walk stops at the first offending item. |
| Quarantine.SurvivesUntilReleased | app/protection.py:148-204 | A quarantine survives every run of preflights, baseline updates and evictions until its own or an overlapping pair acknowledges it. |
| Quarantine.AnomalyBlocksOverlaps | app/protection.py:289-353 | From the preflight that finds an anomaly on, every destructive overlapping pair is blocked until a releasing acknowledgement. |
| Quarantine.AcknowledgingUnblocks | app/protection.py:416-439 | After its own acknowledgement a destructive pair is still blocked exactly by an overlapping configured pair whose quarantine stores no endpoints, or other ones than the pair has now. |
| Quarantine.StaysBlocked | app/protection.py:148-189 | A reachable state in which a pair stays blocked after its own acknowledgement, because the quarantined pair has moved to its remote. |
| Quarantine.OldestAreEvicted | app/protection.py:192-204 | The baselines stay within 256 entries, and nothing evicted is newer than anything kept. |
| Quarantine.BaselinesStayBounded | app/protection.py:369-391 | Over every run the table stays within its limit. |
| Quarantine.LosingMoreStaysBlocked | app/protection.py:253-286 | What is blocked stays blocked for fewer files and bytes. |
| Quarantine.AnomalyExactly | app/protection.py:253-286 | A measured pair is blocked exactly when its baseline has the minimum of files, 100 unless set, and at least the limit of its files or of its bytes is lost, 35 percent unless set. |
| Quarantine.RecordedIsLast | app/protection.py:369-391 | Up to 256 baselines the pair's is what was measured last, and no other changes. |
| Quarantine.Guard.ActiveQuarantine | app/protection.py:148-189 | Finds a quarantine exactly when one applies: its own, one whose stored endpoints overlap, or an older one of an overlapping configured pair. |
| Quarantine.Guard.PreflightAnomalyGuard | app/protection.py:289-366 | A standing quarantine blocks even with the guard switched off; otherwise the pair is blocked exactly when the measurement is anomalous. |
| Quarantine.Guard.AcknowledgeQuarantine | app/protection.py:416-439 | Removes exactly the quarantines the pair releases, and says whether there were any. |

## Left out

- rclone, APNs, subprocesses, threads, signals and file locks: their outcomes are arguments or choices of a step; only the order of steps is kept.
- SQLite and JSON encodings, the byte-bounded previews of summaries, and schema migrations: tables are maps and lists, transactions are atomic, and a summary read back is the summary that was written.
- SHA-256, UUIDs and HMAC: a digest is a given function, injective only where a lemma says so.
- RemoteListing: the `MAX_REMOTE_BYTES` cut-off is not modelled, because it depends on the block size; one JSON value is read by a given self-delimiting decoder.
- PairPlanner: case folding and path resolution of the host are given functions; repeated slashes inside a remote path are kept as the source keeps them.
- FilterCompiler: which rule matches which path is rclone's and a parameter of which only the patterns of the reserved names and `**` are known; filter files are given as lines.
- ProgressTracker: the regular expressions that classify a line are a given function of which only the blank line is known.
- DependencyLock: the explanation at the head of the lock is a parameter; fetching release metadata and the choice of wheels are not modelled, the digest lists are given.
- JobTables: names, keys, triggers and slots arrive stripped, and a result carries the history key it resolves to, because the default key needs Unicode case folding.
- JobTables: whether a summary is that of a verified partial restore is given with the summary, not read from its fields.
- BaselineEvidence.EndedIsNeverNew: asks that results carry the reserved key, because `BaselineEvidence.LostKey` shows it false otherwise, and that no finish with the status "running", which no caller makes, reports the pair before its job ends.
- ScheduleState.AttemptStatusIsRow: asks that the recorded start time is the row's.
- PairScheduler: whether a check sees the cancellation, how a worker ends and which workers a wait finds done are given for every round; a wait finds at least one, as it does without a timeout.
- PushDispatch: a claim owner is taken to be fresh, as the default UUID is; retry delays, payloads, headers and the provider token are arguments or left out, and a dispatcher that stops gives up the guard.
- LogTail.CachedReadIsPlainRead: files only grow; what happens otherwise is `LogTail.QuietReadExactly`, for a file that does not change during the call.
- VaultBlobs: one service process is assumed, as the locks of blobs and transfers are in memory; receipts have well-formed digests and unreadable ones, which stop every removal, are not modelled; nothing outside the modelled steps deletes a blob.
- VaultUpload: checks of the destination and lost writes of acknowledged bytes are not part of the runs.
- RecoverySnapshots: cancellation, remote targets, the renaming of the finished workspace and retention of snapshots; what walking a folder yields is given.
- RecoverySnapshots.PublishedIsAccepted: speaks of the local inventory of the copied data, which both kinds of capture take.
- Quarantine: audit entries, texts and the rounding of the reported percentages; percentages are real numbers.
- The recovery reader threads, the config store, overdue debounce, handover import, PBS archive names, job batches and the deduplication of single-value flags are not modelled; they would mostly add easier members.
- Web routes, logins, WebAuthn, redaction, metrics and the iOS client.
