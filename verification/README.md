# Verification of the processing worker

These Dafny files model the protocols on which the Rust processing worker (`apps/processing-worker`) relies
and prove what they guarantee over all inputs, all interleavings and all points of cancellation.

| module | models |
|---|---|
| `OcrLease`, `OcrAnswers` | the fenced lease of OCR jobs in a shared table: any number of workers, rolled-back, seen and unseen commits, recovery, reaping; and exactly which rows each transaction accepts |
| `MatchDrafts`, `LockOrder` | the match-draft status under concurrent finishers, in lock, read, write and commit steps, and the global order of row locks |
| `Execution`, `ExecutionCauses`, `ExecutionObjects` | one cancellable execution and the operating-system child it may own, await by await; why it fails and when it does not |
| `ChildStop` | stopping a child and its control group inside one deadline |
| `WorkerRuntime`, `WorkerVerdicts`, `WorkerObjects` | the scheduler's single reservation, its attempts (each a whole `Execution`), stop and drain; exactly what stops it |
| `LeaseTiming` | heartbeats, watchdog, stop and finalization against the lease, on timed runs |
| `Campaign`, `CampaignCounts`, `CampaignProgress` | campaign counters under READ COMMITTED transactions, what they count, and what an undisturbed transaction achieves |
| `Materialization`, `MaterializationOutcomes`, `MaterializationObjects` | expansion of campaign targets, the life of the jobs and requests of one title, and their outcomes |
| `Promotion`, `PromotionReplay`, `ReleaseAudit` | the promotion of a release, its replays, and the audit of its result |
| `BusyRetry`, `Selection`, `Blocking`, `Identity`, `Percentile`, `PhaseTimings` | the self-contained algorithms |

The form is the same throughout. A protocol is a total step function over its state, an event that cannot happen
leaves the state alone, and a run is any list of events, so a theorem about runs covers every schedule. Code that
changes objects or tables in place is a class whose methods are proved equal to these functions. Fields called
bookkeeping exist only to state a property. External calls (PostgreSQL statements, cgroups, signals, clocks, the
hash) are parameters or events with nothing assumed beyond what is written at them.

Results that differ from what one would expect of the code:

- A running analysis job that is put back after a release has overtaken it keeps its old version
  (`Materialization.OnlyARequeueLeavesAnOldVersion`). Workers of the new version neither claim it nor schedule
  anything beside it (`OldVersionBlocksWorkers`). An ordinary job is freed by the next expansion, request or edit; a
  `radar_prepare` job is not, and until another promotion, the deletion of the title or a claim by an old worker
  every request accepted for the title waits without a job (`StrandedUntilFreed`, `StrandedRadarStopsTheTitle`;
  `RadarIsStranded` is a run into that state).
- A promotion is idempotent for as long as its operation is on record, and the cleanup of history may delete it once
  its campaign has ended more than 45 days before. Replays are answered from the record exactly until that happens
  (`PromotionReplay.ReplayedIffNotForgotten`); counted from the application, a delay is safe on every run exactly up
  to 45 days (`SafeDelay`). After the deletion the key is a new key (`AForgottenKeyAppliesAgain`), and a late retry by
  an old build turns the release back instead of being refused (`ALateRetryTurnsTheReleaseBack`).
- The accepted timing bounds do not cover every child after every refresh. The first refresh follows no heartbeat
  (`LeaseTiming.FirstRefreshMayComeTooLate`). A signal that interrupts the read of the watchdog restarts its
  timeout (`ASignalDelaysTheWatchdog`). A parent that was frozen during a heartbeat may pass an old answer on;
  `StallsAreSafeIff` shows that this is covered exactly if the bounds leave a fourth interval. For any one read of
  the watchdog `ReadIsSafeIff` gives the exact condition, and in all other cases the promise holds
  (`ChildDiesInTime`).
- `ChildRegistration::recover` overwrites an earlier failure, unlike every other place, but that branch cannot be
  reached (`Execution.OwnershipErrorsAreUnreachable`).

## Model

| member | source | states |
|---|---|---|
| `OcrLease.AcquireKeeps` | apps/processing-worker/src/ocr/control.rs:278-341 | A new lease carries a token above every earlier claim of the job, and exactly this claim holds the row |
| `OcrLease.RecoverKeeps` | apps/processing-worker/src/ocr/control/recovery.rs:6-73 | Recovery of an expired lease keeps claims, fencing token and accounting under any configured limit, and gives the row to nobody |
| `OcrLease.ClaimKeeps` | apps/processing-worker/src/ocr/control.rs:228-276 | Every answer of a claim keeps the row invariant: a claimed row is taken with the next token, any other answer leaves the old holder or none |
| `OcrLease.HolderKeeps` | apps/processing-worker/src/ocr/control.rs:343-374 | Heartbeat, completion and requeue keep the row invariant, draft and attempt accounting included |
| `OcrLease.SingleHolder` | apps/processing-worker/src/ocr/control.rs:609-633 | At every moment of every run at most one claim ever issued for a job holds its row |
| `OcrLease.StepAdvances` | apps/processing-worker/src/ocr/control.rs:278-341 | The fencing token moves only with a committed claim on that row, and then by exactly one |
| `OcrLease.LostStaysLost` | apps/processing-worker/src/ocr/control.rs:609-633 | A claim that has lost its row never gets it back, whatever is committed later |
| `OcrLease.OlderClaimIsFenced` | apps/processing-worker/src/ocr/control.rs:497-503 | After a newer claim, or once the row left running, every statement of the older claim is refused in every later state and writes nothing |
| `OcrLease.StrangerIsRefused` | apps/processing-worker/src/ocr/control.rs:609-633 | A claim that does not hold the row is answered with an error, owner-lost for well-formed input, and changes nothing |
| `OcrLease.CompletionTakesEffectOnce` | apps/processing-worker/src/ocr/control.rs:392-404 | Whether or not the client saw the commit, a completion takes effect once; repeating it or trying another is refused for ever |
| `OcrLease.TerminalAbsorbs` | apps/processing-worker/src/ocr/control.rs:406-469 | A terminal row never changes again: job, draft, claims and counters stay |
| `OcrLease.DraftsBelongToSuccess` | apps/processing-worker/src/ocr/control.rs:406-469 | A draft exists exactly for succeeded jobs, was written by the claim with the greatest token, and stays as written |
| `OcrLease.AcceptedEndings` | apps/processing-worker/src/ocr/control.rs:487-595 | An accepted completion ends the job with what its holder reported; a spent retry fails it and an interruption spends nothing |
| `OcrLease.AttemptsAreBounded` | apps/processing-worker/src/ocr/control.rs:533-595 | Attempts equal failure retries, lease recoveries, interruptions and the live or last one; for every configuration of the workers, without interruptions at most 1 + the greatest retry limit + the greatest recovery limit claims |
| `OcrLease.ExpiredLeaseIsTaken` | apps/processing-worker/src/ocr/control/recovery.rs:6-73 | Once the clock has passed the lease, recovery takes the row from its holder, seen or unseen, and fails it exactly at the configured recovery limit |
| `OcrLease.LeaseIsExclusiveUntilExpiry` | apps/processing-worker/src/ocr/control.rs:238-256 | Before a lease expires nothing but its holder changes the row: no claim, recovery, reaping, cancelling or other holder |
| `OcrLease.RetryDelayIsRespected` | apps/processing-worker/src/ocr/control.rs:533-595 | A requeued job is not claimed by anyone before its retry delay has passed |
| `OcrLease.AcceptedTimes` | apps/processing-worker/src/ocr/control.rs:343-374 | An accepted heartbeat moves the expiry to the given distance and nothing else; an accepted retry is due after its delay |
| `OcrAnswers.ClaimAnswers` | apps/processing-worker/src/ocr/control.rs:228-341 | Every answer of a claim as an if-and-only-if in the columns: claimed exactly for a valid candidate whose row is queued and due, or expired below the recovery limit, with both counters below their bounds; and so for each other answer |
| `OcrAnswers.ClaimedRow` | apps/processing-worker/src/ocr/control.rs:278-341 | Claim and lease carry the identity of the claimer, the next token and attempt, and the expiry after the lease duration |
| `OcrAnswers.UnclaimedRow` | apps/processing-worker/src/ocr/control.rs:228-276 | A claim that takes nothing fails a job of a bad contract, times a spent one out, and otherwise leaves the row alone |
| `OcrAnswers.DueJobsAreClaimed` | apps/processing-worker/src/ocr/control.rs:278-341 | The next committed claim with a valid candidate takes a job that is free, whether or not its client sees the commit |
| `OcrAnswers.RecoveryAnswers` | apps/processing-worker/src/ocr/control/recovery.rs:6-73 | A recovery touches exactly the row that this holder still has after its expiry, and requeues it below the limit |
| `OcrAnswers.HolderAnswers` | apps/processing-worker/src/ocr/control.rs:343-374 | Heartbeat, completion, failure and requeue are accepted exactly from the unexpired owner and well formed |
| `OcrAnswers.HolderEffects` | apps/processing-worker/src/ocr/control.rs:406-595 | What each accepted statement leaves in the row |
| `OcrAnswers.ReapAnswers` | apps/processing-worker/src/ocr/control/maintenance.rs:9-55 | The repair scan ends exactly the open jobs that began before its bound and that nobody holds |
| `OcrLease.JobTables.ClaimJob` | apps/processing-worker/src/ocr/control.rs:228-341 | The claim transaction, statement by statement, on the two tables: its answer and its whole effect, missing job included |
| `OcrLease.JobTables.RecoverHolder` | apps/processing-worker/src/ocr/control/recovery.rs:6-73 | The recovery branches on a locked row, with the clock read once per guard |
| `OcrLease.JobTables.RecoverOrphan` | apps/processing-worker/src/worker/selection.rs:97-130 | The recovery transaction of a scanned orphan re-reads the row and tolerates that it is gone |
| `OcrLease.JobTables.Heartbeat` | apps/processing-worker/src/ocr/control.rs:343-374 | A heartbeat extends exactly the lease it owns, or answers that it is lost |
| `OcrLease.JobTables.FinishSuccess` | apps/processing-worker/src/ocr/control.rs:406-469 | Success writes the draft and ends the job together, or nothing |
| `OcrLease.JobTables.FinishFailure` | apps/processing-worker/src/ocr/control.rs:487-504 | Failure ends the job with its code, or nothing |
| `OcrLease.JobTables.Requeue` | apps/processing-worker/src/ocr/control.rs:533-595 | The three branches of a requeue: limit reached, delayed retry, interruption |
| `LockOrder.NoCycle` | apps/processing-worker/src/ocr/control.rs:745-767 | Transactions that always wait for a row above all they hold are never in a circle of waits |
| `LockOrder.SomeoneProceeds` | apps/processing-worker/src/ocr/control.rs:745-767 | While any such transaction is open, one of them is not blocked |
| `MatchDrafts.NoLostStatus` | apps/processing-worker/src/ocr/control.rs:706-743 | With transactions cut into lock, read, write and commit steps: once all slot jobs of a draft are committed terminal the draft has left ocr_running and shows failed or cancelled over warnings over ready |
| `MatchDrafts.EndingsStay` | apps/processing-worker/src/ocr/control.rs:706-743 | A committed ending of a job is never overwritten by another transaction |
| `MatchDrafts.CommitsWhatWasAsked` | apps/processing-worker/src/ocr/control.rs:406-504 | A commit writes exactly the ending its transaction was given, to exactly its job |
| `MatchDrafts.OnlyCommitsWrite` | apps/processing-worker/src/ocr/control.rs:706-767 | No other statement changes a committed row, and a transaction keeps the job and ending it began with |
| `MatchDrafts.CommitSparesOthers` | apps/processing-worker/src/ocr/control.rs:745-767 | A commit leaves every draft that another transaction has locked as that one saw it |
| `MatchDrafts.SyncNeedsNoLock` | apps/processing-worker/src/ocr/control.rs:706-743 | The projection finds its draft rows already locked: they were taken before the job row |
| `MatchDrafts.NoDeadlock` | apps/processing-worker/src/ocr/control.rs:745-767 | Draft rows by id before job rows before image rows: no circle of waits in any reachable state |
| `MatchDrafts.SomeoneAdvances` | apps/processing-worker/src/ocr/control.rs:745-767 | While transactions are open one of them can run its next statement and comes closer to its end |
| `MatchDrafts.WithoutDraftLocksTheStatusIsLost` | apps/processing-worker/src/ocr/control.rs:745-767 | Without the draft locks two finishers leave a draft running although all its jobs have ended |
| `Execution.ChildIsConserved` | apps/processing-worker/src/execution.rs:258-334 | Through panics, dropped futures and cancelled calls a registered, unverified child is owned exactly once, by the guard, returned or recovering, while the resources live; they go only with a dropped handle and an ended future, and then a kill was attempted; a child that is retired was reaped with an empty cgroup and nobody owns it |
| `Execution.CleanMeansGone` | apps/processing-worker/src/execution.rs:258-272 | A clean state means: no wait handle left, the child reaped and its cgroup seen empty, every auxiliary task finished |
| `Execution.CleanIsGone` | apps/processing-worker/src/execution.rs:258-272 | The same for every state that satisfies the invariant, for use by the scheduler |
| `Execution.ResultIsDeliveredOnce` | apps/processing-worker/src/execution.rs:111-135 | For any sequence of polled and dropped calls the domain result is delivered at most once, first, unchanged, and never replaced by a cleanup failure |
| `Execution.RunIsNeverWorse` | apps/processing-worker/src/execution.rs:111-207 | The first recorded failure stays, the cleanup deadline never grows, a stop request and delivered results stand, a retired child stays retired |
| `Execution.FailureKillsTheChild` | apps/processing-worker/src/execution.rs:202-218 | Whenever a failure is recorded, an abort begins, or handle or resources are dropped, a kill of the child that is still registered is attempted there and then |
| `Execution.UncleanEndStopsTheWorker` | apps/processing-worker/src/execution.rs:164-181 | A panicked or aborted task, any failure, and any completion that leaves something behind request the common stop |
| `Execution.CleanupEndsAtItsDeadline` | apps/processing-worker/src/execution.rs:187-200 | Past its deadline a cleanup returns within three polls, whatever child and IO tasks do |
| `Execution.AbortEndsAtItsDeadline` | apps/processing-worker/src/execution.rs:139-162 | Past its deadline an abort returns within four polls, even when the future never ends |
| `Execution.OwnershipErrorsAreUnreachable` | apps/processing-worker/src/execution.rs:340-361 | A recovered guard always finds its slot free, and a cleanup with a registered child always finds the child |
| `Execution.StepKeeps` | apps/processing-worker/src/execution.rs:282-327 | Every stretch between two awaits keeps ownership, result, call and stop invariants and takes nothing back |
| `ExecutionCauses.FailuresHaveCauses` | apps/processing-worker/src/execution.rs:139-207 | Every recorded failure of a run has its cause in the run: a deadline or limit that had passed at a poll, a deadline that could not be computed, or an error that was reported |
| `ExecutionCauses.TimeoutsAreLate` | apps/processing-worker/src/execution.rs:150-200 | The cleanup times out only at a poll at or after its deadline, the abort only at or after its limit |
| `ExecutionCauses.CleanupFailuresAreRecorded` | apps/processing-worker/src/execution.rs:187-207 | Conversely a cleanup polled past its deadline, or ended with an error of its child, records that failure, stops the worker and delivers |
| `ExecutionCauses.AbortFailuresAreRecorded` | apps/processing-worker/src/execution.rs:111-162 | So does an abort polled past its limit, and a completion without a representable deadline |
| `ExecutionCauses.PanicsStopAtOnce` | apps/processing-worker/src/execution.rs:48-72 | A panic stops the worker at once; a failed emergency stop is the failure of an abort |
| `ExecutionCauses.PendingPollsWait` | apps/processing-worker/src/execution.rs:187-200 | A poll before the deadline that finds nothing leaves the call suspended as it is |
| `ExecutionCauses.DeadlinesCome` | apps/processing-worker/src/execution.rs:111-160 | `completed` sets the deadline it has computed, once; an abort brings it forward to its own at most |
| `ExecutionCauses.TimelyCleanupGoesOn` | apps/processing-worker/src/execution.rs:187-200 | Until its deadline a cleanup without errors goes on or has ended clean, without a failure and with the result delivered |
| `ExecutionCauses.TimelyCleanupEndsClean` | apps/processing-worker/src/execution.rs:274-327 | With the child stopped and the IO tasks finished in time, three polls end it clean |
| `ExecutionCauses.EvidenceInTheRun` | apps/processing-worker/src/process/recovery.rs:131-141 | A leader is reaped and a cgroup empty on record exactly if an event of the run saw it |
| `ExecutionCauses.EvidenceIsSeen` | apps/processing-worker/src/execution.rs:302-314 | A child is retired only by an event that saw its leader ended and its cgroup empty |
| `ExecutionCauses.AbortsReachTheFuture` | apps/processing-worker/src/execution.rs:139-149 | An abort stops the worker, kills the child and aborts the future; a dropped handle aborts a future not yet observed; nothing else does |
| `ExecutionCauses.NewTasksAreUnfinished` | apps/processing-worker/src/execution.rs:258-272 | An execution is not clean before each IO task it started has finished |
| `ExecutionCauses.StopInTheRun` | apps/processing-worker/src/execution.rs:111-207 | The common stop is requested only by a panic, an abort, an end without value, a failure or something left behind |
| `ExecutionObjects.Scope.CleanupState` | apps/processing-worker/src/execution.rs:258-272 | The state is failed, pending or clean exactly by failure, child and unfinished tasks |
| `ExecutionObjects.Scope.RegisterChild` | apps/processing-worker/src/execution.rs:371-386 | A scope accepts one child ever |
| `ExecutionObjects.Scope.Recover` | apps/processing-worker/src/execution.rs:345-361 | A returned wait handle goes to the free slot; a conflicting one is killed and recorded |
| `ExecutionObjects.Scope.Drop` | apps/processing-worker/src/execution.rs:330-334 | Dropping the resources attempts a kill of everything they still hold |
| `ExecutionObjects.RecoverableChild.constructor` | apps/processing-worker/src/process/recovery.rs:56-69 | The guard exists before the registration is tried, also when it is refused |
| `ExecutionObjects.RecoverableChild.VerifyCleanup` | apps/processing-worker/src/process/recovery.rs:131-141 | Only an exited leader and an empty cgroup retire the capability |
| `ExecutionObjects.RecoverableChild.Drop` | apps/processing-worker/src/process/recovery.rs:144-164 | Dropping an unverified guard hands the wait handle back to its scope; a verified one is just released |
| `ExecutionObjects.ExecutionHandle.EnterCleanup` | apps/processing-worker/src/execution.rs:111-135 | From the observed end to the first await of the cleanup, for both kinds of call |
| `ExecutionObjects.ExecutionHandle.LeaveCleanup` | apps/processing-worker/src/execution.rs:187-200 | The end of a cleanup: failure recorded, result delivered |
| `ExecutionObjects.ExecutionHandle.PollObserving` | apps/processing-worker/src/execution.rs:164-181 | Observing the end of the spawned future, with the abort's own timeout |
| `ExecutionObjects.ExecutionHandle.PollLocking` | apps/processing-worker/src/execution.rs:294-313 | The child moves from returned to recovering under the lock |
| `ExecutionObjects.ExecutionHandle.PollChild` | apps/processing-worker/src/execution.rs:302-314 | A successful child cleanup retires child and owner together |
| `ExecutionObjects.ExecutionHandle.Poll` | apps/processing-worker/src/execution.rs:187-200 | One poll of a suspended call, the inner future before the clock |
| `ExecutionObjects.ExecutionHandle.Drop` | apps/processing-worker/src/execution.rs:209-218 | Dropping the handle stops what is not known to be clean and aborts a live future |
| `ExecutionObjects.ExecutionHandle.BeginAbort` | apps/processing-worker/src/execution.rs:139-149 | Stop request, emergency stop and abort of the future, before the first await |
| `ChildStop.DeadlinesFor` | apps/processing-worker/src/process.rs:650-679 | Soft, reap and overall deadline in order, a quarter of the grace after each of the first two; refused exactly for no grace or an unrepresentable end |
| `ChildStop.StoppingIsBounded` | apps/processing-worker/src/process.rs:681-722 | Stopping the leader is over by its reap deadline, or at once if that has passed |
| `ChildStop.KillableIsReaped` | apps/processing-worker/src/process.rs:681-722 | A leader that dies within a quarter of the grace after the kill is reaped, whatever it does with the termination signal |
| `ChildStop.GoneLeaderIsReaped` | apps/processing-worker/src/process.rs:681-705 | A leader that has ended already is reaped at once |
| `ChildStop.GracefulLeaderIsReaped` | apps/processing-worker/src/process.rs:681-705 | A leader that ends before the soft deadline is reaped when it ends and not killed |
| `ChildStop.ReapedLeaderHasEnded` | apps/processing-worker/src/process.rs:681-722 | What is reaped has ended, by itself or by a signal that was sent |
| `ChildStop.UnreapedReason` | apps/processing-worker/src/process.rs:707-722 | A leader is not reaped only because the wait failed, the kill could not be sent, or the time was up |
| `ChildStop.StopGroup` | apps/processing-worker/src/process.rs:724-766 | Success only with the cgroup seen empty by the deadline; it says whether anything had to be killed; over by the deadline |
| `ChildStop.RecoveredChild.Cleanup` | apps/processing-worker/src/process/recovery.rs:174-200 | The contract the execution relies on: success means leader reaped and group seen empty, the group is stopped even if the leader is not, every answer by the deadline, or at once if that has passed meanwhile |
| `ChildStop.RecoveredChild.Drop` | apps/processing-worker/src/process/recovery.rs:208-214 | A kill of an unverified child is attempted when it is dropped |
| `WorkerRuntime.CapacityIsConserved` | apps/processing-worker/src/worker/runtime.rs:502-513 | The reservation is held exactly when one claim in flight, recorded claim, running, finished, aborted or leaked attempt accounts for it; so these exclude each other and a start never replaces a live attempt |
| `WorkerRuntime.CapacityReturnsAfterCleanup` | apps/processing-worker/src/resource_budget.rs:95-128 | Capacity comes back only with a refused claim or an attempt that returned its value and left nothing behind |
| `WorkerRuntime.LeakIsForever` | apps/processing-worker/src/worker/runtime.rs:502-513 | After an unclean, panicked or aborted attempt or an unknown claim the reservation is never returned, and nothing more is claimed, started or restored |
| `WorkerRuntime.RecordedClaimsAreStarted` | apps/processing-worker/src/worker/runtime.rs:844-853 | Every recorded claim is started, in order, also during a stop; when draining begins none is left |
| `WorkerRuntime.ClaimFindsItsRunner` | apps/processing-worker/src/worker/runtime/dispatch.rs:202-226 | A committed claim always finds its runner at home |
| `WorkerRuntime.DoneHoldsNothing` | apps/processing-worker/src/worker/runtime.rs:683-739 | A finished worker holds no claim, attempt or runner, and its reservation only if one leaked |
| `WorkerRuntime.FirstStopWins` | apps/processing-worker/src/worker/runtime.rs:440-456 | The common deadline and the first failure are fixed once |
| `WorkerRuntime.ShutdownEnds` | apps/processing-worker/src/worker/runtime.rs:605-635 | Past its deadline the abort of a running attempt ends after four polls, however attempt, child and IO behave, and the worker is done |
| `WorkerRuntime.DrainTasksEnd` | apps/processing-worker/src/worker/runtime.rs:605-635 | Attempt, reconciliation and listener are aborted one after the other; past the deadline the whole drain ends within four polls for each that was running |
| `WorkerRuntime.ObserveKeeps` | apps/processing-worker/src/worker/runtime.rs:502-513 | The arm for a completed attempt keeps capacity and runners, clean or not |
| `WorkerVerdicts.AttemptVerdict` | apps/processing-worker/src/worker/runtime.rs:502-513 | The end of an attempt stops a running worker exactly if it is not a clean success; the first failure is its own error, the panic or abort, or what it left behind; the runner comes back exactly with its value and nothing left |
| `WorkerVerdicts.StopsIff` | apps/processing-worker/src/worker/runtime.rs:440-513 | One event stops a running worker exactly if it is a stop request, a complaint, a crash, a failed step, or such an end |
| `WorkerVerdicts.FirstFailure` | apps/processing-worker/src/worker/runtime.rs:440-456 | The first failure is the reason of what stopped the worker |
| `WorkerVerdicts.ShutdownFailures` | apps/processing-worker/src/worker/runtime.rs:605-635 | A drain that runs into its deadline is a failure, and so is a refused abort |
| `WorkerVerdicts.WorkerStopsIff` | apps/processing-worker/src/worker/runtime.rs:841-888 | Over whole runs a worker is stopping exactly if the run holds such a cause |
| `WorkerVerdicts.ClaimIsRun` | apps/processing-worker/src/worker/runtime.rs:841-888 | A claim committed by an idle worker is running, with its runner and under the one reservation, when the loop is back at its top |
| `WorkerVerdicts.RunnerComesHome` | apps/processing-worker/src/worker/runtime.rs:844-846 | An attempt that ends in clean success gives runner and reservation back |
| `WorkerRuntime.StepKeeps` | apps/processing-worker/src/worker/runtime.rs:841-888 | Every event of main loop, attempt, stop and drain keeps the invariant and gives nothing back |
| `WorkerObjects.ResourceBudget.Reserve` | apps/processing-worker/src/resource_budget.rs:116-122 | A second reservation is refused and leaves the first alone |
| `WorkerObjects.ResourceBudget.Release` | apps/processing-worker/src/resource_budget.rs:124-127 | Release frees the one reservation |
| `WorkerObjects.WorkState.Restore` | apps/processing-worker/src/worker/runtime.rs:156-167 | A finished runner goes home and its capacity with it |
| `WorkerObjects.WorkState.Record` | apps/processing-worker/src/worker/runtime/dispatch.rs:202-226 | A claim is recorded together with the runner it takes, or not at all |
| `WorkerObjects.Runtime.RequestStop` | apps/processing-worker/src/worker/runtime.rs:440-450 | Sets the deadline once, with its fallback for an unrepresentable budget |
| `WorkerObjects.Runtime.Fail` | apps/processing-worker/src/worker/runtime.rs:451-456 | Keeps the first failure and stops |
| `WorkerObjects.Runtime.StartPending` | apps/processing-worker/src/worker/runtime.rs:545-574 | Takes the recorded claim and spawns it |
| `WorkerObjects.Runtime.ObserveCompleted` | apps/processing-worker/src/worker/runtime.rs:502-513 | Returns a runner only with value and clean state; every other end fails the worker |
| `WorkerObjects.Runtime.TakeReturned` | apps/processing-worker/src/worker/runtime.rs:844-846 | Hands a returned runner back exactly once |
| `Campaign.RowIsTheProjection` | apps/processing-worker/src/series_analysis/campaign.rs:5-66 | For any interleaving every committed campaign row counts exactly the committed targets; expanding, running and terminal mean some pending, none pending, all ended; finished and the operation row follow; failed + skipped <= terminal <= expanded <= targets |
| `CampaignCounts.RowIsTheTally` | apps/processing-worker/src/series_analysis/campaign.rs:21-31 | In every reachable state the four counters of a row are the tally of its targets, one status at a time; failed and skipped are zero exactly if no target is |
| `CampaignCounts.CountsExchange` | apps/processing-worker/src/series_analysis/campaign.rs:21-31 | One change of status exchanges what the two statuses add to the counters |
| `CampaignCounts.CountsAreTheTally` | apps/processing-worker/src/series_analysis/campaign.rs:21-31 | The counting statement computes that tally |
| `CampaignCounts.RefreshedRowIsTheTally` | apps/processing-worker/src/series_analysis/campaign.rs:16-66 | The two updates on any row: counters, status and both finishing times, from its targets |
| `CampaignProgress.UndisturbedTransaction` | apps/processing-worker/src/series_analysis/campaign.rs:5-66 | A transaction that nobody holds up gives its target the new status and its row the new tally, and changes nothing else |
| `CampaignProgress.CampaignIsCreated` | apps/processing-worker/src/series_analysis/release.rs:728-770 | A new campaign has its titles pending and is ended exactly if there are none |
| `Campaign.CampaignsOnlyAdvance` | apps/processing-worker/src/series_analysis/campaign.rs:5-66 | No target goes back, status only moves expanding to running to terminal, finishing times never change once set |
| `Campaign.CountKeeps` | apps/processing-worker/src/series_analysis/campaign.rs:12-20 | With every lock in hand, what is counted is what will be committed |
| `Campaign.CommitKeeps` | apps/processing-worker/src/series_analysis/campaign.rs:21-50 | A commit keeps every row a projection and disturbs no other open transaction |
| `Campaign.NoDeadlock` | apps/processing-worker/src/series_analysis/campaign.rs:14-20 | Campaign rows are locked in ascending order: no circle of waits |
| `Campaign.SomeoneIsNotBlocked` | apps/processing-worker/src/series_analysis/campaign.rs:14-20 | While a transaction is open one of them is not blocked |
| `Campaign.CountingFirstLosesAnUpdate` | apps/processing-worker/src/series_analysis/campaign.rs:12-13 | Counting before locking would lose an update: every target skipped, the row still expanding |
| `Campaign.CampaignRows.Refresh` | apps/processing-worker/src/series_analysis/campaign.rs:5-66 | The procedure itself: afterwards each named row says what its targets say, and no other row changed |
| `Materialization.NothingIsLostOrDoubled` | apps/processing-worker/src/series_analysis/materialization.rs:369-436 | In every reachable state a title has at most one active job, a pending or skipped target has no request, any other exactly its own, and a target has ended exactly when its request is fulfilled |
| `Materialization.ExpansionPlacesTheRequest` | apps/processing-worker/src/series_analysis/materialization.rs:438-531 | Expanding a valid target succeeds; its request is on a queued job of the desired version and revision, on a running attempt exactly if that one can serve it, or reserved with pending_work; nothing else changes |
| `Materialization.ExpansionFailsOnlyOnBadTargets` | apps/processing-worker/src/series_analysis/materialization.rs:247-337 | The only refusal is a target that breaks its campaign's uniform version or trigger; ids are never inserted twice |
| `Materialization.ServedAfterAcceptance` | apps/processing-worker/src/series_analysis/control/claim.rs:368-393 | Requests ride on, and are fulfilled by, only attempts that started at or after their acceptance |
| `Materialization.TargetsOnlyAdvance` | apps/processing-worker/src/series_analysis/materialization.rs:418-431 | A target leaves pending once and ends once; what was asked for never changes; fulfilled requests stay |
| `Materialization.EndLeavesNothingBehind` | apps/processing-worker/src/series_analysis/control/lifecycle.rs:137-182 | When an attempt ends under the desired version its requests are fulfilled, and while any request is pending the title has a queued job of that version again |
| `MaterializationOutcomes.EndDecidesTargets` | apps/processing-worker/src/series_analysis/control/transaction.rs:106-143 | The end of an owned attempt makes exactly the targets whose requests ride on it succeeded or failed, as the attempt and its job did |
| `MaterializationOutcomes.OutcomesAreEarned` | apps/processing-worker/src/series_analysis/control/transaction.rs:120-141 | In every run a target is succeeded or failed only if the attempt its request rode on ended so, by its owner |
| `MaterializationOutcomes.ClaimTakes` | apps/processing-worker/src/series_analysis/control/claim.rs:302-393 | A worker takes exactly a queued job of its own version; the requests that wait for it and were accepted by then ride on the attempt |
| `MaterializationOutcomes.PutBack` | apps/processing-worker/src/series_analysis/control/lifecycle.rs:254-286 | An attempt that its owner puts back leaves job and requests waiting, with the old version or with the wanted one |
| `MaterializationOutcomes.AskedRequests` | apps/api/src/main/scala/momo/api/adapters/postgres/PostgresSeriesAnalysisMutationOps.scala:73-160 | A request through the API gets a new job, rides on a queued ordinary one, or waits with the work marked |
| `MaterializationOutcomes.ReleaseMoves` | apps/processing-worker/src/series_analysis/release.rs:688-727 | A release moves the version of a title and of its queued jobs and nothing but the mark of open work |
| `MaterializationOutcomes.DeletionEndsOpenWork` | apps/api/src/main/scala/momo/api/adapters/postgres/PostgresGameTitlesRepository.scala:142-176 | The deletion of a title skips its open targets and leaves those that have ended |
| `MaterializationOutcomes.ValidTargets` | apps/processing-worker/src/series_analysis/materialization.rs:247-337 | Manual campaigns may hold any version, the four others only their own |
| `MaterializationOutcomes.ScannedRequests` | apps/processing-worker/src/series_analysis/control/radar/materialize.rs:38-92 | A scan for the oldest request makes its follow-up job and puts every waiting request on it, for the desired version and without an active job only |
| `Materialization.ScanMakesProgress` | apps/processing-worker/src/series_analysis/control/radar/materialize.rs:38-92 | Whenever something waits and no job is active, a scan for the desired version makes a new queued job of what the title wants for the oldest intent; if that is a request, every waiting request is on it |
| `Materialization.NextIdIsNew` | apps/processing-worker/src/series_analysis/control/radar/materialize.rs:38-92 | A follow-up job id is never used twice: an earlier follow-up of the same intent would have served it |
| `Materialization.OldestIntentExists` | apps/processing-worker/src/series_analysis/control/radar/materialize.rs:57-61 | The query for the oldest waiting intent always has an answer |
| `Materialization.OnlyARequeueLeavesAnOldVersion` | apps/processing-worker/src/series_analysis/control/lifecycle.rs:254-286 | A queued job is of its title's version after every transaction, except exactly the requeue of an attempt that a release overtook |
| `Materialization.OldVersionBlocksWorkers` | apps/processing-worker/src/worker/selection.rs:22-32 | Such a job stops its title for workers: none of another version claims it, and none schedules anything beside it or ends anything |
| `Materialization.RequestMeetsStranded` | apps/processing-worker/src/series_analysis/materialization.rs:339-367 | An expansion or request that meets such a job brings an ordinary one up to date and rides on it; a radar preparation stays as it is and the request waits without a job |
| `Materialization.StrandedUntilFreed` | apps/processing-worker/src/series_analysis/materialization.rs:339-367 | A job of an old version leaves that state exactly by a promotion, a deletion, a claim of an old worker, or, unless it is a radar preparation, by an expansion or request |
| `Materialization.StrandedRadarStopsTheTitle` | apps/processing-worker/src/series_analysis/job_transitions.rs:5-31 | On every run without the first three, a radar preparation of an old version stays, jobs and earlier requests stay as they are, new requests get no job, and no target ends |
| `Materialization.RadarIsStranded` | apps/processing-worker/src/series_analysis/control/lifecycle.rs:254-286 | That state is reached: planned, scheduled, claimed, overtaken by a release, put back |
| `Materialization.StepKeeps` | apps/processing-worker/src/series_analysis/control/transaction.rs:106-143 | Every transaction on a title keeps jobs, requests and targets consistent and takes no work back |
| `MaterializationObjects.TitleRows.LockActiveJob` | apps/processing-worker/src/series_analysis/materialization.rs:199-245 | Finds the active job, or that there is none |
| `MaterializationObjects.TitleRows.MaterializeTarget` | apps/processing-worker/src/series_analysis/materialization.rs:369-531 | The writes of one assignment, in order, or none |
| `MaterializationObjects.TitleRows.ExpandTarget` | apps/processing-worker/src/series_analysis/materialization.rs:54-79 | One expansion transaction: what it answers, and that it leaves the title consistent |
| `MaterializationObjects.Titles.ExpandOne` | apps/processing-worker/src/series_analysis/materialization.rs:42-50 | One key takes exactly itself out of the pending ones, or changes nothing |
| `MaterializationObjects.Titles.ExpandPage` | apps/processing-worker/src/series_analysis/materialization.rs:14-52 | What a pass reports is exactly how many targets left the pending ones, all from its page; contention costs nothing; the pending count is its measure |
| `Promotion.OnlyTheFirstApplicationWrites` | apps/processing-worker/src/series_analysis/release.rs:202-290 | Exactly an accepted application of a key that is not on record writes; dry runs, replays and refusals leave every row alone |
| `Promotion.KeysAreBound` | apps/processing-worker/src/series_analysis/release.rs:588-606 | A key used with another trigger or version is a conflict, whatever else holds |
| `Promotion.PromotionAnswers` | apps/processing-worker/src/series_analysis/release.rs:202-290 | Every answer of a promotion as an if-and-only-if in what it finds: conflict, unready or incompatible readers and workers, mismatch, missing row, bound, success |
| `PromotionReplay.ReplayedIffNotForgotten` | apps/processing-worker/src/series_analysis/release.rs:210-244 | Over any run after an application, every replay at every moment changes nothing and is answered from the original record, exactly if no cleanup of the run chose the key while its campaign had ended more than 45 days before; same trigger and build get the same campaign and count, or a mismatch exactly if a promotion of another version was the last one applied since; other parameters are a conflict |
| `PromotionReplay.ReplayUntilRetentionAfterTheEnd` | apps/processing-worker/src/series_analysis/control/history.rs:14-24 | Whatever came before, a key on record is answered until 45 days after the end of its campaign have passed, so for ever while the campaign runs |
| `PromotionReplay.SafeDelay` | apps/processing-worker/src/series_analysis/control/history.rs:14-24 | For every application: a delay after it is safe on every run exactly if it is at most 45 days |
| `PromotionReplay.OnRecordIffNotForgotten` | apps/processing-worker/src/series_analysis/control/history.rs:14-24 | A key is on record at every moment of a run, with the same operation, exactly if no such cleanup chose it |
| `PromotionReplay.EveryKeyCanBeForgotten` | apps/processing-worker/src/series_analysis/control/history.rs:14-24 | From every store with the key on record a run without promotions, no later than a moment after the retention time, forgets it |
| `PromotionReplay.ReleaseIsTheLastApplied` | apps/processing-worker/src/series_analysis/release.rs:670-686 | The release row carries the version of the last promotion applied |
| `PromotionReplay.AForgottenKeyAppliesAgain` | apps/processing-worker/src/series_analysis/release.rs:245-290 | After any run of any application the same request writes again, as a first application, exactly if its key is off the record, given capable readers and workers and a countable number of targets |
| `PromotionReplay.ALateRetryTurnsTheReleaseBack` | apps/processing-worker/src/series_analysis/control/history.rs:14-24 | After any second promotion of another version a retry of the first is refused as a mismatch, and after a run without promotions the same retry moves the release back |
| `PromotionReplay.RetentionKeeps` | apps/processing-worker/src/series_analysis/control/history.rs:14-24 | No cleanup forgets a key before the retention time after the end of its campaign has passed |
| `PromotionReplay.PruneForgets` | apps/processing-worker/src/series_analysis/control/history.rs:14-24 | Exactly the expired operations that were chosen go, with their campaigns and the targets and requests of these |
| `Promotion.ApplyMovesEverything` | apps/processing-worker/src/series_analysis/release.rs:647-727 | Release row, every title and every queued job are on the released version; revisions and other jobs are untouched |
| `Promotion.ApplyTargetsTheEligible` | apps/processing-worker/src/series_analysis/release.rs:771-785 | The pending targets of the new campaign are exactly the eligible titles, each for the released version of its own revision and acceptable to expansion |
| `Promotion.ApplyCreatesTheCampaign` | apps/processing-worker/src/series_analysis/release.rs:728-770 | The campaign row starts as the projection of its targets, ended exactly if it has none |
| `Promotion.PromotionIsAReleasePerTitle` | apps/processing-worker/src/series_analysis/release.rs:647-787 | Per title a promotion is a release followed by the acceptance of one target, so the title stays consistent |
| `Promotion.ApplyKeeps` | apps/processing-worker/src/series_analysis/release.rs:202-290 | Promotions keep all titles consistent and unused keys free |
| `Promotion.Tables.LockTargets` | apps/processing-worker/src/series_analysis/release.rs:608-634 | The locked titles and the eligible ones |
| `Promotion.Tables.DetachPointers` | apps/processing-worker/src/series_analysis/release/detach_unsupported_pointers.sql:1-21 | On locked titles unsupported pointers are gone and supported ones kept; no other column and no other title changes |
| `Promotion.Tables.AdvanceTitles` | apps/processing-worker/src/series_analysis/release.rs:695-711 | Locked titles want their revision in the released version and targets have pending work; nothing else changes |
| `Promotion.Tables.AdvanceQueuedJobs` | apps/processing-worker/src/series_analysis/release.rs:714-726 | Exactly the queued jobs are of what their title wants, and are otherwise the same jobs |
| `Promotion.Tables.InsertTargets` | apps/processing-worker/src/series_analysis/release.rs:771-785 | Each target title has one more pending target for its revision in the released version; nothing else changes |
| `Promotion.UpdatesMoveTheRow` | apps/processing-worker/src/series_analysis/release.rs:688-727 | Statements with these effects, in this order, make one release of the title with the supported pointers only |
| `Promotion.Tables.ApplyPromotion` | apps/processing-worker/src/series_analysis/release.rs:647-787 | The statements of an application, in order, make exactly the promised state, or the bound is exceeded and nothing changes |
| `Promotion.Tables.PromoteTransaction` | apps/processing-worker/src/series_analysis/release.rs:202-290 | The whole transaction: its answer and its state |
| `ReleaseAudit.InspectTitle` | apps/processing-worker/src/series_analysis/release.rs:863-958 | Pushes exactly the violations of one title and keeps what was found before |
| `ReleaseAudit.InspectSurroundings` | apps/processing-worker/src/series_analysis/release.rs:381-399 | Exactly the global violations |
| `ReleaseAudit.InspectCompleteness` | apps/processing-worker/src/series_analysis/release.rs:362-418 | The report holds exactly what is violated somewhere and passes exactly when that is nothing |
| `ReleaseAudit.InOrderIffNoViolation` | apps/processing-worker/src/series_analysis/release.rs:863-958 | A title has no violation exactly if it is in order: wanted version, shown and former result, chunks, and what the policy asks for |
| `ReleaseAudit.SurroundingsInOrderIff` | apps/processing-worker/src/series_analysis/release.rs:381-399 | There is no global violation exactly if release row, readers, workers and running jobs are as they should be |
| `ReleaseAudit.AuditAfterApply` | apps/processing-worker/src/series_analysis/release.rs:863-958 | Right after an application the audit finds no release-state, desired-version, contract, attestation, previous-result or capability violation |
| `ReleaseAudit.PointersAreSupported` | apps/processing-worker/src/series_analysis/release/detach_unsupported_pointers.sql:1-21 | Every pointer left by an application is supported, and supported ones are kept |
| `ReleaseAudit.StaleResultsRemain` | apps/processing-worker/src/series_analysis/release.rs:921-931 | A current-version mismatch remains exactly where a readable result of another revision or algorithm is kept |
| `LeaseTiming.New` | apps/processing-worker/src/ocr/consumer.rs:117-151 | A configuration is accepted exactly if 3 heartbeats + stop grace + finalization fit below the lease (and the download bound is representable); the watchdog is two heartbeats |
| `LeaseTiming.ChildDiesInTime` | apps/processing-worker/src/ocr/consumer.rs:505-551 | On every timed run, after a confirmed heartbeat passed on within its interval, a living child has more than stop grace + finalization left before its lease expires, also when the parent is frozen, stopping or gone |
| `LeaseTiming.OnlyAFrozenParentIsLate` | apps/processing-worker/src/ocr/consumer.rs:517-540 | A parent that never freezes passes every answer on within the interval |
| `LeaseTiming.FinalizationEndsInTime` | apps/processing-worker/src/ocr/consumer.rs:555-615 | A parent that never freezes finalizes with the child gone and ends more than one heartbeat before expiry |
| `LeaseTiming.ReadIsSafeIff` | apps/processing-worker/src/process.rs:565-576 | Whatever began it, a read of the watchdog keeps the finalization budget exactly if two heartbeats and that budget are left of the lease at its begin |
| `LeaseTiming.FirstRefreshMayComeTooLate` | apps/processing-worker/src/ocr/consumer.rs:570-573 | The accepted bounds alone do not give that for the first refresh: a configuration and a run in which the child lives until the lease expires |
| `LeaseTiming.ASignalDelaysTheWatchdog` | apps/processing-worker/src/process.rs:572 | Nor after an interrupted read: a configuration and a run with a confirmed heartbeat passed on in time in which the child lives until the lease expires |
| `LeaseTiming.StallsAreSafeIff` | apps/processing-worker/src/ocr/consumer.rs:126-141 | Frozen parents included, every child after a confirmed heartbeat keeps the finalization budget exactly if 4 heartbeats + finalization fit below the lease |
| `LeaseTiming.StepKeeps` | apps/processing-worker/src/process.rs:565-582 | Watchdog, heartbeats, freezing, signals, stop and crash keep the timing invariant |
| `LeaseTiming.GuardsAreExact` | apps/processing-worker/src/process.rs:565-576 | The watchdog ends a child exactly at the end of its read, an expired lease is not extended, and a heartbeat times out exactly at the end of its interval |
| `LeaseTiming.OrdinaryAttempt` | apps/processing-worker/src/ocr/consumer.rs:484-615 | An attempt with a heartbeat, an output and a finalization runs to its end and is never late |
| `LeaseTiming.SuperviseAttempt` | apps/processing-worker/src/ocr/consumer.rs:484-553 | The loop makes a timed run of the model; a stop is answered by the very poll that sees it, an output counts only before the deadline, and output or deadline end it with the second poll in a row that sees them |
| `LeaseTiming.Supervision.Select` | apps/processing-worker/src/ocr/consumer.rs:509-551 | One poll: what it may end with, in the order of its branches, and where it leaves the run |
| `LeaseTiming.Supervision.SelectAnswer` | apps/processing-worker/src/ocr/consumer.rs:518-547 | The heartbeat in its timeout: refreshed only after a confirmed extension; lost owner, errors and timeout end the attempt |
| `LeaseTiming.Supervision.Reach` | apps/processing-worker/src/ocr/consumer.rs:518-521 | The lease is extended by the statement of the current heartbeat, at most once |
| `LeaseTiming.MonitorParentLiveness` | apps/processing-worker/src/process.rs:565-576 | The monitor ends the child at the first read that brings neither a byte nor an interruption |
| `LeaseTiming.MonitorEndsTheChild` | apps/processing-worker/src/process.rs:565-576 | Without refreshes the child ends one timeout after the last one, and at most one more for every interruption |
| `BusyRetry.SlotsRefineTheLog` | apps/processing-worker/src/busy_retry.rs:30-38 | For rising call times three slots decide as the full log would: a call is granted exactly when fewer than three of all earlier grants are less than a period old |
| `BusyRetry.WindowsHoldThree` | apps/processing-worker/src/busy_retry.rs:30-38 | No window of one period ever holds four grants |
| `BusyRetry.JobsShareTheWindow` | apps/processing-worker/src/busy_retry.rs:53-74 | All jobs together, called at rising times, start at most three rechecks in any window of one period |
| `BusyRetry.RetriesAreBounded` | apps/processing-worker/src/busy_retry.rs:65-74 | However calls spread over jobs, each starts at most three rechecks, all before its deadline, and the grants of the budget are exactly these starts |
| `BusyRetry.BusyRetryBudget.TryStart` | apps/processing-worker/src/busy_retry.rs:30-38 | The in-place search takes the first free slot or changes nothing |
| `BusyRetry.BusyRetryBudget.Available` | apps/processing-worker/src/busy_retry.rs:40-44 | Says whether a start would be granted |
| `BusyRetry.Recheck.NextAt` | apps/processing-worker/src/busy_retry.rs:60-63 | The planned time: the delay of this attempt, and only before the deadline |
| `BusyRetry.Recheck.TryStart` | apps/processing-worker/src/busy_retry.rs:65-74 | A recheck that does not start spends neither an attempt nor budget |
| `Selection.ScanTriesEachOnce` | apps/processing-worker/src/worker/selection.rs:72-95 | From empty cursor to reset, with rows added and removed, pages left anywhere and any contention: every row that stays is tried exactly once, none twice, in key order |
| `Selection.ScanTriesWhatIsThere` | apps/processing-worker/src/worker/selection.rs:72-95 | A scan tries only rows its queries returned |
| `Selection.SweepIsBounded` | apps/processing-worker/src/worker/selection.rs:72-95 | Without added rows a sweep over n rows needs at most n/64 + 1 pages |
| `Selection.Query` | apps/processing-worker/src/worker/selection.rs:22-32 | The page query: the first 64 rows behind the cursor in key order |
| `Selection.KeysAreOrdered` | apps/processing-worker/src/worker/selection.rs:22-32 | The key order is strict, total and lexicographic |
| `Selection.RecoveryScan.RecoverRows` | apps/processing-worker/src/worker/selection.rs:83-90 | Every row of a page is tried once and in order; contention defers but does not block the rows behind it; another error stops on its row |
| `Selection.RecoveryScan.RecoverPage` | apps/processing-worker/src/worker/selection.rs:72-95 | A page with its query: when the cursor resets, and when contention is reported |
| `Selection.Sweep` | apps/processing-worker/src/worker/selection.rs:72-95 | Repeated pages form a scan: the keys it tried rise, every key in all its tables was tried exactly once, and without added rows it took at most n/64 + 1 pages |
| `Identity.ParseAcceptsTheGrammar` | apps/processing-worker/src/identity.rs:168-186 | The parser accepts exactly eight groups of four hex digits with at most one hyphen between groups and matching optional braces |
| `Identity.ParseInvertsFormat` | apps/processing-worker/src/identity.rs:168-186 | Parsing inverts every rendering: any mix of cases, hyphens and braces |
| `Identity.NibbleValue` | apps/processing-worker/src/identity.rs:183-185 | Digits have their hexadecimal values in either case |
| `Identity.AllocateIsIdempotent` | apps/processing-worker/src/identity.rs:140-153 | Allocating any rendering of an allocated identity, for any entity, gives it back |
| `Identity.AllocateCases` | apps/processing-worker/src/identity.rs:140-153 | Refused exactly for NUL, kept exactly for identities, otherwise hashed as version 8, variant 10 |
| `Identity.MarkedBits` | apps/processing-worker/src/identity.rs:155-165 | Version 8 and variant 10 (sections 4.1, 4.2 and 5.8 of RFC 9562), every other bit as hashed |
| `Identity.Uuid8` | apps/processing-worker/src/identity.rs:155-165 | The in-place edit of the sixteen bytes |
| `Identity.PreimagesAreDistinct` | apps/processing-worker/src/identity.rs:147-152 | Two entities or two names are never hashed as the same text |
| `Blocking.OneAtATime` | apps/processing-worker/src/blocking.rs:43-71 | At most one operation is admitted; pending shows exactly a marked, uncleared operation and implies that the permit is held |
| `Blocking.ClearsItsOwnMark` | apps/processing-worker/src/blocking.rs:67-71 | A finisher clears only its own mark: nobody else can set one before the permit is free |
| `Blocking.DroppedCallers` | apps/processing-worker/src/blocking.rs:43-59 | A dropped caller never touches the mark; once handed over the operation keeps permit and mark to its end |
| `Blocking.OverIsOver` | apps/processing-worker/src/blocking.rs:43-59 | A call that is over never marks again |
| `Blocking.FreePermitAdmits` | apps/processing-worker/src/blocking.rs:43-57 | With the permit free a caller gets through to the pool, which shows as pending |
| `Blocking.OperationsGiveBack` | apps/processing-worker/src/blocking.rs:62-71 | An operation that ran, or was discarded before it started, gives mark and permit back |
| `Blocking.ReleasingFirstLosesAMark` | apps/processing-worker/src/blocking.rs:62-71 | With the permit freed first, a running operation could lose its mark |
| `Blocking.BlockingWork.Submit` | apps/processing-worker/src/blocking.rs:48-57 | The part behind the lock, which has no await |
| `Blocking.BlockingWork.Finish` | apps/processing-worker/src/blocking.rs:67-71 | Clear, then release |
| `Blocking.BlockingWork.TryLock` | apps/processing-worker/src/blocking.rs:48-51 | One holder of the permit |
| `Blocking.BlockingWork.DropWaiting` | apps/processing-worker/src/blocking.rs:43-51 | A dropped waiter gives back a permit it never used |
| `Percentile.NearestRankIsThePercentile` | apps/processing-worker/src/series_analysis/endurance.rs:576-587 | Both versions agree and give the least sample v with 100*#{x <= v} >= p*n, for every non-empty sample and p from 1 to 100 that can be represented |
| `Percentile.PercentileIsUnique` | apps/processing-worker/src/ocr/endurance.rs:729-735 | That value is unique, so the order of the sample does not matter |
| `Percentile.CheckedRankFailsIff` | apps/processing-worker/src/series_analysis/endurance.rs:576-587 | The analysis version reports an error exactly for an empty sample or a rank that cannot be represented |
| `Percentile.PercentilesRise` | apps/processing-worker/src/ocr/endurance.rs:720-722 | Percentiles rise with p |
| `Percentile.DistributionOf` | apps/processing-worker/src/ocr/endurance.rs:704-726 | The report: count, least and greatest sample, exact percentiles and the whole part of the mean, all rounded up to milliseconds, and their order |
| `Percentile.Total` | apps/processing-worker/src/ocr/endurance.rs:709-711 | The saturating sum never saturates |
| `Percentile.MillisecondsRise` | apps/processing-worker/src/ocr/endurance.rs:743-745 | Rounding up keeps order |
| `Percentile.MillisecondsRoundUp` | apps/processing-worker/src/ocr/endurance.rs:743-745 | The least whole number of milliseconds that is not less |
| `PhaseTimings.FinishAcceptsRuns` | apps/processing-worker/src/ocr/native_engine.rs:168-224 | Over all event sequences finish reaches the constructor exactly for four adjacent start/finish pairs, one per phase, in any order |
| `PhaseTimings.FinishMeasuresThePairs` | apps/processing-worker/src/ocr/native_engine.rs:184-200 | Each phase then has the time between its own two events |
| `PhaseTimings.InvalidStays` | apps/processing-worker/src/ocr/native_engine.rs:176-192 | A sequence that went wrong stays wrong |
| `PhaseTimings.Recorder.Start` | apps/processing-worker/src/ocr/native_engine.rs:176-182 | A start while another phase is open, or of a completed phase, invalidates |
| `PhaseTimings.Recorder.Stop` | apps/processing-worker/src/ocr/native_engine.rs:184-200 | A finish closes the open phase, or invalidates |
| `PhaseTimings.Recorder.Observe` | apps/processing-worker/src/ocr/native_engine.rs:169-174 | Dispatch of one event |
| `PhaseTimings.Recorder.Done` | apps/processing-worker/src/ocr/native_engine.rs:211-224 | All four durations or nothing |

## Left out

- PostgreSQL connections, TLS, timeouts and row decoding; R2 downloads; cgroup files, signals, `unsafe` calls and Tesseract: they appear as events, parameters or not at all.
- SQL text, JSON shapes, tracing, error strings, configuration reading and failure-code tables. SHA-256 is a parameter, and stable ids are kept as what they are made from, so they are distinct by construction.
- Database clocks: readings may be arbitrary in `OcrLease`, do not run backwards in `Materialization`, and are one clock for worker and database in `LeaseTiming`.
- `OcrLease` starts its tokens at zero with the row, deletes no rows, and leaves source images, snapshots and submission groups to one three-way parameter.
- `MatchDrafts` leaves out the later draft statuses (confirmed, cancelled), the API that attaches slots or reopens drafts, and the repair scan of `reap_stale`.
- `Execution.ResultIsDeliveredOnce`: says what the calls return, not when; an await that is never polled again is a run that ends there.
- `WorkerRuntime` leaves out the listener, notifications and submission reconciliation beyond the stops and failures they cause and the end of their tasks, and prompt wake-ups. A claim that committed but whose answer was lost is counted as leaked; the lease recovery of `OcrLease` takes its row back.
- `WorkerRuntime.ShutdownEnds` and `WorkerRuntime.DrainTasksEnd`: bound the polls after the deadline, not the time the operating system takes between them.
- `LeaseTiming.ChildDiesInTime`: not for a late answer or an interrupted read, for which it is false (see above). The thread of the watchdog runs at once when its read returns, and the five milliseconds of tolerance of the interval timer are left out.
- `LeaseTiming.SuperviseAttempt`: the deadline is a representable time, and `Error` does not carry the cause of a control error.
- `LeaseTiming.FinalizationEndsInTime`: only for a parent that never freezes; otherwise the fencing of `OcrLease` protects the row.
- `ChildStop` takes the children of a group to be gone from one moment on, and leaves out the liveness socket and parent-death signal beyond their effect in `LeaseTiming`.
- `Campaign` and `Materialization` treat each title lock as held from the start of its transaction; titles are one row set, and the transactions of different titles meet only in campaign rows.
- The cleanup of history appears only in `PromotionReplay`, without its page limit.
- `Execution.FailureKillsTheChild`: says that a kill is attempted; what a failed one leaves behind is the operating system's.
- `Materialization` leaves out radar bases, artifacts, leases and availability times of analysis jobs, retry limits, and the request that a failed radar application inserts for itself.
- `Promotion` leaves out the check of the operation key's characters, the capability queries (their counts are parameters), radar bases and the wake-up after commit.
- `Percentile.DistributionOf`: the standard sort is a function with a proved result, not the in-place algorithm of the library; `resident_trend` is not modelled.
- `Identity` works on characters instead of UTF-8 bytes; a text with other characters is refused by the grammar in both.
- `PhaseTimings.FinishAcceptsRuns`: stops at the timing constructor, whose own checks of the durations are not modelled, and counts time in whole units.
- Memory and CPU budgets, attempt directories, metrics, command lines, the web application, the Go runtime tool, and the API beyond its requests, cancellations and deletions.
