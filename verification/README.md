# Verified model of Gitness background jobs, streams, caches and listings

This project models the parts of Gitness whose correctness depends on interleavings, loops and
arithmetic, and proves what their code, comments and tests promise:

- the **job scheduler**: several instances share one job table and one expiring lock. Modelled are the
  lock (`Lease`, `LockMemory`), the edgy timer (`Timer`), the job record and its updates (`Jobs`,
  `JobStore`), one pass over the ready jobs (`Pass`), the reclaiming of overdue jobs and the submission
  of batches (`Overdue`), the select loop of one instance (`Wakeup`), the goroutines of one instance
  (`Executions`), and all instances together (`Cluster`, with `Capacity`, `Lifecycle`, `StaleWrites` and
  `PassSteps`);
- the **in-memory stream broker** and its **consumers** with timeout-driven retries (`Broker`, `Consumer`);
- the **TTL cache** with its batch lookup (`TtlCache`, `TtlObjects`);
- the **live log** stream, which replays its history to a new subscriber and then goes on live (`Livelog`);
- the **git listings**: pagination around a filter (`RefWalk`) and the in-place merge of tags and
  annotations (`Tags`);
- the **path functions** of spaces and repositories (`Paths`).

Code that changes state is written as classes, arrays and loops, each method proved against a
specification function. What several goroutines or instances do to each other is written as a machine:
a total function `Apply(state, step)`, where an impossible step changes nothing, and `Exec`, which
carries out any finite sequence of steps. The theorems hold for every such sequence. Clocks, random
tokens, store failures, wake-ups, cron evaluation and the replies of git are parameters or steps.
Instants of the timer and the select loop are nanoseconds since Go's zero time, stored job times are
Unix milliseconds.

## Findings

Where the code and what is said about it differ, the model follows the code.

- `ResetAt` is documented to schedule the maximal duration for the zero time; the code, and the test
  beside it, use the minimal one (job/timer.go:38-51, `Timer.ResetArmsInTime`).
- `Lock` with fewer than one try returns nil on a taken key without holding the lease; nil can be
  trusted exactly with at least one try (`LockMemory.NilMeansAcquiredIff`).
- Callers can choose the token of a mutex. Mutual exclusion holds in all runs exactly if no two mutexes
  get the same token; with a shared one a late unlock removes the entry of the mutex that took over, and
  a third gets in (`Lease.ExclusionHoldsIffTokensDiffer`, `Lease.SharedTokenLetsThirdIn`).
- The limit on running jobs holds if every pass still finds its own entry in the table of the lock when
  it marks a job as running (`Capacity.LimitHoldsWhileEntriesKept`), in particular if it does so before
  its lease ends. A pass that lost its entry lifts the number above the limit
  (`Capacity.LostEntryBreaksLimit`).
- The update after an execution goes ahead even if the lock cannot be obtained, and any operation may
  write after its lease has ended. `Lifecycle.StaleWriteIsAMoveIff` says, for every operation, row and
  record read before, exactly when that one write is a move of the life cycle. For whole runs this is
  not enough: the life cycle is kept if such a write fits the row and no operation that has its lock
  entry is about to write the same row (`Lifecycle.FinishedAndFailedAreFinal` and the theorems beside
  it). Neither condition can be dropped:
  - it does not fit: a job that was reclaimed and started again meanwhile loses an execution from its
    counter (`StaleWrites.RestartIsForgotten`); a job that was canceled meanwhile waits to be started
    again if the execution failed (`StaleWrites.CancellationIsForgotten`), and is stored as finished if
    it succeeded;
  - it fits, but reclaiming has read the row and holds the lock: the goroutine stores the job as
    finished, which is a move, and then reclaiming, within its lease, puts the finished job back to wait
    (`StaleWrites.FinishIsForgotten`).
- Jobs are deleted and created again under the same UID without the lock
  (app/services/exporter/repository.go:105-150). If that happens while the locked update after the old
  execution still has to write, the new job takes over outcome and counter of the old one without ever
  having been started (`StaleWrites.NewJobTakesOldResult`); the theorems on the life cycle ask that it
  does not happen. The exporter purges a group only when all its jobs are completed. A canceled job
  whose handler is still returning meets that: if its update, with an error, has read the row, the new
  job is stored as canceled. For a job that is still running it takes two submissions at once, since
  the check and the deletion are separate.
- A batch of jobs, or a reclaim of overdue jobs, that fails half way sends no signal, although jobs are
  waiting (`Overdue.RunJobs`, `Overdue.Handle`).
- The consumer cancels the retry on every return of the handler: the deferred function gets the error
  as it is when the defer statement runs, which is nil (stream/memory_consumer.go:199-205). So the
  comment that a failed handling relies on the timeout does not hold: it is not retried when the return
  is noticed before the timer expires (`Consumer.NoticedReturnIsNotRetried`). Conversely, when the timer
  expires first a message is processed again although its handler has returned, even successfully
  (`Consumer.HandledMessageMayBeRetried`). Whether a retry exists depends on the timer alone
  (`Consumer.RetryExistsIff`).
- Generated message identifiers repeat after 2^64 of them, and not before (`Broker.GeneratedIDsRepeatIff`).
- An eviction does not hide older values from later calls if a call in flight still holds one
  (`TtlCache.EvictionHoldsIff`).
- The overflow guard of the pagination compares with the largest `int`. Where that has 64 bits, the
  guard never rejects a page (`RefWalk.OverflowGuard`), while page and page size are multiplied in 32
  bits, so far pages repeat earlier ones. `RefWalk.BranchPagesAreRightIff` and
  `RefWalk.TagPagesAreRightIff` give the exact condition for the two listings.
- `Segments` of an empty path is one empty segment, while `Depth` is 0 (`Paths.DepthCountsNamesIff`).
- The store's execution update does not write the progress and the maximum duration that the scheduler
  sets before it (`Jobs.StoreExecution` keeps those of the row).

## Model

| member | source | states |
|---|---|---|
| `Lease.MutualExclusion` | lock/memory.go:100-128 | in every run of attempts, unlocks and clock ticks with distinct tokens, two mutexes on one key that both hold an unexpired lease are the same mutex |
| `Lease.LateUnlockIsHarmless` | lock/memory.go:116-128 | in every run with distinct tokens, an unlock, however late, leaves the table entry and the live lease of every other mutex in place |
| `Lease.ExclusionHoldsIffTokensDiffer` | lock/memory.go:68-78 | mutual exclusion holds in all runs if and only if no two mutexes are given the same token |
| `Lease.SharedTokenLetsThirdIn` | lock/memory.go:116-128 | for any two mutexes with one token, a run in which a late unlock lets a third mutex in beside the second |
| `Lease.AttemptSucceedsIffNotTaken` | lock/memory.go:100-114 | in every run with distinct tokens, an attempt succeeds if and only if nobody has an unexpired lease of the key; it then holds the lease for the full expiry, and a failed attempt changes nothing |
| `Lease.UnlockFreesTheKey` | lock/memory.go:207-217 | in every run with distinct tokens, the unlock of a mutex that has its entry gives the key back at once |
| `LockMemory.LockSucceedsIff` | lock/memory.go:157-204 | with at least one try: at most `tries` attempts, nil if and only if this call acquired, and that if and only if one of the attempts it reaches meets a free key |
| `LockMemory.NilMeansAcquiredIff` | lock/memory.go:157-178 | under all contention nil means acquired, if and only if at least one try is configured |
| `LockMemory.LockErrorTellsWhy` | lock/memory.go:181-204 | each error tells how the last wait ended: context, waiting time or used-up tries, after attempts that all met a taken key |
| `LockMemory.InMemory.Acquire` | lock/memory.go:100-114 | takes the key exactly if it is absent or expired and records token and expiry; the same function the machine uses |
| `LockMemory.InMemory.Release` | lock/memory.go:116-128 | removes the entry exactly if it carries the token |
| `LockMemory.InMemMutex.Lock` | lock/memory.go:157-178 | the retry loop ends as the specification `LockOutcome` says; the held flag changes only on success; a held mutex is refused |
| `LockMemory.InMemMutex.Retry` | lock/memory.go:181-204 | one wait of the loop: context end, timeout, last try, or another attempt on the table met then |
| `LockMemory.InMemMutex.Unlock` | lock/memory.go:207-217 | releases through the token; the held flag is cleared exactly if the entry was still there |
| `Timer.ResetArmsInTime` | job/timer.go:44-62 | the reset arms within minimal and maximal duration, no later than asked for, exactly at a time within reach, and returns the matching duration |
| `Timer.RescheduleArmsInTime` | job/timer.go:71-104 | one signal never arms later than before (or immediately), honours every non-zero time, changes something if and only if the timer is edgy or the time is earlier, and returns the matching duration |
| `Timer.EdgyTimerFiresAtOnce` | job/timer.go:74-77 | any signal, whatever time it carries, arms an edgy timer for exactly one nanosecond from now |
| `Timer.ArmedNoLaterThanRequested` | job/timer.go:44-104 | after a reset and any sequence of signals under a monotone clock, the timer is armed no later than every non-zero requested time, or immediately |
| `Timer.SchedulerTimer.Reset` | job/timer.go:40-62 | the object's fields and the runtime timer follow `ResetAt`, and a stale tick is drained |
| `Timer.SchedulerTimer.Reschedule` | job/timer.go:67-104 | the object follows `RescheduleEarlier`, leaving the runtime timer alone when nothing changes |
| `Timer.SchedulerTimer.Stop` | job/timer.go:110-121 | disarms the runtime timer and drains its channel |
| `Jobs.NewJobsStartTheLifeCycle` | job/definition.go:30-74 | a job made from a valid definition carries it, waits for now with zero counters and rank 2 * MaxRetries + 3, and has the whole seconds of its timeout |
| `Jobs.UpdatesFollowLifeCycle` | job/scheduler.go:512-532 | starting, settling and canceling a record, as stored, are moves of the life cycle: nothing changes or the rank drops |
| `Jobs.SettlingARunningJob` | job/scheduler.go:570-626 | a running job finishes if and only if there was no error, is retried after 15 s if and only if it failed with retries left, and fails otherwise |
| `Jobs.SettlingARecurringJob` | job/scheduler.go:596-617 | a recurring job fails if and only if its cron expression is unparsable and otherwise waits for exactly the cron time; failures are 0 after a success and one more after an error; executions are unchanged |
| `Jobs.SettlingReportsTheExecution` | job/scheduler.go:570-626 | the stored row carries result, error and cron message of the execution and nobody who runs the job; an update that comes too late stores the record as it was read |
| `Jobs.SettlingReportsProgress` | job/scheduler.go:578-626 | a finished job is published as complete, a job to be retried as not begun |
| `Jobs.SettlesUnlessOver` | job/scheduler.go:571-576 | an update after an execution is ignored if and only if the job has finished or failed, or was canceled and the execution failed |
| `Jobs.StartedJobHasItsTime` | job/scheduler.go:512-532 | a started job has its full time, and at least a second, until its deadline; result and error are cleared, failures kept |
| `Jobs.CancelingEndsTheJob` | job/scheduler.go:205-226 | every one-off job that is not at its end can be canceled, and only state and time of update change |
| `Jobs.SettlingNeverStoresRunning` | job/scheduler.go:570-626 | no update after an execution, of recurring jobs included, stores a job as running |
| `Jobs.JobRef.BeforeExecution` | job/scheduler.go:512-532 | the in-place update before an execution equals `PreExec` on the whole record |
| `Jobs.JobRef.AfterExecution` | job/scheduler.go:570-626 | the in-place update after an execution equals `PostExec` on the whole record, early return and retry included |
| `Jobs.JobRef.RecordResult` | job/scheduler.go:578-593 | the part that records result or failure equals `Settled` |
| `Jobs.JobRef.Recurring` | job/scheduler.go:596-617 | the part for recurring jobs equals `Recur`, with an unparsable cron expression |
| `JobStore.Store.UpdateExecution` | app/store/database/job.go:280-318 | a failed update, or one of a missing row, writes nothing; otherwise exactly the execution columns of that row change |
| `JobStore.UpdateKeepsCount` | app/store/database/job.go:354-375 | storing a record that does not run never raises the number of running jobs |
| `JobStore.UpdateCountsOne` | app/store/database/job.go:354-375 | storing any record raises the number of running jobs by at most one |
| `JobStore.StartCountsOne` | app/store/database/job.go:354-375 | storing a job as running that did not run adds exactly one |
| `JobStore.ReadyListLength` | app/store/database/job.go:378-401 | a list of ready jobs has as many jobs as are ready, up to the limit |
| `JobStore.RecurringJobWaitsForCron` | job/scheduler.go:596-617 | after its update a recurring job is in no list of ready jobs before the cron time, and in every one from then on that is not full |
| `JobStore.RetriedJobWaits` | job/scheduler.go:619-625 | the same for a failed one-off job with retries left and the delay of 15 s |
| `JobStore.StartedJobIsNotReclaimedEarly` | app/store/database/job.go:404-426 | a started job is listed as overdue if and only if more than max(1, seconds) * 1000 ms have passed since its start |
| `Pass.ProcessReadyJobs` | job/scheduler.go:330-402 | the pass against the store: table, started jobs, count, next time and got-all flag are those of the specification, and a failing lock, count, list or next-time query changes nothing |
| `Pass.StartJobs` | job/scheduler.go:375-399 | the loop: every reachable write stores the prepared record and starts it, a failed one is skipped and clears the got-all flag |
| `Pass.StartJob` | job/scheduler.go:382-390 | one job is prepared and stored, and is unchanged in the store if that fails |
| `Pass.RowsAfterAt` | job/scheduler.go:375-399 | what the loop leaves in every row: the prepared record where the write got through, the old row everywhere else |
| `Pass.PassStaysWithinLimit` | job/scheduler.go:351-363 | a pass never lifts the number of running jobs above the limit |
| `Pass.PassUsesFreeSlots` | job/scheduler.go:351-416 | the jobs a pass tries to start are as many as are ready, up to the limit minus the running ones |
| `Pass.PassFillsFreeSlots` | job/scheduler.go:375-416 | the number of running jobs grows by exactly the started ones, and if all updates get through by exactly that smaller number |
| `Pass.StartedJobsAreStored` | job/scheduler.go:375-399 | every job handed to a goroutine is stored as running, as it was handed over |
| `Pass.NotGotAllLeavesReady` | job/scheduler.go:362-390 | a pass that proceeds and does not report to have got all jobs leaves a ready one behind |
| `Pass.GotAllMeansNothingReady` | job/scheduler.go:362-373 | a pass that reports to have got all jobs leaves no ready job, and its next time is not later than that of any waiting job |
| `Pass.NoJobIsOvertaken` | job/scheduler.go:351-399 | a ready job left behind that has a higher priority than one the pass tried, or the same and an earlier time, is one whose own update failed earlier in that pass |
| `Cluster.OneLiveOperation` | job/scheduler.go:330-341 | among all operations of all instances at most one holds the running lease of the job lock |
| `Cluster.LockStepsKeepOperations` | lock/memory.go:100-128 | a step of the locks leaves an operation that has read something where it was, and gives it neither a lease nor an entry it did not have |
| `Cluster.OneEntry` | lock/memory.go:100-128 | at most one operation has its entry in the table of the lock |
| `Cluster.OperationsReadTheirJobs` | job/scheduler.go:330-462 | what an operation has read are current rows: ready jobs within the counted slots, its own job, a cancelable job, or jobs past their deadline |
| `Cluster.FinishStoresTheOutcome` | job/scheduler.go:436-462 | the update after an execution, with or without the lock, stores the result and the error its goroutine got |
| `Cluster.RegisteringTwiceChangesNothing` | app/store/database/job.go:174-234 | registering a recurring job stores its definition, keeps all counters, reschedules it if and only if the definition changed, and is idempotent |
| `Cluster.ProgressComesFromReports` | app/store/database/job.go:280-351 | the stored progress changes only by a report while the job runs, and the definition only by registering |
| `Cluster.ReportsAreStored` | app/store/database/job.go:320-351 | a report of a running job is stored, of any other job not |
| `Cluster.JobsComeAndGo` | job/scheduler.go:261-296 | a deleted job is gone; a job is created if and only if it is valid and its UID is free, and begins a new life |
| `PassSteps.UninterruptedPassMatches` | job/scheduler.go:330-402 | the machine's steps for one undisturbed pass leave the table exactly as the pass method does |
| `Capacity.LimitHoldsWhileEntriesKept` | job/scheduler.go:330-416 | across any number of instances and all interleavings of passes, finishes (late, or without the lock), cancels, reclaims and store changes, at most `maxRunning` jobs are stored as running, if every pass finds its own lock entry when it marks a job |
| `Capacity.RunningJobsNeverExceedLimit` | job/scheduler.go:330-416 | in particular at most `maxRunning` jobs are stored as running if every pass, and nothing else, finishes before its lease ends |
| `Capacity.CallsStartAtMostOne` | job/scheduler.go:375-390 | one store call starts at most one job, and only a pass starts any |
| `Capacity.OwnClaimStays` | job/scheduler.go:404-416 | running jobs plus the slots a pass has still claimed never exceed the limit |
| `Capacity.LostEntryBreaksLimit` | job/scheduler.go:375-390 | from any table with one free slot, a run in which all marks but the last find their entry, and the last one, by a pass whose lease ended and whose entry was replaced, exceeds the limit |
| `Lifecycle.CountersAndStartsBounded` | job/scheduler.go:570-626 | in every reachable state a scheduled job has failed as often as it was started, at most MaxRetries times, a running one once less, and it was started at most MaxRetries + 1 times in its present life; late and unlocked updates are admitted if the record still fits the row and no operation with its lock entry is about to write it |
| `Lifecycle.LifeCyclesEnd` | job/scheduler.go:512-532 | after its creation, under a new or a reused UID, and until it is created again, the stored state of a job changes at most 2 * MaxRetries + 3 times in any such run |
| `Lifecycle.ChangesUseUpRank` | job/scheduler.go:570-626 | state changes and remaining rank of one life together never exceed the rank at the start |
| `Lifecycle.FinishedAndFailedAreFinal` | job/scheduler.go:190-226 | from any reachable state of such a run on, finished and failed are absorbing, canceled can only become finished, and none of them is started again, until the job is created again |
| `Lifecycle.TerminalStatesAbsorb` | job/scheduler.go:570-576 | the same between any two points of a run in one life, with counters that never go back |
| `Lifecycle.StaleWriteIsAMoveIff` | job/scheduler.go:375-462 | for every operation, every row the table may have and every record of a one-off job the operation may have read before, storing its record is a move of the life cycle if and only if the record still fits the row |
| `Jobs.StaleFinishIsAMoveIff` | job/scheduler.go:436-462 | for the update after an execution: if and only if the row was not started again and its state leaves room for the outcome |
| `Jobs.StaleStartIsAMoveIff` | job/scheduler.go:512-532 | for a start: if and only if the job still waits for that execution |
| `Jobs.StaleCancelIsAMoveIff` | job/scheduler.go:190-226 | for a cancellation: if and only if the job was not started again and has not come to another end |
| `Lifecycle.OtherWritersStayUpToDate` | job/scheduler.go:436-462 | what any operation stores, late, unlocked or under the lock, leaves what the operation with the lock entry has read up to date |
| `StaleWrites.RestartIsForgotten` | job/scheduler.go:436-462 | from any table with a running job, a run in which a reclaim and a restart come between the read and the write of an unlocked finish: a successful finish takes the counter below the number of starts; all that is wrong is that the record does not fit |
| `StaleWrites.CancellationIsForgotten` | job/scheduler.go:436-462 | likewise, a cancel comes between: a failed finish puts the canceled job back to wait |
| `StaleWrites.FinishIsForgotten` | job/scheduler.go:436-462 | from any table with a running job, a run in which reclaiming has read the row under the lock, an unlocked finish that fits stores the job as finished, and reclaiming, within its lease, puts it back to wait; all that is wrong is that another operation was about to write |
| `StaleWrites.NewJobTakesOldResult` | app/services/exporter/repository.go:105-150 | for every one-off job, running or completed, a run in which it is deleted and created again before a locked finish writes: the new job is stored with the outcome and the counter of the old one without ever having been started |
| `Wakeup.NoJobIsForgotten` | job/scheduler.go:118-168 | whenever the loop waits, every job the instance answers for has a pending signal, a timer or an edgy timer that is in time |
| `Wakeup.AnnouncedJobsStayCovered` | job/scheduler.go:261-321 | a job this instance created, rescheduled or reclaimed is covered at every later select for as long as it waits, through any number of passes and signals |
| `Wakeup.SeenJobsStayCovered` | job/scheduler.go:330-373 | the same for a job that a pass saw waiting and left waiting |
| `Wakeup.PassCoversWhatItSaw` | job/scheduler.go:141-152 | the timer set after a pass covers everything the pass saw waiting, whether the pass failed, filled up or got all jobs |
| `Wakeup.ReceiveKeepsCover` | job/scheduler.go:133-139 | receiving a signal never uncovers a job |
| `Wakeup.EdgyTimerFiresOnAnySignal` | job/scheduler.go:133-139 | in every state, receiving any signal while the timer is edgy arms it for the next nanosecond, and a pass can begin then |
| `Wakeup.SignalsAreConserved` | job/scheduler.go:118-168 | in every run the signals received and those pending are together exactly those sent |
| `Wakeup.EndedJobSignals` | job/scheduler.go:478-499 | the end of a job, with or without a retry, puts a signal into the channel |
| `Wakeup.DueTimerBeginsAPass` | job/scheduler.go:141-152 | a timer that is due lets the loop begin a pass, which then reads the table |
| `Wakeup.PassArmsTheTimer` | job/scheduler.go:141-168 | after a pass the timer is edgy if and only if the pass has not got all jobs, and armed for the next known time, or in a minute, within its limits |
| `Wakeup.NoPassBeforeTheNextTime` | job/scheduler.go:141-168 | after a pass that got all jobs no pass begins before the next time a job waits for, or half an hour, unless a signal is received |
| `Overdue.OverdueJobsRetryOrFail` | job/job_overdue.go:73-80 | an overdue job is retried if and only if it has retries left, fails otherwise, and carries the deadline error |
| `Overdue.Handle` | job/job_overdue.go:50-97 | reclaims in order, stops at the first failed update, keeps what was reclaimed, and signals the earliest rescheduled time if and only if all updates succeeded |
| `Overdue.ReclaimAll` | job/job_overdue.go:71-88 | the loop with its running minimum: the table and the earliest time after any number of jobs |
| `Overdue.ReclaimOne` | job/job_overdue.go:73-80 | one overdue job becomes the settled record with the deadline error, and is stored if the store is reachable |
| `Overdue.NothingIsOverdueAfterwards` | job/job_overdue.go:63-88 | reclaiming all listed jobs leaves none past its deadline and touches no other row |
| `Overdue.RunJobs` | job/scheduler.go:298-321 | a batch is refused whole if a definition is invalid, otherwise created in order up to the first failure, each job under its UID and no other row changed, and signalled if and only if all were created |
| `Overdue.MakeJobs` | job/scheduler.go:300-309 | all definitions are checked, and turned into jobs in order, before anything is stored |
| `Overdue.CreateAll` | job/scheduler.go:311-316 | jobs are created in order up to the first that cannot be, and exactly those are added |
| `Executions.OneHandlerPerJob` | job/scheduler.go:535-565 | in every run of one instance at most one goroutine runs the handler of a job |
| `Executions.MapHoldsExactlyTheExecuted` | job/scheduler.go:545-558 | the cancel map holds exactly the jobs being executed, each with its own goroutine |
| `Executions.RefusedStartIsHarmless` | job/scheduler.go:545-551 | a start that finds the job being executed leaves the owner's registration in place, now and when it gives up |
| `Executions.CancellationReachesTheOwner` | job/scheduler.go:228-238 | in every run, after any step a goroutine is canceled if and only if it was before, or the step cancels its job while it owns the registration |
| `Executions.CancellationChangesNothingElse` | job/scheduler.go:228-238 | a cancellation leaves the map, the stages and the jobs of all goroutines as they were |
| `Executions.FlagsComeFromCancellations` | job/scheduler.go:228-257 | every canceled goroutine was hit by a cancellation of its own job while it executed it |
| `Executions.ExecutionLeavesNothingBehind` | job/scheduler.go:535-565 | an undisturbed execution runs its handler and leaves the instance as it was |
| `Executions.RefusedStartLeavesNothingBehind` | job/scheduler.go:545-551 | so does a refused start |
| `Executions.CancelMap.TryRegister` | job/scheduler.go:544-552 | is the machine's registration step: the goroutine may run the handler if and only if no goroutine has the job registered, the invariant is kept and no registration is lost |
| `Executions.CancelMap.Remove` | job/scheduler.go:553-557 | is the machine's step at the end: this goroutine and no other gives up its registration, and the invariant is kept |
| `Executions.CancelMap.Lookup` | job/scheduler.go:230-238 | finds the goroutine that executes the job, and nothing if and only if none of this instance does |
| `Executions.CancelMap.Cancel` | job/scheduler.go:228-257 | is the machine's cancellation step: ends the context of exactly the goroutine that executes the job, and reports whether there is one |
| `Broker.QueuesConserve` | stream/memory_broker.go:63-117 | in every run, for every stream and group, what was taken followed by what waits is what was accepted since the group was created, and at most `queueSize` messages wait |
| `Broker.ReceiverGetsTheOldest` | stream/memory_broker.go:99-117 | in every run a receiver gets the oldest message that was accepted and not yet taken |
| `Broker.CreateWaitsForSenders` | stream/memory_broker.go:99-117 | a group is created if and only if no call is sending, and empty; existing groups stay |
| `Broker.SendIsRefusedIffFull` | stream/memory_broker.go:83-92 | in every run a send is refused and its group reported if and only if `queueSize` messages wait, and else comes last |
| `Broker.NoErrorIffAllGroupsAccepted` | stream/memory_broker.go:83-94 | a returned call reports no error if and only if every group that existed accepted the message exactly once; full, later and foreign groups never get it |
| `Broker.EntriesAreGenuine` | stream/memory_broker.go:63-88 | every message in a queue is one that a step of the run gave to the broker on that stream, up to an identifier that was asked for |
| `Broker.CallsWereStarted` | stream/memory_broker.go:63-68 | every call carries the stream and the message of the step that began it |
| `Broker.MissingIDsAreGenerated` | stream/memory_broker.go:63-68 | in every run a message sent without an identifier, or with "*", gets a generated one, and any other keeps its own |
| `Broker.GeneratedIDsRepeatIff` | stream/memory_broker.go:65-68 | two generated identifiers are equal if and only if their numbers are equal modulo 2^64, so the first 2^64 are distinct |
| `Broker.ParseUndoesDecimal` | stream/memory_broker.go:67-67 | the decimal form of a number determines the number |
| `Broker.UndisturbedCallMatches` | stream/memory_broker.go:76-94 | a call of the machine that is not interleaved, in whatever order it visits the groups, does what the object's method does |
| `Broker.SendsMatch` | stream/memory_broker.go:83-92 | the sends to any list of groups leave each queue and the list of full groups as one offer to each would |
| `Broker.OfferToAll` | stream/memory_broker.go:83-94 | the loop over the groups, in any order, leaves every queue as one offer would and returns exactly the full groups |
| `Broker.MemoryBroker.Enqueue` | stream/memory_broker.go:63-95 | fills in an identifier only if asked to, offers to all groups, names exactly the full ones, and discards the message of a stream without groups |
| `Broker.MemoryBroker.Messages` | stream/memory_broker.go:99-117 | creates the stream and the group if missing and changes nothing else |
| `Consumer.EveryTokenIsInOnePlace` | stream/memory_consumer.go:160-259 | every message read and every retry that a fired timer asked for is in exactly one place, on its way or processed once; nothing else exists and nothing is discarded |
| `Consumer.MessagesAreReadInOrder` | stream/memory_consumer.go:160-173 | in every run the messages read from a stream are the first ones accepted, each by one consumer |
| `Consumer.AcceptedMessageCanBeRead` | stream/memory_consumer.go:160-173 | a consumer of the stream can read the next message whenever one is left |
| `Consumer.FirstInFirstOut` | stream/memory_consumer.go:160-193 | in every run a consumer processes its messages in the order in which they came into its queue of 500 |
| `Consumer.ProcessedAtMostOnce` | stream/memory_consumer.go:195-226 | in the whole group `processMessage` runs at most once for every message and retry number |
| `Consumer.HandledAtMostMaxRetriesPlusOne` | stream/memory_consumer.go:243-259 | a message is handled at most maxRetries + 1 times, all by the consumer that read it, under every interleaving |
| `Consumer.RetriesFollowTimeouts` | stream/memory_consumer.go:228-241 | a retry runs only if the idle timer fired for the run before, and not sooner than one idle timeout after that one started |
| `Consumer.RetryExistsIff` | stream/memory_consumer.go:228-259 | the next retry of a run is pending or processed, once, if and only if the idle timer of the run fired and retries were left, whatever its handler returned |
| `Consumer.CancelledRunIsTheLast` | stream/memory_consumer.go:234-240 | after a cancelled timer there is no further retry in any continuation of any run |
| `Consumer.CancelledIffReturnedOrStopped` | stream/memory_consumer.go:198-240 | in every reachable state, a run whose timer waits can be cancelled if and only if its handler has returned, with either outcome, or its consumer was stopped; nothing but the timer changes |
| `Consumer.ReturnedMeansHandlerDid` | stream/memory_consumer.go:206-226 | a run counts as returned only if its handler has returned since it began |
| `Consumer.HandlerReturnIsRecorded` | stream/memory_consumer.go:206-226 | and then for good, whatever the handler returned |
| `Consumer.StopsFollowSteps` | stream/memory_consumer.go:113-158 | a consumer is stopped from the step that stops it on, and not before |
| `Consumer.NoticedReturnIsNotRetried` | stream/memory_consumer.go:198-226 | for a success and for a failure, a run with a noticed return that is never retried, whatever happens afterwards |
| `Consumer.HandledMessageMayBeRetried` | stream/memory_consumer.go:228-233 | a run in which a message is processed again after its handler returned, with or without an error |
| `Consumer.FireMakesDue` | stream/memory_consumer.go:243-259 | a fired timer makes exactly the next retry due, and only if retries are left |
| `TtlCache.BoundedStaleness` | cache/ttl_cache.go:90-225 | in every interleaving of Get, Map, Evict, EvictAll and purge, every returned value was produced by the getter for that key no earlier than `maxAge` before the call began |
| `TtlCache.LookupHitsIffRecent` | cache/ttl_cache.go:132-149 | a lookup is a hit if and only if the entry is not older than `maxAge` at the beginning of the call |
| `TtlCache.CallReturnsAllHits` | cache/ttl_cache.go:176-180 | in every run a call that missed nothing returns a value for each key, any other asks the getter |
| `TtlCache.GetterAnswersOrFails` | cache/ttl_cache.go:181-185 | the call keeps all the getter produced, and a failed one returns nothing and stores nothing |
| `TtlCache.CallReturnsHitsAndAnswer` | cache/ttl_cache.go:187-199 | in every run a call returns what it found together with the answer, and the answer is in the cache, stamped with the start of the call |
| `TtlCache.EntriesStay` | cache/ttl_cache.go:90-130 | an entry stays until it is replaced, evicted or has reached `maxAge` at a purge, and goes then |
| `TtlCache.PurgeIsInvisible` | cache/ttl_cache.go:98-106 | no lookup of a later call is served less after a purge, and every entry younger than `maxAge` is kept |
| `TtlCache.EvictionHoldsIff` | cache/ttl_cache.go:120-130 | after an eviction of one key or of all, no call that begins later can get an older value if and only if no call holds, at that moment, an older value that is recent enough to be served |
| `TtlCache.OldValueReturns` | cache/ttl_cache.go:212-222 | the run in which a call in flight brings the evicted value back |
| `TtlObjects.TTLCache.Map` | cache/ttl_cache.go:152-200 | with a getter that is a partial function the result is that function restricted to the keys, whatever the cache held; the getter is asked for exactly the distinct misses; every distinct key counts as one hit or miss; a failing getter yields an error |
| `TtlObjects.TTLCache.TakeHits` | cache/ttl_cache.go:158-174 | the swap-remove loop leaves in front what the scan of the keys misses, returns what it finds, and counts one hit or miss for each |
| `TtlObjects.ScanAllOk` | cache/ttl_cache.go:158-174 | the scan looks every key up once and separates exactly the misses, in that order, from exactly the hits |
| `TtlObjects.TTLCache.LookupNext` | cache/ttl_cache.go:161-174 | one round of that loop, on the slice in place |
| `TtlObjects.TTLCache.LookupAll` | cache/ttl_cache.go:153-174 | hits together with the getter's answer for the misses are the getter's function on all requested keys |
| `TtlObjects.TTLCache.Store` | cache/ttl_cache.go:187-199 | what the getter found goes into the result and into the map, stamped with the start of the call |
| `TtlObjects.TTLCache.Fetch` | cache/ttl_cache.go:132-149 | serves an entry exactly if it is not older than `maxAge` and counts one hit or one miss |
| `TtlObjects.TTLCache.Get` | cache/ttl_cache.go:203-225 | a hit changes nothing, a miss stores and returns the getter's answer, an error stores nothing |
| `TtlObjects.TTLCache.Purge` | cache/ttl_cache.go:98-106 | drops exactly the entries that have reached `maxAge` |
| `TtlObjects.TTLCache.Evict` | cache/ttl_cache.go:120-124 | no later lookup of the key is served, lookups of other keys are served as before, and agreement with the getter is kept |
| `TtlObjects.TTLCache.EvictAll` | cache/ttl_cache.go:126-130 | no lookup of any key is served until something is stored again |
| `TtlObjects.OperationsKeepAgreement` | cache/ttl_cache.go:90-225 | no operation makes the map disagree with a getter that is a partial function |
| `TtlObjects.Deduplicate` | cache/ttl_cache.go:228-244 | in place, the first `n` elements are strictly ascending and are exactly the values of the slice |
| `TtlObjects.Compact` | cache/ttl_cache.go:235-243 | the two-index loop equals dropping equal neighbours |
| `TtlObjects.UniqueIsStrict` | cache/ttl_cache.go:235-243 | on a sorted slice that leaves strictly ascending values |
| `TtlObjects.UniqueKeepsElements` | cache/ttl_cache.go:235-243 | and loses none |
| `Livelog.HandoverHasNoGap` | livelog/stream.go:41-82 | for every interleaving: what a subscriber got starts with the whole history at subscription, is in write order without repetition, and reaches up to the last write without a gap if and only if no write found the buffer full |
| `Livelog.ReaderThatKeepsUpMissesNothing` | livelog/sub.go:31-51 | a reader that is never more than a buffer behind the writer misses no line |
| `Livelog.ReplayIsTheHistory` | livelog/stream.go:59-70 | a new subscriber is replayed the last 5000 lines, or all if there are fewer |
| `Livelog.RunsKeepInv` | livelog/sub.go:31-51 | the buffer never exceeds its size, and the replay itself never drops a line |
| `Livelog.Stream.Write` | livelog/stream.go:41-57 | the history is always the last 5000 lines written, every open subscriber is sent the line, and closed ones still in the list are passed over |
| `Livelog.Stream.Subscribe` | livelog/stream.go:59-82 | the new subscriber's buffer is the whole history, nothing dropped |
| `Livelog.Stream.ContextDone` | livelog/stream.go:72-80 | the subscriber is closed, keeps its buffer and stays in the list, and the stream remains usable |
| `Livelog.Stream.CloseAll` | livelog/stream.go:84-92 | closes every subscriber without touching what they have buffered, and empties the list |
| `Livelog.Subscriber.Publish` | livelog/sub.go:31-51 | the line is appended exactly if the subscriber is open and its buffer has room |
| `Livelog.Subscriber.Receive` | livelog/stream.go:61-64 | the reader gets the lines in delivery order, each once |
| `Livelog.Subscriber.Close` | livelog/sub.go:53-61 | closes, also when closed already, and keeps what was delivered |
| `RefWalk.PageIsSliceOfSelected` | git/ref.go:132-184 | if the bounds fit into 32 bits, a page, pages below 1 taken as the first, handles exactly its slice of the filtered sequence |
| `RefWalk.PagesConcatenate` | git/ref.go:132-184 | the first k pages concatenate to the first k * pageSize selected references |
| `RefWalk.WalkHandlesSlice` | git/ref.go:157-182 | the counting closure around any filter handles the slice between its bounds, from any counter on |
| `RefWalk.LimitedWalkIsEnough` | git/branch.go:244-261 | limiting the walk to the computed end of the page leaves the listing of branches unchanged, for every page and size |
| `RefWalk.DefaultSelectsAll` | git/api/ref.go:103-108 | the default filter selects everything |
| `RefWalk.TypeFilterSelectsTypes` | git/tag.go:430-447 | a listing with the type filter fails if and only if an entry carries no type, and else has every entry of one of the types, as often as it occurs, and no other |
| `RefWalk.UnpagedWalkHandlesAll` | git/ref.go:137-140 | without pagination everything selected is handled |
| `RefWalk.PageAsComputed` | git/ref.go:152-182 | any page is the slice between the bounds as computed in 32 bits |
| `RefWalk.OverflowGuard` | git/ref.go:147-150 | with a 64-bit `int` the guard never rejects a page, with a 32-bit one it lets exactly the pages through whose bounds fit |
| `RefWalk.PagesAreRightIff` | git/ref.go:132-184 | with any filter that selects something, a page is right for all listings if and only if page and size meet the stated 32-bit condition |
| `RefWalk.BranchPagesAreRightIff` | git/branch.go:244-261 | the same for the listing of branches with its limited walk |
| `RefWalk.TagPagesAreRightIff` | git/tag.go:373-392 | the same for the listing of tags with its type filter |
| `RefWalk.FarPageRepeatsFirst` | git/branch.go:244-261 | page 65537 of 65536 branches each lists the first page again |
| `RefWalk.Paginator.Instruct` | git/ref.go:157-182 | the closure counts only what the filter handles, skips up to the start, stops behind the end |
| `RefWalk.WalkReferences` | git/api/ref.go:176-215 | the walk loop equals the recursive walk, with stop, skip, error and distance |
| `Tags.Compact` | git/tag.go:164-205 | the three-index loop over both arrays equals the order-preserving filter that joins each tag with its own annotation |
| `Tags.MoveOne` | git/tag.go:167-200 | one round keeps a lightweight tag, joins an annotated tag of a commit, drops any other, and moves the indices accordingly |
| `Tags.WantedTagIsListed` | git/tag.go:164-205 | every wanted tag is listed behind exactly the wanted tags before it, next to its own commit |
| `Tags.ListedTagIsWanted` | git/tag.go:164-205 | nothing else is listed |
| `Tags.ListedTagShowsItsAnnotation` | git/tag.go:164-205 | a lightweight tag is listed unchanged next to its object; an annotated one if and only if it points to a commit, with title, message, tagger and signature of its own annotation, next to that commit |
| `Tags.OwnAnnotation` | git/tag.go:167-200 | the annotation index is in range and points to the tag's own annotation |
| `Tags.CollectShas` | git/tag.go:143-154 | the SHAs asked for are those of the annotated tags in order, and the commit list starts as the tags' own SHAs |
| `Tags.ListTags` | git/tag.go:143-205 | from collecting to compaction: the front of both arrays is the filtered, joined listing, also when nothing is annotated |
| `Tags.AttachCommits` | git/tag.go:208-221 | each listed tag gets the commit at its own position |
| `Paths.Concatenate` | app/paths/paths.go:70-105 | the one-pass rune machine equals joining the non-empty segments of all inputs |
| `Paths.AppendPath` | app/paths/paths.go:78-101 | the inner loop appends the names of one path, with a separator exactly where needed |
| `Paths.FedIsBuilt` | app/paths/paths.go:78-101 | after every prefix of a path the builder lacks only the rune held back |
| `Paths.ConcatIsClean` | app/paths/paths.go:64-70 | the result has no leading, trailing or doubled separator |
| `Paths.ConcatNests` | app/paths/paths.go:70-105 | concatenating concatenations is concatenating everything, so it is idempotent |
| `Paths.ConcatAssociates` | app/paths/paths.go:70-105 | concatenation is associative |
| `Paths.CleanSplitsIntoNames` | app/paths/paths.go:70-105 | clean paths are left as they are |
| `Paths.SplitIsSplitting` | app/paths/paths.go:109-112 | the reference splitting has no separator in a segment and joins back to the string |
| `Paths.NamesOfJoin` | app/paths/paths.go:109-112 | splitting a joined path gives its names back |
| `Paths.DisectLeafSplitsOffLastName` | app/paths/paths.go:32-45 | fails if and only if there is no name; otherwise the last name is split off and concatenation undoes it |
| `Paths.DisectRootSplitsOffFirstName` | app/paths/paths.go:49-62 | fails if and only if there is no name; otherwise the first name is split off and concatenation undoes it |
| `Paths.DepthCountsNamesIff` | app/paths/paths.go:109-123 | the depth is the number of segments of a non-empty path, and the number of names if and only if the trimmed path is normalised |

## Left out

- Capacity.LimitHoldsWhileEntriesKept: assumes that all instances are configured with at most the limit; that a pass finds its entry is shown sufficient and, by `Capacity.LostEntryBreaksLimit`, not dispensable, but a late write may also happen to stay within the limit.
- Lifecycle.CountersAndStartsBounded: asks of a write by an operation without its lock entry that the record still fits the row and that no operation with its entry is about to write the row, and of a creation that no such operation still has to write under the UID; the runs in `StaleWrites` show what happens otherwise.
- Lifecycle.StaleWriteIsAMoveIff: speaks of one-off jobs; a recurring one has no life cycle that ends, and a record that was read when the job was recurring is taken not to fit.
- Wakeup.NoJobIsForgotten: assumes that no pass panics, since the recovery skips the reset of the timer; the time between reading the clock and arming the timer is taken as zero.
- Overdue.Handle: assumes that stored times lie after the Unix epoch, so that no job is scheduled for the zero time.
- Broker.QueuesConserve: a queue of size 0 is taken as always full; the direct hand-over to a waiting receiver is not modelled.
- Consumer.EveryTokenIsInOnePlace: workers that stop, and the closed channel after a stop, are not modelled beyond the cancelled contexts; the endless reader and worker loops appear as steps, not as methods.
- TtlObjects.TTLCache.Map: what other goroutines do to the map between its accesses is a parameter; keys are represented by their place in their order, and counters do not wrap.
- TtlObjects.SortSlice: stands for the sort of the standard library and is an insertion sort here.
- Tags.ListTags: assumes that git returns one annotation for each requested SHA, in order.
- RefWalk.WalkReferences: errors of the handler that stores an entry, and the parsing of git's output, are not modelled.
- Paths.Concatenate: strings are sequences of characters; invalid UTF-8 is not modelled.
- The converse of `IsAncesterOf`, which tests for a substring.
- Redis variants of lock, cache, stream and pubsub, whose behaviour rests on Redis.
- The SQL store beyond the contracts of its queries, cron parsing, event publishing and logging.
- Cancel notifications between instances, which may be lost and only end executions earlier.
- Registration and configuration of consumers and handlers: argument checks and a map of handlers, which the machine takes as given.
- Git services, HTTP, SSH, web, docker, blob stores and configuration.
