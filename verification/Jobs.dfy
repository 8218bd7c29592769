/**
 Background jobs: the stored record, the updates made to it before and after an
 execution, and the life cycle these updates follow. Times are Unix milliseconds.
 */
module Jobs {

  datatype JobState = Scheduled | Running | Finished | Failed | Canceled

  /** The columns that describe what a job is. */
  datatype Spec = Spec(
    created: int,
    jobType: string,
    priority: int,
    data: string,
    maxRetries: int,
    isRecurring: bool,
    recurringCron: string,
    groupId: string)

  /** The columns an execution update writes. */
  datatype Run = Run(
    updated: int,
    result: string,
    state: JobState,
    scheduled: int,
    totalExecutions: int,
    runBy: string,
    runDeadline: int,
    lastExecuted: int,
    consecutiveFailures: int,
    lastFailureError: string)

  datatype Job = Job(uid: string, spec: Spec, maxDurationSeconds: int, runProgress: int, run: Run)

  const PRIORITY_NORMAL := 0
  const PROGRESS_MIN := 0
  const PROGRESS_MAX := 100
  const RETRY_DELAY := 15_000
  const SECOND := 1_000_000_000

  datatype Definition = Definition(uid: string, jobType: string, maxRetries: int, timeout: int, data: string)

  /** The timeout is in nanoseconds. */
  predicate Validate(def: Definition) {
    def.jobType != "" && def.uid != "" && def.maxRetries >= 0 && def.timeout >= SECOND
  }

  function ToNewJob(def: Definition, now: int, groupId: string): Job {
    Job(def.uid, Spec(now, def.jobType, PRIORITY_NORMAL, def.data, def.maxRetries, false, "", groupId),
        def.timeout / SECOND, PROGRESS_MIN, Run(now, "", Scheduled, now, 0, "", now, 0, 0, ""))
  }

  /** The record that starts an execution. */
  function PreExec(j: Job, now: int, instance: string): Job {
    var secs := if j.maxDurationSeconds < 1 then 1 else j.maxDurationSeconds;
    j.(maxDurationSeconds := secs, runProgress := PROGRESS_MIN,
       run := j.run.(updated := now, lastExecuted := now, state := Running, runDeadline := now + secs * 1000,
                     runBy := instance, totalExecutions := j.run.totalExecutions + 1,
                     result := "", lastFailureError := ""))
  }

  /** What evaluating the cron expression of a recurring job gives. */
  datatype Cron = Unparsable(message: string) | NextAt(time: int)

  /** An update after an execution applies only to these records. */
  predicate Settles(j: Job, error: string) {
    j.run.state == Running || (j.run.state == Canceled && error == "")
  }

  function Settled(j: Job, result: string, error: string, now: int): Job {
    var done := j.run.(updated := now, result := result, runBy := "");
    if error != "" then
      j.(run := done.(consecutiveFailures := done.consecutiveFailures + 1, state := Failed, lastFailureError := error))
    else
      j.(runProgress := PROGRESS_MAX, run := done.(state := Finished))
  }

  /** A recurring job goes back to waiting for the next time its cron expression gives. */
  function Recur(j: Job, error: string, cron: Cron): Job {
    var counted := if error == "" then j.run.(consecutiveFailures := 0) else j.run;
    match cron
    case Unparsable(message) =>
      var text := "failed to parse cron string: " + message;
      var messages := if j.run.lastFailureError != "" then text + "; " + j.run.lastFailureError else text;
      j.(run := counted.(state := Failed, lastFailureError := messages))
    case NextAt(time) => j.(run := counted.(state := Scheduled, scheduled := time))
  }

  function PostExec(j: Job, result: string, error: string, now: int, cron: Cron): Job {
    if !Settles(j, error) then j
    else
      var settled := Settled(j, result, error, now);
      if j.spec.isRecurring then Recur(settled, error, cron)
      else if settled.run.state == Failed && settled.run.consecutiveFailures <= j.spec.maxRetries then
        settled.(runProgress := PROGRESS_MIN, run := settled.run.(state := Scheduled, scheduled := now + RETRY_DELAY))
      else settled
  }

  predicate Cancelable(j: Job) {
    !j.spec.isRecurring && (j.run.state == Scheduled || j.run.state == Running)
  }

  function Cancel(j: Job, now: int): Job {
    j.(run := j.run.(updated := now, state := Canceled))
  }

  /**
   What the store's execution update writes: the columns that describe the execution.
   The definition, the progress and the maximum duration stay as they are in the row.
   */
  function StoreExecution(row: Job, j: Job): Job {
    row.(run := j.run)
  }

  /** The life-cycle part of a record agrees. */
  predicate SameLife(a: Job, b: Job) {
    && a.spec.isRecurring == b.spec.isRecurring && a.spec.maxRetries == b.spec.maxRetries && a.run.state == b.run.state
    && a.run.totalExecutions == b.run.totalExecutions && a.run.consecutiveFailures == b.run.consecutiveFailures
  }

  /**
   The counters of a non-recurring job in each state: every execution but the current
   one has failed, and a job waits or runs only while it has retries left.
   */
  predicate LifeOk(j: Job) {
    !j.spec.isRecurring ==>
      && 0 <= j.run.consecutiveFailures && 0 <= j.run.totalExecutions
      && match j.run.state
         case Scheduled => j.run.totalExecutions == j.run.consecutiveFailures <= j.spec.maxRetries
         case Running => j.run.totalExecutions == j.run.consecutiveFailures + 1 <= j.spec.maxRetries + 1
         case Finished => j.run.totalExecutions <= j.spec.maxRetries + 1
         case Failed => j.run.totalExecutions == j.run.consecutiveFailures == j.spec.maxRetries + 1
         case Canceled => j.run.consecutiveFailures <= j.run.totalExecutions <= j.spec.maxRetries + 1
  }

  /** Bounds the number of state changes a non-recurring job still has before it. */
  function Rank(j: Job): (r: nat)
    requires LifeOk(j) && !j.spec.isRecurring
  {
    match j.run.state
    case Scheduled => 2 * (j.spec.maxRetries - j.run.consecutiveFailures) + 3
    case Running => 2 * (j.spec.maxRetries - j.run.consecutiveFailures) + 2
    case Canceled => 1
    case Finished => 0
    case Failed => 0
  }

  /** One move of the life cycle: nothing changes, or the rank drops and the move is allowed. */
  predicate LifeStep(a: Job, b: Job) {
    && LifeOk(a) && !a.spec.isRecurring
    && LifeOk(b) && !b.spec.isRecurring && a.spec.maxRetries == b.spec.maxRetries
    && (SameLife(a, b) || Rank(b) < Rank(a))
    && (a.run.state in {Finished, Failed} ==> SameLife(a, b))
    && (a.run.state == Canceled ==> b.run.state in {Canceled, Finished})
    && a.run.totalExecutions <= b.run.totalExecutions <= a.run.totalExecutions + 1
    && (a.run.totalExecutions < b.run.totalExecutions ==> a.run.state == Scheduled && b.run.state == Running)
  }

  lemma NewJobsStartTheLifeCycle(def: Definition, now: int, groupId: string)
    requires Validate(def)
    ensures
      var j := ToNewJob(def, now, groupId);
      && LifeOk(j) && !j.spec.isRecurring && j.run.state == Scheduled && Rank(j) == 2 * def.maxRetries + 3
      && j.run.scheduled == now && j.uid == def.uid != "" && j.spec.jobType == def.jobType != ""
      && j.spec.data == def.data
      && j.spec.groupId == groupId && j.spec.maxRetries == def.maxRetries
      && 1 <= j.maxDurationSeconds && 0 <= def.timeout - j.maxDurationSeconds * SECOND < SECOND
  {
  }

  /** Starting, settling and canceling a record are life-cycle moves, also as stored. */
  lemma UpdatesFollowLifeCycle(
      row: Job, j: Job, result: string, error: string, now: int, cron: Cron, instance: string)
    requires LifeOk(row) && !row.spec.isRecurring && SameLife(row, j)
    ensures j.run.state == Scheduled ==> LifeStep(row, StoreExecution(row, PreExec(j, now, instance)))
    ensures LifeStep(row, StoreExecution(row, PostExec(j, result, error, now, cron)))
    ensures Cancelable(j) ==> LifeStep(row, StoreExecution(row, Cancel(j, now)))
  {
  }

  /** The exact fate of a running non-recurring job. */
  lemma SettlingARunningJob(j: Job, result: string, error: string, now: int, cron: Cron)
    requires LifeOk(j) && !j.spec.isRecurring && j.run.state == Running
    ensures
      var p := PostExec(j, result, error, now, cron);
      && (p.run.state == Finished <==> error == "")
      && (p.run.state == Scheduled <==> error != "" && j.run.totalExecutions <= j.spec.maxRetries)
      && (p.run.state == Failed <==> error != "" && j.run.totalExecutions == j.spec.maxRetries + 1)
      && (p.run.state == Scheduled ==> p.run.scheduled == now + 15_000)
  {
  }

  /**
   The fate of a recurring job: it fails exactly if its cron expression cannot be parsed, and
   otherwise waits for the next time the expression gives. A success clears its failures.
   */
  lemma SettlingARecurringJob(j: Job, result: string, error: string, now: int, cron: Cron)
    requires j.spec.isRecurring && Settles(j, error)
    ensures
      var p := PostExec(j, result, error, now, cron);
      && (p.run.state == Failed <==> cron.Unparsable?)
      && (cron.NextAt? ==> p.run.state == Scheduled && p.run.scheduled == cron.time)
      && (cron.Unparsable? ==> p.run.scheduled == j.run.scheduled)
      && p.run.consecutiveFailures == (if error == "" then 0 else j.run.consecutiveFailures + 1)
      && p.run.totalExecutions == j.run.totalExecutions
  {
  }

  /**
   What a caller reads after an execution: its result, its error unless it succeeded, and
   nobody who runs the job. An update that comes too late leaves the record as it is.
   */
  lemma SettlingReportsTheExecution(row: Job, j: Job, result: string, error: string, now: int, cron: Cron)
    ensures
      var row' := StoreExecution(row, PostExec(j, result, error, now, cron));
      if Settles(j, error) then
        && row'.run.result == result && row'.run.runBy == "" && row'.run.updated == now
        && row'.run.lastExecuted == j.run.lastExecuted && row'.run.runDeadline == j.run.runDeadline
        && (error != "" && !(j.spec.isRecurring && cron.Unparsable?) ==> row'.run.lastFailureError == error)
        && (error == "" && !(j.spec.isRecurring && cron.Unparsable?) ==>
              row'.run.lastFailureError == j.run.lastFailureError)
        && (j.spec.isRecurring && cron.Unparsable? ==>
              var message := "failed to parse cron string: " + cron.message;
              var failure := if error != "" then error else j.run.lastFailureError;
              row'.run.lastFailureError == if failure == "" then message else message + "; " + failure)
      else row'.run == j.run
  {
  }

  /** What is published after an execution: a finished job is complete, a job to be retried begins anew. */
  lemma SettlingReportsProgress(j: Job, result: string, error: string, now: int, cron: Cron)
    requires Settles(j, error) && !j.spec.isRecurring
    ensures
      var p := PostExec(j, result, error, now, cron);
      && (p.run.state == Finished ==> p.runProgress == 100) && (p.run.state == Scheduled ==> p.runProgress == 0)
      && (p.run.state == Failed ==> p.runProgress == j.runProgress)
  {
  }

  /** An update after an execution is too late exactly for a job at its end, and for a failure of a canceled one. */
  lemma SettlesUnlessOver(j: Job, error: string)
    requires LifeOk(j) && j.run.state != Scheduled
    ensures !Settles(j, error) <==> j.run.state in {Finished, Failed} || (j.run.state == Canceled && error != "")
  {
  }

  /** A started job has its full time, but at least a second, and its failures are still those of the starts before. */
  lemma StartedJobHasItsTime(row: Job, j: Job, now: int, instance: string)
    ensures
      var run := StoreExecution(row, PreExec(j, now, instance)).run;
      && run.state == Running && run.lastExecuted == now && run.runBy == instance
      && run.runDeadline >= now + 1000 && run.runDeadline >= now + j.maxDurationSeconds * 1000
      && (run.runDeadline == now + 1000 || run.runDeadline == now + j.maxDurationSeconds * 1000)
      && run.consecutiveFailures == j.run.consecutiveFailures && run.scheduled == j.run.scheduled
      && run.result == "" && run.lastFailureError == ""
  {
  }

  /** Every one-off job that is not at its end can be canceled; then it is neither ready nor running. */
  lemma CancelingEndsTheJob(j: Job, now: int)
    requires !j.spec.isRecurring && j.run.state !in {Finished, Failed, Canceled}
    ensures Cancelable(j) && Cancel(j, now).run.state == Canceled
    ensures Cancel(j, now) == j.(run := j.run.(state := Canceled, updated := now))
  {
  }

  /** No update after an execution stores a record as running, recurring jobs included. */
  lemma SettlingNeverStoresRunning(row: Job, j: Job, result: string, error: string, now: int, cron: Cron)
    ensures StoreExecution(row, PostExec(j, result, error, now, cron)).run.state != Running
  {
  }

  /** The state in which an update after an execution leaves a one-off job, and its failures. */
  function Outcome(j: Job, error: string): JobState {
    if !Settles(j, error) then j.run.state
    else if error == "" then Finished
    else if j.run.consecutiveFailures < j.spec.maxRetries then Scheduled
    else Failed
  }

  function Failures(j: Job, error: string): int {
    if Settles(j, error) && error != "" then j.run.consecutiveFailures + 1 else j.run.consecutiveFailures
  }

  /**
   The row was not started again since the record was read, and its state leaves room for
   the outcome: anything may follow while it waits or runs, a canceled job may only finish,
   a finished or failed one may only be written as it is. If the record has other retries
   than the row, because the job was replaced, the outcome must fit those of the row.
   */
  predicate Harmless(row: Job, j: Job, error: string) {
    && row.run.totalExecutions == j.run.totalExecutions
    && (Outcome(j, error) == Scheduled ==> j.run.totalExecutions <= row.spec.maxRetries)
    && (Outcome(j, error) == Failed ==> j.run.totalExecutions > row.spec.maxRetries)
    && match row.run.state
       case Scheduled => true
       case Running => true
       case Canceled =>
         || Outcome(j, error) == Finished
         || (Outcome(j, error) == Canceled && row.run.consecutiveFailures == Failures(j, error))
       case Finished => Outcome(j, error) == Finished && row.run.consecutiveFailures == Failures(j, error)
       case Failed => Outcome(j, error) == Failed
  }

  /**
   For every row the table may have by now and every record that may have been read under
   its UID before: writing the settled record is a move of the life cycle exactly if it is
   harmless.
   */
  lemma StaleFinishIsAMoveIff(row: Job, j: Job, result: string, error: string, now: int, cron: Cron)
    requires LifeOk(row) && LifeOk(j) && !row.spec.isRecurring && !j.spec.isRecurring
    ensures LifeStep(row, StoreExecution(row, PostExec(j, result, error, now, cron))) <==> Harmless(row, j, error)
  {
  }

  /** Likewise a late start counts as one exactly if the job still waits for it. */
  lemma StaleStartIsAMoveIff(row: Job, j: Job, now: int, instance: string)
    requires LifeOk(row) && LifeOk(j) && !row.spec.isRecurring && !j.spec.isRecurring && j.run.state == Scheduled
    ensures
      var row' := StoreExecution(row, PreExec(j, now, instance));
      LifeStep(row, row') && row'.run.totalExecutions == row.run.totalExecutions + 1 <==>
        row.run.state == Scheduled && row.run.totalExecutions == j.run.totalExecutions
  {
  }

  predicate CancelFits(row: Job, j: Job) {
    && row.run.totalExecutions == j.run.totalExecutions
    && (|| row.run.state in {Scheduled, Running}
        || (row.run.state == Canceled && row.run.consecutiveFailures == j.run.consecutiveFailures))
  }

  /** A late cancellation needs a job that was not started again and has not come to an end. */
  lemma StaleCancelIsAMoveIff(row: Job, j: Job, now: int)
    requires LifeOk(row) && LifeOk(j) && !row.spec.isRecurring && Cancelable(j)
    ensures LifeStep(row, StoreExecution(row, Cancel(j, now))) <==> CancelFits(row, j)
  {
  }

  /** A job object loaded from the store; the scheduler updates its fields in place. */
  class JobRef {
    const uid: string
    const created: int
    var updated: int
    const jobType: string
    const priority: int
    const data: string
    var result: string
    var maxDurationSeconds: int
    const maxRetries: int
    var state: JobState
    var scheduled: int
    var totalExecutions: int
    var runBy: string
    var runDeadline: int
    var runProgress: int
    var lastExecuted: int
    const isRecurring: bool
    const recurringCron: string
    var consecutiveFailures: int
    var lastFailureError: string
    const groupId: string

    function View(): Job
      reads this
    {
      Job(uid, Spec(created, jobType, priority, data, maxRetries, isRecurring, recurringCron, groupId),
          maxDurationSeconds, runProgress,
          Run(updated, result, state, scheduled, totalExecutions, runBy, runDeadline, lastExecuted,
              consecutiveFailures, lastFailureError))
    }

    constructor (row: Job)
      ensures View() == row
    {
      var spec, run := row.spec, row.run;
      uid, maxDurationSeconds, runProgress := row.uid, row.maxDurationSeconds, row.runProgress;
      created, jobType, priority, data := spec.created, spec.jobType, spec.priority, spec.data;
      maxRetries, groupId := spec.maxRetries, spec.groupId;
      isRecurring, recurringCron := spec.isRecurring, spec.recurringCron;
      updated, result, state, scheduled := run.updated, run.result, run.state, run.scheduled;
      totalExecutions, runBy, runDeadline := run.totalExecutions, run.runBy, run.runDeadline;
      lastExecuted := run.lastExecuted;
      consecutiveFailures, lastFailureError := run.consecutiveFailures, run.lastFailureError;
    }

    method BeforeExecution(now: int, instance: string)
      modifies this
      ensures View() == PreExec(old(View()), now, instance)
    {
      if maxDurationSeconds < 1 {
        maxDurationSeconds := 1;
      }
      updated := now;
      lastExecuted := now;
      state := Running;
      runDeadline := now + maxDurationSeconds * 1000;
      runBy := instance;
      runProgress := PROGRESS_MIN;
      totalExecutions := totalExecutions + 1;
      result := "";
      lastFailureError := "";
    }

    method AfterExecution(resultData: string, resultErr: string, now: int, cron: Cron)
      modifies this
      ensures View() == PostExec(old(View()), resultData, resultErr, now, cron)
    {
      if state != Running && (state != Canceled || resultErr != "") {
        return;
      }
      RecordResult(resultData, resultErr, now);
      if isRecurring {
        Recurring(resultErr, cron);
        return;
      }
      if state == Failed && consecutiveFailures <= maxRetries {
        state := Scheduled;
        scheduled := now + RETRY_DELAY;
        runProgress := PROGRESS_MIN;
      }
    }

    method RecordResult(resultData: string, resultErr: string, now: int)
      modifies this
      ensures View() == Settled(old(View()), resultData, resultErr, now)
    {
      updated := now;
      result := resultData;
      runBy := "";
      if resultErr != "" {
        consecutiveFailures := consecutiveFailures + 1;
        state := Failed;
        lastFailureError := resultErr;
      } else {
        state := Finished;
        runProgress := PROGRESS_MAX;
      }
    }

    method Recurring(resultErr: string, cron: Cron)
      modifies this
      ensures View() == Recur(old(View()), resultErr, cron)
    {
      if resultErr == "" {
        consecutiveFailures := 0;
      }
      match cron
      case Unparsable(message) =>
        state := Failed;
        var messages := "failed to parse cron string: " + message;
        if lastFailureError != "" {
          messages := messages + "; " + lastFailureError;
        }
        lastFailureError := messages;
      case NextAt(time) =>
        state := Scheduled;
        scheduled := time;
    }
  }
}
