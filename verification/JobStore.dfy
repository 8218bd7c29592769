/**
 The job store as the scheduler sees it: a table of rows keyed by job UID. Replies to
 queries are described by what they must satisfy; a query or an update may also fail,
 and a failed update writes nothing.
 */
module JobStore {
  import opened Jobs

  type Rows = map<string, Job>

  function RunningJobs(rows: Rows): set<string> {
    set u | u in rows && rows[u].run.state == Running
  }

  /** What the store counts to learn how many jobs run now, over all instances. */
  function CountRunning(rows: Rows): nat {
    |RunningJobs(rows)|
  }

  predicate Ready(j: Job, now: int) {
    j.run.state == Scheduled && j.run.scheduled <= now
  }

  predicate DistinctUids(jobs: seq<Job>) {
    forall i, k :: 0 <= i < k < |jobs| ==> jobs[i].uid != jobs[k].uid
  }

  /** The jobs are current rows of the table, no row twice. */
  predicate AreRows(rows: Rows, jobs: seq<Job>) {
    && (forall i :: 0 <= i < |jobs| ==> jobs[i].uid in rows && rows[jobs[i].uid] == jobs[i])
    && DistinctUids(jobs)
  }

  predicate Lists(jobs: seq<Job>, uid: string) {
    exists i :: 0 <= i < |jobs| && jobs[i].uid == uid
  }

  /** The order in which ready jobs are handed out; ties are broken by UID in the source. */
  predicate Before(a: Job, b: Job) {
    a.spec.priority > b.spec.priority || (a.spec.priority == b.spec.priority && a.run.scheduled < b.run.scheduled)
  }

  /** A reply to `ListReady`: the first `limit` ready rows, all of them if there are fewer. */
  ghost predicate IsReadyList(rows: Rows, now: int, limit: nat, jobs: seq<Job>) {
    && AreRows(rows, jobs) && |jobs| <= limit
    && (forall i :: 0 <= i < |jobs| ==> Ready(jobs[i], now))
    && (forall u, i :: u in rows && Ready(rows[u], now) && !Lists(jobs, u) && 0 <= i < |jobs| ==>
          !Before(rows[u], jobs[i]))
    && (forall i, k :: 0 <= i < k < |jobs| ==> !Before(jobs[k], jobs[i]))
    && (|jobs| < limit ==> forall u :: u in rows && Ready(rows[u], now) ==> Lists(jobs, u))
  }

  function ReadyJobs(rows: Rows, now: int): set<string> {
    set u | u in rows && Ready(rows[u], now)
  }

  predicate PastDeadline(j: Job, now: int) {
    j.run.state == Running && j.run.runDeadline < now
  }

  /** A reply to `ListDeadlineExceeded`: all rows that run past their deadline, earliest deadline first. */
  ghost predicate IsOverdueList(rows: Rows, now: int, jobs: seq<Job>) {
    && AreRows(rows, jobs)
    && (forall i :: 0 <= i < |jobs| ==> PastDeadline(jobs[i], now))
    && (forall u :: u in rows && PastDeadline(rows[u], now) ==> Lists(jobs, u))
    && forall i, k :: 0 <= i < k < |jobs| ==> jobs[i].run.runDeadline <= jobs[k].run.runDeadline
  }

  datatype NextTime = NoTime | Time(milli: int)

  predicate WaitsBeyond(j: Job, now: int) {
    j.run.state == Scheduled && j.run.scheduled > now
  }

  /** A reply to `NextScheduledTime`: the earliest later time a job waits for, if any does. */
  ghost predicate IsNextTime(rows: Rows, now: int, next: NextTime) {
    match next
    case NoTime => forall u :: u in rows ==> !WaitsBeyond(rows[u], now)
    case Time(t) =>
      && (exists u :: u in rows && WaitsBeyond(rows[u], now) && rows[u].run.scheduled == t)
      && forall u :: u in rows && WaitsBeyond(rows[u], now) ==> t <= rows[u].run.scheduled
  }

  /** The table after an execution update; an update of a row that is gone fails. */
  function Updated(rows: Rows, j: Job): Rows {
    if j.uid in rows then rows[j.uid := StoreExecution(rows[j.uid], j)] else rows
  }

  class Store {
    var rows: Rows

    constructor (rows: Rows)
      ensures this.rows == rows
    {
      this.rows := rows;
    }

    /** `reachable` says whether the database carries out the statement at all. */
    method UpdateExecution(j: Job, reachable: bool) returns (ok: bool)
      modifies this
      ensures ok == (reachable && j.uid in old(rows))
      ensures rows == if ok then Updated(old(rows), j) else old(rows)
    {
      if !reachable || j.uid !in rows {
        return false;
      }
      rows := rows[j.uid := StoreExecution(rows[j.uid], j)];
      return true;
    }
  }

  lemma SubsetCard(a: set<string>, b: set<string>)
    requires a <= b
    ensures |a| <= |b|
  {
    if a != b {
      assert b == a + (b - a);
    }
  }

  function UidsOf(jobs: seq<Job>): set<string> {
    set i | 0 <= i < |jobs| :: jobs[i].uid
  }

  lemma {:induction false} DistinctUidsCount(jobs: seq<Job>)
    requires DistinctUids(jobs)
    ensures |UidsOf(jobs)| == |jobs|
  {
    if jobs != [] {
      var front, last := jobs[..|jobs| - 1], jobs[|jobs| - 1];
      DistinctUidsCount(front);
      assert forall i :: 0 <= i < |front| ==> front[i] == jobs[i];
      assert UidsOf(jobs) == UidsOf(front) + {last.uid};
      assert last.uid !in UidsOf(front);
    }
  }

  /** A list of ready jobs is as long as it can be. */
  lemma ReadyListLength(rows: Rows, now: int, limit: nat, jobs: seq<Job>)
    requires IsReadyList(rows, now, limit, jobs)
    ensures |jobs| == if |ReadyJobs(rows, now)| < limit then |ReadyJobs(rows, now)| else limit
  {
    DistinctUidsCount(jobs);
    SubsetCard(UidsOf(jobs), ReadyJobs(rows, now));
    if |jobs| < limit {
      assert ReadyJobs(rows, now) <= UidsOf(jobs);
      assert UidsOf(jobs) == ReadyJobs(rows, now);
    }
  }

  /**
   After a successful or failed execution a recurring job waits: no list of ready jobs before
   the time the cron expression gives has it, and every one from then on that is not full.
   */
  lemma RecurringJobWaitsForCron(
      rows: Rows, j: Job, result: string, error: string, now: int, cron: Cron, later: int, limit: nat, jobs: seq<Job>)
    requires j.uid in rows && j.spec.isRecurring && Settles(j, error) && cron.NextAt?
    requires IsReadyList(Updated(rows, PostExec(j, result, error, now, cron)), later, limit, jobs)
    ensures later < cron.time ==> !Lists(jobs, j.uid)
    ensures later >= cron.time && |jobs| < limit ==> Lists(jobs, j.uid)
  {
    SettlingARecurringJob(j, result, error, now, cron);
  }

  /** The same for a failed one-off job with retries left, which waits for the retry delay. */
  lemma RetriedJobWaits(
      rows: Rows, j: Job, result: string, error: string, now: int, cron: Cron, later: int, limit: nat, jobs: seq<Job>)
    requires j.uid in rows && LifeOk(j) && !j.spec.isRecurring && j.run.state == Running
    requires error != "" && j.run.totalExecutions <= j.spec.maxRetries
    requires IsReadyList(Updated(rows, PostExec(j, result, error, now, cron)), later, limit, jobs)
    ensures later < now + 15_000 ==> !Lists(jobs, j.uid)
    ensures later >= now + 15_000 && |jobs| < limit ==> Lists(jobs, j.uid)
  {
    SettlingARunningJob(j, result, error, now, cron);
  }

  /**
   A job is reclaimed only after its full time, and at least a second, since its start; and
   from then on every list of overdue jobs has it.
   */
  lemma StartedJobIsNotReclaimedEarly(
      rows: Rows, j: Job, now: int, instance: string, later: int, jobs: seq<Job>)
    requires j.uid in rows && IsOverdueList(Updated(rows, PreExec(j, now, instance)), later, jobs)
    ensures
      var seconds := if j.maxDurationSeconds < 1 then 1 else j.maxDurationSeconds;
      Lists(jobs, j.uid) <==> later > now + seconds * 1000
  {
    StartedJobHasItsTime(rows[j.uid], j, now, instance);
  }

  /** An update that does not store "running" cannot raise the number of running jobs. */
  lemma UpdateKeepsCount(rows: Rows, j: Job)
    requires j.run.state != Running
    ensures CountRunning(Updated(rows, j)) <= CountRunning(rows)
  {
    SubsetCard(RunningJobs(Updated(rows, j)), RunningJobs(rows));
  }

  /** Storing a job that did not run as running adds exactly one. */
  lemma StartCountsOne(rows: Rows, j: Job)
    requires j.uid in rows && rows[j.uid].run.state != Running && j.run.state == Running
    ensures CountRunning(Updated(rows, j)) == CountRunning(rows) + 1
  {
    assert RunningJobs(Updated(rows, j)) == RunningJobs(rows) + {j.uid};
  }

  /** Any update raises it by at most one. */
  lemma UpdateCountsOne(rows: Rows, j: Job)
    ensures CountRunning(Updated(rows, j)) <= CountRunning(rows) + 1
  {
    SubsetCard(RunningJobs(Updated(rows, j)), RunningJobs(rows) + {j.uid});
  }
}
