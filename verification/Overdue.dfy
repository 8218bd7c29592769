/** Reclaiming of jobs whose deadline has passed, and submission of jobs by callers. */
module Overdue {
  import opened Jobs
  import opened JobStore
  import Pass
  import Wakeup

  /** The record stored for an overdue job. */
  function Expired(j: Job, now: int, cron: Cron): Job {
    PostExec(j, "", "deadline exceeded", now, cron)
  }

  /** The circumstances of one update: reachable or not, the clock, the cron evaluation. */
  datatype Attempt = Attempt(reachable: bool, now: int, cron: Cron)

  /** The records of the first `k` listed jobs. */
  function RecordsOf(jobs: seq<Job>, attempts: seq<Attempt>, k: nat): (records: seq<Job>)
    requires k <= |jobs| && k <= |attempts|
    ensures |records| == k
  {
    if k == 0 then []
    else RecordsOf(jobs, attempts, k - 1) + [Expired(jobs[k - 1], attempts[k - 1].now, attempts[k - 1].cron)]
  }

  function Records(jobs: seq<Job>, attempts: seq<Attempt>): seq<Job>
    requires |attempts| >= |jobs|
  {
    RecordsOf(jobs, attempts, |jobs|)
  }

  lemma {:induction false} RecordAt(jobs: seq<Job>, attempts: seq<Attempt>, k: nat, i: nat)
    requires i < k <= |jobs| && k <= |attempts|
    ensures RecordsOf(jobs, attempts, k)[i] == Expired(jobs[i], attempts[i].now, attempts[i].cron)
  {
    if i < k - 1 {
      RecordAt(jobs, attempts, k - 1, i);
    }
  }

  function Stored(rows: Rows, records: seq<Job>, k: nat): Rows
    requires k <= |records|
  {
    if k == 0 then rows else Updated(Stored(rows, records, k - 1), records[k - 1])
  }

  lemma {:induction false} StoredKeys(rows: Rows, records: seq<Job>, k: nat)
    requires k <= |records|
    ensures Stored(rows, records, k).Keys == rows.Keys
  {
    if k > 0 {
      StoredKeys(rows, records, k - 1);
    }
  }

  /** The earliest time any of the first `k` jobs waits for again. */
  ghost predicate IsEarliest(records: seq<Job>, k: nat, first: NextTime)
    requires k <= |records|
  {
    match first
    case NoTime => forall i :: 0 <= i < k ==> records[i].run.state != Scheduled
    case Time(t) =>
      && (exists i :: 0 <= i < k && records[i].run.state == Scheduled && records[i].run.scheduled == t)
      && forall i :: 0 <= i < k && records[i].run.state == Scheduled ==> t <= records[i].run.scheduled
  }

  /** A non-recurring overdue job is retried exactly while it has retries left, and fails otherwise. */
  lemma OverdueJobsRetryOrFail(j: Job, now: int, cron: Cron)
    requires LifeOk(j) && !j.spec.isRecurring && j.run.state == Running
    ensures Expired(j, now, cron).run.state == Scheduled <==> j.run.totalExecutions <= j.spec.maxRetries
    ensures Expired(j, now, cron).run.state == Failed <==> j.run.totalExecutions == j.spec.maxRetries + 1
    ensures Expired(j, now, cron).run.lastFailureError == "deadline exceeded"
  {
    SettlingARunningJob(j, "", "deadline exceeded", now, cron);
  }

  lemma {:induction false} StoredRow(rows: Rows, records: seq<Job>, k: nat, u: string)
    requires k <= |records| && u in rows
    requires forall i :: 0 <= i < |records| ==> records[i].run.state != Running
    ensures
      var after := Stored(rows, records, k);
      && u in after
      && ((forall i :: 0 <= i < k ==> records[i].uid != u) ==> after[u] == rows[u])
      && ((exists i :: 0 <= i < k && records[i].uid == u) ==> after[u].run.state != Running)
  {
    if k > 0 {
      StoredRow(rows, records, k - 1, u);
    }
  }

  /** Reclaiming all overdue jobs leaves none that is past its deadline, and no other row is touched. */
  lemma NothingIsOverdueAfterwards(rows: Rows, now: int, jobs: seq<Job>, attempts: seq<Attempt>, u: string)
    requires IsOverdueList(rows, now, jobs) && |attempts| >= |jobs| && u in rows
    ensures
      var after := Stored(rows, Records(jobs, attempts), |jobs|);
      u in after && !PastDeadline(after[u], now) && (!PastDeadline(rows[u], now) ==> after[u] == rows[u])
  {
    var records := Records(jobs, attempts);
    forall i | 0 <= i < |jobs|
      ensures records[i].run.state != Running && records[i].uid == jobs[i].uid
    {
      RecordAt(jobs, attempts, |jobs|, i);
      SettlingNeverStoresRunning(jobs[i], jobs[i], "", "deadline exceeded", attempts[i].now, attempts[i].cron);
    }
    StoredRow(rows, records, |jobs|, u);
    if PastDeadline(rows[u], now) {
      var i :| 0 <= i < |jobs| && jobs[i].uid == u;
      assert records[i].uid == u;
    }
  }

  /** Times come from clocks and cron expressions and lie after the Unix epoch. */
  ghost predicate TimesAreSane(records: seq<Job>) {
    forall i :: 0 <= i < |records| && records[i].run.state == Scheduled ==> records[i].run.scheduled >= 0
  }

  /**
   Reclaims the listed jobs in order and signals the earliest time one of them waits for.
   A failed update ends the loop: the jobs before it stay reclaimed, and no signal is
   sent even if some of them wait again.
   */
  method Handle(store: Store, locked: bool, overdue: Pass.Reply<seq<Job>>, attempts: seq<Attempt>)
    returns (ok: bool, done: nat, signal: NextTime)
    requires overdue.Got? ==> AreRows(store.rows, overdue.value) && |attempts| >= |overdue.value|
    requires overdue.Got? ==> TimesAreSane(Records(overdue.value, attempts))
    modifies store
    ensures !(locked && overdue.Got?) ==> !ok && done == 0 && signal == NoTime && store.rows == old(store.rows)
    ensures locked && overdue.Got? ==>
      var records := Records(overdue.value, attempts);
      && done <= |records|
      && (forall i :: 0 <= i < done ==> attempts[i].reachable)
      && (ok <==> done == |records|)
      && (!ok ==> !attempts[done].reachable)
      && store.rows == Stored(old(store.rows), records, done)
      && (if ok then IsEarliest(records, |records|, signal) else signal == NoTime)
  {
    if !locked {
      return false, 0, NoTime;
    }
    if overdue.Unavailable? {
      return false, 0, NoTime;
    }
    var jobs := overdue.value;
    if |jobs| == 0 {
      return true, 0, NoTime;
    }
    var minScheduled;
    ghost var first;
    done, minScheduled, first := ReclaimAll(store, jobs, attempts);
    if done < |jobs| {
      return false, done, NoTime;
    }
    signal := if minScheduled == 0 then NoTime else Time(Wakeup.Milli(minScheduled));
    return true, |jobs|, signal;
  }

  /** The loop; `minScheduled` is an instant, with the zero time for "none yet". */
  method ReclaimAll(store: Store, jobs: seq<Job>, attempts: seq<Attempt>)
    returns (done: nat, minScheduled: int, ghost first: NextTime)
    requires AreRows(store.rows, jobs) && |attempts| >= |jobs| && TimesAreSane(Records(jobs, attempts))
    modifies store
    ensures done <= |jobs| && (forall i :: 0 <= i < done ==> attempts[i].reachable)
    ensures done < |jobs| ==> !attempts[done].reachable
    ensures store.rows == Stored(old(store.rows), Records(jobs, attempts), done)
    ensures IsEarliest(Records(jobs, attempts), done, first)
    ensures minScheduled == if first.NoTime? then 0 else Wakeup.Instant(first.milli)
    ensures first.Time? ==> first.milli >= 0
  {
    ghost var records := Records(jobs, attempts);
    minScheduled, first := 0, NoTime;
    for i := 0 to |jobs|
      invariant forall k :: 0 <= k < i ==> attempts[k].reachable
      invariant store.rows == Stored(old(store.rows), records, i)
      invariant IsEarliest(records, i, first)
      invariant minScheduled == if first.NoTime? then 0 else Wakeup.Instant(first.milli)
      invariant first.Time? ==> first.milli >= 0
    {
      StoredKeys(old(store.rows), records, i);
      var record, ok := ReclaimOne(store, jobs, attempts, i);
      if !ok {
        return i, minScheduled, first;
      }
      if record.run.state == Scheduled {
        var scheduled := Wakeup.Instant(record.run.scheduled);
        if minScheduled == 0 || minScheduled > scheduled {
          minScheduled, first := scheduled, Time(record.run.scheduled);
        }
      }
    }
    done := |jobs|;
  }

  method ReclaimOne(store: Store, jobs: seq<Job>, attempts: seq<Attempt>, i: nat) returns (record: Job, ok: bool)
    requires i < |jobs| <= |attempts|
    modifies store
    ensures record == Records(jobs, attempts)[i] && record.uid == jobs[i].uid
    ensures ok == (attempts[i].reachable && record.uid in old(store.rows))
    ensures store.rows == if ok then Updated(old(store.rows), record) else old(store.rows)
  {
    RecordAt(jobs, attempts, |jobs|, i);
    var job := new JobRef(jobs[i]);
    job.AfterExecution("", "deadline exceeded", attempts[i].now, attempts[i].cron);
    record := job.View();
    ok := store.UpdateExecution(record, attempts[i].reachable);
  }

  function NewJobs(defs: seq<Definition>, clocks: seq<int>, groupId: string): seq<Job>
    requires |clocks| >= |defs|
  {
    seq(|defs|, i requires 0 <= i < |defs| => ToNewJob(defs[i], clocks[i], groupId))
  }

  /**
   Submits a batch. The scheduler is signalled exactly when the batch is not empty, all
   definitions are valid and every job could be created; a batch that fails half way
   leaves jobs in the store without a signal.
   */
  method RunJobs(store: Store, groupId: string, defs: seq<Definition>, clocks: seq<int>, reachable: seq<bool>, now: int)
    returns (ok: bool, created: nat, signalled: bool)
    requires |clocks| >= |defs| && |reachable| >= |defs|
    requires forall i :: 0 <= i < |defs| ==> clocks[i] <= Wakeup.Milli(now)
    modifies store
    ensures created <= |defs|
    ensures signalled <==> ok && defs != []
    ensures ok <==> (forall i :: 0 <= i < |defs| ==> Validate(defs[i])) && created == |defs|
    ensures !(forall i :: 0 <= i < |defs| ==> Validate(defs[i])) ==> created == 0
    ensures store.rows.Keys == old(store.rows).Keys + set i | 0 <= i < created :: defs[i].uid
    ensures forall i :: 0 <= i < created ==> reachable[i] && defs[i].uid !in old(store.rows)
    ensures forall i :: 0 <= i < created ==>
      defs[i].uid in store.rows && store.rows[defs[i].uid] == ToNewJob(defs[i], clocks[i], groupId)
    ensures forall u :: u in old(store.rows) ==> u in store.rows && store.rows[u] == old(store.rows)[u]
    ensures (forall i :: 0 <= i < |defs| ==> Validate(defs[i])) && created < |defs| ==>
      !reachable[created] || defs[created].uid in store.rows
    ensures signalled ==>
              forall i :: 0 <= i < |defs| ==> NewJobs(defs, clocks, groupId)[i].run.scheduled <= Wakeup.Milli(now)
  {
    if |defs| == 0 {
      return true, 0, false;
    }
    var valid, newJobs := MakeJobs(groupId, defs, clocks);
    if !valid {
      return false, 0, false;
    }
    created := CreateAll(store, newJobs, reachable);
    assert forall i :: 0 <= i < |defs| ==> newJobs[i].uid == defs[i].uid;
    assert (set i | 0 <= i < created :: newJobs[i].uid) == set i | 0 <= i < created :: defs[i].uid;
    ok := created == |defs|;
    signalled := ok;
  }

  /** The first loop: all definitions are checked before anything is stored. */
  method MakeJobs(groupId: string, defs: seq<Definition>, clocks: seq<int>) returns (valid: bool, jobs: seq<Job>)
    requires |clocks| >= |defs|
    ensures valid <==> forall i :: 0 <= i < |defs| ==> Validate(defs[i])
    ensures valid ==> jobs == NewJobs(defs, clocks, groupId)
  {
    jobs := [];
    for i := 0 to |defs|
      invariant jobs == NewJobs(defs, clocks, groupId)[..i]
      invariant forall k :: 0 <= k < i ==> Validate(defs[k])
    {
      if !Validate(defs[i]) {
        return false, [];
      }
      jobs := jobs + [ToNewJob(defs[i], clocks[i], groupId)];
    }
    valid := true;
  }

  /** The second loop: jobs are created in order, up to the first that cannot be. */
  method CreateAll(store: Store, jobs: seq<Job>, reachable: seq<bool>) returns (created: nat)
    requires |reachable| >= |jobs|
    modifies store
    ensures created <= |jobs|
    ensures forall i :: 0 <= i < created ==> reachable[i] && jobs[i].uid !in old(store.rows)
    ensures created < |jobs| ==> !reachable[created] || jobs[created].uid in store.rows
    ensures forall i :: 0 <= i < created ==> jobs[i].uid in store.rows && store.rows[jobs[i].uid] == jobs[i]
    ensures forall u :: u in old(store.rows) ==> u in store.rows && store.rows[u] == old(store.rows)[u]
    ensures store.rows.Keys == old(store.rows).Keys + set i | 0 <= i < created :: jobs[i].uid
  {
    for i := 0 to |jobs|
      invariant forall k :: 0 <= k < i ==> reachable[k] && jobs[k].uid !in old(store.rows)
      invariant forall k :: 0 <= k < i ==> jobs[k].uid in store.rows && store.rows[jobs[k].uid] == jobs[k]
      invariant forall u :: u in old(store.rows) ==> u in store.rows && store.rows[u] == old(store.rows)[u]
      invariant store.rows.Keys == old(store.rows).Keys + set k | 0 <= k < i :: jobs[k].uid
    {
      if !reachable[i] || jobs[i].uid in store.rows {
        return i;
      }
      store.rows := store.rows[jobs[i].uid := jobs[i]];
    }
    created := |jobs|;
  }
}
