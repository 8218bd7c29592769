/**
 One pass over the ready jobs: count the free slots, fetch one job more than fits, mark
 the jobs that fit as running, and report when the next pass is due.
 */
module Pass {
  import opened Jobs
  import opened JobStore

  datatype Reply<+T> = Got(value: T) | Unavailable

  /** What the lock and the queries answer during one pass. */
  datatype Replies = Replies(locked: bool, running: Reply<nat>, ready: Reply<seq<Job>>, next: Reply<NextTime>)

  /** The circumstances of one job update: the clock, and whether the database is reachable. */
  datatype Write = Write(reachable: bool, now: int)

  datatype Summary = Summary(count: nat, next: NextTime, gotAll: bool, failed: bool)

  function AvailableSlots(maxRunning: int, running: nat): nat {
    if maxRunning < running then 0 else maxRunning - running
  }

  /** The replies are correct for the table; a query may still be unavailable. */
  ghost predicate Truthful(rows: Rows, now: int, maxRunning: int, r: Replies) {
    && (r.running.Got? ==> r.running.value == CountRunning(rows))
    && (r.running.Got? && r.ready.Got? ==>
          IsReadyList(rows, now, AvailableSlots(maxRunning, r.running.value) + 1, r.ready.value))
    && (r.next.Got? ==> IsNextTime(rows, now, r.next.value))
  }

  /** All ready jobs fit in the free slots. */
  predicate Fits(maxRunning: int, r: Replies)
    requires r.running.Got? && r.ready.Got?
  {
    |r.ready.value| <= AvailableSlots(maxRunning, r.running.value)
  }

  /** The pass gets as far as starting jobs. */
  predicate Proceeds(maxRunning: int, r: Replies) {
    r.locked && r.running.Got? && r.ready.Got? && (Fits(maxRunning, r) ==> r.next.Got?)
  }

  function Todo(maxRunning: int, r: Replies): seq<Job>
    requires Proceeds(maxRunning, r)
  {
    if Fits(maxRunning, r) then r.ready.value
    else r.ready.value[..AvailableSlots(maxRunning, r.running.value)]
  }

  function RowsAfter(rows: Rows, todo: seq<Job>, writes: seq<Write>, instance: string, k: nat): Rows
    requires k <= |todo| && k <= |writes|
  {
    if k == 0 then rows
    else
      var before := RowsAfter(rows, todo, writes, instance, k - 1);
      if writes[k - 1].reachable then Updated(before, PreExec(todo[k - 1], writes[k - 1].now, instance)) else before
  }

  /** The jobs whose update went through; each is handed to its own goroutine. */
  function Started(todo: seq<Job>, writes: seq<Write>, instance: string, k: nat): seq<Job>
    requires k <= |todo| && k <= |writes|
  {
    if k == 0 then []
    else
      Started(todo, writes, instance, k - 1)
      + if writes[k - 1].reachable then [PreExec(todo[k - 1], writes[k - 1].now, instance)] else []
  }

  predicate AllReachable(writes: seq<Write>, k: nat)
    requires k <= |writes|
  {
    forall i :: 0 <= i < k ==> writes[i].reachable
  }

  /** Every ready job was started. */
  predicate GotAll(maxRunning: int, r: Replies, writes: seq<Write>)
    requires Proceeds(maxRunning, r) ==> |writes| >= |Todo(maxRunning, r)|
  {
    Proceeds(maxRunning, r) && Fits(maxRunning, r) && AllReachable(writes, |Todo(maxRunning, r)|)
  }

  /** The time of the next pass, as far as this pass knows it. */
  function KnownNext(maxRunning: int, r: Replies, writes: seq<Write>): NextTime
    requires Proceeds(maxRunning, r) ==> |writes| >= |Todo(maxRunning, r)|
  {
    if GotAll(maxRunning, r, writes) then r.next.value else NoTime
  }

  /** The update of the `i`-th job, and only that one, is what the pass did to the row. */
  lemma {:induction false} RowsAfterAt(rows: Rows, todo: seq<Job>, writes: seq<Write>, instance: string, k: nat)
    requires k <= |todo| && k <= |writes| && AreRows(rows, todo)
    ensures
      var after := RowsAfter(rows, todo, writes, instance, k);
      && after.Keys == rows.Keys
      && (forall i :: 0 <= i < k && writes[i].reachable ==>
            after[todo[i].uid] == StoreExecution(rows[todo[i].uid], PreExec(todo[i], writes[i].now, instance)))
      && (forall i :: 0 <= i < |todo| && (i >= k || !writes[i].reachable) ==> after[todo[i].uid] == rows[todo[i].uid])
      && (forall u :: u in rows && !Lists(todo, u) ==> after[u] == rows[u])
  {
    if k > 0 {
      RowsAfterAt(rows, todo, writes, instance, k - 1);
    }
  }

  lemma {:induction false} RowsAfterKeys(rows: Rows, todo: seq<Job>, writes: seq<Write>, instance: string, k: nat)
    requires k <= |todo| && k <= |writes|
    ensures RowsAfter(rows, todo, writes, instance, k).Keys == rows.Keys
  {
    if k > 0 {
      RowsAfterKeys(rows, todo, writes, instance, k - 1);
    }
  }

  lemma {:induction false} RowsAfterCount(rows: Rows, todo: seq<Job>, writes: seq<Write>, instance: string, k: nat)
    requires k <= |todo| && k <= |writes|
    ensures CountRunning(RowsAfter(rows, todo, writes, instance, k)) <= CountRunning(rows) + k
  {
    if k > 0 {
      RowsAfterCount(rows, todo, writes, instance, k - 1);
      var before := RowsAfter(rows, todo, writes, instance, k - 1);
      UpdateCountsOne(before, PreExec(todo[k - 1], writes[k - 1].now, instance));
    }
  }

  /** Updates only start jobs: a job that waits afterwards is untouched, and none of the written ones waits. */
  lemma {:induction false} WrittenJobsRun(rows: Rows, todo: seq<Job>, writes: seq<Write>, instance: string, k: nat)
    requires k <= |todo| && k <= |writes|
    ensures
      var after := RowsAfter(rows, todo, writes, instance, k);
      && after.Keys == rows.Keys
      && (forall u :: u in after && after[u].run.state == Scheduled ==> after[u] == rows[u])
      && (AllReachable(writes, k) ==>
            forall i :: 0 <= i < k && todo[i].uid in after ==> after[todo[i].uid].run.state == Running)
  {
    if k > 0 {
      WrittenJobsRun(rows, todo, writes, instance, k - 1);
    }
  }

  /** A pass never lifts the number of running jobs above the limit. */
  lemma PassStaysWithinLimit(
      rows: Rows, now: int, maxRunning: int, r: Replies, writes: seq<Write>, instance: string)
    requires Truthful(rows, now, maxRunning, r) && Proceeds(maxRunning, r) && |writes| >= |Todo(maxRunning, r)|
    ensures
      var todo := Todo(maxRunning, r);
      var after := RowsAfter(rows, todo, writes, instance, |todo|);
      CountRunning(after) <= maxRunning || CountRunning(after) <= CountRunning(rows)
  {
    var todo := Todo(maxRunning, r);
    RowsAfterCount(rows, todo, writes, instance, |todo|);
  }

  /** How many jobs can be started: all that are ready, as far as slots are free. */
  function Startable(rows: Rows, now: int, maxRunning: int): nat {
    var free, ready := maxRunning - CountRunning(rows), |ReadyJobs(rows, now)|;
    if free < 0 then 0 else if free < ready then free else ready
  }

  /** A pass tries to start as many jobs as can be started, no fewer and no more. */
  lemma PassUsesFreeSlots(rows: Rows, now: int, maxRunning: int, r: Replies)
    requires Truthful(rows, now, maxRunning, r) && Proceeds(maxRunning, r)
    ensures |Todo(maxRunning, r)| == Startable(rows, now, maxRunning)
  {
    ReadyListLength(rows, now, AvailableSlots(maxRunning, r.running.value) + 1, r.ready.value);
  }

  lemma {:induction false} EveryStartCounts(rows: Rows, todo: seq<Job>, writes: seq<Write>, instance: string, k: nat)
    requires k <= |todo| && k <= |writes| && AreRows(rows, todo)
    requires forall i :: 0 <= i < |todo| ==> todo[i].run.state != Running
    ensures
      CountRunning(RowsAfter(rows, todo, writes, instance, k)) ==
      CountRunning(rows) + |Started(todo, writes, instance, k)|
  {
    if k > 0 {
      EveryStartCounts(rows, todo, writes, instance, k - 1);
      RowsAfterAt(rows, todo, writes, instance, k - 1);
      if writes[k - 1].reachable {
        var before := RowsAfter(rows, todo, writes, instance, k - 1);
        StartCountsOne(before, PreExec(todo[k - 1], writes[k - 1].now, instance));
      }
    }
  }

  /**
   After a pass exactly the started jobs run in addition, and if all updates get through these
   are as many as could be started.
   */
  lemma PassFillsFreeSlots(
      rows: Rows, now: int, maxRunning: int, r: Replies, writes: seq<Write>, instance: string)
    requires Truthful(rows, now, maxRunning, r) && Proceeds(maxRunning, r) && |writes| >= |Todo(maxRunning, r)|
    ensures
      var todo := Todo(maxRunning, r);
      var after := RowsAfter(rows, todo, writes, instance, |todo|);
      && CountRunning(after) == CountRunning(rows) + |Started(todo, writes, instance, |todo|)|
      && (AllReachable(writes, |todo|) ==>
            CountRunning(after) == CountRunning(rows) + Startable(rows, now, maxRunning))
  {
    var todo := Todo(maxRunning, r);
    PassUsesFreeSlots(rows, now, maxRunning, r);
    EveryStartCounts(rows, todo, writes, instance, |todo|);
    AllReachableStartsAll(todo, writes, instance, |todo|);
  }

  /** Every job that is handed to a goroutine is stored as started, as it was handed over. */
  lemma {:induction false} StartedJobsAreStored(
      rows: Rows, todo: seq<Job>, writes: seq<Write>, instance: string, k: nat, i: nat)
    requires k <= |todo| && k <= |writes| && AreRows(rows, todo) && i < |Started(todo, writes, instance, k)|
    ensures
      var job := Started(todo, writes, instance, k)[i];
      var after := RowsAfter(rows, todo, writes, instance, k);
      && job.uid in after && after[job.uid].run == job.run && job.run.state == Running
      && exists n :: 0 <= n < k && todo[n].uid == job.uid
  {
    if i < |Started(todo, writes, instance, k - 1)| {
      StartedJobsAreStored(rows, todo, writes, instance, k - 1, i);
      RowsAfterAt(rows, todo, writes, instance, k - 1);
    } else {
      RowsAfterAt(rows, todo, writes, instance, k - 1);
      assert todo[k - 1].uid == Started(todo, writes, instance, k)[i].uid;
    }
  }

  lemma {:induction false} AllReachableStartsAll(todo: seq<Job>, writes: seq<Write>, instance: string, k: nat)
    requires k <= |todo| && k <= |writes|
    ensures AllReachable(writes, k) ==> |Started(todo, writes, instance, k)| == k
  {
    if k > 0 {
      AllReachableStartsAll(todo, writes, instance, k - 1);
    }
  }

  /** A pass that proceeds and does not report to have got all jobs leaves a ready one behind. */
  lemma NotGotAllLeavesReady(
      rows: Rows, now: int, maxRunning: int, r: Replies, writes: seq<Write>, instance: string)
    returns (u: string)
    requires Truthful(rows, now, maxRunning, r) && Proceeds(maxRunning, r) && |writes| >= |Todo(maxRunning, r)|
    requires !GotAll(maxRunning, r, writes)
    ensures
      var todo := Todo(maxRunning, r);
      var after := RowsAfter(rows, todo, writes, instance, |todo|);
      u in after && Ready(after[u], now)
  {
    var todo := Todo(maxRunning, r);
    RowsAfterAt(rows, todo, writes, instance, |todo|);
    if Fits(maxRunning, r) {
      var i :| 0 <= i < |todo| && !writes[i].reachable;
      u := todo[i].uid;
    } else {
      var next := r.ready.value[|todo|];
      assert forall i :: 0 <= i < |todo| ==> todo[i] == r.ready.value[i];
      u := next.uid;
      assert !Lists(todo, u);
    }
  }

  /**
   A pass that reports to have got all jobs leaves no ready job behind, and the time it
   reports is not later than the time any remaining job waits for. Without a time,
   no job waits at all.
   */
  lemma GotAllMeansNothingReady(
      rows: Rows, now: int, maxRunning: int, r: Replies, writes: seq<Write>, instance: string)
    requires Truthful(rows, now, maxRunning, r) && Proceeds(maxRunning, r) && |writes| >= |Todo(maxRunning, r)|
    requires GotAll(maxRunning, r, writes)
    ensures
      var todo := Todo(maxRunning, r);
      var after := RowsAfter(rows, todo, writes, instance, |todo|);
      forall u :: u in after && after[u].run.state == Scheduled ==>
        && u in rows && after[u] == rows[u] && after[u].run.scheduled > now
        && r.next.value.Time? && r.next.value.milli <= after[u].run.scheduled
  {
    var todo := Todo(maxRunning, r);
    WrittenJobsRun(rows, todo, writes, instance, |todo|);
    var after := RowsAfter(rows, todo, writes, instance, |todo|);
    forall u | u in after && after[u].run.state == Scheduled
      ensures after[u].run.scheduled > now
    {
      assert !Lists(todo, u);
    }
    assert forall u :: u in after && after[u].run.state == Scheduled ==> WaitsBeyond(rows[u], now);
  }

  /** A ready job the pass has not listed, or listed behind what fits, goes before none that it tried to start. */
  lemma LeftOutIsNotBefore(rows: Rows, now: int, maxRunning: int, r: Replies, u: string, i: nat)
    requires Truthful(rows, now, maxRunning, r) && Proceeds(maxRunning, r) && i < |Todo(maxRunning, r)|
    requires u in rows && Ready(rows[u], now) && !Lists(Todo(maxRunning, r), u)
    ensures !Before(rows[u], Todo(maxRunning, r)[i])
  {
    var todo := Todo(maxRunning, r);
    var jobs := r.ready.value;
    assert forall k :: 0 <= k < |todo| ==> jobs[k] == todo[k] && todo[k].uid != u;
    if Lists(jobs, u) {
      var k :| 0 <= k < |jobs| && jobs[k].uid == u;
      assert i < k;
    }
  }

  /** A job that waits after the pass is as it was, and no update of it got through. */
  lemma LeftReadyWasNotWritten(rows: Rows, todo: seq<Job>, writes: seq<Write>, instance: string, u: string)
    requires AreRows(rows, todo) && |writes| >= |todo|
    requires
      var after := RowsAfter(rows, todo, writes, instance, |todo|);
      u in after && after[u].run.state == Scheduled
    ensures u in rows && RowsAfter(rows, todo, writes, instance, |todo|)[u] == rows[u]
    ensures forall k :: 0 <= k < |todo| && todo[k].uid == u ==> !writes[k].reachable && todo[k] == rows[u]
  {
    RowsAfterAt(rows, todo, writes, instance, |todo|);
    if Lists(todo, u) {
      var k :| 0 <= k < |todo| && todo[k].uid == u;
    }
  }

  /**
   A ready job that is left behind although it has a higher priority than one that was tried,
   or the same and waits longer, is one whose own update failed, earlier in the same pass.
   */
  lemma NoJobIsOvertaken(
      rows: Rows, now: int, maxRunning: int, r: Replies, writes: seq<Write>, instance: string, u: string, i: nat)
    requires Truthful(rows, now, maxRunning, r) && Proceeds(maxRunning, r) && |writes| >= |Todo(maxRunning, r)|
    requires i < |Todo(maxRunning, r)|
    ensures
      var todo := Todo(maxRunning, r);
      var after := RowsAfter(rows, todo, writes, instance, |todo|);
      && u in after && Ready(after[u], now)
      && (|| after[u].spec.priority > todo[i].spec.priority
          || (after[u].spec.priority == todo[i].spec.priority && after[u].run.scheduled < todo[i].run.scheduled))
      ==>
        exists k :: 0 <= k < i && todo[k].uid == u && !writes[k].reachable
  {
    var todo := Todo(maxRunning, r);
    var after := RowsAfter(rows, todo, writes, instance, |todo|);
    if u in after && Ready(after[u], now) && Before(after[u], todo[i]) {
      LeftReadyWasNotWritten(rows, todo, writes, instance, u);
      if Lists(todo, u) {
        var k :| 0 <= k < |todo| && todo[k].uid == u;
        assert todo[k] == r.ready.value[k] && todo[i] == r.ready.value[i];
        assert k < i;
      } else {
        LeftOutIsNotBefore(rows, now, maxRunning, r, u, i);
      }
    }
  }

  /** The pass as the scheduler runs it, against the store object. */
  method ProcessReadyJobs(
      store: Store, now: int, maxRunning: int, instance: string, r: Replies, writes: seq<Write>)
    returns (summary: Summary, started: seq<Job>)
    requires Truthful(store.rows, now, maxRunning, r)
    requires Proceeds(maxRunning, r) ==> |writes| >= |Todo(maxRunning, r)|
    modifies store
    ensures !Proceeds(maxRunning, r) ==>
      store.rows == old(store.rows) && started == [] && summary == Summary(0, NoTime, false, true)
    ensures Proceeds(maxRunning, r) ==>
      var todo := Todo(maxRunning, r);
      && store.rows == RowsAfter(old(store.rows), todo, writes, instance, |todo|)
      && started == Started(todo, writes, instance, |todo|)
      && summary.count == |started| && !summary.failed
      && summary.gotAll == GotAll(maxRunning, r, writes)
      && summary.next == KnownNext(maxRunning, r, writes)
    ensures !r.locked || r.running.Unavailable? || r.ready.Unavailable? ==> summary.failed
    ensures summary.failed ==>
      !r.locked || r.running.Unavailable? || r.ready.Unavailable? || r.next.Unavailable?
  {
    started := [];
    var failure := Summary(0, NoTime, false, true);
    if !r.locked {
      return failure, started;
    }
    if r.running.Unavailable? {
      return failure, started;
    }
    var available := AvailableSlots(maxRunning, r.running.value);
    if r.ready.Unavailable? {
      return failure, started;
    }
    var jobs := r.ready.value;
    var knownNext, gotAll := NoTime, false;
    if |jobs| > available {
      jobs := jobs[..available];
    } else {
      gotAll := true;
      if r.next.Unavailable? {
        return failure, started;
      }
      knownNext := r.next.value;
    }
    var count, allWritten;
    started, count, allWritten := StartJobs(store, jobs, instance, writes);
    if !allWritten {
      knownNext, gotAll := NoTime, false;
    }
    summary := Summary(count, knownNext, gotAll, false);
  }

  /** One round of the loop: the job is prepared and stored, and started if that worked. */
  method StartJob(store: Store, row: Job, instance: string, write: Write) returns (job: Job, ok: bool)
    requires row.uid in store.rows
    modifies store
    ensures job == PreExec(row, write.now, instance) && ok == write.reachable
    ensures store.rows == if ok then Updated(old(store.rows), job) else old(store.rows)
  {
    var ref := new JobRef(row);
    ref.BeforeExecution(write.now, instance);
    job := ref.View();
    ok := store.UpdateExecution(job, write.reachable);
  }

  /** The loop of the pass. */
  method StartJobs(store: Store, jobs: seq<Job>, instance: string, writes: seq<Write>)
    returns (started: seq<Job>, countExecuted: nat, allWritten: bool)
    requires AreRows(store.rows, jobs) && |writes| >= |jobs|
    modifies store
    ensures store.rows == RowsAfter(old(store.rows), jobs, writes, instance, |jobs|)
    ensures started == Started(jobs, writes, instance, |jobs|) && countExecuted == |started|
    ensures allWritten == AllReachable(writes, |jobs|)
  {
    ghost var before := store.rows;
    started, countExecuted, allWritten := [], 0, true;
    for i := 0 to |jobs|
      invariant store.rows == RowsAfter(before, jobs, writes, instance, i)
      invariant started == Started(jobs, writes, instance, i) && countExecuted == |started|
      invariant allWritten == AllReachable(writes, i)
    {
      RowsAfterKeys(before, jobs, writes, instance, i);
      var job, ok := StartJob(store, jobs[i], instance, writes[i]);
      if !ok {
        allWritten := false;
        continue;
      }
      started := started + [job];
      countExecuted := countExecuted + 1;
    }
  }
}
