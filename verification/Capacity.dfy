/**
 The limit on running jobs holds across all instances. Updates after an execution that
 go ahead without the lock are included: they can only end executions.
 */
module Capacity {
  import Lease
  import opened Jobs
  import opened JobStore
  import opened Cluster

  /** The slots an operation may still fill. */
  function Claim(phase: Phase): nat {
    match phase
    case Entered => 0
    case Counted(slots) => slots
    case Writing(todo) => |todo|
  }

  /** All passes of the run respect the limit. */
  ghost predicate Configured(steps: seq<Step>, limit: nat) {
    forall k :: 0 <= k < |steps| && steps[k].Lock? && steps[k].lock.Begin? && steps[k].lock.kind.ReadyPass? ==>
      steps[k].lock.kind.maxRunning <= limit
  }

  ghost predicate PassWithEntry(s: Cluster, id: nat) {
    HasEntry(s, id) && s.ops[id].kind.ReadyPass?
  }

  ghost predicate Inv(s: Cluster, limit: nat) {
    && Locking(s)
    && CountRunning(s.rows) <= limit
    && (forall id :: id in s.ops && s.ops[id].kind.ReadyPass? ==> s.ops[id].kind.maxRunning <= limit)
    && forall id :: PassWithEntry(s, id) && s.ops[id].phase != Entered ==>
         CountRunning(s.rows) + Claim(s.ops[id].phase) <= limit
  }

  lemma ChangesStartNoJobs(s: Cluster, change: Change)
    ensures CountRunning(ApplyChange(s, change).rows) <= CountRunning(s.rows)
  {
    SubsetCard(RunningJobs(ApplyChange(s, change).rows), RunningJobs(s.rows));
  }

  /** Only a pass stores a job as running, and then one at a time. */
  lemma CallsStartAtMostOne(s: Cluster, id: nat, call: Call)
    requires Inside(s, id)
    ensures
      var started := if Stores(s.rows, s.ops[id], call) && s.ops[id].kind.ReadyPass? then 1 else 0;
      CountRunning(ApplyCall(s, id, call).rows) <= CountRunning(s.rows) + started
  {
    var op := s.ops[id];
    if Stores(s.rows, op, call) {
      if op.kind.ReadyPass? {
        UpdateCountsOne(s.rows, Stored(op, call));
      } else {
        SettlingNeverStoresRunning(s.rows[op.phase.todo[0].uid], op.phase.todo[0], "", "", call.now, call.cron);
        UpdateKeepsCount(s.rows, Stored(op, call));
      }
    }
  }

  /** A pass starts no more jobs than it has claimed slots, and claims no more than are free. */
  lemma OwnClaimStays(s: Cluster, id: nat, call: Call, limit: nat)
    requires Inside(s, id) && s.ops[id].kind.ReadyPass? && s.ops[id].kind.maxRunning <= limit
    requires CountRunning(s.rows) <= limit
    requires s.ops[id].phase != Entered ==> CountRunning(s.rows) + Claim(s.ops[id].phase) <= limit
    ensures
      var s' := ApplyCall(s, id, call);
      && CountRunning(s'.rows) <= limit
      && (s'.ops[id].phase != Entered ==> CountRunning(s'.rows) + Claim(s'.ops[id].phase) <= limit)
  {
    CallsStartAtMostOne(s, id, call);
  }

  lemma LockStepsKeepInv(s: Cluster, step: LockStep, limit: nat)
    requires Inv(s, limit)
    requires step.Begin? && step.kind.ReadyPass? ==> step.kind.maxRunning <= limit
    ensures Inv(ApplyLock(s, step), limit)
  {
    LockStepsKeepLocking(s, step);
    var s' := ApplyLock(s, step);
    forall id | PassWithEntry(s', id) && s'.ops[id].phase != Entered
      ensures CountRunning(s'.rows) + Claim(s'.ops[id].phase) <= limit
    {
      LockStepsKeepOperations(s, step, id);
      assert PassWithEntry(s, id);
    }
  }

  /** The step makes a pass store a job as running. */
  predicate PassWrites(s: Cluster, step: Step) {
    && step.Act? && Inside(s, step.id) && s.ops[step.id].kind.ReadyPass?
    && Stores(s.rows, s.ops[step.id], step.call)
  }

  lemma CallsKeepInv(s: Cluster, id: nat, call: Call, limit: nat)
    requires Inv(s, limit) && KeptAt(s, Act(id, call))
    ensures Inv(ApplyCall(s, id, call), limit)
  {
    if Inside(s, id) {
      CallsKeepLocking(s, id, call);
      CallFrame(s, id, call);
      var s' := ApplyCall(s, id, call);
      if PassWithEntry(s, id) {
        OwnClaimStays(s, id, call, limit);
      } else {
        CallsStartAtMostOne(s, id, call);
      }
      forall k | PassWithEntry(s', k) && s'.ops[k].phase != Entered
        ensures CountRunning(s'.rows) + Claim(s'.ops[k].phase) <= limit
      {
        assert PassWithEntry(s, k);
        if PassWithEntry(s, id) {
          OneEntry(s, id, k);
        }
      }
    }
  }

  lemma ChangesKeepInv(s: Cluster, change: Change, limit: nat)
    requires Inv(s, limit)
    ensures Inv(ApplyChange(s, change), limit)
  {
    ChangesKeepLocking(s, change);
    ChangesStartNoJobs(s, change);
    assert forall id :: PassWithEntry(ApplyChange(s, change), id) ==> PassWithEntry(s, id);
  }

  /** If the step makes a pass store a job, its entry is in the table. */
  ghost predicate KeptAt(s: Cluster, step: Step) {
    PassWrites(s, step) ==> HasEntry(s, step.id)
  }

  /** Every pass of the run stores jobs as running only while its entry is in the table of the lock. */
  ghost predicate EntriesKept(s: Cluster, steps: seq<Step>) {
    forall k :: 0 <= k < |steps| ==> KeptAt(Exec(s, steps[..k]), steps[k])
  }

  lemma {:induction false} RunsKeepInv(s: Cluster, steps: seq<Step>, limit: nat)
    requires Inv(s, limit) && EntriesKept(s, steps) && Configured(steps, limit)
    ensures Inv(Exec(s, steps), limit)
  {
    if steps != [] {
      var front := steps[..|steps| - 1];
      assert forall k :: 0 <= k < |front| ==> front[..k] == steps[..k];
      RunsKeepInv(s, front, limit);
      match steps[|steps| - 1]
      case Lock(lock) => LockStepsKeepInv(Exec(s, front), lock, limit);
      case Act(id, call) => CallsKeepInv(Exec(s, front), id, call, limit);
      case Store(change) => ChangesKeepInv(Exec(s, front), change, limit);
    }
  }

  /**
   Whatever the instances do and however their calls interleave: in a run that starts with
   at most `limit` running jobs, in which no pass is configured with more and every pass
   finds its own entry in the table of the lock when it marks a job as running, at most
   `limit` jobs are ever stored as running. Nothing is asked of finishes, cancellations
   and reclaims: they may come late or, for finishes, without the lock.
   */
  lemma LimitHoldsWhileEntriesKept(now: int, rows: Rows, steps: seq<Step>, limit: nat)
    requires CountRunning(rows) <= limit
    requires EntriesKept(Init(now, rows), steps) && Configured(steps, limit)
    ensures CountRunning(Exec(Init(now, rows), steps).rows) <= limit
  {
    RunsKeepInv(Init(now, rows), steps, limit);
  }

  /** Every pass of the run marks jobs as running only before its lease ends. */
  ghost predicate PassesInTime(s: Cluster, steps: seq<Step>) {
    forall k :: 0 <= k < |steps| && PassWrites(Exec(s, steps[..k]), steps[k]) ==>
      Lease.Live(Exec(s, steps[..k]).lease, steps[k].id)
  }

  /** In particular the limit holds if every pass finishes before its lease ends. */
  lemma RunningJobsNeverExceedLimit(now: int, rows: Rows, steps: seq<Step>, limit: nat)
    requires CountRunning(rows) <= limit
    requires PassesInTime(Init(now, rows), steps) && Configured(steps, limit)
    ensures CountRunning(Exec(Init(now, rows), steps).rows) <= limit
  {
    var s := Init(now, rows);
    forall k | 0 <= k < |steps|
      ensures KeptAt(Exec(s, steps[..k]), steps[k])
    {
      RunsKeepLocking(now, rows, steps[..k]);
    }
    LimitHoldsWhileEntriesKept(now, rows, steps, limit);
  }

  // ---- a pass that lost its entry ----

  /** The states of a run in two parts are those of the parts. */
  lemma StateAt(s: Cluster, a: seq<Step>, b: seq<Step>, k: nat)
    requires k < |a + b|
    ensures k < |a| ==> Exec(s, (a + b)[..k]) == Exec(s, a[..k])
    ensures k >= |a| ==> Exec(s, (a + b)[..k]) == Exec(Exec(s, a), b[..k - |a|])
  {
    if k < |a| {
      assert (a + b)[..k] == a[..k];
    } else {
      assert (a + b)[..k] == a + b[..k - |a|];
      ExecAppend(s, a, b[..k - |a|]);
    }
  }

  lemma KeptAppend(s: Cluster, a: seq<Step>, b: seq<Step>)
    requires EntriesKept(s, a) && EntriesKept(Exec(s, a), b)
    ensures EntriesKept(s, a + b)
  {
    forall k | 0 <= k < |a + b|
      ensures KeptAt(Exec(s, (a + b)[..k]), (a + b)[k])
    {
      StateAt(s, a, b, k);
      if k < |a| {
        assert KeptAt(Exec(s, a[..k]), a[k]);
      } else {
        assert KeptAt(Exec(Exec(s, a), b[..k - |a|]), b[k - |a|]);
      }
    }
  }

  /** Steps other than writes leave nothing to check. */
  lemma KeptWithoutWrites(s: Cluster, steps: seq<Step>)
    requires forall k :: 0 <= k < |steps| ==> !(steps[k].Act? && steps[k].call.WriteNext?)
    ensures EntriesKept(s, steps)
  {
  }

  /** A pass has read the row of the waiting job `u` and is about to mark it as running. */
  predicate AboutToStart(s: Cluster, id: nat, u: string) {
    && Inside(s, id) && s.ops[id].kind.ReadyPass? && u in s.rows && s.rows[u].uid == u
    && s.ops[id].phase == Writing([s.rows[u]]) && s.rows[u].run.state == Scheduled
  }

  const NOWHERE := ""

  function MarkNext(id: nat): Step {
    Act(id, WriteNext(true, 0, NextAt(0), NOWHERE))
  }

  /** Marking a waiting job as running adds exactly one, with or without the entry. */
  lemma MarkingAddsOne(s: Cluster, id: nat, u: string)
    requires AboutToStart(s, id, u)
    ensures
      var s' := Apply(s, MarkNext(id));
      && CountRunning(s'.rows) == CountRunning(s.rows) + 1
      && s'.lease == s.lease && s'.rows.Keys == s.rows.Keys && s'.ops.Keys == s.ops.Keys
      && (forall v :: v in s.rows && v != u ==> s'.rows[v] == s.rows[v])
      && (forall k :: k in s.ops && k != id ==> s'.ops[k] == s.ops[k])
  {
    StartedJobsRun(s.rows, u);
  }

  lemma StartedJobsRun(rows: Rows, u: string)
    requires u in rows && rows[u].uid == u && rows[u].run.state == Scheduled
    ensures CountRunning(Updated(rows, PreExec(rows[u], 0, NOWHERE))) == CountRunning(rows) + 1
  {
    assert RunningJobs(Updated(rows, PreExec(rows[u], 0, NOWHERE))) == RunningJobs(rows) + {u};
  }

  /** A pass has begun and has not asked for the lock yet, which is free. */
  predicate Waits(s: Cluster, id: nat, limit: nat) {
    && id in s.ops && s.ops[id] == Op(ReadyPass(limit), Entered) && id in s.lease.mutexes
    && s.lease.mutexes[id].key == JOBS_KEY && !s.lease.mutexes[id].held && s.lease.mutexes[id].expiry == 1
    && (JOBS_KEY in s.lease.keys ==> s.lease.keys[JOBS_KEY].validUntil <= s.lease.now)
  }

  /** The pass obtains the lock, finds a free slot, and reads the row of a ready job. */
  lemma PassReads(s: Cluster, id: nat, limit: nat, u: string) returns (steps: seq<Step>)
    requires Waits(s, id, limit) && CountRunning(s.rows) < limit
    requires u in s.rows && s.rows[u].uid == u && s.rows[u].run.state == Scheduled
    ensures EntriesKept(s, steps) && Configured(steps, limit)
    ensures
      var s' := Exec(s, steps);
      && AboutToStart(s', id, u) && HasEntry(s', id) && s'.rows == s.rows
      && JOBS_KEY in s'.lease.keys && s'.lease.keys[JOBS_KEY].validUntil == s.lease.now + 1
      && s'.lease.now == s.lease.now && s'.lease.mutexes[id].token == s.lease.mutexes[id].token
      && s'.ops.Keys == s.ops.Keys && s'.lease.mutexes.Keys == s.lease.mutexes.Keys
      && forall k :: k in s.ops && k in s.lease.mutexes && k != id ==>
           s'.ops[k] == s.ops[k] && s'.lease.mutexes[k] == s.lease.mutexes[k]
  {
    var row := s.rows[u];
    var a, b, c := Lock(TryLock(id)), Act(id, Count), Act(id, List(row.run.scheduled, [row]));
    steps := [a, b, c];
    ExecThree(s, a, b, c);
    KeptWithoutWrites(s, steps);
    var locked := Apply(s, a);
    var counted := Apply(locked, b);
    assert locked.rows == s.rows && Inside(locked, id);
    assert counted.ops[id].phase == Counted(limit - CountRunning(s.rows)) && counted.rows == s.rows;
    assert AreRows(s.rows, [row]) && [row][..1] == [row];
  }

  /** Time passes until the lease of the first pass has ended, and a second pass begins. */
  lemma SecondPass(s: Cluster, limit: nat, u: string) returns (steps: seq<Step>)
    requires AboutToStart(s, 0, u) && s.ops.Keys == {0}
    requires s.lease.mutexes.Keys == {0} && s.lease.mutexes[0].token == "0"
    requires JOBS_KEY in s.lease.keys && s.lease.keys[JOBS_KEY].validUntil == s.lease.now + 1
    ensures EntriesKept(s, steps) && Configured(steps, limit)
    ensures
      var s' := Exec(s, steps);
      && Waits(s', 1, limit) && AboutToStart(s', 0, u) && s'.rows == s.rows
      && s'.ops.Keys == {0, 1} && s'.lease.mutexes.Keys == {0, 1}
  {
    var a, b, c := Lock(Tick(1)), Lock(Begin(1, ReadyPass(limit), "1", 1)), Lock(Tick(0));
    steps := [a, b, c];
    ExecThree(s, a, b, c);
    KeptWithoutWrites(s, steps);
    assert Lease.Unused(Apply(s, a).lease, "1");
  }

  lemma NewJobsDoNotRun(rows: Rows, def: Definition, now: int)
    requires def.uid !in rows
    ensures CountRunning(rows[def.uid := ToNewJob(def, now, "")]) == CountRunning(rows)
  {
    assert RunningJobs(rows[def.uid := ToNewJob(def, now, "")]) == RunningJobs(rows);
  }

  /** Two one-off jobs are created and the first pass begins. */
  lemma TwoJobs(now: int, rows: Rows, limit: nat, a: Definition, b: Definition) returns (steps: seq<Step>)
    requires Validate(a) && Validate(b) && a.uid != b.uid && a.uid !in rows && b.uid !in rows
    ensures EntriesKept(Init(now, rows), steps) && Configured(steps, limit)
    ensures
      var s := Exec(Init(now, rows), steps);
      && s.rows == rows[a.uid := ToNewJob(a, now, "")][b.uid := ToNewJob(b, now, "")]
      && CountRunning(s.rows) == CountRunning(rows) && Waits(s, 0, limit)
      && s.ops.Keys == {0} && s.lease.mutexes.Keys == {0} && s.lease.mutexes[0].token == "0"
  {
    var x, y, z := Store(CreateJob(a, now, "")), Store(CreateJob(b, now, "")), Lock(Begin(0, ReadyPass(limit), "0", 1));
    steps := [x, y, z];
    ExecThree(Init(now, rows), x, y, z);
    KeptWithoutWrites(Init(now, rows), steps);
    NewJobsDoNotRun(rows, a, now);
    NewJobsDoNotRun(rows[a.uid := ToNewJob(a, now, "")], b, now);
  }

  lemma ConfiguredAppend(a: seq<Step>, b: seq<Step>, limit: nat)
    requires Configured(a, limit) && Configured(b, limit)
    ensures Configured(a + b, limit)
  {
  }

  /** One stage after another. */
  lemma Then(s: Cluster, a: seq<Step>, b: seq<Step>, limit: nat)
    requires EntriesKept(s, a) && EntriesKept(Exec(s, a), b) && Configured(a, limit) && Configured(b, limit)
    ensures EntriesKept(s, a + b) && Configured(a + b, limit) && Exec(s, a + b) == Exec(Exec(s, a), b)
  {
    KeptAppend(s, a, b);
    ConfiguredAppend(a, b, limit);
    ExecAppend(s, a, b);
  }

  /** A single write of a pass that has its entry. */
  lemma KeptWrite(s: Cluster, id: nat, limit: nat)
    requires HasEntry(s, id)
    ensures EntriesKept(s, [MarkNext(id)]) && Configured([MarkNext(id)], limit)
    ensures Exec(s, [MarkNext(id)]) == Apply(s, MarkNext(id))
  {
    assert [MarkNext(id)][..0] == [];
  }

  /**
   The condition cannot be dropped: from any table with one free slot there is a run in
   which all writes of passes but the last one find their entry, and the last one, by a
   pass whose lease ended and whose entry was replaced, lifts the number of running jobs
   above the limit.
   */
  lemma LostEntryBreaksLimit(now: int, rows: Rows, limit: nat, a: Definition, b: Definition) returns (steps: seq<Step>)
    requires Validate(a) && Validate(b) && a.uid != b.uid && a.uid !in rows && b.uid !in rows
    requires CountRunning(rows) + 1 == limit
    ensures EntriesKept(Init(now, rows), steps) && Configured(steps, limit)
    ensures
      var s := Exec(Init(now, rows), steps);
      && PassWrites(s, MarkNext(0)) && !HasEntry(s, 0)
      && CountRunning(Apply(s, MarkNext(0)).rows) == limit + 1
  {
    var s0 := Init(now, rows);
    var r1 := TwoJobs(now, rows, limit, a, b);
    var s1 := Exec(s0, r1);
    var r2 := PassReads(s1, 0, limit, a.uid);
    Then(s0, r1, r2, limit);
    var s2 := Exec(s1, r2);
    var r3 := SecondPass(s2, limit, a.uid);
    Then(s0, r1 + r2, r3, limit);
    var s3 := Exec(s2, r3);
    var r4 := PassReads(s3, 1, limit, b.uid);
    Then(s0, r1 + r2 + r3, r4, limit);
    var s4 := Exec(s3, r4);
    KeptWrite(s4, 1, limit);
    Then(s0, r1 + r2 + r3 + r4, [MarkNext(1)], limit);
    steps := r1 + r2 + r3 + r4 + [MarkNext(1)];
    MarkingAddsOne(s4, 1, b.uid);
    var s5 := Exec(s0, steps);
    MarkingAddsOne(s5, 0, a.uid);
    RunsKeepLocking(now, rows, steps);
    if HasEntry(s5, 0) {
      OneEntry(s5, 0, 1);
    }
  }
}
