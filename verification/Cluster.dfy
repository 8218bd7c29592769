/**
 Any number of scheduler instances over one job store and one expiring lock, as a state
 machine at the grain of single lock, query and update calls.

 An operation is one critical section: a pass over the ready jobs, the update after an
 execution, a cancellation, or the reclaiming of overdue jobs. It obtains the lock, reads
 rows, and later writes them back one by one; between any two of its calls the clock may
 advance and every other operation may act. Creating, upserting and deleting jobs and
 reporting progress need no lock. A step that is not possible leaves the state as it is.
 */
module Cluster {
  import Lease
  import opened Jobs
  import opened JobStore
  import Pass

  const JOBS_KEY := "jobs"

  datatype Kind =
    | ReadyPass(maxRunning: int)
    | Finish(uid: string, result: string, error: string)
    | FinishUnlocked(uid: string, result: string, error: string) // the lock could not be obtained
    | CancelOne(uid: string)
    | Reclaim

  datatype Phase = Entered | Counted(slots: nat) | Writing(todo: seq<Job>)

  datatype Op = Op(kind: Kind, phase: Phase)

  /**
   A job that was deleted may be created again under its UID: `lives` counts how often each
   UID was put into the table as a one-off job, `starts` the executions in its present life.
   */
  datatype Cluster = Cluster(
    lease: Lease.State, rows: Rows, ops: map<nat, Op>, lives: map<string, nat>, starts: map<string, nat>)

  /** Steps of the lock and the clock. */
  datatype LockStep =
    | Tick(elapsed: nat)
    | Begin(id: nat, kind: Kind, token: string, expiry: int)
    | TryLock(id: nat)
    | End(id: nat)

  /** Calls an operation makes inside its critical section. */
  datatype Call =
    | Count
    | List(now: int, jobs: seq<Job>)
    | Load(now: int, jobs: seq<Job>)
    | WriteNext(reachable: bool, now: int, cron: Cron, instance: string)

  /** Changes of the store that need no lock. */
  datatype Change =
    | CreateJob(def: Definition, now: int, groupId: string)
    | UpsertRecurring(job: Job)
    | Delete(uid: string)
    | Progress(uid: string, now: int, progress: int, result: string)

  datatype Step = Lock(lock: LockStep) | Act(id: nat, call: Call) | Store(change: Change)

  function Init(now: int, rows: Rows): Cluster {
    Cluster(Lease.Init(now), rows, map[], map[], map u | u in rows :: Executions(rows[u]))
  }

  function Executions(j: Job): nat {
    if j.run.totalExecutions < 0 then 0 else j.run.totalExecutions
  }

  function Lives(s: Cluster, uid: string): nat {
    if uid in s.lives then s.lives[uid] else 0
  }

  /** The operation believes to be in its critical section. */
  predicate Inside(s: Cluster, id: nat) {
    && id in s.ops
    && (s.ops[id].kind.FinishUnlocked? || (id in s.lease.mutexes && s.lease.mutexes[id].held))
  }

  /** What an operation other than a pass may have read. */
  predicate Loads(kind: Kind, now: int, jobs: seq<Job>) {
    match kind
    case ReadyPass(_) => false
    case Finish(uid, _, _) => |jobs| == 1 && jobs[0].uid == uid
    case FinishUnlocked(uid, _, _) => |jobs| == 1 && jobs[0].uid == uid
    case CancelOne(uid) => |jobs| == 1 && jobs[0].uid == uid && Cancelable(jobs[0])
    case Reclaim => forall i :: 0 <= i < |jobs| ==> PastDeadline(jobs[i], now)
  }

  /** The record an operation stores for a job it has read. */
  function NewRecord(kind: Kind, j: Job, now: int, cron: Cron, instance: string): Job {
    match kind
    case ReadyPass(_) => PreExec(j, now, instance)
    case Finish(_, result, error) => PostExec(j, result, error, now, cron)
    case FinishUnlocked(_, result, error) => PostExec(j, result, error, now, cron)
    case CancelOne(_) => Cancel(j, now)
    case Reclaim => PostExec(j, "", "deadline exceeded", now, cron)
  }

  /** Insert, or overwrite the definition if it has changed; the counters are kept. */
  function Upserted(rows: Rows, j: Job): Rows {
    if j.uid !in rows then rows[j.uid := j]
    else
      var row := rows[j.uid];
      if && row.spec.jobType == j.spec.jobType && row.spec.priority == j.spec.priority && row.spec.data == j.spec.data
         && row.maxDurationSeconds == j.maxDurationSeconds && row.spec.maxRetries == j.spec.maxRetries
         && row.spec.isRecurring == j.spec.isRecurring && row.spec.recurringCron == j.spec.recurringCron then rows
      else
        rows[j.uid := row.(spec := j.spec.(created := row.spec.created, groupId := row.spec.groupId),
                           maxDurationSeconds := j.maxDurationSeconds,
                           run := row.run.(updated := j.run.updated, result := j.run.result, state := j.run.state,
                                           scheduled := j.run.scheduled))]
  }

  function ApplyLock(s: Cluster, step: LockStep): Cluster {
    match step
    case Tick(elapsed) => s.(lease := Lease.Apply(s.lease, Lease.Tick(elapsed)))
    case Begin(id, kind, token, expiry) =>
      if id in s.ops || id in s.lease.mutexes || !Lease.Unused(s.lease, token) then s
      else
        s.(lease := Lease.Apply(s.lease, Lease.Create(id, JOBS_KEY, token, expiry)),
           ops := s.ops[id := Op(kind, Entered)])
    case TryLock(id) => s.(lease := Lease.Apply(s.lease, Lease.Attempt(id)))
    case End(id) => s.(lease := Lease.Apply(s.lease, Lease.Unlock(id)), ops := s.ops - {id})
  }

  /** The phase the operation is in after a call, given the table; calls out of order have no effect. */
  function NextPhase(rows: Rows, op: Op, call: Call): Phase {
    match call
    case Count =>
      if op.phase == Entered && op.kind.ReadyPass? then
        Counted(Pass.AvailableSlots(op.kind.maxRunning, CountRunning(rows)))
      else op.phase
    case List(now, jobs) =>
      if && op.kind.ReadyPass? && op.phase.Counted? && AreRows(rows, jobs)
         && (forall i :: 0 <= i < |jobs| ==> Ready(jobs[i], now)) then
        Writing(if |jobs| > op.phase.slots then jobs[..op.phase.slots] else jobs)
      else op.phase
    case Load(now, jobs) =>
      if op.phase == Entered && AreRows(rows, jobs) && Loads(op.kind, now, jobs) then Writing(jobs) else op.phase
    case WriteNext(_, _, _, _) =>
      if op.phase.Writing? && op.phase.todo != [] then Writing(op.phase.todo[1..]) else op.phase
  }

  /** The call stores a record in the table. */
  predicate Stores(rows: Rows, op: Op, call: Call) {
    && call.WriteNext? && call.reachable && op.phase.Writing? && op.phase.todo != []
    && op.phase.todo[0].uid in rows
  }

  function Stored(op: Op, call: Call): Job
    requires call.WriteNext? && op.phase.Writing? && op.phase.todo != []
  {
    NewRecord(op.kind, op.phase.todo[0], call.now, call.cron, call.instance)
  }

  function ApplyCall(s: Cluster, id: nat, call: Call): Cluster {
    if !Inside(s, id) then s
    else
      var op := s.ops[id];
      var moved := s.(ops := s.ops[id := op.(phase := NextPhase(s.rows, op, call))]);
      if !Stores(s.rows, op, call) then moved
      else
        var u := op.phase.todo[0].uid;
        moved.(rows := Updated(s.rows, Stored(op, call)),
               starts := if op.kind.ReadyPass? && u in s.starts then s.starts[u := s.starts[u] + 1] else s.starts)
  }

  function ApplyChange(s: Cluster, change: Change): Cluster {
    match change
    case CreateJob(def, now, groupId) =>
      if !Validate(def) || def.uid in s.rows then s
      else
        s.(rows := s.rows[def.uid := ToNewJob(def, now, groupId)],
           lives := s.lives[def.uid := Lives(s, def.uid) + 1], starts := s.starts[def.uid := 0])
    case UpsertRecurring(job) =>
      if !job.spec.isRecurring || job.run.state != Scheduled then s
      else s.(rows := Upserted(s.rows, job))
    case Delete(uid) => s.(rows := s.rows - {uid})
    case Progress(uid, now, progress, result) =>
      if uid in s.rows && s.rows[uid].run.state == Running then
        var row := s.rows[uid];
        s.(rows := s.rows[uid := row.(runProgress := progress, run := row.run.(updated := now, result := result))])
      else s
  }

  function Apply(s: Cluster, step: Step): Cluster {
    match step
    case Lock(lock) => ApplyLock(s, lock)
    case Act(id, call) => ApplyCall(s, id, call)
    case Store(change) => ApplyChange(s, change)
  }

  function Exec(s: Cluster, steps: seq<Step>): Cluster {
    if steps == [] then s else Apply(Exec(s, steps[..|steps| - 1]), steps[|steps| - 1])
  }

  lemma ExecStep(s: Cluster, steps: seq<Step>, step: Step)
    ensures Exec(s, steps + [step]) == Apply(Exec(s, steps), step)
  {
    assert (steps + [step])[..|steps|] == steps;
  }

  lemma {:induction false} ExecAppend(s: Cluster, a: seq<Step>, b: seq<Step>)
    ensures Exec(s, a + b) == Exec(Exec(s, a), b)
  {
    if b == [] {
      assert a + b == a;
    } else {
      ExecAppend(s, a, b[..|b| - 1]);
      assert (a + b)[..|a + b| - 1] == a + b[..|b| - 1];
    }
  }

  lemma ExecThree(s: Cluster, a: Step, b: Step, c: Step)
    ensures Exec(s, [a, b, c]) == Apply(Apply(Apply(s, a), b), c)
  {
    assert [a, b, c][..2] == [a, b] && [a, b][..1] == [a] && [a][..0] == [];
    assert Exec(s, [a]) == Apply(s, a);
    assert Exec(s, [a, b]) == Apply(Exec(s, [a]), b);
  }

  /**
   What an operation may have read when it goes on to write: current rows of the table, each
   once. A pass has jobs that wait and whose time has come, no more than slots are free; a
   finish has its own job; a cancellation has its job if that is one-off and not at its end;
   reclaiming has jobs that run past their deadline.
   */
  lemma OperationsReadTheirJobs(rows: Rows, op: Op, call: Call, i: nat)
    requires !op.phase.Writing? && NextPhase(rows, op, call).Writing? && i < |NextPhase(rows, op, call).todo|
    ensures
      var todo := NextPhase(rows, op, call).todo;
      var j := todo[i];
      && j.uid in rows && rows[j.uid] == j && DistinctUids(todo)
      && match op.kind
         case ReadyPass(_) =>
           && op.phase.Counted? && |todo| <= op.phase.slots && call.List?
           && j.run.state == Scheduled && j.run.scheduled <= call.now
         case Finish(uid, _, _) => j.uid == uid && |todo| == 1
         case FinishUnlocked(uid, _, _) => j.uid == uid && |todo| == 1
         case CancelOne(uid) =>
           j.uid == uid && |todo| == 1 && !j.spec.isRecurring && j.run.state !in {Finished, Failed, Canceled}
         case Reclaim => call.Load? && j.run.state == Running && j.run.runDeadline < call.now
  {
  }

  /** The columns that define a job. */
  predicate SameDefinition(a: Job, b: Job) {
    && a.spec.(created := 0, groupId := "") == b.spec.(created := 0, groupId := "")
    && a.maxDurationSeconds == b.maxDurationSeconds
  }

  /**
   Registering a recurring job stores its definition and never touches the counters of its
   executions. If the definition is stored already, nothing changes, so that registering it
   again at every start does not disturb a job that runs or waits.
   */
  lemma RegisteringTwiceChangesNothing(rows: Rows, j: Job)
    ensures
      var rows' := Upserted(rows, j);
      && j.uid in rows' && SameDefinition(rows'[j.uid], j) && Upserted(rows', j) == rows'
      && (j.uid in rows && SameDefinition(rows[j.uid], j) ==> rows' == rows)
      && (!(j.uid in rows && SameDefinition(rows[j.uid], j)) ==>
            rows'[j.uid].run.state == j.run.state && rows'[j.uid].run.scheduled == j.run.scheduled)
      && (j.uid in rows ==>
            var a, b := rows[j.uid].run, rows'[j.uid].run;
            && b.totalExecutions == a.totalExecutions && b.consecutiveFailures == a.consecutiveFailures
            && b.runBy == a.runBy && b.runDeadline == a.runDeadline && b.lastExecuted == a.lastExecuted)
      && forall u :: u in rows && u != j.uid ==> u in rows' && rows'[u] == rows[u]
  {
  }

  /**
   The stored progress of a job changes only by a report while it runs, to what is reported;
   no execution update writes it, and none changes the definition.
   */
  lemma ProgressComesFromReports(s: Cluster, step: Step, u: string)
    requires u in s.rows && u in Apply(s, step).rows
    ensures
      var a, b := s.rows[u], Apply(s, step).rows[u];
      && (b.runProgress != a.runProgress ==>
            && step.Store? && step.change.Progress? && step.change.uid == u
            && a.run.state == Running && b.runProgress == step.change.progress)
      && (b.spec != a.spec || b.maxDurationSeconds != a.maxDurationSeconds ==>
            step.Store? && step.change.UpsertRecurring? && step.change.job.uid == u)
  {
  }

  /** A report of a running job is stored, with its progress and its intermediate result. */
  lemma ReportsAreStored(s: Cluster, u: string, now: int, progress: int, result: string)
    requires u in s.rows
    ensures
      var s' := Apply(s, Store(Progress(u, now, progress, result)));
      && s'.rows.Keys == s.rows.Keys
      && (s.rows[u].run.state == Running ==> s'.rows[u].runProgress == progress && s'.rows[u].run.result == result)
      && (s.rows[u].run.state != Running ==> s' == s)
  {
  }

  /** A deleted job is gone, and a new one is stored under its UID exactly if it is valid and the UID is free. */
  lemma JobsComeAndGo(s: Cluster, def: Definition, now: int, groupId: string)
    ensures def.uid !in Apply(s, Store(Delete(def.uid))).rows
    ensures
      var s' := Apply(s, Store(CreateJob(def, now, groupId)));
      if Validate(def) && def.uid !in s.rows then
        && def.uid in s'.rows && s'.rows[def.uid] == ToNewJob(def, now, groupId)
        && Lives(s', def.uid) == Lives(s, def.uid) + 1
      else s' == s
  {
  }

  /**
   The update after an execution, with or without the lock, stores the result and the error
   that its goroutine got, if the record it has read still settles.
   */
  lemma FinishStoresTheOutcome(s: Cluster, id: nat, call: Call)
    requires Inside(s, id) && Stores(s.rows, s.ops[id], call)
    requires s.ops[id].kind.Finish? || s.ops[id].kind.FinishUnlocked?
    requires
      var j := s.ops[id].phase.todo[0];
      Settles(j, s.ops[id].kind.error) && (j.spec.isRecurring ==> call.cron.NextAt?)
    ensures
      var op := s.ops[id];
      var j := op.phase.todo[0];
      var s' := Apply(s, Act(id, call));
      && j.uid in s'.rows
      && var run := s'.rows[j.uid].run;
         && run.result == op.kind.result && run.updated == call.now
         && run.lastFailureError == (if op.kind.error == "" then j.run.lastFailureError else op.kind.error)
         && (if j.spec.isRecurring then run.state == Scheduled && run.scheduled == call.cron.time
             else run.state == Finished <==> op.kind.error == "")
  {
    var op := s.ops[id];
    var j := op.phase.todo[0];
    SettlingReportsTheExecution(s.rows[j.uid], j, op.kind.result, op.kind.error, call.now, call.cron);
  }

  ghost predicate Locking(s: Cluster) {
    && Lease.Inv(s.lease)
    && (forall id :: id in s.ops ==> id in s.lease.mutexes && s.lease.mutexes[id].key == JOBS_KEY)
    && forall id :: id in s.ops && !s.ops[id].kind.FinishUnlocked? && s.ops[id].phase != Entered ==>
         s.lease.mutexes[id].held
  }

  lemma BeginKeepsLocking(s: Cluster, id: nat, kind: Kind, token: string, expiry: int)
    requires Locking(s)
    ensures Locking(ApplyLock(s, Begin(id, kind, token, expiry)))
  {
    if Lease.Unused(s.lease, token) {
      Lease.ApplyKeepsInv(s.lease, Lease.Create(id, JOBS_KEY, token, expiry));
    }
  }

  lemma EndKeepsLocking(s: Cluster, id: nat)
    requires Locking(s)
    ensures Locking(ApplyLock(s, End(id)))
  {
    Lease.ApplyKeepsInv(s.lease, Lease.Unlock(id));
  }

  lemma LockStepsKeepLocking(s: Cluster, step: LockStep)
    requires Locking(s)
    ensures Locking(ApplyLock(s, step))
  {
    match step
    case Tick(elapsed) => Lease.ApplyKeepsInv(s.lease, Lease.Tick(elapsed));
    case Begin(id, kind, token, expiry) => BeginKeepsLocking(s, id, kind, token, expiry);
    case TryLock(id) => Lease.ApplyKeepsInv(s.lease, Lease.Attempt(id));
    case End(id) => EndKeepsLocking(s, id);
  }

  /** A store call leaves the locks and the other operations alone. */
  lemma CallFrame(s: Cluster, id: nat, call: Call)
    requires Inside(s, id)
    ensures
      var s' := ApplyCall(s, id, call);
      && s'.lease == s.lease && s'.ops.Keys == s.ops.Keys
      && s'.ops[id].kind == s.ops[id].kind && s'.ops[id].phase == NextPhase(s.rows, s.ops[id], call)
      && forall k :: k in s.ops && k != id ==> s'.ops[k] == s.ops[k]
  {
  }

  lemma CallsKeepLocking(s: Cluster, id: nat, call: Call)
    requires Locking(s)
    ensures Locking(ApplyCall(s, id, call))
  {
    if Inside(s, id) {
      CallFrame(s, id, call);
    }
  }

  lemma ChangesKeepLocking(s: Cluster, change: Change)
    requires Locking(s)
    ensures Locking(ApplyChange(s, change))
  {
    assert ApplyChange(s, change).lease == s.lease && ApplyChange(s, change).ops == s.ops;
  }

  lemma {:induction false} RunsKeepLocking(now: int, rows: Rows, steps: seq<Step>)
    ensures Locking(Exec(Init(now, rows), steps))
  {
    if steps != [] {
      RunsKeepLocking(now, rows, steps[..|steps| - 1]);
      var before := Exec(Init(now, rows), steps[..|steps| - 1]);
      match steps[|steps| - 1]
      case Lock(lock) => LockStepsKeepLocking(before, lock);
      case Act(id, call) => CallsKeepLocking(before, id, call);
      case Store(change) => ChangesKeepLocking(before, change);
    }
  }

  /** At most one operation has a running lease. */
  lemma OneLiveOperation(s: Cluster, i: nat, k: nat)
    requires Locking(s) && i in s.ops && k in s.ops && Lease.Live(s.lease, i) && Lease.Live(s.lease, k)
    ensures i == k
  {
    Lease.AtMostOneLive(s.lease, i, k);
  }

  /** The entry that the operation wrote is still in the table of the lock. */
  predicate HasEntry(s: Cluster, id: nat) {
    id in s.ops && id in s.lease.mutexes && Lease.Recorded(s.lease, id)
  }

  /** At most one operation has its entry in the table. */
  lemma OneEntry(s: Cluster, i: nat, k: nat)
    requires Locking(s) && HasEntry(s, i) && HasEntry(s, k)
    ensures i == k
  {
  }

  /**
   After a step of the lock, an operation that has read something is where it was, and if it
   has its entry or a running lease it had that before.
   */
  lemma LockStepsKeepOperations(s: Cluster, step: LockStep, id: nat)
    requires Locking(s)
    requires
      var s' := ApplyLock(s, step);
      id in s'.ops && !s'.ops[id].kind.FinishUnlocked? && s'.ops[id].phase != Entered
    ensures id in s.ops && s.ops[id] == ApplyLock(s, step).ops[id]
    ensures Lease.Live(ApplyLock(s, step).lease, id) ==> Lease.Live(s.lease, id)
    ensures HasEntry(ApplyLock(s, step), id) ==> HasEntry(s, id)
  {
  }
}
