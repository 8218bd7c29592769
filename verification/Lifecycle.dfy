/**
 The life cycle of non-recurring jobs over whole runs of the cluster. An operation may write
 while it finds its own entry in the table of the lock. It may also write later, or without
 having had the lock, if what it read still fits the row and no other operation is about to
 write the row. No job is created again while an operation still has to write the record of
 the deleted one.
 */
module Lifecycle {
  import opened Jobs
  import opened JobStore
  import opened Cluster

  /** The job is stored and not recurring. */
  predicate Tracked(s: Cluster, u: string) {
    u in s.rows && !s.rows[u].spec.isRecurring
  }

  /** What an operation has read and not yet written is still what the table says. */
  ghost predicate UpToDate(s: Cluster, todo: seq<Job>) {
    && DistinctUids(todo)
    && forall i :: 0 <= i < |todo| ==>
         Tracked(s, todo[i].uid) ==> SameLife(s.rows[todo[i].uid], todo[i])
  }

  /** A lock-protected operation that still has its entry and has records to write. */
  ghost predicate Writer(s: Cluster, id: nat) {
    HasEntry(s, id) && !s.ops[id].kind.FinishUnlocked? && s.ops[id].phase.Writing?
  }

  ghost predicate RowsOk(s: Cluster) {
    && (forall u :: u in s.rows ==> LifeOk(s.rows[u]))
    && forall u :: Tracked(s, u) ==> u in s.starts && s.starts[u] == s.rows[u].run.totalExecutions
  }

  /** A record as the operation may have read it. */
  predicate ReadOk(kind: Kind, j: Job) {
    LifeOk(j) && (kind.ReadyPass? ==> j.run.state == Scheduled) && (kind.CancelOne? ==> Cancelable(j))
  }

  ghost predicate ReadsOk(ops: map<nat, Op>) {
    forall id, i :: id in ops && ops[id].phase.Writing? && 0 <= i < |ops[id].phase.todo| ==>
      ReadOk(ops[id].kind, ops[id].phase.todo[i])
  }

  ghost predicate WritersOk(s: Cluster) {
    forall id :: Writer(s, id) ==> UpToDate(s, s.ops[id].phase.todo)
  }

  ghost predicate Inv(s: Cluster) {
    Locking(s) && RowsOk(s) && ReadsOk(s.ops) && WritersOk(s)
  }

  /** What one step may do to the tracked jobs, unless it begins a new life of theirs. */
  ghost predicate Moves(s: Cluster, s': Cluster) {
    forall u :: Tracked(s', u) && Lives(s', u) == Lives(s, u) ==> Tracked(s, u) && LifeStep(s.rows[u], s'.rows[u])
  }

  /** No operation that may write still has a record of the job to write. */
  ghost predicate Untouched(s: Cluster, u: string) {
    forall id :: Writer(s, id) ==> !Lists(s.ops[id].phase.todo, u)
  }

  /** The row still has room for what the operation makes of the record it once read. */
  predicate StillFits(row: Job, kind: Kind, j: Job) {
    && !j.spec.isRecurring
    && match kind
       case ReadyPass(_) => row.run.state == Scheduled && row.run.totalExecutions == j.run.totalExecutions
       case Finish(_, _, error) => Harmless(row, j, error)
       case FinishUnlocked(_, _, error) => Harmless(row, j, error)
       case CancelOne(_) => CancelFits(row, j)
       case Reclaim => Harmless(row, j, "deadline exceeded")
  }

  /** Storing the record is a move of the life cycle, and adds one execution exactly if it is a start. */
  predicate IsMove(row: Job, kind: Kind, j: Job, call: Call)
    requires call.WriteNext?
  {
    var row' := StoreExecution(row, NewRecord(kind, j, call.now, call.cron, call.instance));
    && LifeStep(row, row')
    && row'.run.totalExecutions == row.run.totalExecutions + if kind.ReadyPass? then 1 else 0
  }

  /**
   For every operation, every row the table may have by now and every record of a one-off
   job that the operation may have read before: storing it is a move exactly if it fits.
   */
  lemma StaleWriteIsAMoveIff(row: Job, kind: Kind, j: Job, call: Call)
    requires LifeOk(row) && !row.spec.isRecurring && ReadOk(kind, j) && !j.spec.isRecurring && call.WriteNext?
    ensures IsMove(row, kind, j, call) <==> StillFits(row, kind, j)
  {
    match kind
    case ReadyPass(_) => StaleStartIsAMoveIff(row, j, call.now, call.instance);
    case Finish(_, result, error) => StaleFinishIsAMoveIff(row, j, result, error, call.now, call.cron);
    case FinishUnlocked(_, result, error) => StaleFinishIsAMoveIff(row, j, result, error, call.now, call.cron);
    case CancelOne(_) => StaleCancelIsAMoveIff(row, j, call.now);
    case Reclaim => StaleFinishIsAMoveIff(row, j, "", "deadline exceeded", call.now, call.cron);
  }

  /**
   The operation may store its next record: it holds the lock and has its entry, or the job
   has no life cycle, or the record still fits and nobody else is about to write the row.
   */
  ghost predicate MayStore(s: Cluster, id: nat)
    requires id in s.ops && s.ops[id].phase.Writing? && s.ops[id].phase.todo != []
  {
    var j := s.ops[id].phase.todo[0];
    || Writer(s, id)
    || !Tracked(s, j.uid)
    || (StillFits(s.rows[j.uid], s.ops[id].kind, j) && Untouched(s, j.uid))
  }

  /**
   The step is made as it should be: records are stored only where that is allowed, and a
   job is created only when no operation still has to write a record under its UID.
   */
  ghost predicate Allowed(s: Cluster, step: Step) {
    match step
    case Lock(_) => true
    case Act(id, call) => Inside(s, id) && Stores(s.rows, s.ops[id], call) ==> MayStore(s, id)
    case Store(change) => change.CreateJob? && change.def.uid !in s.rows ==> Untouched(s, change.def.uid)
  }

  /** Every step of the run is made as it should be. */
  ghost predicate Orderly(s: Cluster, steps: seq<Step>) {
    steps != [] ==>
      var front := steps[..|steps| - 1];
      Orderly(s, front) && Allowed(Exec(s, front), steps[|steps| - 1])
  }

  lemma {:induction false} OrderlyAppend(s: Cluster, a: seq<Step>, b: seq<Step>)
    requires Orderly(s, a) && Orderly(Exec(s, a), b)
    ensures Orderly(s, a + b)
  {
    if b == [] {
      assert a + b == a;
    } else {
      var front := b[..|b| - 1];
      OrderlyAppend(s, a, front);
      ExecAppend(s, a, front);
      assert (a + b)[..|a + b| - 1] == a + front;
    }
  }

  /** With the same rows nothing moves. */
  lemma SameRowsMove(s: Cluster, s': Cluster)
    requires RowsOk(s) && s'.rows == s.rows && s'.lives == s.lives && s'.starts == s.starts
    ensures RowsOk(s') && Moves(s, s')
  {
    forall u | Tracked(s', u)
      ensures Tracked(s, u) && LifeStep(s.rows[u], s'.rows[u])
    {
      StayingIsAMove(s.rows[u]);
    }
    assert forall u :: Tracked(s', u) ==> Tracked(s, u);
  }

  lemma LockStepsKeepWriters(s: Cluster, step: LockStep, id: nat)
    requires Inv(s) && Writer(ApplyLock(s, step), id)
    ensures
      var s' := ApplyLock(s, step);
      UpToDate(s', s'.ops[id].phase.todo)
  {
    LockStepsKeepOperations(s, step, id);
    assert Writer(s, id);
  }

  lemma LockStepsKeepInv(s: Cluster, step: LockStep)
    requires Inv(s)
    ensures Inv(ApplyLock(s, step)) && Moves(s, ApplyLock(s, step))
  {
    LockStepsKeepLocking(s, step);
    SameRowsMove(s, ApplyLock(s, step));
    forall id | Writer(ApplyLock(s, step), id) {
      LockStepsKeepWriters(s, step, id);
    }
  }

  lemma ChangesKeepWriters(s: Cluster, change: Change, id: nat)
    requires Inv(s) && Allowed(s, Store(change)) && Writer(ApplyChange(s, change), id)
    ensures UpToDate(ApplyChange(s, change), s.ops[id].phase.todo)
  {
    assert Writer(s, id);
    ChangesKeepRows(s, change);
    var todo := s.ops[id].phase.todo;
    forall i | 0 <= i < |todo| && Tracked(ApplyChange(s, change), todo[i].uid)
      ensures SameLife(ApplyChange(s, change).rows[todo[i].uid], todo[i])
    {
      assert KeepsLife(s, ApplyChange(s, change), todo[i].uid);
    }
  }

  lemma ChangesKeepInv(s: Cluster, change: Change)
    requires Inv(s) && Allowed(s, Store(change))
    ensures Inv(ApplyChange(s, change)) && Moves(s, ApplyChange(s, change))
  {
    ChangesKeepLocking(s, change);
    ChangesKeepRows(s, change);
    forall id | Writer(ApplyChange(s, change), id) {
      ChangesKeepWriters(s, change, id);
    }
  }

  lemma StayingIsAMove(j: Job)
    requires LifeOk(j) && !j.spec.isRecurring
    ensures LifeStep(j, j) && SameLife(j, j)
  {
  }

  /** Only the row of `u` may differ, and what happens to it is allowed. */
  ghost predicate ChangesOnly(s: Cluster, s': Cluster, u: string) {
    && (forall v :: v != u ==> Lives(s', v) == Lives(s, v) && (v in s.rows <==> v in s'.rows))
    && (forall v :: v != u && v in s.rows ==> s.rows[v] == s'.rows[v])
    && (forall v :: v != u && v in s.starts ==> v in s'.starts && s.starts[v] == s'.starts[v])
    && (u in s'.rows ==>
          && LifeOk(s'.rows[u])
          && (Tracked(s', u) ==> u in s'.starts && s'.starts[u] == s'.rows[u].run.totalExecutions)
          && (Tracked(s', u) && Lives(s', u) == Lives(s, u) ==> Tracked(s, u) && LifeStep(s.rows[u], s'.rows[u])))
  }

  lemma OneRowMoves(s: Cluster, s': Cluster, u: string)
    requires RowsOk(s) && ChangesOnly(s, s', u)
    ensures RowsOk(s') && Moves(s, s')
  {
    forall v | Tracked(s', v) && Lives(s', v) == Lives(s, v)
      ensures Tracked(s, v) && LifeStep(s.rows[v], s'.rows[v])
    {
      if v != u {
        StayingIsAMove(s.rows[v]);
      }
    }
  }

  function UidOf(change: Change): string {
    match change
    case CreateJob(def, _, _) => def.uid
    case UpsertRecurring(job) => job.uid
    case Delete(uid) => uid
    case Progress(uid, _, _, _) => uid
  }

  /** The life cycle of the job goes on as it was, unless a new life begins. */
  ghost predicate KeepsLife(s: Cluster, s': Cluster, u: string) {
    Tracked(s', u) && Lives(s', u) == Lives(s, u) ==> Tracked(s, u) && SameLife(s.rows[u], s'.rows[u])
  }

  /** Store changes that need no lock leave the life cycle of existing jobs alone. */
  lemma ChangesKeepLife(s: Cluster, change: Change)
    requires RowsOk(s)
    ensures KeepsLife(s, ApplyChange(s, change), UidOf(change))
  {
  }

  lemma ChangesOneRow(s: Cluster, change: Change)
    requires RowsOk(s)
    ensures ChangesOnly(s, ApplyChange(s, change), UidOf(change))
  {
    match change
    case CreateJob(def, now, groupId) => CreateChangesOnly(s, def, now, groupId);
    case UpsertRecurring(job) => UpsertChangesOnly(s, job);
    case Delete(uid) =>
    case Progress(uid, now, progress, result) => ProgressChangesOnly(s, uid, now, progress, result);
  }

  lemma CreateChangesOnly(s: Cluster, def: Definition, now: int, groupId: string)
    requires RowsOk(s)
    ensures ChangesOnly(s, ApplyChange(s, CreateJob(def, now, groupId)), def.uid)
  {
    if Validate(def) {
      NewJobsStartTheLifeCycle(def, now, groupId);
    }
  }

  lemma UpsertMakesRecurring(rows: Rows, job: Job)
    requires job.spec.isRecurring
    ensures
      var rows' := Upserted(rows, job);
      && rows'.Keys == rows.Keys + {job.uid} && rows'[job.uid].spec.isRecurring
      && forall u :: u in rows && u != job.uid ==> rows'[u] == rows[u]
  {
  }

  lemma UpsertChangesOnly(s: Cluster, job: Job)
    requires RowsOk(s)
    ensures ChangesOnly(s, ApplyChange(s, UpsertRecurring(job)), job.uid)
  {
    if job.spec.isRecurring {
      UpsertMakesRecurring(s.rows, job);
    }
    if Tracked(ApplyChange(s, UpsertRecurring(job)), job.uid) {
      StayingIsAMove(s.rows[job.uid]);
    }
  }

  lemma ProgressChangesOnly(s: Cluster, uid: string, now: int, progress: int, result: string)
    requires RowsOk(s)
    ensures ChangesOnly(s, ApplyChange(s, Progress(uid, now, progress, result)), uid)
  {
  }

  lemma ChangesKeepRows(s: Cluster, change: Change)
    requires RowsOk(s)
    ensures
      var s' := ApplyChange(s, change);
      RowsOk(s') && Moves(s, s') && forall u :: KeepsLife(s, s', u)
  {
    var s' := ApplyChange(s, change);
    ChangesOneRow(s, change);
    OneRowMoves(s, s', UidOf(change));
    forall u
      ensures KeepsLife(s, s', u)
    {
      if u == UidOf(change) {
        ChangesKeepLife(s, change);
      } else if Tracked(s', u) {
        StayingIsAMove(s.rows[u]);
      }
    }
  }

  /** What is up to date fits. */
  lemma SameLifeFits(row: Job, kind: Kind, j: Job)
    requires LifeOk(row) && !row.spec.isRecurring && ReadOk(kind, j) && SameLife(row, j)
    ensures StillFits(row, kind, j)
  {
  }

  lemma StoresChangeOnly(s: Cluster, id: nat, call: Call)
    requires RowsOk(s) && Inside(s, id) && Stores(s.rows, s.ops[id], call)
    requires
      var op := s.ops[id];
      var j := op.phase.todo[0];
      Tracked(s, j.uid) ==> IsMove(s.rows[j.uid], op.kind, j, call)
    ensures ChangesOnly(s, ApplyCall(s, id, call), s.ops[id].phase.todo[0].uid)
  {
  }

  lemma CallsKeepRows(s: Cluster, id: nat, call: Call)
    requires Inv(s) && Allowed(s, Act(id, call)) && Inside(s, id)
    ensures RowsOk(ApplyCall(s, id, call)) && Moves(s, ApplyCall(s, id, call))
  {
    if Stores(s.rows, s.ops[id], call) {
      var kind, j := s.ops[id].kind, s.ops[id].phase.todo[0];
      if Tracked(s, j.uid) {
        if Writer(s, id) {
          SameLifeFits(s.rows[j.uid], kind, j);
        }
        StaleWriteIsAMoveIff(s.rows[j.uid], kind, j, call);
      }
      StoresChangeOnly(s, id, call);
      OneRowMoves(s, ApplyCall(s, id, call), j.uid);
    } else {
      SameRowsMove(s, ApplyCall(s, id, call));
    }
  }

  lemma CallsKeepReads(s: Cluster, id: nat, call: Call)
    requires RowsOk(s) && ReadsOk(s.ops)
    ensures ReadsOk(ApplyCall(s, id, call).ops)
  {
    if Inside(s, id) {
      var next := NextPhase(s.rows, s.ops[id], call);
      forall i | next.Writing? && 0 <= i < |next.todo|
        ensures ReadOk(s.ops[id].kind, next.todo[i])
      {
      }
    }
  }

  /** What a call does to the rows other than the one it may store. */
  lemma OtherRowsStay(s: Cluster, id: nat, call: Call)
    requires Inside(s, id)
    ensures
      var s' := ApplyCall(s, id, call);
      && (forall u :: Tracked(s', u) <==> Tracked(s, u))
      && (!Stores(s.rows, s.ops[id], call) ==> s'.rows == s.rows)
      && (Stores(s.rows, s.ops[id], call) ==>
            forall u :: u in s'.rows && u != s.ops[id].phase.todo[0].uid ==> u in s.rows && s'.rows[u] == s.rows[u])
  {
  }

  /** What has just been read is up to date. */
  lemma FreshReadsAreUpToDate(s: Cluster, op: Op, call: Call)
    requires RowsOk(s) && !op.phase.Writing? && NextPhase(s.rows, op, call).Writing?
    ensures UpToDate(s, NextPhase(s.rows, op, call).todo)
  {
    var todo := NextPhase(s.rows, op, call).todo;
    assert AreRows(s.rows, call.jobs);
    assert forall i :: 0 <= i < |todo| ==> todo[i] == call.jobs[i];
  }

  /** Writing the first record leaves the others up to date. */
  lemma RestStaysUpToDate(s: Cluster, id: nat, call: Call)
    requires Inside(s, id) && s.ops[id].phase.Writing? && UpToDate(s, s.ops[id].phase.todo)
    ensures UpToDate(ApplyCall(s, id, call), NextPhase(s.rows, s.ops[id], call).todo)
  {
    OtherRowsStay(s, id, call);
    var todo := s.ops[id].phase.todo;
    if todo != [] {
      assert forall i :: 0 <= i < |todo[1..]| ==> todo[1..][i] == todo[i + 1] && todo[i + 1].uid != todo[0].uid;
    }
  }

  lemma OwnReadsStayUpToDate(s: Cluster, id: nat, call: Call)
    requires Inv(s) && Inside(s, id) && Writer(ApplyCall(s, id, call), id)
    ensures UpToDate(ApplyCall(s, id, call), NextPhase(s.rows, s.ops[id], call).todo)
  {
    CallFrame(s, id, call);
    if s.ops[id].phase.Writing? {
      assert Writer(s, id);
      RestStaysUpToDate(s, id, call);
    } else {
      FreshReadsAreUpToDate(s, s.ops[id], call);
      OtherRowsStay(s, id, call);
    }
  }

  /** What another operation stores leaves a writer up to date. */
  lemma OtherWritersStayUpToDate(s: Cluster, id: nat, call: Call, k: nat)
    requires Inv(s) && Allowed(s, Act(id, call)) && Inside(s, id) && Writer(s, k) && k != id
    ensures UpToDate(ApplyCall(s, id, call), s.ops[k].phase.todo)
  {
    OtherRowsStay(s, id, call);
    if Stores(s.rows, s.ops[id], call) {
      if Writer(s, id) {
        OneEntry(s, id, k);
      }
    }
  }

  lemma CallsKeepWriters(s: Cluster, id: nat, call: Call, k: nat)
    requires Inv(s) && Allowed(s, Act(id, call)) && Inside(s, id) && Writer(ApplyCall(s, id, call), k)
    ensures
      var s' := ApplyCall(s, id, call);
      UpToDate(s', s'.ops[k].phase.todo)
  {
    CallFrame(s, id, call);
    if k == id {
      OwnReadsStayUpToDate(s, id, call);
    } else {
      assert Writer(s, k);
      OtherWritersStayUpToDate(s, id, call, k);
    }
  }

  lemma CallsKeepInv(s: Cluster, id: nat, call: Call)
    requires Inv(s) && Allowed(s, Act(id, call))
    ensures Inv(ApplyCall(s, id, call)) && Moves(s, ApplyCall(s, id, call))
  {
    CallsKeepLocking(s, id, call);
    CallsKeepReads(s, id, call);
    if Inside(s, id) {
      CallsKeepRows(s, id, call);
      forall k | Writer(ApplyCall(s, id, call), k) {
        CallsKeepWriters(s, id, call, k);
      }
    } else {
      SameRowsMove(s, s);
    }
  }

  lemma StepKeepsInv(s: Cluster, step: Step)
    requires Inv(s) && Allowed(s, step)
    ensures Inv(Apply(s, step)) && Moves(s, Apply(s, step))
  {
    match step
    case Lock(lock) => LockStepsKeepInv(s, lock);
    case Act(id, call) => CallsKeepInv(s, id, call);
    case Store(change) => ChangesKeepInv(s, change);
  }

  lemma {:induction false} RunsKeepInv(s: Cluster, steps: seq<Step>)
    requires Inv(s) && Orderly(s, steps)
    ensures Inv(Exec(s, steps))
  {
    if steps != [] {
      RunsKeepInv(s, steps[..|steps| - 1]);
      StepKeepsInv(Exec(s, steps[..|steps| - 1]), steps[|steps| - 1]);
    }
  }

  /** The runs the theorems speak about, started on a table in good order. */
  ghost predicate GoodRun(now: int, rows: Rows, steps: seq<Step>) {
    && (forall u :: u in rows ==> LifeOk(rows[u]))
    && Orderly(Init(now, rows), steps)
  }

  lemma GoodRunsKeepInv(now: int, rows: Rows, steps: seq<Step>)
    requires GoodRun(now, rows, steps)
    ensures Inv(Exec(Init(now, rows), steps))
  {
    var s := Init(now, rows);
    assert forall id :: !Writer(s, id);
    assert RowsOk(s);
    RunsKeepInv(Init(now, rows), steps);
  }

  /**
   In every reachable state a non-recurring job that waits has failed exactly as often as
   it was started and has retries left; one that runs has failed once less. It has been
   started as often as its counter says, and at most once more than it may be retried,
   also when updates come late or go ahead without the lock, as far as they still fit.
   */
  lemma CountersAndStartsBounded(now: int, rows: Rows, steps: seq<Step>, u: string)
    requires GoodRun(now, rows, steps)
    ensures
      var s := Exec(Init(now, rows), steps);
      Tracked(s, u) ==>
        var j := s.rows[u];
        && (j.run.state == Scheduled ==> j.run.totalExecutions == j.run.consecutiveFailures <= j.spec.maxRetries)
        && (j.run.state == Running ==> j.run.totalExecutions == j.run.consecutiveFailures + 1)
        && u in s.starts && s.starts[u] == j.run.totalExecutions <= j.spec.maxRetries + 1
  {
    GoodRunsKeepInv(now, rows, steps);
  }

  function RankOf(s: Cluster, u: string): nat {
    if Tracked(s, u) && LifeOk(s.rows[u]) then Rank(s.rows[u]) else 0
  }

  predicate StateChanged(s: Cluster, s': Cluster, u: string) {
    Tracked(s, u) && Tracked(s', u) && s.rows[u].run.state != s'.rows[u].run.state
  }

  /** How often the stored state of the job changes during the run, in the life it has at the start. */
  function StateChanges(s: Cluster, steps: seq<Step>, u: string): nat {
    if steps == [] then 0
    else
      var before, after := Exec(s, steps[..|steps| - 1]), Exec(s, steps);
      StateChanges(s, steps[..|steps| - 1], u)
      + if StateChanged(before, after, u) && Lives(after, u) == Lives(s, u) then 1 else 0
  }

  lemma LivesGrow(s: Cluster, step: Step, u: string)
    ensures Lives(s, u) <= Lives(Apply(s, step), u)
  {
  }

  lemma {:induction false} LivesNeverShrink(s: Cluster, steps: seq<Step>, u: string)
    ensures Lives(s, u) <= Lives(Exec(s, steps), u)
  {
    if steps != [] {
      LivesNeverShrink(s, steps[..|steps| - 1], u);
      LivesGrow(Exec(s, steps[..|steps| - 1]), steps[|steps| - 1], u);
    }
  }

  lemma {:induction false} ChangesUseUpRank(s: Cluster, steps: seq<Step>, u: string)
    requires Inv(s) && Orderly(s, steps)
    ensures
      var left := if Lives(Exec(s, steps), u) == Lives(s, u) then RankOf(Exec(s, steps), u) else 0;
      StateChanges(s, steps, u) + left <= RankOf(s, u)
  {
    if steps != [] {
      var front := steps[..|steps| - 1];
      ChangesUseUpRank(s, front, u);
      RunsKeepInv(s, front);
      StepKeepsInv(Exec(s, front), steps[|steps| - 1]);
      var before, after := Exec(s, front), Exec(s, steps);
      LivesNeverShrink(s, front, u);
      LivesGrow(before, steps[|steps| - 1], u);
      assert after == Apply(before, steps[|steps| - 1]);
      assert Tracked(after, u) && Lives(after, u) == Lives(before, u) ==> LifeStep(before.rows[u], after.rows[u]);
    }
  }

  /**
   From the moment a job is created, and until it is created again, its stored state changes
   at most 2 * MaxRetries + 3 times, whatever happens afterwards: life cycles end.
   */
  lemma LifeCyclesEnd(
      now: int, rows: Rows, before: seq<Step>, def: Definition, time: int, groupId: string, after: seq<Step>)
    requires GoodRun(now, rows, before)
    requires
      var s := Exec(Init(now, rows), before);
      Validate(def) && def.uid !in s.rows && Allowed(s, Store(CreateJob(def, time, groupId)))
    requires Orderly(Apply(Exec(Init(now, rows), before), Store(CreateJob(def, time, groupId))), after)
    ensures
      var s := Apply(Exec(Init(now, rows), before), Store(CreateJob(def, time, groupId)));
      StateChanges(s, after, def.uid) <= 2 * def.maxRetries + 3
  {
    var s0 := Exec(Init(now, rows), before);
    GoodRunsKeepInv(now, rows, before);
    ChangesKeepInv(s0, CreateJob(def, time, groupId));
    NewJobsStartTheLifeCycle(def, time, groupId);
    ChangesUseUpRank(ApplyChange(s0, CreateJob(def, time, groupId)), after, def.uid);
  }

  /** The fate of a job between two points of a run in one of its lives. */
  lemma {:induction false} TerminalStatesAbsorb(s: Cluster, steps: seq<Step>, u: string)
    requires Inv(s) && Orderly(s, steps)
    ensures
      var s' := Exec(s, steps);
      Tracked(s', u) && Lives(s', u) == Lives(s, u) ==>
        && Tracked(s, u)
        && (s.rows[u].run.state in {Finished, Failed} ==> SameLife(s.rows[u], s'.rows[u]))
        && (s.rows[u].run.state == Canceled ==> s'.rows[u].run.state in {Canceled, Finished})
        && s.rows[u].run.totalExecutions <= s'.rows[u].run.totalExecutions
        && (s.rows[u].run.state in {Finished, Failed, Canceled} ==>
              s'.rows[u].run.totalExecutions == s.rows[u].run.totalExecutions)
        && s.rows[u].spec.maxRetries == s'.rows[u].spec.maxRetries
  {
    if steps != [] {
      var front := steps[..|steps| - 1];
      TerminalStatesAbsorb(s, front, u);
      RunsKeepInv(s, front);
      StepKeepsInv(Exec(s, front), steps[|steps| - 1]);
      var before, after := Exec(s, front), Exec(s, steps);
      LivesNeverShrink(s, front, u);
      LivesGrow(before, steps[|steps| - 1], u);
      assert after == Apply(before, steps[|steps| - 1]);
      assert Tracked(after, u) && Lives(after, u) == Lives(before, u) ==> LifeStep(before.rows[u], after.rows[u]);
    }
  }

  /**
   Finished and failed jobs stay as they are and a canceled job can at most still become
   finished, from any reachable state on, until the job is deleted and created again. None of
   them is started again.
   */
  lemma FinishedAndFailedAreFinal(now: int, rows: Rows, before: seq<Step>, after: seq<Step>, u: string)
    requires GoodRun(now, rows, before)
    requires u in Exec(Init(now, rows), before).rows
    requires Orderly(Exec(Init(now, rows), before), after)
    ensures
      var s := Exec(Init(now, rows), before);
      var s' := Exec(s, after);
      Tracked(s', u) && Lives(s', u) == Lives(s, u) ==>
        && (s.rows[u].run.state in {Finished, Failed} ==> s'.rows[u].run.state == s.rows[u].run.state)
        && (s.rows[u].run.state == Canceled ==> s'.rows[u].run.state in {Canceled, Finished})
        && (s.rows[u].run.state in {Finished, Failed, Canceled} ==>
              u in s.starts && u in s'.starts && s'.starts[u] == s.starts[u])
  {
    GoodRunsKeepInv(now, rows, before);
    RunsKeepInv(Exec(Init(now, rows), before), after);
    TerminalStatesAbsorb(Exec(Init(now, rows), before), after, u);
  }
}
