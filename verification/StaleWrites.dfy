/**
 What goes wrong in runs the theorems on the life cycle leave out: a record is written back
 that no longer fits the row, it fits but another operation is about to write the row, or a
 job is deleted and created again while an operation still has to write the old record.
 */
module StaleWrites {
  import Lease
  import opened Jobs
  import opened JobStore
  import opened Cluster
  import opened Lifecycle

  predicate Idle(s: Cluster) {
    JOBS_KEY !in s.lease.keys
  }

  /** The number and the token are free for a new operation. */
  predicate CanBegin(s: Cluster, id: nat, token: string) {
    id !in s.ops && id !in s.lease.mutexes && Lease.Unused(s.lease, token)
  }

  /** The two states differ at most in operation `id`, and the second is free for the same operations. */
  ghost predicate OthersSame(s: Cluster, s': Cluster, id: nat, token: string) {
    && s'.lives == s.lives
    && (forall k :: k in s.ops && k != id ==> k in s'.ops && s'.ops[k] == s.ops[k])
    && (forall k, t :: CanBegin(s, k, t) && k != id && t != token ==> CanBegin(s', k, t))
  }

  /** One run after the other. */
  lemma Join(s: Cluster, a: seq<Step>, b: seq<Step>) returns (steps: seq<Step>)
    requires Orderly(s, a) && Orderly(Exec(s, a), b)
    ensures Orderly(s, steps) && Exec(s, steps) == Exec(Exec(s, a), b)
  {
    steps := a + b;
    ExecAppend(s, a, b);
    OrderlyAppend(s, a, b);
  }

  lemma OrderlyThree(s: Cluster, a: Step, b: Step, c: Step)
    requires Allowed(s, a) && Allowed(Apply(s, a), b) && Allowed(Apply(Apply(s, a), b), c)
    ensures Orderly(s, [a, b, c])
  {
    assert [a, b, c][..2] == [a, b] && [a, b][..1] == [a] && [a][..0] == [];
    assert Exec(s, [a]) == Apply(s, a);
    assert Orderly(s, [a]) && Orderly(s, [a, b]);
  }

  /** A locked operation obtains the lock. */
  lemma Enters(s: Cluster, id: nat, token: string, kind: Kind)
    requires Idle(s) && CanBegin(s, id, token)
    ensures
      var s' := Apply(Apply(s, Lock(Begin(id, kind, token, 1))), Lock(TryLock(id)));
      && Inside(s', id) && s'.ops[id] == Op(kind, Entered) && HasEntry(s', id) && s'.lease.mutexes[id].held
      && s'.rows == s.rows && s'.starts == s.starts && s'.lease.mutexes[id].key == JOBS_KEY
      && Lease.Live(s'.lease, id) && OthersSame(s, s', id, token)
  {
  }

  /** A locked operation other than a pass reads one row. */
  lemma Reads(s: Cluster, id: nat, token: string, kind: Kind, now: int, u: string) returns (steps: seq<Step>)
    requires Idle(s) && CanBegin(s, id, token) && u in s.rows && s.rows[u].uid == u
    requires !kind.ReadyPass? && !kind.FinishUnlocked? && Loads(kind, now, [s.rows[u]])
    ensures Orderly(s, steps)
    ensures
      var s' := Exec(s, steps);
      && Inside(s', id) && s'.ops[id] == Op(kind, Writing([s.rows[u]])) && HasEntry(s', id)
      && s'.rows == s.rows && s'.starts == s.starts && s'.lease.mutexes[id].key == JOBS_KEY
      && Lease.Live(s'.lease, id) && OthersSame(s, s', id, token)
  {
    var a, b, c := Lock(Begin(id, kind, token, 1)), Lock(TryLock(id)), Act(id, Load(now, [s.rows[u]]));
    steps := [a, b, c];
    ExecThree(s, a, b, c);
    Enters(s, id, token, kind);
    assert AreRows(s.rows, [s.rows[u]]);
    OrderlyThree(s, a, b, c);
  }

  /** It writes the record of that row and ends. */
  lemma Writes(s: Cluster, id: nat, token: string, now: int, u: string) returns (steps: seq<Step>)
    requires Inside(s, id) && HasEntry(s, id) && u in s.rows && s.rows[u].uid == u
    requires !s.ops[id].kind.ReadyPass? && !s.ops[id].kind.FinishUnlocked?
    requires s.ops[id].phase == Writing([s.rows[u]]) && s.lease.mutexes[id].held && s.lease.mutexes[id].key == JOBS_KEY
    ensures Orderly(s, steps)
    ensures
      var s' := Exec(s, steps);
      && s'.rows == s.rows[u := StoreExecution(s.rows[u], NewRecord(s.ops[id].kind, s.rows[u], now, NextAt(0), ""))]
      && Idle(s') && s'.starts == s.starts && OthersSame(s, s', id, token)
  {
    var a, b, c := Act(id, WriteNext(true, now, NextAt(0), "")), Lock(End(id)), Lock(Tick(0));
    steps := [a, b, c];
    ExecThree(s, a, b, c);
    assert Writer(s, id);
    OrderlyThree(s, a, b, c);
  }

  /** A locked operation reads one row, writes its record and ends. */
  lemma Updates(s: Cluster, id: nat, token: string, kind: Kind, now: int, u: string) returns (steps: seq<Step>)
    requires Idle(s) && CanBegin(s, id, token) && u in s.rows && s.rows[u].uid == u
    requires !kind.ReadyPass? && !kind.FinishUnlocked? && Loads(kind, now, [s.rows[u]])
    ensures Orderly(s, steps)
    ensures
      var s' := Exec(s, steps);
      && s'.rows == s.rows[u := StoreExecution(s.rows[u], NewRecord(kind, s.rows[u], now, NextAt(0), ""))]
      && Idle(s') && s'.starts == s.starts && OthersSame(s, s', id, token)
  {
    var a := Reads(s, id, token, kind, now, u);
    var b := Writes(Exec(s, a), id, token, now, u);
    steps := Join(s, a, b);
  }

  /** A pass obtains the lock and finds one free slot. */
  lemma Counts(s: Cluster, id: nat, token: string) returns (steps: seq<Step>)
    requires Idle(s) && CanBegin(s, id, token)
    ensures Orderly(s, steps)
    ensures
      var s' := Exec(s, steps);
      && Inside(s', id) && s'.ops[id].kind.ReadyPass? && s'.ops[id].phase == Counted(1) && HasEntry(s', id)
      && s'.rows == s.rows && s'.starts == s.starts && s'.lease.mutexes[id].key == JOBS_KEY
      && OthersSame(s, s', id, token)
  {
    var kind := ReadyPass(CountRunning(s.rows) + 1);
    var a, b, c := Lock(Begin(id, kind, token, 1)), Lock(TryLock(id)), Act(id, Count);
    steps := [a, b, c];
    ExecThree(s, a, b, c);
    Enters(s, id, token, kind);
    OrderlyThree(s, a, b, c);
  }

  /** It lists the job, marks it as running and ends. */
  lemma Marks(s: Cluster, id: nat, token: string, u: string) returns (steps: seq<Step>)
    requires Inside(s, id) && s.ops[id].kind.ReadyPass? && s.ops[id].phase == Counted(1)
    requires HasEntry(s, id) && s.lease.mutexes[id].key == JOBS_KEY
    requires u in s.rows && s.rows[u].uid == u && s.rows[u].run.state == Scheduled && u in s.starts
    ensures Orderly(s, steps)
    ensures
      var s' := Exec(s, steps);
      && s'.rows == s.rows[u := StoreExecution(s.rows[u], PreExec(s.rows[u], 0, ""))]
      && Idle(s') && s'.starts == s.starts[u := s.starts[u] + 1] && OthersSame(s, s', id, token)
  {
    var a, b := Act(id, List(s.rows[u].run.scheduled, [s.rows[u]])), Act(id, WriteNext(true, 0, NextAt(0), ""));
    steps := [a, b, Lock(End(id))];
    ExecThree(s, a, b, Lock(End(id)));
    assert AreRows(s.rows, [s.rows[u]]) && [s.rows[u]][..1] == [s.rows[u]];
    assert Writer(Apply(s, a), id);
    OrderlyThree(s, a, b, Lock(End(id)));
  }

  /** A pass starts the job. */
  lemma Starts(s: Cluster, id: nat, token: string, u: string) returns (steps: seq<Step>)
    requires Idle(s) && CanBegin(s, id, token) && u in s.rows && s.rows[u].uid == u && s.rows[u].run.state == Scheduled
    requires u in s.starts
    ensures Orderly(s, steps)
    ensures
      var s' := Exec(s, steps);
      && s'.rows == s.rows[u := StoreExecution(s.rows[u], PreExec(s.rows[u], 0, ""))]
      && Idle(s') && s'.starts == s.starts[u := s.starts[u] + 1] && OthersSame(s, s', id, token)
  {
    var a := Counts(s, id, token);
    var b := Marks(Exec(s, a), id, token, u);
    steps := Join(s, a, b);
  }

  lemma BeginsUnlocked(s: Cluster, id: nat, token: string, u: string, error: string)
    requires CanBegin(s, id, token)
    ensures
      var kind := FinishUnlocked(u, "", error);
      var s' := Apply(s, Lock(Begin(id, kind, token, 1)));
      && s' == s.(lease := s'.lease, ops := s.ops[id := Op(kind, Entered)])
      && s'.lease.keys == s.lease.keys && s'.lease.now == s.lease.now && OthersSame(s, s', id, token)
      && forall k :: k in s.lease.mutexes ==> k in s'.lease.mutexes && s'.lease.mutexes[k] == s.lease.mutexes[k]
  {
  }

  /** A goroutine that could not obtain the lock reads the row of its job. */
  lemma ReadsUnlocked(s: Cluster, id: nat, token: string, u: string, error: string) returns (steps: seq<Step>)
    requires CanBegin(s, id, token) && u in s.rows && s.rows[u].uid == u
    ensures Orderly(s, steps)
    ensures
      var s' := Exec(s, steps);
      && s' == s.(lease := s'.lease, ops := s.ops[id := Op(FinishUnlocked(u, "", error), Writing([s.rows[u]]))])
      && s'.lease.keys == s.lease.keys && s'.lease.now == s.lease.now && OthersSame(s, s', id, token)
      && forall k :: k in s.lease.mutexes ==> k in s'.lease.mutexes && s'.lease.mutexes[k] == s.lease.mutexes[k]
  {
    var a, b := Lock(Begin(id, FinishUnlocked(u, "", error), token, 1)), Act(id, Load(0, [s.rows[u]]));
    steps := [a, b, Lock(Tick(0))];
    ExecThree(s, a, b, Lock(Tick(0)));
    BeginsUnlocked(s, id, token, u, error);
    assert AreRows(s.rows, [s.rows[u]]);
    OrderlyThree(s, a, b, Lock(Tick(0)));
  }

  const WRITE := WriteNext(true, 0, NextAt(0), "")

  /** What the unlocked write stores, whatever the row is by then. */
  lemma WritesUnlocked(s: Cluster, id: nat, u: string, j: Job, error: string)
    requires id in s.ops && s.ops[id] == Op(FinishUnlocked(u, "", error), Writing([j])) && j.uid == u && u in s.rows
    ensures
      var s' := Apply(s, Act(id, WRITE));
      && s'.rows == s.rows[u := StoreExecution(s.rows[u], PostExec(j, "", error, 0, NextAt(0)))]
      && s'.starts == s.starts && s'.lease == s.lease
      && forall k :: k in s.ops && k != id ==> k in s'.ops && s'.ops[k] == s.ops[k]
  {
  }

  /** A one-off job of the table is running and has retries left. */
  predicate RunsIn(rows: Rows, u: string) {
    && u in rows && rows[u].uid == u && LifeOk(rows[u]) && !rows[u].spec.isRecurring && rows[u].run.state == Running
    && rows[u].run.totalExecutions <= rows[u].spec.maxRetries
  }

  // ---- the record no longer fits ----

  /** All that is wrong with the write the operation has before it is that the record does not fit. */
  ghost predicate OnlyMisfits(s: Cluster, id: nat, u: string, j: Job) {
    && u in s.rows && id in s.ops && s.ops[id].phase == Writing([j]) && j.uid == u
    && !StillFits(s.rows[u], s.ops[id].kind, j) && Untouched(s, u)
  }

  lemma NobodyWritesWhileIdle(now: int, rows: Rows, steps: seq<Step>, u: string)
    requires Idle(Exec(Init(now, rows), steps))
    ensures Untouched(Exec(Init(now, rows), steps), u)
  {
    RunsKeepLocking(now, rows, steps);
  }

  /**
   The job is reclaimed and started again between the read and the write of a finish that
   goes ahead without the lock. Although the execution succeeded, the write takes the
   counter of executions back, below the number of times the job was started.
   */
  lemma RestartIsForgotten(now: int, rows: Rows, u: string) returns (steps: seq<Step>)
    requires RunsIn(rows, u)
    ensures Orderly(Init(now, rows), steps) && OnlyMisfits(Exec(Init(now, rows), steps), 0, u, rows[u])
    ensures
      var s := Exec(Init(now, rows), steps);
      var s' := Apply(s, Act(0, WRITE));
      && u in s'.rows && u in s'.starts && !LifeStep(s.rows[u], s'.rows[u])
      && s'.rows[u].run.state == Finished && s'.rows[u].run.totalExecutions == rows[u].run.totalExecutions
      && s'.starts[u] == s.rows[u].run.totalExecutions == rows[u].run.totalExecutions + 1
  {
    var s0 := Init(now, rows);
    var a := ReadsUnlocked(s0, 0, "0", u, "");
    assert CanBegin(Exec(s0, a), 1, "1") && CanBegin(Exec(s0, a), 2, "2");
    var b := ReclaimedAndRestarted(Exec(s0, a), u, 1, "1", 2, "2");
    steps := Join(s0, a, b);
    NobodyWritesWhileIdle(now, rows, steps, u);
    WritesUnlocked(Exec(s0, steps), 0, u, rows[u], "");
  }

  /** Operation `i` reclaims the job and operation `k` starts it again. */
  lemma ReclaimedAndRestarted(s: Cluster, u: string, i: nat, ti: string, k: nat, tk: string) returns (steps: seq<Step>)
    requires RunsIn(s.rows, u) && Idle(s) && u in s.starts
    requires CanBegin(s, i, ti) && CanBegin(s, k, tk) && i != k && ti != tk
    ensures Orderly(s, steps)
    ensures
      var s' := Exec(s, steps);
      && u in s'.rows && s'.rows[u].run.state == Running && s'.rows[u].spec == s.rows[u].spec
      && s'.rows[u].run.totalExecutions == s.rows[u].run.totalExecutions + 1 && LifeOk(s'.rows[u])
      && Idle(s') && s'.starts == s.starts[u := s.starts[u] + 1]
      && forall n :: n in s.ops && n != i && n != k ==> n in s'.ops && s'.ops[n] == s.ops[n]
  {
    var a := Reclaims(s, i, ti, u);
    var b := Starts(Exec(s, a), k, tk, u);
    steps := Join(s, a, b);
  }

  /** The running job is found overdue and waits again. */
  lemma Reclaims(s: Cluster, id: nat, token: string, u: string) returns (steps: seq<Step>)
    requires RunsIn(s.rows, u) && Idle(s) && CanBegin(s, id, token)
    ensures Orderly(s, steps)
    ensures
      var s' := Exec(s, steps);
      && u in s'.rows && s'.rows[u].uid == u && s'.rows[u].spec == s.rows[u].spec && s'.rows[u].run.state == Scheduled
      && s'.rows[u].run.totalExecutions == s.rows[u].run.totalExecutions && LifeOk(s'.rows[u])
      && Idle(s') && s'.starts == s.starts && OthersSame(s, s', id, token)
  {
    steps := Updates(s, id, token, Reclaim, s.rows[u].run.runDeadline + 1, u);
  }

  /**
   The job is canceled between the read and the write of a finish that goes ahead without
   the lock, and the execution has failed: the canceled job waits to be started again.
   */
  lemma CancellationIsForgotten(now: int, rows: Rows, u: string, error: string) returns (steps: seq<Step>)
    requires RunsIn(rows, u) && error != ""
    ensures Orderly(Init(now, rows), steps) && OnlyMisfits(Exec(Init(now, rows), steps), 0, u, rows[u])
    ensures
      var s := Exec(Init(now, rows), steps);
      var s' := Apply(s, Act(0, WRITE));
      && s.rows[u].run.state == Canceled
      && u in s'.rows && s'.rows[u].run.state == Scheduled && !LifeStep(s.rows[u], s'.rows[u])
  {
    var s0 := Init(now, rows);
    var a := ReadsUnlocked(s0, 0, "0", u, error);
    assert CanBegin(Exec(s0, a), 1, "1");
    var b := Updates(Exec(s0, a), 1, "1", CancelOne(u), 0, u);
    steps := Join(s0, a, b);
    NobodyWritesWhileIdle(now, rows, steps, u);
    FailureMisfitsCanceled(rows[u], error);
    WritesUnlocked(Exec(s0, steps), 0, u, rows[u], error);
  }

  lemma FailureMisfitsCanceled(j: Job, error: string)
    requires LifeOk(j) && !j.spec.isRecurring && j.run.state == Running && error != ""
    requires j.run.totalExecutions <= j.spec.maxRetries
    ensures
      var row := StoreExecution(j, Cancel(j, 0));
      var row' := StoreExecution(row, PostExec(j, "", error, 0, NextAt(0)));
      !StillFits(row, FinishUnlocked(j.uid, "", error), j) && row'.run.state == Scheduled && !LifeStep(row, row')
  {
  }

  // ---- the record fits, but another operation is about to write the row ----

  /** All that is wrong with the write is that another operation has read the row and will write it. */
  ghost predicate OnlyTouched(s: Cluster, id: nat, u: string, j: Job) {
    && u in s.rows && id in s.ops && s.ops[id].phase == Writing([j]) && j.uid == u
    && StillFits(s.rows[u], s.ops[id].kind, j) && !Untouched(s, u)
  }

  /**
   Reclaiming holds the lock and has read the row of the overdue job when the goroutine of
   the job gives up waiting for the lock, reads the same row and stores the job as finished,
   which is a move of the life cycle. Then reclaiming, whose lease is still running, stores
   what it has made of the row: the finished job waits to be started again.
   */
  lemma FinishIsForgotten(now: int, rows: Rows, u: string) returns (steps: seq<Step>)
    requires RunsIn(rows, u)
    ensures Orderly(Init(now, rows), steps) && OnlyTouched(Exec(Init(now, rows), steps), 1, u, rows[u])
    ensures
      var s := Exec(Init(now, rows), steps);
      var finished := Apply(s, Act(1, WRITE));
      var s' := Apply(finished, Act(0, WRITE));
      && u in finished.rows && finished.rows[u].run.state == Finished && LifeStep(s.rows[u], finished.rows[u])
      && Lease.Live(finished.lease, 0) && Writer(finished, 0)
      && u in s'.rows && s'.rows[u].run.state == Scheduled && !LifeStep(finished.rows[u], s'.rows[u])
  {
    steps := BothRead(now, rows, u);
    ReclaimUndoesFinish(Exec(Init(now, rows), steps), u);
  }

  /** Reclaiming and the goroutine that goes ahead without the lock have both read the row. */
  ghost predicate BothHaveRead(s: Cluster, u: string) {
    && u in s.rows && Inside(s, 0) && Writer(s, 0) && Lease.Live(s.lease, 0) && 1 in s.ops
    && s.ops[0] == Op(Reclaim, Writing([s.rows[u]]))
    && s.ops[1] == Op(FinishUnlocked(u, "", ""), Writing([s.rows[u]]))
  }

  lemma BothRead(now: int, rows: Rows, u: string) returns (steps: seq<Step>)
    requires RunsIn(rows, u)
    ensures Orderly(Init(now, rows), steps)
    ensures BothHaveRead(Exec(Init(now, rows), steps), u) && Exec(Init(now, rows), steps).rows == rows
  {
    var s0 := Init(now, rows);
    var a := Reads(s0, 0, "0", Reclaim, rows[u].run.runDeadline + 1, u);
    assert CanBegin(Exec(s0, a), 1, "1");
    var b := ReadsUnlocked(Exec(s0, a), 1, "1", u, "");
    steps := Join(s0, a, b);
  }

  lemma ReclaimUndoesFinish(s: Cluster, u: string)
    requires RunsIn(s.rows, u) && BothHaveRead(s, u)
    ensures OnlyTouched(s, 1, u, s.rows[u])
    ensures
      var finished := Apply(s, Act(1, WRITE));
      var s' := Apply(finished, Act(0, WRITE));
      && u in finished.rows && finished.rows[u].run.state == Finished && LifeStep(s.rows[u], finished.rows[u])
      && Lease.Live(finished.lease, 0) && Writer(finished, 0)
      && u in s'.rows && s'.rows[u].run.state == Scheduled && !LifeStep(finished.rows[u], s'.rows[u])
  {
    assert s.ops[0].phase.todo[0].uid == u;
    WritesUnlocked(s, 1, u, s.rows[u], "");
  }

  // ---- the job is created again ----

  /**
   The job is deleted and created again while the locked update after its execution still
   has to write: whatever the old row was, the new job, which was never started, is stored
   with the outcome and the counter of the old one. Everything but the creation is as it
   should be.
   */
  lemma NewJobTakesOldResult(now: int, rows: Rows, u: string, error: string, def: Definition) returns (steps: seq<Step>)
    requires u in rows && rows[u].uid == u && !rows[u].spec.isRecurring && Validate(def) && def.uid == u
    ensures Orderly(Init(now, rows), steps)
    ensures
      var s := Exec(Init(now, rows), steps);
      var deleted := Apply(s, Store(Delete(u)));
      var created := Apply(deleted, Store(CreateJob(def, now, "")));
      var s' := Apply(created, Act(0, WRITE));
      && s.rows == rows && !Untouched(deleted, u)
      && u in created.rows && created.rows[u] == ToNewJob(def, now, "") && Writer(created, 0)
      && u in s'.rows && s'.rows[u].run.state == Outcome(rows[u], error)
      && s'.rows[u].run.totalExecutions == rows[u].run.totalExecutions && u in s'.starts && s'.starts[u] == 0
  {
    var s0 := Init(now, rows);
    steps := Reads(s0, 0, "0", Finish(u, "", error), 0, u);
    var deleted := Apply(Exec(s0, steps), Store(Delete(u)));
    assert Writer(deleted, 0) && deleted.ops[0].phase.todo[0].uid == u;
  }
}
