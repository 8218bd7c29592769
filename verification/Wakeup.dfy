/**
 No job is forgotten: the select loop of one scheduler instance, its pending signals and
 its timer. Everything else that happens to the store (other instances, callers, deletions)
 is an arbitrary change of the table between two steps.

 Instants are nanoseconds from the zero time, stored times are Unix milliseconds.
 */
module Wakeup {
  import opened Jobs
  import opened JobStore
  import Pass
  import Timer

  const EPOCH := 62_135_596_800 * 1_000_000_000
  const MINUTE := 60 * 1_000_000_000

  function Instant(milli: int): int {
    EPOCH + milli * 1_000_000
  }

  function Milli(t: int): int {
    (t - EPOCH) / 1_000_000
  }

  /** A job and the time it is scheduled for. */
  datatype Due = Due(uid: string, at: nat)

  /** The job waits in the table, for exactly that time. */
  predicate WaitsIn(rows: Rows, d: Due) {
    d.uid in rows && rows[d.uid].run.state == Scheduled && rows[d.uid].run.scheduled == d.at
  }

  function Dues(rows: Rows): set<Due> {
    set u | u in rows && rows[u].run.state == Scheduled && rows[u].run.scheduled >= 0 :: Due(u, rows[u].run.scheduled)
  }

  /** Where the loop is: waiting in the select, in a pass, or in a pass after it fetched the ready jobs. */
  datatype Phase = Waiting | Passing(tick: int) | Fetched(tick: int, table: Rows)

  /**
   `mine` are the jobs this instance answers for: those its last pass saw waiting, and
   those whose creation or rescheduling it has announced by a signal.
   */
  datatype Loop = Loop(
    now: int, rows: Rows, signals: multiset<int>, timer: Timer.Armed, phase: Phase,
    lastTick: int, lastReset: int, mine: set<Due>)

  datatype Step =
    | Elapse(duration: nat)
    | Others(rows: Rows)
    | JobCreated(job: Due)                  // RunJob returns
    | JobsCreated(jobs: set<Due>)           // RunJobs returns without an error
    | JobRescheduled(job: Due)              // a goroutine of this instance put its job back
    | JobsReclaimed(jobs: set<Due>, first: Due)
    | SlotFreed                             // a goroutine of this instance ended its job
    | Receive(signal: int)
    | Fire(tick: int)
    | Fetch
    | Complete(maxRunning: int, replies: Pass.Replies, writes: seq<Pass.Write>, instance: string)

  /** When the instance starts, its timer is about to fire. */
  function Init(now: int, rows: Rows): Loop {
    Loop(now, rows, multiset{}, Timer.Armed(now + Timer.TIMER_MIN_DUR, false), Waiting, now, now, Dues(rows))
  }

  function Announce(s: Loop, jobs: set<Due>, signal: int): Loop {
    s.(signals := s.signals + multiset{signal}, mine := s.mine + jobs)
  }

  /** The replies a pass may get: the ready jobs as of the fetch, the next time as of now. */
  ghost predicate Possible(s: Loop, maxRunning: int, r: Pass.Replies, writes: seq<Pass.Write>) {
    && (Pass.Proceeds(maxRunning, r) ==> |writes| >= |Pass.Todo(maxRunning, r)|)
    && (s.phase.Passing? ==> !Pass.Proceeds(maxRunning, r))
    && (s.phase.Fetched? && Pass.Proceeds(maxRunning, r) ==>
          IsReadyList(s.phase.table, Milli(s.phase.tick),
                      Pass.AvailableSlots(maxRunning, r.running.value) + 1, r.ready.value))
    && (r.next.Got? && !s.phase.Waiting? ==> IsNextTime(s.rows, Milli(s.phase.tick), r.next.value))
  }

  function RowsAfterPass(rows: Rows, maxRunning: int, r: Pass.Replies, writes: seq<Pass.Write>, instance: string): Rows
    requires Pass.Proceeds(maxRunning, r) ==> |writes| >= |Pass.Todo(maxRunning, r)|
  {
    if Pass.Proceeds(maxRunning, r) then
      var todo := Pass.Todo(maxRunning, r);
      Pass.RowsAfter(rows, todo, writes, instance, |todo|)
    else rows
  }

  /** The loop's choice of the next pass: in a minute, unless the pass knows better. */
  function NextExec(tick: int, next: NextTime): int {
    if next.NoTime? || Instant(next.milli) == 0 then tick + MINUTE else Instant(next.milli)
  }

  predicate Signalled(signals: multiset<int>, now: int, at: int) {
    exists signal :: signal in signals && signal != 0 && signal <= Timer.Max(Instant(at), now)
  }

  ghost function Completed(s: Loop, maxRunning: int, r: Pass.Replies, writes: seq<Pass.Write>, instance: string): Loop
    requires !s.phase.Waiting? && Possible(s, maxRunning, r, writes)
  {
    var rows' := RowsAfterPass(s.rows, maxRunning, r, writes, instance);
    var next := NextExec(s.phase.tick, Pass.KnownNext(maxRunning, r, writes));
    var seen := if s.phase.Fetched? then Dues(s.phase.table) else Dues(s.rows);
    s.(rows := rows',
       timer := Timer.ResetAt(s.now, next, !Pass.GotAll(maxRunning, r, writes)).armed,
       phase := Waiting, lastTick := s.phase.tick, lastReset := s.now,
       mine := (set d | d in s.mine && Signalled(s.signals, s.now, d.at)) + (set d | d in seen && WaitsIn(rows', d)))
  }

  ghost function Apply(s: Loop, step: Step): Loop {
    match step
    case Elapse(duration) => s.(now := s.now + duration)
    case Others(rows) => s.(rows := rows)
    case JobCreated(job) => Announce(s, {job}, Instant(job.at))
    case JobsCreated(jobs) =>
      if forall d :: d in jobs ==> d.at <= Milli(s.now) then Announce(s, jobs, s.now) else s
    case JobRescheduled(job) => Announce(s, {job}, Instant(job.at))
    case JobsReclaimed(jobs, first) =>
      if first in jobs && (forall d :: d in jobs ==> first.at <= d.at) then Announce(s, jobs, Instant(first.at)) else s
    case SlotFreed => Announce(s, {}, 0)
    case Receive(signal) =>
      if s.phase == Waiting && signal in s.signals then
        s.(signals := s.signals - multiset{signal}, timer := Timer.RescheduleEarlier(s.timer, s.now, signal).armed)
      else s
    case Fire(tick) =>
      if s.phase == Waiting && s.timer.at <= tick <= s.now then s.(phase := Passing(tick)) else s
    case Fetch => if s.phase.Passing? then s.(phase := Fetched(s.phase.tick, s.rows)) else s
    case Complete(maxRunning, r, writes, instance) =>
      if !s.phase.Waiting? && Possible(s, maxRunning, r, writes) then Completed(s, maxRunning, r, writes, instance)
      else s
  }

  ghost function Exec(s: Loop, steps: seq<Step>): Loop {
    if steps == [] then s else Apply(Exec(s, steps[..|steps| - 1]), steps[|steps| - 1])
  }

  /**
   The instance will look at a job due at `at`: a signal is pending that is not later, or
   the timer is armed not later (or to fire at once), or the timer is edgy, so that any
   signal fires it, and will fire by itself within a minute of the last pass.
   */
  predicate Covered(s: Loop, at: int) {
    || Signalled(s.signals, s.now, at)
    || s.timer.at <= Timer.Max(Instant(at), s.now + Timer.TIMER_MIN_DUR)
    || (s.timer.edgy && s.timer.at <= Timer.Max(s.lastTick + MINUTE, s.lastReset + Timer.TIMER_MIN_DUR))
  }

  ghost predicate Inv(s: Loop) {
    && s.now >= EPOCH && s.timer.at >= EPOCH && s.timer.at <= s.now + Timer.TIMER_MAX_DUR
    && (!s.phase.Waiting? ==> EPOCH <= s.phase.tick <= s.now)
    && (s.phase.Waiting? ==> forall d :: d in s.mine ==> Covered(s, d.at))
  }

  lemma AnnouncedIsCovered(s: Loop, jobs: set<Due>, signal: int)
    requires Inv(s)
    requires forall d :: d in jobs ==> signal != 0 && signal <= Timer.Max(Instant(d.at), s.now)
    ensures Inv(Announce(s, jobs, signal))
  {
    var s' := Announce(s, jobs, signal);
    forall d | d in s'.mine && s.phase.Waiting?
      ensures Covered(s', d.at)
    {
      assert signal in s'.signals;
      if d !in jobs {
        assert Covered(s, d.at);
        assert forall x :: x in s.signals ==> x in s'.signals;
      }
    }
  }

  /** Receiving a signal hands its jobs over to the timer and takes none away from it. */
  lemma ReceiveKeepsCover(s: Loop, signal: int, at: nat)
    requires Inv(s) && s.phase == Waiting && signal in s.signals && Covered(s, at)
    ensures Covered(Apply(s, Receive(signal)), at)
  {
    var s' := Apply(s, Receive(signal));
    Timer.RescheduleArmsInTime(s.timer, s.now, signal);
    if Signalled(s.signals, s.now, at) {
      var x :| x in s.signals && x != 0 && x <= Timer.Max(Instant(at), s.now);
      if x != signal {
        assert x in s'.signals;
      }
    }
  }

  /** What a pass saw waiting, and still waits after it, is covered by the timer it set. */
  lemma PassCoversWhatItSaw(
      s: Loop, maxRunning: int, r: Pass.Replies, writes: seq<Pass.Write>, instance: string, d: Due)
    requires Inv(s) && !s.phase.Waiting? && Possible(s, maxRunning, r, writes)
    requires d in if s.phase.Fetched? then Dues(s.phase.table) else Dues(s.rows)
    requires WaitsIn(RowsAfterPass(s.rows, maxRunning, r, writes, instance), d)
    ensures Covered(Completed(s, maxRunning, r, writes, instance), d.at)
  {
    var next := Pass.KnownNext(maxRunning, r, writes);
    var gotAll := Pass.GotAll(maxRunning, r, writes);
    Timer.ResetArmsInTime(s.now, NextExec(s.phase.tick, next), !gotAll);
    if gotAll {
      var todo := Pass.Todo(maxRunning, r);
      Pass.WrittenJobsRun(s.rows, todo, writes, instance, |todo|);
      assert !Lists(todo, d.uid);
      assert !Ready(s.phase.table[d.uid], Milli(s.phase.tick));
      assert WaitsBeyond(s.rows[d.uid], Milli(s.phase.tick));
      assert next.Time? && next.milli <= d.at;
    }
  }

  lemma CompleteKeepsInv(s: Loop, maxRunning: int, r: Pass.Replies, writes: seq<Pass.Write>, instance: string)
    requires Inv(s) && !s.phase.Waiting? && Possible(s, maxRunning, r, writes)
    ensures Inv(Completed(s, maxRunning, r, writes, instance))
  {
    var s' := Completed(s, maxRunning, r, writes, instance);
    Timer.ResetArmsInTime(s.now, NextExec(s.phase.tick, Pass.KnownNext(maxRunning, r, writes)),
                          !Pass.GotAll(maxRunning, r, writes));
    forall d | d in s'.mine
      ensures Covered(s', d.at)
    {
      if !(d in s.mine && Signalled(s.signals, s.now, d.at)) {
        PassCoversWhatItSaw(s, maxRunning, r, writes, instance, d);
      }
    }
  }

  lemma ApplyKeepsInv(s: Loop, step: Step)
    requires Inv(s)
    ensures Inv(Apply(s, step))
  {
    match step
    case JobCreated(job) => AnnouncedIsCovered(s, {job}, Instant(job.at));
    case JobsCreated(jobs) =>
      if forall d :: d in jobs ==> d.at <= Milli(s.now) {
        AnnouncedIsCovered(s, jobs, s.now);
      }
    case JobRescheduled(job) => AnnouncedIsCovered(s, {job}, Instant(job.at));
    case JobsReclaimed(jobs, first) =>
      if first in jobs && forall d :: d in jobs ==> first.at <= d.at {
        AnnouncedIsCovered(s, jobs, Instant(first.at));
      }
    case SlotFreed => AnnouncedIsCovered(s, {}, 0);
    case Receive(signal) =>
      if s.phase == Waiting && signal in s.signals {
        Timer.RescheduleArmsInTime(s.timer, s.now, signal);
        forall d | d in s.mine
          ensures Covered(Apply(s, step), d.at)
        {
          ReceiveKeepsCover(s, signal, d.at);
        }
      }
    case Complete(maxRunning, r, writes, instance) =>
      if !s.phase.Waiting? && Possible(s, maxRunning, r, writes) {
        CompleteKeepsInv(s, maxRunning, r, writes, instance);
      }
    case Elapse(duration) =>
      forall d | d in s.mine && s.phase.Waiting?
        ensures Covered(Apply(s, step), d.at)
      {
        assert Covered(s, d.at);
      }
    case _ =>
  }

  lemma {:induction false} RunsKeepInv(s: Loop, steps: seq<Step>)
    requires Inv(s)
    ensures Inv(Exec(s, steps))
  {
    if steps != [] {
      RunsKeepInv(s, steps[..|steps| - 1]);
      ApplyKeepsInv(Exec(s, steps[..|steps| - 1]), steps[|steps| - 1]);
    }
  }

  /**
   Whenever the loop waits in its select, after any run without a panic inside a pass,
   every job the instance answers for is covered.
   */
  lemma NoJobIsForgotten(now: int, rows: Rows, steps: seq<Step>, d: Due)
    requires now >= EPOCH
    ensures
      var s := Exec(Init(now, rows), steps);
      s.phase == Waiting && d in s.mine ==> Covered(s, d.at)
  {
    RunsKeepInv(Init(now, rows), steps);
  }

  /** Receiving the signal arms the timer for the next nanosecond, and then a pass can begin. */
  ghost predicate FiresAtOnce(s: Loop, signal: int) {
    var s' := Apply(s, Receive(signal));
    && s'.timer == Timer.Armed(s.now + 1, true) && s'.phase == Waiting
    && Apply(Apply(s', Elapse(1)), Fire(s.now + 1)).phase == Passing(s.now + 1)
  }

  /** In every state, and so in every run, any signal makes an edgy timer fire at once. */
  lemma EdgyTimerFiresOnAnySignal(s: Loop, signal: int)
    requires s.phase == Waiting && signal in s.signals && s.timer.edgy
    ensures FiresAtOnce(s, signal)
  {
    Timer.EdgyTimerFiresAtOnce(s.timer, s.now, signal);
  }

  /** The signal a step puts into the channel, if it does. */
  ghost function Sent(s: Loop, step: Step): multiset<int> {
    match step
    case JobCreated(job) => multiset{Instant(job.at)}
    case JobRescheduled(job) => multiset{Instant(job.at)}
    case JobsCreated(jobs) => if forall d :: d in jobs ==> d.at <= Milli(s.now) then multiset{s.now} else multiset{}
    case JobsReclaimed(jobs, first) =>
      if first in jobs && (forall d :: d in jobs ==> first.at <= d.at) then multiset{Instant(first.at)} else multiset{}
    case SlotFreed => multiset{0}
    case _ => multiset{}
  }

  /** The signal a step takes out of the channel. */
  ghost function Received(s: Loop, step: Step): multiset<int> {
    if step.Receive? && s.phase == Waiting && step.signal in s.signals then multiset{step.signal} else multiset{}
  }

  ghost function AllSent(s: Loop, steps: seq<Step>): multiset<int> {
    if steps == [] then multiset{}
    else AllSent(s, steps[..|steps| - 1]) + Sent(Exec(s, steps[..|steps| - 1]), steps[|steps| - 1])
  }

  ghost function AllReceived(s: Loop, steps: seq<Step>): multiset<int> {
    if steps == [] then multiset{}
    else AllReceived(s, steps[..|steps| - 1]) + Received(Exec(s, steps[..|steps| - 1]), steps[|steps| - 1])
  }

  lemma CompleteKeepsSignals(s: Loop, maxRunning: int, r: Pass.Replies, writes: seq<Pass.Write>, instance: string)
    ensures Apply(s, Complete(maxRunning, r, writes, instance)).signals == s.signals
  {
  }

  lemma ReceiveTakesOne(s: Loop, signal: int)
    ensures Apply(s, Receive(signal)).signals + Received(s, Receive(signal)) == s.signals
  {
  }

  lemma OthersOnlySend(s: Loop, step: Step)
    requires !step.Receive? && !step.Complete?
    ensures Apply(s, step).signals == s.signals + Sent(s, step)
  {
  }

  lemma StepConservesSignals(s: Loop, step: Step)
    ensures Apply(s, step).signals + Received(s, step) == s.signals + Sent(s, step)
  {
    match step
    case Complete(maxRunning, r, writes, instance) => CompleteKeepsSignals(s, maxRunning, r, writes, instance);
    case Receive(signal) => ReceiveTakesOne(s, signal);
    case _ => OthersOnlySend(s, step);
  }

  lemma OneMoreStep(pending: multiset<int>, pending': multiset<int>, start: multiset<int>, sent: multiset<int>,
                    received: multiset<int>, out: multiset<int>, taken: multiset<int>)
    requires pending + received == start + sent && pending' + taken == pending + out
    ensures pending' + (received + taken) == start + (sent + out)
  {
    assert pending' + (received + taken) == (pending' + taken) + received;
    assert pending + out + received == (pending + received) + out;
  }

  /** In every run each signal is received at most once, and those not received are pending. */
  lemma {:induction false} SignalsAreConserved(s: Loop, steps: seq<Step>)
    ensures Exec(s, steps).signals + AllReceived(s, steps) == s.signals + AllSent(s, steps)
  {
    if steps != [] {
      var front, step := steps[..|steps| - 1], steps[|steps| - 1];
      var before := Exec(s, front);
      SignalsAreConserved(s, front);
      StepConservesSignals(before, step);
      OneMoreStep(before.signals, Apply(before, step).signals, s.signals, AllSent(s, front), AllReceived(s, front),
                  Sent(before, step), Received(before, step));
    }
  }

  /** A timer that is due makes the loop begin a pass, which then looks at the table. */
  lemma DueTimerBeginsAPass(s: Loop)
    requires s.phase == Waiting && s.timer.at <= s.now
    ensures
      var s' := Apply(s, Fire(s.now));
      s' == s.(phase := Passing(s.now)) && Apply(s', Fetch) == s.(phase := Fetched(s.now, s.rows))
  {
  }

  /** The end of a job, with or without a retry, puts a signal in the channel. */
  lemma EndedJobSignals(s: Loop, step: Step)
    requires step.SlotFreed? || step.JobRescheduled?
    ensures
      var signal := if step.SlotFreed? then 0 else Instant(step.job.at);
      Apply(s, step).signals == s.signals + multiset{signal}
  {
  }

  /** The time of the next pass: what the pass knows, within the limits of the timer, or else in a minute. */
  ghost predicate ArmedFor(s: Loop, tick: int, next: NextTime) {
    var second := 1_000_000_000;
    var wanted := if next.Time? && Instant(next.milli) != 0 then Instant(next.milli) else tick + 60 * second;
    s.timer.at ==
      if wanted < s.now + 1 then s.now + 1
      else if wanted > s.now + 1800 * second then s.now + 1800 * second
      else wanted
  }

  /** The timer after a pass is edgy exactly if the pass has not got all jobs, and armed for the time it knows. */
  lemma PassArmsTheTimer(s: Loop, maxRunning: int, r: Pass.Replies, writes: seq<Pass.Write>, instance: string)
    requires !s.phase.Waiting? && Possible(s, maxRunning, r, writes)
    ensures
      var s' := Completed(s, maxRunning, r, writes, instance);
      && s'.phase == Waiting && (s'.timer.edgy <==> !Pass.GotAll(maxRunning, r, writes))
      && ArmedFor(s', s.phase.tick, if Pass.GotAll(maxRunning, r, writes) then r.next.value else NoTime)
  {
    var next := Pass.KnownNext(maxRunning, r, writes);
    Timer.ResetArmsInTime(s.now, NextExec(s.phase.tick, next), !Pass.GotAll(maxRunning, r, writes));
  }

  lemma {:induction false} OnlySignalsMoveTheTimer(s: Loop, steps: seq<Step>)
    requires forall k :: 0 <= k < |steps| ==> !steps[k].Receive? && !steps[k].Complete?
    ensures Exec(s, steps).timer == s.timer
  {
    if steps != [] {
      OnlySignalsMoveTheTimer(s, steps[..|steps| - 1]);
    }
  }

  lemma {:induction false} PassesBeginWhenArmed(s: Loop, steps: seq<Step>)
    requires s.phase == Waiting
    requires forall k :: 0 <= k < |steps| ==> !steps[k].Receive? && !steps[k].Complete?
    ensures Exec(s, steps).phase == Waiting || Exec(s, steps).phase.tick >= s.timer.at
  {
    if steps != [] {
      OnlySignalsMoveTheTimer(s, steps[..|steps| - 1]);
      PassesBeginWhenArmed(s, steps[..|steps| - 1]);
    }
  }

  /**
   A pass that got all jobs is not followed by another one before the next time a job waits
   for, or the longest time the timer can be armed for, unless a signal is received.
   */
  lemma NoPassBeforeTheNextTime(
      s: Loop, maxRunning: int, r: Pass.Replies, writes: seq<Pass.Write>, instance: string, steps: seq<Step>)
    requires !s.phase.Waiting? && Possible(s, maxRunning, r, writes)
    requires Pass.GotAll(maxRunning, r, writes) && r.next.value.Time? && Instant(r.next.value.milli) != 0
    requires forall k :: 0 <= k < |steps| ==> !steps[k].Receive? && !steps[k].Complete?
    ensures
      var s' := Exec(Completed(s, maxRunning, r, writes, instance), steps);
      || s'.phase == Waiting
      || s'.phase.tick >= Instant(r.next.value.milli)
      || s'.phase.tick >= s.now + Timer.TIMER_MAX_DUR
  {
    PassArmsTheTimer(s, maxRunning, r, writes, instance);
    PassesBeginWhenArmed(Completed(s, maxRunning, r, writes, instance), steps);
  }

  /** The instance answers for the job and will keep doing so if the current pass completes. */
  ghost predicate Kept(s: Loop, d: Due) {
    && d in s.mine && WaitsIn(s.rows, d)
    && (s.phase.Fetched? ==> d in Dues(s.phase.table) || Signalled(s.signals, s.now, d.at))
  }

  lemma StepKeepsAnswering(s: Loop, step: Step, d: Due)
    requires Kept(s, d) && WaitsIn(Apply(s, step).rows, d)
    ensures Kept(Apply(s, step), d)
  {
    var s' := Apply(s, step);
    if Signalled(s.signals, s.now, d.at) && !step.Receive? {
      var x :| x in s.signals && x != 0 && x <= Timer.Max(Instant(d.at), s.now);
      assert x in s'.signals;
    }
  }

  lemma {:induction false} RunKeepsAnswering(s: Loop, steps: seq<Step>, d: Due)
    requires Kept(s, d) && forall k :: 0 <= k <= |steps| ==> WaitsIn(Exec(s, steps[..k]).rows, d)
    ensures Kept(Exec(s, steps), d)
  {
    if steps != [] {
      var front := steps[..|steps| - 1];
      assert forall k :: 0 <= k <= |front| ==> front[..k] == steps[..k];
      RunKeepsAnswering(s, front, d);
      assert steps[..|steps|] == steps;
      StepKeepsAnswering(Exec(s, front), steps[|steps| - 1], d);
    }
  }

  /** A step by which this instance announces the job. */
  ghost predicate Announces(s: Loop, step: Step, d: Due) {
    match step
    case JobCreated(job) => job == d
    case JobRescheduled(job) => job == d
    case JobsCreated(jobs) => d in jobs && forall e :: e in jobs ==> e.at <= Milli(s.now)
    case JobsReclaimed(jobs, first) => d in jobs && first in jobs && forall e :: e in jobs ==> first.at <= e.at
    case _ => false
  }

  lemma AnnouncingKeeps(s: Loop, step: Step, d: Due)
    requires Inv(s) && Announces(s, step, d) && WaitsIn(s.rows, d)
    ensures Kept(Apply(s, step), d)
  {
    var signal :=
      match step
      case JobCreated(job) => Instant(job.at)
      case JobRescheduled(job) => Instant(job.at)
      case JobsCreated(jobs) => s.now
      case JobsReclaimed(jobs, first) => Instant(first.at);
    assert signal in Apply(s, step).signals;
  }

  /**
   A job this instance created, put back or reclaimed, at any point of any run, is covered
   at every later select for as long as it goes on waiting, through any number of passes.
   */
  lemma AnnouncedJobsStayCovered(now: int, rows: Rows, before: seq<Step>, step: Step, after: seq<Step>, d: Due)
    requires now >= EPOCH && Announces(Exec(Init(now, rows), before), step, d)
    requires
      var s := Apply(Exec(Init(now, rows), before), step);
      forall k :: 0 <= k <= |after| ==> WaitsIn(Exec(s, after[..k]).rows, d)
    ensures
      var s' := Exec(Apply(Exec(Init(now, rows), before), step), after);
      s'.phase == Waiting ==> Covered(s', d.at)
  {
    var s0 := Exec(Init(now, rows), before);
    RunsKeepInv(Init(now, rows), before);
    StaysCoveredAfterAnnouncement(s0, step, after, d);
  }

  lemma StaysCoveredAfterAnnouncement(s: Loop, step: Step, after: seq<Step>, d: Due)
    requires Inv(s) && Announces(s, step, d)
    requires forall k :: 0 <= k <= |after| ==> WaitsIn(Exec(Apply(s, step), after[..k]).rows, d)
    ensures
      var s' := Exec(Apply(s, step), after);
      s'.phase == Waiting ==> Covered(s', d.at)
  {
    assert after[..0] == [] && WaitsIn(Exec(Apply(s, step), after[..0]).rows, d);
    AnnouncingKeeps(s, step, d);
    ApplyKeepsInv(s, step);
    RunKeepsAnswering(Apply(s, step), after, d);
    RunsKeepInv(Apply(s, step), after);
  }

  /** The same for a job that a pass of this instance saw waiting and left waiting. */
  lemma SeenJobsStayCovered(s: Loop, step: Step, after: seq<Step>, d: Due)
    requires Inv(s) && s.phase.Fetched? && d in Dues(s.phase.table)
    requires step.Complete? && Possible(s, step.maxRunning, step.replies, step.writes)
    requires forall k :: 0 <= k <= |after| ==> WaitsIn(Exec(Apply(s, step), after[..k]).rows, d)
    ensures
      var s' := Exec(Apply(s, step), after);
      s'.phase == Waiting ==> Covered(s', d.at)
  {
    ApplyKeepsInv(s, step);
    assert after[..0] == [] && WaitsIn(Exec(Apply(s, step), after[..0]).rows, d);
    RunKeepsAnswering(Apply(s, step), after, d);
    RunsKeepInv(Apply(s, step), after);
  }
}
