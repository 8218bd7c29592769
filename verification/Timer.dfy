/**
 The scheduler's timer. Instants are nanoseconds counted from the zero value of the
 source's time type, so the zero time is 0; durations are nanoseconds as well.
 */
module Timer {

  const TIMER_MIN_DUR := 1
  const TIMER_MAX_DUR := 30 * 60 * 1_000_000_000
  const MAX_DURATION := 0x7FFF_FFFF_FFFF_FFFF
  const MIN_DURATION := -0x8000_0000_0000_0000

  function Max(a: int, b: int): int {
    if a < b then b else a
  }

  /** Difference of two instants, saturating like the source's time arithmetic. */
  function Sub(t: int, u: int): int {
    if t - u > MAX_DURATION then MAX_DURATION
    else if t - u < MIN_DURATION then MIN_DURATION
    else t - u
  }

  /** When the timer is armed to fire, and whether any signal should fire it at once. */
  datatype Armed = Armed(at: int, edgy: bool)

  /** The new setting and the duration reported to the caller (0: nothing was done). */
  datatype Change = Change(armed: Armed, dur: int)

  function ResetAt(now: int, next: int, edgy: bool): Change {
    var dur := Sub(next, now);
    if dur < TIMER_MIN_DUR then Change(Armed(now + TIMER_MIN_DUR, edgy), TIMER_MIN_DUR)
    else if dur > TIMER_MAX_DUR then Change(Armed(now + TIMER_MAX_DUR, edgy), TIMER_MAX_DUR)
    else Change(Armed(next, edgy), dur)
  }

  function RescheduleEarlier(t: Armed, now: int, next: int): Change {
    if t.edgy then Change(Armed(now + TIMER_MIN_DUR, true), TIMER_MIN_DUR)
    else if next == 0 then Change(t, 0)
    else if next >= t.at then Change(t, 0)
    else
      var dur := Max(Sub(next, now), TIMER_MIN_DUR);
      Change(Armed(now + dur, false), dur)
  }

  /** A `RescheduleEarlier` call: the clock it read and the time it was asked for. */
  datatype Request = Request(now: int, next: int)

  function After(t: Armed, requests: seq<Request>): Armed {
    if requests == [] then t
    else
      var r := requests[|requests| - 1];
      RescheduleEarlier(After(t, requests[..|requests| - 1]), r.now, r.next).armed
  }

  ghost predicate ClockMonotone(start: int, requests: seq<Request>) {
    && (forall i :: 0 <= i < |requests| ==> start <= requests[i].now)
    && forall i, j :: 0 <= i < j < |requests| ==> requests[i].now <= requests[j].now
  }

  function LastClock(start: int, requests: seq<Request>): int {
    if requests == [] then start else requests[|requests| - 1].now
  }

  lemma ResetArmsInTime(now: int, next: int, edgy: bool)
    ensures
      var c := ResetAt(now, next, edgy);
      && c.armed.edgy == edgy
      && c.armed.at == now + c.dur
      && TIMER_MIN_DUR <= c.dur <= TIMER_MAX_DUR
      && c.armed.at <= Max(next, now + TIMER_MIN_DUR)
      && (now < next <= now + TIMER_MAX_DUR ==> c.armed.at == next)
      && (next > now + TIMER_MAX_DUR ==> c.dur == TIMER_MAX_DUR)
  {
  }

  /** Any signal, whatever time it asks for, makes an edgy timer fire at once. */
  lemma EdgyTimerFiresAtOnce(t: Armed, now: int, next: int)
    requires t.edgy
    ensures RescheduleEarlier(t, now, next) == Change(Armed(now + 1, true), 1)
  {
  }

  /** One signal: what it may and may not do to the armed time. */
  lemma RescheduleArmsInTime(t: Armed, now: int, next: int)
    requires t.at <= now + MAX_DURATION
    ensures
      var c := RescheduleEarlier(t, now, next);
      && c.armed.edgy == t.edgy
      && (c.dur == 0 ==> c.armed == t)
      && (c.dur != 0 ==> c.dur >= TIMER_MIN_DUR && c.armed.at == now + c.dur)
      && c.armed.at <= Max(t.at, now + TIMER_MIN_DUR)
      && (next != 0 || t.edgy ==> c.armed.at <= Max(next, now + TIMER_MIN_DUR))
      && (c.armed.at < t.at && !t.edgy ==> next != 0 && c.armed.at == Max(next, now + TIMER_MIN_DUR))
      && (c.dur != 0 <==> t.edgy || (next != 0 && next < t.at))
  {
  }

  /**
   After a reset and any number of signals under a clock that never runs backwards, and
   as long as the timer has not fired: the timer is armed no later than every non-zero
   time asked for, or immediately if that time has passed, and no signal has delayed it
   beyond "immediately".
   */
  lemma {:induction false} ArmedNoLaterThanRequested(now: int, next: int, edgy: bool, requests: seq<Request>)
    requires ClockMonotone(now, requests)
    ensures
      var t := After(ResetAt(now, next, edgy).armed, requests);
      var clock := LastClock(now, requests);
      && t.edgy == edgy
      && t.at <= clock + TIMER_MAX_DUR
      && t.at <= Max(ResetAt(now, next, edgy).armed.at, clock + TIMER_MIN_DUR)
      && t.at <= Max(next, clock + TIMER_MIN_DUR)
      && forall k :: 0 <= k < |requests| && requests[k].next != 0 ==>
           t.at <= Max(requests[k].next, clock + TIMER_MIN_DUR)
  {
    ResetArmsInTime(now, next, edgy);
    if requests != [] {
      var front, r := requests[..|requests| - 1], requests[|requests| - 1];
      ArmedNoLaterThanRequested(now, next, edgy, front);
      assert LastClock(now, front) <= r.now;
      RescheduleArmsInTime(After(ResetAt(now, next, edgy).armed, front), r.now, r.next);
      forall k | 0 <= k < |requests| && requests[k].next != 0
        ensures After(ResetAt(now, next, edgy).armed, requests).at <= Max(requests[k].next, r.now + TIMER_MIN_DUR)
      {
        if k < |front| {
          assert front[k] == requests[k];
        }
      }
    }
  }

  datatype Deadline = Unarmed | FiresAt(at: int)

  /**
   The timer object. `deadline` and `tick` stand for the runtime timer it wraps: when the
   deadline passes, the runtime puts one tick in the channel.
   */
  class SchedulerTimer {
    var timerAt: int
    var edgy: bool
    var deadline: Deadline
    var tick: bool

    ghost predicate Valid()
      reads this
    {
      tick || deadline == FiresAt(timerAt)
    }

    ghost function View(): Armed
      reads this
    {
      Armed(timerAt, edgy)
    }

    /** A new timer fires immediately. */
    constructor (now: int)
      ensures Valid() && !tick && View() == Armed(now + TIMER_MIN_DUR, false)
    {
      timerAt := now + TIMER_MIN_DUR;
      edgy := false;
      deadline := FiresAt(now + TIMER_MIN_DUR);
      tick := false;
    }

    /** Disarms and swallows a tick nobody has received yet, so that no stale tick survives. */
    method Stop()
      modifies this
      ensures deadline == Unarmed && !tick && timerAt == 0 && edgy == old(edgy)
    {
      deadline := Unarmed;
      if tick {
        tick := false;
      }
      timerAt := 0;
    }

    method Reset(now: int, next: int, makeEdgy: bool) returns (dur: int)
      modifies this
      ensures Change(View(), dur) == ResetAt(now, next, makeEdgy)
      ensures Valid() && !tick
    {
      var at := next;
      dur := Sub(next, now);
      if dur < TIMER_MIN_DUR {
        dur := TIMER_MIN_DUR;
        at := now + dur;
      } else if dur > TIMER_MAX_DUR {
        dur := TIMER_MAX_DUR;
        at := now + dur;
      }
      Stop();
      edgy := makeEdgy;
      timerAt := at;
      deadline := FiresAt(now + dur);
    }

    method Reschedule(now: int, next: int) returns (dur: int)
      requires Valid()
      modifies this
      ensures Change(View(), dur) == RescheduleEarlier(old(View()), now, next)
      ensures Valid()
      ensures dur == 0 ==> tick == old(tick) && deadline == old(deadline)
      ensures dur != 0 ==> !tick
    {
      if edgy {
        dur := TIMER_MIN_DUR;
      } else if next == 0 {
        return 0;
      } else if next >= timerAt {
        return 0;
      } else {
        dur := Sub(next, now);
        if dur < TIMER_MIN_DUR {
          dur := TIMER_MIN_DUR;
        }
      }
      Stop();
      timerAt := now + dur;
      deadline := FiresAt(now + dur);
    }
  }
}
