/**
 Live log streams: a capped history that is replayed to every new subscriber, and live
 delivery into the subscriber's bounded buffer afterwards. Lines are numbered in the order
 in which they are written.
 */
module Livelog {

  const BUFFER_SIZE := 5000

  datatype Line = Line(number: int, message: string, timestamp: int)

  // ---- what one subscriber gets ----

  /**
   `got` are the numbers of the lines put into the subscriber's buffer so far, of which
   the first `taken` have been consumed. The subscriber joined after `joined` writes and
   was replayed the lines from `base` on.
   */
  datatype Delivery = Delivery(
    base: nat, joined: nat, written: nat, got: seq<nat>, taken: nat, closed: bool, dropped: bool)

  datatype Event = Written | Taken | Closed

  function Range(from: nat, to: nat): (r: seq<nat>)
    requires from <= to
    ensures |r| == to - from
    ensures forall i :: 0 <= i < |r| ==> r[i] == from + i
  {
    seq(to - from, i => from + i)
  }

  function HistoryStart(written: nat): nat {
    if written <= BUFFER_SIZE then 0 else written - BUFFER_SIZE
  }

  /** A subscriber right after the replay. */
  function Joined(written: nat): Delivery {
    Delivery(HistoryStart(written), written, written, Range(HistoryStart(written), written), 0, false, false)
  }

  function Buffered(d: Delivery): int {
    |d.got| - d.taken
  }

  function Apply(d: Delivery, e: Event): Delivery {
    match e
    case Written =>
      if d.closed then d.(written := d.written + 1)
      else if Buffered(d) < BUFFER_SIZE then d.(written := d.written + 1, got := d.got + [d.written])
      else d.(written := d.written + 1, dropped := true)
    case Taken => if d.taken < |d.got| then d.(taken := d.taken + 1) else d
    case Closed => d.(closed := true)
  }

  function Exec(d: Delivery, events: seq<Event>): Delivery {
    if events == [] then d else Apply(Exec(d, events[..|events| - 1]), events[|events| - 1])
  }

  ghost predicate Increasing(s: seq<nat>) {
    forall i, j :: 0 <= i < j < |s| ==> s[i] < s[j]
  }

  /** In write order, without repetition, within the buffer, and starting with the replay. */
  ghost predicate InOrder(d: Delivery) {
    && d.base <= d.joined <= d.written && d.taken <= |d.got|
    && Buffered(d) <= BUFFER_SIZE
    && Increasing(d.got)
    && (forall i :: 0 <= i < |d.got| ==> d.got[i] < d.written)
    && Range(d.base, d.joined) <= d.got
  }

  /** Lines are missing exactly if a write found the buffer full. */
  ghost predicate Complete(d: Delivery) {
    if d.dropped then exists w :: d.joined <= w < d.written && w !in d.got
    else
      && d.base + |d.got| <= d.written && d.got == Range(d.base, d.base + |d.got|)
      && (!d.closed ==> d.base + |d.got| == d.written)
  }

  ghost predicate Inv(d: Delivery) {
    InOrder(d) && Complete(d)
  }

  lemma ApplyKeepsOrder(d: Delivery, e: Event)
    requires InOrder(d)
    ensures InOrder(Apply(d, e))
  {
  }

  lemma ApplyKeepsComplete(d: Delivery, e: Event)
    requires InOrder(d) && Complete(d)
    ensures Complete(Apply(d, e))
  {
    var d' := Apply(d, e);
    if d.dropped {
      var w :| d.joined <= w < d.written && w !in d.got;
      assert w !in d'.got;
    } else if d'.dropped {
      assert d.written !in d'.got;
    }
  }

  lemma ApplyKeepsInv(d: Delivery, e: Event)
    requires Inv(d)
    ensures Inv(Apply(d, e))
  {
    ApplyKeepsOrder(d, e);
    ApplyKeepsComplete(d, e);
  }

  lemma {:induction false} RunsKeepInv(written: nat, events: seq<Event>)
    ensures Inv(Exec(Joined(written), events))
  {
    if events != [] {
      RunsKeepInv(written, events[..|events| - 1]);
      ApplyKeepsInv(Exec(Joined(written), events[..|events| - 1]), events[|events| - 1]);
    }
  }

  lemma {:induction false} BaseIsFixed(written: nat, events: seq<Event>)
    ensures
      var d := Exec(Joined(written), events);
      d.base == HistoryStart(written) && d.joined == written
  {
    if events != [] {
      BaseIsFixed(written, events[..|events| - 1]);
    }
  }

  /**
   The handover from replay to live delivery, for every interleaving of writes, reads and
   the close: what the subscriber consumed and has buffered starts with the whole history
   at subscription, stays in write order without repetition, and has no gap unless a write
   found the buffer full. For an open subscriber it then reaches up to the last write, and
   conversely a write that found the buffer full is missing for good.
   */
  lemma HandoverHasNoGap(written: nat, events: seq<Event>)
    ensures
      var d := Exec(Joined(written), events);
      && HistoryStart(written) <= written
      && Range(HistoryStart(written), written) <= d.got
      && Increasing(d.got)
      && (!d.dropped ==> HistoryStart(written) + |d.got| <= d.written
                         && d.got == Range(HistoryStart(written), HistoryStart(written) + |d.got|))
      && (!d.closed ==> (!d.dropped <==> d.base <= d.written && d.got == Range(d.base, d.written)))
  {
    RunsKeepInv(written, events);
    BaseIsFixed(written, events);
    var d := Exec(Joined(written), events);
    if !d.closed && d.dropped {
      var w :| d.joined <= w < d.written && w !in d.got;
      assert Range(d.base, d.written)[w - d.base] == w;
    }
  }

  /** A new subscriber is replayed the last 5000 lines, or all if there are fewer. */
  lemma ReplayIsTheHistory(written: nat, w: nat)
    ensures w in Joined(written).got <==> written - 5000 <= w < written
  {
    var d := Joined(written);
    if written - 5000 <= w < written {
      assert d.got[w - HistoryStart(written)] == w;
    }
  }

  /** After every event so far the lines not yet read were no more than the buffer holds. */
  ghost predicate KeepsUp(written: nat, events: seq<Event>) {
    forall k :: 0 <= k <= |events| ==>
      var d := Exec(Joined(written), events[..k]);
      d.written - d.base - d.taken <= BUFFER_SIZE
  }

  /** A reader that is never more than a buffer behind the writer misses nothing. */
  lemma {:induction false} ReaderThatKeepsUpMissesNothing(written: nat, events: seq<Event>)
    requires KeepsUp(written, events)
    ensures
      var d := Exec(Joined(written), events);
      !d.dropped && (!d.closed ==> d.base <= d.written && d.got == Range(d.base, d.written))
  {
    RunsKeepInv(written, events);
    if events != [] {
      var front := events[..|events| - 1];
      assert forall k :: 0 <= k <= |front| ==> front[..k] == events[..k];
      ReaderThatKeepsUpMissesNothing(written, front);
      assert events[..|events|] == events;
    }
  }

  // ---- the objects ----

  /** The lines with these numbers. */
  ghost function Lines(all: seq<Line>, numbers: seq<nat>): seq<Line>
    requires forall i :: 0 <= i < |numbers| ==> numbers[i] < |all|
  {
    seq(|numbers|, i requires 0 <= i < |numbers| => all[numbers[i]])
  }

  /** The buffer holds exactly the delivered lines that have not been consumed. */
  ghost predicate Holds(view: Delivery, all: seq<Line>, buffer: seq<Line>) {
    Inv(view) && view.written == |all| && buffer == Lines(all, view.got[view.taken..])
  }

  lemma WriteHolds(view: Delivery, all: seq<Line>, buffer: seq<Line>, line: Line)
    requires Holds(view, all, buffer)
    ensures
      var buffer' := if !view.closed && |buffer| < BUFFER_SIZE then buffer + [line] else buffer;
      Holds(Apply(view, Written), all + [line], buffer')
  {
    ApplyKeepsInv(view, Written);
    var got := view.got[view.taken..];
    assert Lines(all + [line], got) == Lines(all, got);
    if !view.closed && |buffer| < BUFFER_SIZE {
      assert (view.got + [view.written])[view.taken..] == got + [view.written];
      assert Lines(all + [line], got + [view.written]) == Lines(all + [line], got) + [line];
    }
  }

  lemma TakeHolds(view: Delivery, all: seq<Line>, buffer: seq<Line>)
    requires Holds(view, all, buffer) && buffer != []
    ensures Holds(Apply(view, Taken), all, buffer[1..])
    ensures view.taken < |view.got| && view.got[view.taken] < |all| && buffer[0] == all[view.got[view.taken]]
  {
    ApplyKeepsInv(view, Taken);
    var got := view.got[view.taken..];
    assert got[1..] == view.got[view.taken + 1..];
    assert Lines(all, got)[1..] == Lines(all, got[1..]);
  }

  /** `buffer` stands for the buffered channel; `view` records what went through it. */
  class Subscriber {
    var buffer: seq<Line>
    var closed: bool
    ghost var view: Delivery

    ghost predicate Valid(all: seq<Line>)
      reads this
    {
      Holds(view, all, buffer) && closed == view.closed
    }

    constructor ()
      ensures buffer == [] && !closed
    {
      buffer, closed := [], false;
      view := Joined(0);
    }

    /** A send that gives up when the channel is closed or full. */
    method Publish(line: Line)
      modifies `buffer
      ensures buffer == if !closed && |old(buffer)| < BUFFER_SIZE then old(buffer) + [line] else old(buffer)
    {
      if closed {
        return;
      }
      if |buffer| < BUFFER_SIZE {
        buffer := buffer + [line];
      }
    }

    /** Closing keeps what is buffered; it may come twice. */
    method Close(ghost all: seq<Line>)
      requires Valid(all)
      modifies `closed, `view
      ensures Valid(all) && closed && view == Apply(old(view), Closed)
    {
      ApplyKeepsInv(view, Closed);
      if !closed {
        closed := true;
      }
      view := Apply(view, Closed);
    }

    /** The reader takes the next line. */
    method Receive(ghost all: seq<Line>) returns (line: Line)
      requires Valid(all) && buffer != []
      modifies `buffer, `view
      ensures Valid(all) && view == Apply(old(view), Taken)
      ensures
        var v := old(view);
        v.taken < |v.got| && v.got[v.taken] < |all| && line == all[v.got[v.taken]]
    {
      TakeHolds(view, all, buffer);
      line := buffer[0];
      buffer := buffer[1..];
      view := Apply(view, Taken);
    }
  }

  function LastLines(all: seq<Line>): seq<Line> {
    all[HistoryStart(|all|)..]
  }

  class Stream {
    var hist: seq<Line>
    var list: set<Subscriber>
    ghost var all: seq<Line> // every line ever written

    ghost predicate Valid()
      reads this, list
    {
      hist == LastLines(all) && forall s :: s in list ==> s.Valid(all)
    }

    constructor ()
      ensures Valid() && hist == [] && all == [] && list == {}
    {
      hist, list, all := [], {}, [];
    }

    /** Replays the whole history into the new subscriber, which never fills the buffer beyond its size. */
    method Subscribe() returns (sub: Subscriber)
      requires Valid()
      modifies this`list
      ensures Valid() && fresh(sub) && list == old(list) + {sub}
      ensures sub.buffer == hist && sub.view == Joined(|all|)
    {
      sub := new Subscriber();
      for i := 0 to |hist|
        invariant fresh(sub) && !sub.closed && sub.buffer == hist[..i]
        invariant unchanged(this) && Valid()
      {
        sub.Publish(hist[i]);
      }
      RunsKeepInv(|all|, []);
      sub.view := Joined(|all|);
      list := list + {sub};
    }

    /** Appends to the history, caps it, and sends the line to every open subscriber. */
    method Write(line: Line)
      requires Valid()
      modifies this`hist, this`all, list
      ensures Valid() && all == old(all) + [line]
      ensures hist == if |all| <= BUFFER_SIZE then all else all[|all| - BUFFER_SIZE..]
      ensures forall s :: s in list ==> s.view == Apply(old(s.view), Written)
    {
      hist := hist + [line];
      all := all + [line];
      var todo := list;
      while todo != {}
        invariant todo <= list && all == old(all) + [line] && hist == old(hist) + [line]
        invariant forall s :: s in todo ==> s.Valid(old(all)) && s.view == old(s.view)
        invariant forall s :: s in list - todo ==> s.Valid(all) && s.view == Apply(old(s.view), Written)
        decreases todo
      {
        var l :| l in todo;
        Deliver(l, line, old(all));
        todo := todo - {l};
      }
      var size := |hist|;
      if size >= BUFFER_SIZE {
        hist := hist[size - BUFFER_SIZE..];
      }
    }

    /** One round of the loop over the subscribers. */
    method Deliver(l: Subscriber, line: Line, ghost before: seq<Line>)
      requires l.Valid(before)
      modifies l
      ensures l.Valid(before + [line]) && l.view == Apply(old(l.view), Written)
    {
      WriteHolds(l.view, before, l.buffer, line);
      if !l.closed {
        l.Publish(line);
      }
      l.view := Apply(l.view, Written);
    }

    /**
     The context of a subscriber ends: it is closed, but stays in the list, and writing goes
     on past it.
     */
    method ContextDone(sub: Subscriber)
      requires Valid() && sub in list
      modifies sub
      ensures Valid() && sub.closed && sub.buffer == old(sub.buffer) && sub.view == Apply(old(sub.view), Closed)
    {
      sub.Close(all);
    }

    method CloseAll()
      requires Valid()
      modifies this`list, list
      ensures Valid() && list == {}
      ensures forall s :: s in old(list) ==>
        s.Valid(all) && s.closed && s.buffer == old(s.buffer) && s.view == Apply(old(s.view), Closed)
    {
      var todo := list;
      while todo != {}
        invariant todo <= list == old(list)
        invariant forall s :: s in todo ==> s.Valid(all) && s.view == old(s.view) && s.buffer == old(s.buffer)
        invariant forall s :: s in list - todo ==>
          s.Valid(all) && s.view == Apply(old(s.view), Closed) && s.buffer == old(s.buffer)
        decreases todo
      {
        var sub :| sub in todo;
        sub.Close(all);
        todo := todo - {sub};
      }
      list := {};
    }
  }
}
