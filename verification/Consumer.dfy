/**
 Consumers of one group of the in-memory broker. Every consumer has readers that move
 messages from the broker's queues into its own queue, workers that process what is in that
 queue, and for every message being processed a goroutine that requeues the message if the
 idle timer wins against the return of the handler. Whatever a consumer requeues stays in
 its own queue.

 Every channel operation, timer expiry and handler return is one step; a step that is not
 possible leaves the state as it is, and a run is any finite sequence of steps.
 */
module Consumer {

  const QUEUE_CAPACITY := 500

  /** A message the broker accepted for the group: the `number`-th of its stream. */
  datatype Delivery = Delivery(streamID: string, number: nat)

  /** A message on its way to a worker of `consumer`, for the `retries`-th retry. */
  datatype Token = Token(delivery: Delivery, retries: nat, consumer: nat)

  datatype Config = Config(maxRetries: nat, idleTimeout: nat)

  datatype Timer = Waiting | Fired | Cancelled

  datatype Return = NotYet | Succeeded | Failed

  /** One run of `processMessage` together with its retry goroutine. */
  datatype Run = Run(started: nat, returned: Return, timer: Timer)

  type Handlers = map<(nat, string), Config>

  /** The messages given to `processMessage` so far, and what became of each. */
  datatype Log = Log(begun: seq<Token>, runs: seq<Run>)

  /**
   `accepted` and `read` count the messages of every stream that the broker took in and
   handed out; `readers` says which consumer got a message. `sending` are the messages held
   by goroutines that are about to put them into their consumer's queue.
   */
  datatype State = State(
    now: nat, handlers: Handlers, stopped: set<nat>,
    accepted: map<string, nat>, read: map<string, nat>, readers: map<Delivery, nat>,
    sending: multiset<Token>, queues: map<nat, seq<Token>>, discarded: seq<Token>, log: Log)

  datatype Step =
    | Tick(elapsed: nat)
    | Accept(streamID: string)
    | Read(k: nat, streamID: string)
    | Push(t: Token)
    | Consume(k: nat)
    | HandlerReturns(i: nat, failed: bool)
    | Fire(i: nat)
    | Cancel(i: nat)
    | Stop(k: nat)

  function Init(handlers: Handlers): State {
    State(0, handlers, {}, map[], map[], map[], multiset{}, map[], [], Log([], []))
  }

  function CountOf(m: map<string, nat>, streamID: string): nat {
    if streamID in m then m[streamID] else 0
  }

  function QueueOf(queues: map<nat, seq<Token>>, k: nat): seq<Token> {
    if k in queues then queues[k] else []
  }

  function Key(t: Token): (nat, string) {
    (t.consumer, t.delivery.streamID)
  }

  function ApplyRead(s: State, k: nat, streamID: string): State {
    var n := CountOf(s.read, streamID);
    if (k, streamID) !in s.handlers || n >= CountOf(s.accepted, streamID) then s
    else
      s.(read := s.read[streamID := n + 1], readers := s.readers[Delivery(streamID, n) := k],
         sending := s.sending + multiset{Token(Delivery(streamID, n), 0, k)})
  }

  function ApplyPush(s: State, t: Token): State {
    var q := QueueOf(s.queues, t.consumer);
    if t !in s.sending || |q| >= QUEUE_CAPACITY then s
    else s.(sending := s.sending - multiset{t}, queues := s.queues[t.consumer := q + [t]])
  }

  function Begin(log: Log, t: Token, now: nat): Log {
    Log(log.begun + [t], log.runs + [Run(now, NotYet, Waiting)])
  }

  function ApplyConsume(s: State, k: nat): State {
    var q := QueueOf(s.queues, k);
    if q == [] then s
    else if Key(q[0]) !in s.handlers then s.(queues := s.queues[k := q[1..]], discarded := s.discarded + [q[0]])
    else s.(queues := s.queues[k := q[1..]], log := Begin(s.log, q[0], s.now))
  }

  predicate Running(log: Log, i: nat) {
    i < |log.begun| && i < |log.runs| && log.runs[i].timer == Waiting
  }

  function SetTimer(log: Log, i: nat, timer: Timer): Log
    requires Running(log, i)
  {
    log.(runs := log.runs[i := log.runs[i].(timer := timer)])
  }

  predicate TimerExpired(s: State, i: nat) {
    && Running(s.log, i) && Key(s.log.begun[i]) in s.handlers
    && s.now >= s.log.runs[i].started + s.handlers[Key(s.log.begun[i])].idleTimeout
  }

  /** The idle timer wins: `retryMessage` requeues the message unless its retries are used up. */
  function ApplyFire(s: State, i: nat): State {
    if !TimerExpired(s, i) then s
    else
      var t := s.log.begun[i];
      var s1 := s.(log := SetTimer(s.log, i, Fired));
      if t.retries >= s.handlers[Key(t)].maxRetries then s1
      else s1.(sending := s.sending + multiset{t.(retries := t.retries + 1)})
  }

  /** The context of a run is cancelled when its handler returns, with or without an error. */
  function Apply(s: State, step: Step): (s': State)
    ensures s'.handlers == s.handlers
  {
    match step
    case Tick(elapsed) => s.(now := s.now + elapsed)
    case Accept(streamID) => s.(accepted := s.accepted[streamID := CountOf(s.accepted, streamID) + 1])
    case Read(k, streamID) => ApplyRead(s, k, streamID)
    case Push(t) => ApplyPush(s, t)
    case Consume(k) => ApplyConsume(s, k)
    case HandlerReturns(i, failed) =>
      if i >= |s.log.runs| || s.log.runs[i].returned != NotYet then s
      else s.(log := s.log.(runs := s.log.runs[i := s.log.runs[i].(returned := if failed then Failed else Succeeded)]))
    case Fire(i) => ApplyFire(s, i)
    case Cancel(i) =>
      if Running(s.log, i) && (s.log.runs[i].returned != NotYet || s.log.begun[i].consumer in s.stopped)
      then s.(log := SetTimer(s.log, i, Cancelled)) else s
    case Stop(k) => s.(stopped := s.stopped + {k})
  }

  function Exec(s: State, steps: seq<Step>): State {
    if steps == [] then s else Apply(Exec(s, steps[..|steps| - 1]), steps[|steps| - 1])
  }

  // ---- where a message is ----

  /** Copies of the token on their way to a worker. */
  function Pending(sending: multiset<Token>, queues: map<nat, seq<Token>>, t: Token): nat {
    sending[t] + multiset(QueueOf(queues, t.consumer))[t]
  }

  /** How often the token was given to `processMessage`. */
  function Processed(log: Log, t: Token): nat {
    multiset(log.begun)[t]
  }

  /** The idle timer fired while the token was being processed. */
  ghost predicate TimedOut(log: Log, t: Token) {
    exists i: nat :: i < |log.begun| && i < |log.runs| && log.begun[i] == t && log.runs[i].timer == Fired
  }

  /**
   The token ought to exist: the consumer read the message from the broker, or the idle
   timer fired while the message was processed for the retry before and retries were left.
   */
  ghost predicate Due(handlers: Handlers, readers: map<Delivery, nat>, log: Log, t: Token) {
    if t.retries == 0 then t.delivery in readers && readers[t.delivery] == t.consumer
    else
      && Key(t) in handlers && t.retries <= handlers[Key(t)].maxRetries
      && TimedOut(log, t.(retries := t.retries - 1))
  }

  // ---- invariants ----

  /** Every token that is due is in exactly one place, and no other token exists. */
  ghost predicate AccountedFor(s: State, t: Token) {
    Pending(s.sending, s.queues, t) + Processed(s.log, t) == if Due(s.handlers, s.readers, s.log, t) then 1 else 0
  }

  ghost predicate Accounted(s: State) {
    forall t :: AccountedFor(s, t)
  }

  ghost predicate LogOk(log: Log) {
    |log.runs| == |log.begun| && forall i, j :: 0 <= i < j < |log.begun| ==> log.begun[i] != log.begun[j]
  }

  /** Only messages of registered streams are read, and none twice. */
  ghost predicate ReadsOk(handlers: Handlers, read: map<string, nat>, readers: map<Delivery, nat>) {
    forall d :: d in readers ==> d.number < CountOf(read, d.streamID) && (readers[d], d.streamID) in handlers
  }

  ghost predicate QueuesOk(queues: map<nat, seq<Token>>) {
    forall k, i :: k in queues && 0 <= i < |queues[k]| ==> queues[k][i].consumer == k
  }

  /** The chain of retries of a message stays with the consumer that read it. */
  ghost predicate Owned(handlers: Handlers, readers: map<Delivery, nat>, log: Log) {
    forall i :: 0 <= i < |log.begun| ==>
      && log.begun[i].delivery in readers && readers[log.begun[i].delivery] == log.begun[i].consumer
      && Key(log.begun[i]) in handlers && log.begun[i].retries <= handlers[Key(log.begun[i])].maxRetries
  }

  /** Idle timers do not fire early. */
  ghost predicate NotEarly(now: nat, handlers: Handlers, log: Log) {
    forall i :: 0 <= i < |log.begun| && i < |log.runs| && Key(log.begun[i]) in handlers && log.runs[i].timer == Fired
      ==> now >= log.runs[i].started + handlers[Key(log.begun[i])].idleTimeout
  }

  predicate Retry(log: Log, i: nat, j: nat) {
    && i < |log.begun| && i < |log.runs| && j < |log.begun| && j < |log.runs|
    && log.begun[j] == log.begun[i].(retries := log.begun[i].retries + 1)
  }

  /** A retry starts at least one idle timeout after the run before it started. */
  ghost predicate Spaced(handlers: Handlers, log: Log) {
    forall i: nat, j: nat :: Retry(log, i, j) && Key(log.begun[i]) in handlers ==>
      log.runs[j].started >= log.runs[i].started + handlers[Key(log.begun[i])].idleTimeout
  }

  ghost predicate Inv(s: State) {
    && s.discarded == [] && LogOk(s.log) && QueuesOk(s.queues) && ReadsOk(s.handlers, s.read, s.readers)
    && Owned(s.handlers, s.readers, s.log) && NotEarly(s.now, s.handlers, s.log) && Spaced(s.handlers, s.log)
    && Accounted(s)
  }

  lemma DueIsOwned(handlers: Handlers, read: map<string, nat>, readers: map<Delivery, nat>, log: Log, t: Token)
    requires ReadsOk(handlers, read, readers) && Owned(handlers, readers, log) && Due(handlers, readers, log, t)
    ensures t.delivery in readers && readers[t.delivery] == t.consumer
    ensures Key(t) in handlers && t.retries <= handlers[Key(t)].maxRetries
  {
  }

  lemma ReadAccounts(s: State, k: nat, streamID: string, t: Token)
    requires Inv(s)
    ensures AccountedFor(ApplyRead(s, k, streamID), t)
  {
    assert AccountedFor(s, t);
  }

  lemma ReadKeepsInv(s: State, k: nat, streamID: string)
    requires Inv(s)
    ensures Inv(ApplyRead(s, k, streamID))
  {
    forall t {
      ReadAccounts(s, k, streamID, t);
    }
  }

  lemma PushAccounts(s: State, t: Token, u: Token)
    requires AccountedFor(s, u)
    ensures AccountedFor(ApplyPush(s, t), u)
  {
  }

  lemma PushKeepsInv(s: State, t: Token)
    requires Inv(s)
    ensures Inv(ApplyPush(s, t))
  {
    forall u {
      PushAccounts(s, t, u);
    }
  }

  lemma BeginTimesNothingOut(log: Log, t: Token, now: nat, u: Token)
    requires |log.begun| == |log.runs|
    ensures TimedOut(Begin(log, t, now), u) <==> TimedOut(log, u)
  {
    var log' := Begin(log, t, now);
    if TimedOut(log, u) {
      var i: nat :| i < |log.begun| && i < |log.runs| && log.begun[i] == u && log.runs[i].timer == Fired;
      assert log'.begun[i] == u && log'.runs[i].timer == Fired;
    }
  }

  lemma BeginAccounts(s: State, k: nat, u: Token)
    requires Inv(s) && QueueOf(s.queues, k) != [] && Key(QueueOf(s.queues, k)[0]) in s.handlers
    ensures AccountedFor(ApplyConsume(s, k), u)
  {
    var q := QueueOf(s.queues, k);
    assert q == [q[0]] + q[1..];
    assert AccountedFor(s, u);
    BeginTimesNothingOut(s.log, q[0], s.now, if u.retries == 0 then u else u.(retries := u.retries - 1));
  }

  /** A token in a queue is due and was not processed before. */
  lemma HeadIsDue(s: State, k: nat)
    requires Inv(s) && QueueOf(s.queues, k) != []
    ensures
      var t := QueueOf(s.queues, k)[0];
      t.consumer == k && Due(s.handlers, s.readers, s.log, t) && t !in s.log.begun
  {
    var t := QueueOf(s.queues, k)[0];
    assert AccountedFor(s, t);
    assert t in multiset(QueueOf(s.queues, k));
    assert Processed(s.log, t) == 0;
  }

  /** A token that was not processed has no processed retry. */
  lemma NoRetryBefore(s: State, t: Token)
    requires Inv(s) && t !in s.log.begun
    ensures t.(retries := t.retries + 1) !in s.log.begun
  {
    assert AccountedFor(s, t.(retries := t.retries + 1));
    assert !TimedOut(s.log, t);
  }

  lemma BeginKeepsSpacing(s: State, t: Token)
    requires Inv(s) && Due(s.handlers, s.readers, s.log, t) && t !in s.log.begun
    ensures Spaced(s.handlers, Begin(s.log, t, s.now))
  {
    var log' := Begin(s.log, t, s.now);
    var n := |s.log.begun|;
    NoRetryBefore(s, t);
    forall i: nat, j: nat | Retry(log', i, j) && Key(log'.begun[i]) in s.handlers
      ensures log'.runs[j].started >= log'.runs[i].started + s.handlers[Key(log'.begun[i])].idleTimeout
    {
      if i < n && j < n {
        assert Retry(s.log, i, j);
      } else if i < n {
        var h: nat :| h < n && s.log.begun[h] == t.(retries := t.retries - 1) && s.log.runs[h].timer == Fired;
        assert h == i;
      }
    }
  }

  lemma ConsumeKeepsInv(s: State, k: nat)
    requires Inv(s)
    ensures Inv(ApplyConsume(s, k))
  {
    if QueueOf(s.queues, k) != [] {
      var t := QueueOf(s.queues, k)[0];
      HeadIsDue(s, k);
      DueIsOwned(s.handlers, s.read, s.readers, s.log, t);
      BeginKeepsSpacing(s, t);
      forall u {
        BeginAccounts(s, k, u);
      }
    }
  }

  lemma FireTimesOut(log: Log, i: nat, u: Token)
    requires LogOk(log) && Running(log, i)
    ensures TimedOut(SetTimer(log, i, Fired), u) <==> TimedOut(log, u) || u == log.begun[i]
    ensures !TimedOut(log, log.begun[i])
  {
    var log' := SetTimer(log, i, Fired);
    assert log'.begun[i] == log.begun[i] && log'.runs[i].timer == Fired;
    if TimedOut(log, u) {
      var j: nat :| j < |log.begun| && j < |log.runs| && log.begun[j] == u && log.runs[j].timer == Fired;
      assert log'.begun[j] == u && log'.runs[j].timer == Fired;
    }
  }

  /** A timer that fires makes the next retry due, if retries are left, and nothing else. */
  lemma FireMakesDue(handlers: Handlers, readers: map<Delivery, nat>, log: Log, i: nat, u: Token)
    requires LogOk(log) && Running(log, i) && Key(log.begun[i]) in handlers
    ensures
      var t := log.begun[i];
      var next := t.(retries := t.retries + 1);
      && !Due(handlers, readers, log, next)
      && (Due(handlers, readers, SetTimer(log, i, Fired), u) <==>
          Due(handlers, readers, log, u) || (u == next && t.retries < handlers[Key(t)].maxRetries))
  {
    FireTimesOut(log, i, log.begun[i]);
    if u.retries > 0 {
      FireTimesOut(log, i, u.(retries := u.retries - 1));
    }
  }

  lemma FireAccounts(s: State, i: nat, u: Token)
    requires LogOk(s.log) && TimerExpired(s, i) && AccountedFor(s, u)
    ensures AccountedFor(ApplyFire(s, i), u)
  {
    FireMakesDue(s.handlers, s.readers, s.log, i, u);
    assert Processed(ApplyFire(s, i).log, u) == Processed(s.log, u);
  }

  /** The same runs, started at the same times. */
  ghost predicate SameStarts(log: Log, log': Log) {
    log'.begun == log.begun && |log'.runs| == |log.runs|
    && forall i :: 0 <= i < |log.runs| ==> log'.runs[i].started == log.runs[i].started
  }

  lemma SameStartsKeepSpacing(handlers: Handlers, log: Log, log': Log)
    requires Spaced(handlers, log) && SameStarts(log, log')
    ensures Spaced(handlers, log')
  {
    assert forall i: nat, j: nat :: Retry(log', i, j) ==> Retry(log, i, j);
  }

  lemma FireKeepsInv(s: State, i: nat)
    requires Inv(s)
    ensures Inv(ApplyFire(s, i))
  {
    if TimerExpired(s, i) {
      SameStartsKeepSpacing(s.handlers, s.log, SetTimer(s.log, i, Fired));
      forall u {
        FireAccounts(s, i, u);
      }
    }
  }

  /** No message moves and no timer fires. */
  ghost predicate Quiet(s: State, s': State) {
    && s' == s.(now := s'.now, accepted := s'.accepted, stopped := s'.stopped, log := s'.log) && s'.now >= s.now
    && SameStarts(s.log, s'.log)
    && forall i :: 0 <= i < |s.log.runs| ==> (s'.log.runs[i].timer == Fired <==> s.log.runs[i].timer == Fired)
  }

  lemma SameTimeouts(log: Log, log': Log, u: Token)
    requires SameStarts(log, log')
    requires forall i :: 0 <= i < |log.runs| ==> (log'.runs[i].timer == Fired <==> log.runs[i].timer == Fired)
    ensures TimedOut(log', u) <==> TimedOut(log, u)
  {
  }

  lemma QuietStepsKeepInv(s: State, s': State)
    requires Inv(s) && Quiet(s, s')
    ensures Inv(s')
  {
    SameStartsKeepSpacing(s.handlers, s.log, s'.log);
    forall u
      ensures AccountedFor(s', u)
    {
      assert AccountedFor(s, u);
      SameTimeouts(s.log, s'.log, if u.retries == 0 then u else u.(retries := u.retries - 1));
    }
  }

  lemma OtherStepsAreQuiet(s: State, step: Step)
    requires LogOk(s.log) && !step.Read? && !step.Push? && !step.Consume? && !step.Fire?
    ensures Quiet(s, Apply(s, step))
  {
  }

  lemma ApplyKeepsInv(s: State, step: Step)
    requires Inv(s)
    ensures Inv(Apply(s, step))
  {
    match step
    case Read(k, streamID) => ReadKeepsInv(s, k, streamID);
    case Push(t) => PushKeepsInv(s, t);
    case Consume(k) => ConsumeKeepsInv(s, k);
    case Fire(i) => FireKeepsInv(s, i);
    case _ =>
      OtherStepsAreQuiet(s, step);
      QuietStepsKeepInv(s, Apply(s, step));
  }

  lemma {:induction false} HandlersStay(handlers: Handlers, steps: seq<Step>)
    ensures Exec(Init(handlers), steps).handlers == handlers
  {
    if steps != [] {
      HandlersStay(handlers, steps[..|steps| - 1]);
    }
  }

  lemma {:induction false} RunsKeepInv(handlers: Handlers, steps: seq<Step>)
    ensures Inv(Exec(Init(handlers), steps)) && Exec(Init(handlers), steps).handlers == handlers
  {
    HandlersStay(handlers, steps);
    if steps != [] {
      RunsKeepInv(handlers, steps[..|steps| - 1]);
      ApplyKeepsInv(Exec(Init(handlers), steps[..|steps| - 1]), steps[|steps| - 1]);
    }
  }

  // ---- what the broker hands out ----

  /** How many messages the run gave to the stream. */
  function AcceptedIn(steps: seq<Step>, streamID: string): nat {
    if steps == [] then 0
    else AcceptedIn(steps[..|steps| - 1], streamID) + if steps[|steps| - 1] == Accept(streamID) then 1 else 0
  }

  /** The messages of the stream are read in order, each by one consumer, and not before they were accepted. */
  ghost predicate ReadsInOrder(s: State, streamID: string) {
    && CountOf(s.read, streamID) <= CountOf(s.accepted, streamID)
    && forall n: nat :: Delivery(streamID, n) in s.readers <==> n < CountOf(s.read, streamID)
  }

  lemma PushReadsNothing(s: State, t: Token)
    ensures ApplyPush(s, t).read == s.read && ApplyPush(s, t).readers == s.readers
    ensures ApplyPush(s, t).accepted == s.accepted
  {
  }

  lemma ConsumeReadsNothing(s: State, k: nat)
    ensures ApplyConsume(s, k).read == s.read && ApplyConsume(s, k).readers == s.readers
    ensures ApplyConsume(s, k).accepted == s.accepted
  {
  }

  lemma FireReadsNothing(s: State, i: nat)
    ensures ApplyFire(s, i).read == s.read && ApplyFire(s, i).readers == s.readers
    ensures ApplyFire(s, i).accepted == s.accepted
  {
  }

  lemma OtherStepsReadNothing(s: State, step: Step)
    requires !step.Read?
    ensures Apply(s, step).read == s.read && Apply(s, step).readers == s.readers
  {
    match step
    case Push(t) => PushReadsNothing(s, t);
    case Consume(k) => ConsumeReadsNothing(s, k);
    case Fire(i) => FireReadsNothing(s, i);
    case Tick(elapsed) =>
    case Accept(streamID) =>
    case HandlerReturns(i, failed) =>
    case Cancel(i) =>
    case Stop(k) =>
    case Read(k, streamID) =>
  }

  lemma ReadReadsInOrder(s: State, k: nat, st: string, streamID: string)
    requires ReadsInOrder(s, streamID)
    ensures ReadsInOrder(ApplyRead(s, k, st), streamID)
  {
  }

  lemma StepReadsInOrder(s: State, step: Step, streamID: string)
    requires ReadsInOrder(s, streamID)
    ensures ReadsInOrder(Apply(s, step), streamID)
  {
    if step.Read? {
      ReadReadsInOrder(s, step.k, step.streamID, streamID);
    } else {
      OtherStepsReadNothing(s, step);
      AcceptsAreCounted(s, step, streamID);
    }
  }

  lemma AcceptsAreCounted(s: State, step: Step, streamID: string)
    ensures
      CountOf(Apply(s, step).accepted, streamID) ==
      CountOf(s.accepted, streamID) + if step == Accept(streamID) then 1 else 0
  {
    match step
    case Read(k, st) => assert ApplyRead(s, k, st).accepted == s.accepted;
    case Push(t) => PushReadsNothing(s, t);
    case Consume(k) => ConsumeReadsNothing(s, k);
    case Fire(i) => FireReadsNothing(s, i);
    case Tick(elapsed) =>
    case Accept(st) =>
    case HandlerReturns(i, failed) =>
    case Cancel(i) =>
    case Stop(k) =>
  }

  /** In every run exactly the accepted messages can be read: those that were are the first ones. */
  lemma {:induction false} MessagesAreReadInOrder(handlers: Handlers, steps: seq<Step>, streamID: string)
    ensures
      var s := Exec(Init(handlers), steps);
      CountOf(s.accepted, streamID) == AcceptedIn(steps, streamID) && ReadsInOrder(s, streamID)
  {
    if steps != [] {
      var n := |steps| - 1;
      MessagesAreReadInOrder(handlers, steps[..n], streamID);
      StepReadsInOrder(Exec(Init(handlers), steps[..n]), steps[n], streamID);
      AcceptsAreCounted(Exec(Init(handlers), steps[..n]), steps[n], streamID);
    }
  }

  /** A consumer that handles the stream can read the next message whenever one was accepted and not read. */
  lemma AcceptedMessageCanBeRead(s: State, k: nat, streamID: string)
    requires (k, streamID) in s.handlers && CountOf(s.read, streamID) < CountOf(s.accepted, streamID)
    ensures
      var s' := Apply(s, Read(k, streamID));
      var d := Delivery(streamID, CountOf(s.read, streamID));
      && CountOf(s'.read, streamID) == CountOf(s.read, streamID) + 1
      && d in s'.readers && s'.readers[d] == k && Token(d, 0, k) in s'.sending
  {
  }

  // ---- what every run guarantees ----

  /**
   Nothing is lost, duplicated or discarded: every message read from the broker, and every
   retry that a fired timer asked for, is either on its way to a worker or was processed,
   once and by the consumer it belongs to.
   */
  lemma EveryTokenIsInOnePlace(handlers: Handlers, steps: seq<Step>, t: Token)
    ensures
      var s := Exec(Init(handlers), steps);
      && s.discarded == []
      && Pending(s.sending, s.queues, t) + Processed(s.log, t)
         == if Due(handlers, s.readers, s.log, t) then 1 else 0
  {
    RunsKeepInv(handlers, steps);
    assert AccountedFor(Exec(Init(handlers), steps), t);
  }

  /** `processMessage` runs at most once for every message and retry number, in the whole group. */
  lemma ProcessedAtMostOnce(handlers: Handlers, steps: seq<Step>, i: nat, j: nat)
    ensures
      var log := Exec(Init(handlers), steps).log;
      (&& i < |log.begun| && j < |log.begun|
       && log.begun[i].delivery == log.begun[j].delivery && log.begun[i].retries == log.begun[j].retries) ==>
        i == j
  {
    RunsKeepInv(handlers, steps);
  }

  /** The runs of one message. */
  ghost function RunsOf(log: Log, d: Delivery): set<nat> {
    set i: nat | i < |log.begun| && log.begun[i].delivery == d
  }

  lemma {:induction false} InjectionBounds(indices: set<nat>, begun: seq<Token>, bound: nat)
    requires forall i :: i in indices ==> i < |begun| && begun[i].retries < bound
    requires forall i, j :: i in indices && j in indices && begun[i].retries == begun[j].retries ==> i == j
    ensures |indices| <= bound
  {
    if bound > 0 {
      if i :| i in indices && begun[i].retries == bound - 1 {
        InjectionBounds(indices - {i}, begun, bound - 1);
      } else {
        InjectionBounds(indices, begun, bound - 1);
      }
    } else {
      assert indices == {};
    }
  }

  /**
   A group handles a message at most `maxRetries + 1` times, all of them by the consumer that
   read it, under every interleaving of timeouts, slow handlers and consumers.
   */
  lemma HandledAtMostMaxRetriesPlusOne(handlers: Handlers, steps: seq<Step>, d: Delivery)
    ensures
      var s := Exec(Init(handlers), steps);
      if d !in s.readers then RunsOf(s.log, d) == {}
      else
        && (s.readers[d], d.streamID) in handlers
        && |RunsOf(s.log, d)| <= handlers[(s.readers[d], d.streamID)].maxRetries + 1
        && forall i :: i in RunsOf(s.log, d) ==> s.log.begun[i].consumer == s.readers[d]
  {
    RunsKeepInv(handlers, steps);
    var s := Exec(Init(handlers), steps);
    if d in s.readers {
      InjectionBounds(RunsOf(s.log, d), s.log.begun, handlers[(s.readers[d], d.streamID)].maxRetries + 1);
    }
  }

  /**
   A message is processed for a further retry only if the idle timer fired for the retry
   before, and not sooner than one idle timeout after that one was started.
   */
  lemma RetriesFollowTimeouts(handlers: Handlers, steps: seq<Step>, j: nat) returns (i: nat)
    requires var log := Exec(Init(handlers), steps).log; j < |log.begun| && log.begun[j].retries > 0
    ensures
      var log := Exec(Init(handlers), steps).log;
      && |log.runs| == |log.begun| && Retry(log, i, j) && log.runs[i].timer == Fired
      && Key(log.begun[i]) in handlers
      && log.runs[j].started >= log.runs[i].started + handlers[Key(log.begun[i])].idleTimeout
  {
    RunsKeepInv(handlers, steps);
    var s := Exec(Init(handlers), steps);
    var t := s.log.begun[j];
    assert AccountedFor(s, t);
    assert TimedOut(s.log, t.(retries := t.retries - 1));
    i :| i < |s.log.begun| && i < |s.log.runs| && s.log.begun[i] == t.(retries := t.retries - 1)
      && s.log.runs[i].timer == Fired;
    assert Retry(s.log, i, j);
  }

  /** The next retry exists, once, if the idle timer of this run fired and retries were left, and else not. */
  ghost predicate RetriedIffFired(s: State, i: nat) {
    && i < |s.log.begun| == |s.log.runs| && Key(s.log.begun[i]) in s.handlers
    && var t := s.log.begun[i];
       var next := t.(retries := t.retries + 1);
       Pending(s.sending, s.queues, next) + Processed(s.log, next)
         == if s.log.runs[i].timer == Fired && t.retries < s.handlers[Key(t)].maxRetries then 1 else 0
  }

  lemma NextIsAccountedFor(s: State, i: nat)
    requires Inv(s) && i < |s.log.begun|
    ensures RetriedIffFired(s, i)
  {
    var t := s.log.begun[i];
    assert AccountedFor(s, t.(retries := t.retries + 1));
    assert TimedOut(s.log, t) <==> s.log.runs[i].timer == Fired;
  }

  /** So it is for every run in every reachable state, whatever its handler did. */
  lemma RetryExistsIff(handlers: Handlers, steps: seq<Step>, i: nat)
    requires i < |Exec(Init(handlers), steps).log.begun|
    ensures RetriedIffFired(Exec(Init(handlers), steps), i)
  {
    RunsKeepInv(handlers, steps);
    NextIsAccountedFor(Exec(Init(handlers), steps), i);
  }

  // ---- the return of the handler ----

  /** What has begun stays, and a timer that has fired or was cancelled stays so. */
  ghost predicate Continues(log: Log, log': Log) {
    && |log.begun| <= |log'.begun| && |log.runs| <= |log'.runs|
    && (forall i :: 0 <= i < |log.begun| ==> log'.begun[i] == log.begun[i])
    && forall i :: 0 <= i < |log.runs| && log.runs[i].timer != Waiting ==> log'.runs[i].timer == log.runs[i].timer
  }

  lemma ConsumeContinues(s: State, k: nat)
    ensures Continues(s.log, ApplyConsume(s, k).log)
  {
  }

  lemma FireContinues(s: State, i: nat)
    ensures Continues(s.log, ApplyFire(s, i).log)
  {
  }

  lemma StepsContinue(s: State, step: Step)
    ensures Continues(s.log, Apply(s, step).log)
  {
    match step
    case Consume(k) => ConsumeContinues(s, k);
    case Fire(i) => FireContinues(s, i);
    case HandlerReturns(i, failed) =>
    case Cancel(i) =>
    case _ => assert Apply(s, step).log == s.log;
  }

  lemma {:induction false} RunsContinue(s: State, steps: seq<Step>)
    ensures Continues(s.log, Exec(s, steps).log)
  {
    if steps != [] {
      RunsContinue(s, steps[..|steps| - 1]);
      StepsContinue(Exec(s, steps[..|steps| - 1]), steps[|steps| - 1]);
    }
  }

  lemma {:induction false} ExecAppend(s: State, a: seq<Step>, b: seq<Step>)
    ensures Exec(s, a + b) == Exec(Exec(s, a), b)
  {
    if b == [] {
      assert a + b == a;
    } else {
      ExecAppend(s, a, b[..|b| - 1]);
      assert (a + b)[..|a + b| - 1] == a + b[..|b| - 1];
    }
  }

  /**
   In every reachable state, the retry goroutine of a run whose timer still waits can be
   cancelled exactly if the handler of the run has returned, with or without an error, or its
   consumer was stopped; and that changes nothing but the timer.
   */
  lemma CancelledIffReturnedOrStopped(handlers: Handlers, steps: seq<Step>, i: nat)
    requires Running(Exec(Init(handlers), steps).log, i)
    ensures
      var s := Exec(Init(handlers), steps);
      var s' := Apply(s, Cancel(i));
      if HasReturned(s.log, i) || s.log.begun[i].consumer in s.stopped then
        s' == s.(log := SetTimer(s.log, i, Cancelled))
      else s' == s
  {
  }

  predicate HasReturned(log: Log, i: nat) {
    i < |log.runs| && (log.runs[i].returned == Succeeded || log.runs[i].returned == Failed)
  }

  /** A step that is not a return of the handler leaves the outcomes as they are. */
  lemma OnlyReturnsReturn(s: State, step: Step, i: nat)
    requires !step.HandlerReturns?
    ensures HasReturned(Apply(s, step).log, i) <==> HasReturned(s.log, i)
  {
    match step
    case Consume(k) =>
    case Fire(j) =>
    case Cancel(j) =>
    case HandlerReturns(j, failed) =>
    case _ => assert Apply(s, step).log == s.log;
  }

  /** The step is a return of the handler of a run that has begun before. */
  ghost predicate ReturnOf(handlers: Handlers, steps: seq<Step>, k: nat, i: nat) {
    k < |steps| && steps[k].HandlerReturns? && steps[k].i == i && i < |Exec(Init(handlers), steps[..k]).log.runs|
  }

  /** A run counts as returned only if its handler has returned, */
  lemma {:induction false} ReturnedMeansHandlerDid(handlers: Handlers, steps: seq<Step>, i: nat) returns (k: nat)
    requires HasReturned(Exec(Init(handlers), steps).log, i)
    ensures ReturnOf(handlers, steps, k, i)
  {
    var n := |steps| - 1;
    var s := Exec(Init(handlers), steps[..n]);
    if HasReturned(s.log, i) {
      k := ReturnedMeansHandlerDid(handlers, steps[..n], i);
      assert steps[..n][..k] == steps[..k];
    } else {
      k := n;
      if !steps[n].HandlerReturns? {
        OnlyReturnsReturn(s, steps[n], i);
      }
    }
  }

  lemma {:induction false} RunsKeepReturned(s: State, steps: seq<Step>, i: nat)
    requires HasReturned(s.log, i)
    ensures HasReturned(Exec(s, steps).log, i)
  {
    if steps != [] {
      var n := |steps| - 1;
      RunsKeepReturned(s, steps[..n], i);
      if !steps[n].HandlerReturns? {
        OnlyReturnsReturn(Exec(s, steps[..n]), steps[n], i);
      }
    }
  }

  /** and then it does for good, whatever the handler returned. */
  lemma HandlerReturnIsRecorded(s: State, i: nat, failed: bool, after: seq<Step>)
    requires i < |s.log.runs|
    ensures HasReturned(Exec(Apply(s, HandlerReturns(i, failed)), after).log, i)
  {
    RunsKeepReturned(Apply(s, HandlerReturns(i, failed)), after, i);
  }

  /** A consumer counts as stopped from the step that stops it on. */
  lemma StopsFollowSteps(s: State, step: Step, k: nat)
    ensures k in Apply(s, step).stopped <==> k in s.stopped || step == Stop(k)
  {
  }

  // ---- order within a consumer ----

  /** What a step puts into the queue of consumer `k`. */
  function Arrival(s: State, step: Step, k: nat): seq<Token> {
    if && step.Push? && step.t.consumer == k && step.t in s.sending
       && |QueueOf(s.queues, k)| < 500 then [step.t] else []
  }

  /** The tokens that were put into the queue of consumer `k`, in order. */
  function Arrivals(handlers: Handlers, steps: seq<Step>, k: nat): seq<Token> {
    if steps == [] then []
    else
      var n := |steps| - 1;
      Arrivals(handlers, steps[..n], k) + Arrival(Exec(Init(handlers), steps[..n]), steps[n], k)
  }

  /** The tokens of consumer `k` that were given to `processMessage`, in order. */
  function ProcessedBy(begun: seq<Token>, k: nat): seq<Token> {
    if begun == [] then []
    else
      var n := |begun| - 1;
      ProcessedBy(begun[..n], k) + if begun[n].consumer == k then [begun[n]] else []
  }

  lemma OneMoreProcessed(begun: seq<Token>, t: Token, k: nat)
    ensures ProcessedBy(begun + [t], k) == ProcessedBy(begun, k) + if t.consumer == k then [t] else []
  {
    assert (begun + [t])[..|begun|] == begun;
  }

  /** What consumer `k` has processed, followed by what waits in its queue. */
  function Passed(s: State, k: nat): seq<Token> {
    ProcessedBy(s.log.begun, k) + QueueOf(s.queues, k)
  }

  lemma ConsumeKeepsOrder(s: State, c: nat, k: nat)
    requires Inv(s)
    ensures Passed(ApplyConsume(s, c), k) == Passed(s, k)
  {
    var q := QueueOf(s.queues, c);
    if q != [] {
      HeadIsDue(s, c);
      DueIsOwned(s.handlers, s.read, s.readers, s.log, q[0]);
      OneMoreProcessed(s.log.begun, q[0], k);
      assert q == [q[0]] + q[1..];
    }
  }

  lemma PushAddsAtTheEnd(s: State, t: Token, k: nat)
    ensures Passed(ApplyPush(s, t), k) == Passed(s, k) + Arrival(s, Push(t), k)
  {
  }

  lemma OtherStepsMoveNothing(s: State, step: Step)
    requires !step.Consume? && !step.Push?
    ensures Apply(s, step).log.begun == s.log.begun && Apply(s, step).queues == s.queues
  {
    match step
    case Fire(i) =>
    case HandlerReturns(i, failed) =>
    case Cancel(i) =>
    case _ =>
  }

  lemma StepsKeepOrder(s: State, step: Step, k: nat)
    requires Inv(s)
    ensures Passed(Apply(s, step), k) == Passed(s, k) + Arrival(s, step, k)
  {
    match step
    case Consume(c) => ConsumeKeepsOrder(s, c, k);
    case Push(t) => PushAddsAtTheEnd(s, t, k);
    case _ => OtherStepsMoveNothing(s, step);
  }

  /**
   First in, first out: in every run a consumer processes its messages in the order in which
   they came into its queue, and those that wait are the last ones that came.
   */
  lemma {:induction false} FirstInFirstOut(handlers: Handlers, steps: seq<Step>, k: nat)
    ensures
      var s := Exec(Init(handlers), steps);
      ProcessedBy(s.log.begun, k) + QueueOf(s.queues, k) == Arrivals(handlers, steps, k)
  {
    if steps != [] {
      var n := |steps| - 1;
      FirstInFirstOut(handlers, steps[..n], k);
      RunsKeepInv(handlers, steps[..n]);
      StepsKeepOrder(Exec(Init(handlers), steps[..n]), steps[n], k);
    }
  }

  /** There is no further retry of this run, neither on its way nor processed. */
  ghost predicate NoRetry(s: State, t: Token) {
    var next := t.(retries := t.retries + 1);
    Pending(s.sending, s.queues, next) == Processed(s.log, next) == 0
  }

  lemma UnfiredHasNoRetry(s: State, i: nat, t: Token)
    requires Inv(s) && i < |s.log.begun| && s.log.begun[i] == t && s.log.runs[i].timer != Fired
    ensures NoRetry(s, t)
  {
    NextIsAccountedFor(s, i);
  }

  /** A run whose retry was cancelled is the last one of its message, whatever happens afterwards. */
  lemma CancelledRunIsTheLast(handlers: Handlers, before: seq<Step>, after: seq<Step>, i: nat)
    requires
      var log := Exec(Init(handlers), before).log;
      i < |log.begun| && i < |log.runs| && log.runs[i].timer == Cancelled
    ensures NoRetry(Exec(Init(handlers), before + after), Exec(Init(handlers), before).log.begun[i])
  {
    var s := Exec(Init(handlers), before);
    ExecAppend(Init(handlers), before, after);
    RunsContinue(s, after);
    RunsKeepInv(handlers, before + after);
    UnfiredHasNoRetry(Exec(Init(handlers), before + after), i, s.log.begun[i]);
  }

  lemma ExecThree(s: State, a: Step, b: Step, c: Step)
    ensures Exec(s, [a, b, c]) == Apply(Apply(Apply(s, a), b), c)
  {
    assert [a, b, c][..2] == [a, b] && [a, b][..1] == [a] && [a][..0] == [];
    assert Exec(s, [a]) == Apply(s, a);
    assert Exec(s, [a, b]) == Apply(Exec(s, [a]), b);
  }

  /** The first message of the stream, on its way through consumer `k`. */
  function First(k: nat, streamID: string): Token {
    Token(Delivery(streamID, 0), 0, k)
  }

  /** A message is accepted, read and put into the queue of the consumer. */
  lemma Arrives(handlers: Handlers, k: nat, streamID: string) returns (steps: seq<Step>)
    requires (k, streamID) in handlers
    ensures
      var s := Exec(Init(handlers), steps);
      && s.log == Log([], []) && s.now == 0 && s.handlers == handlers
      && QueueOf(s.queues, k) == [First(k, streamID)]
  {
    var a, b, c := Accept(streamID), Read(k, streamID), Push(First(k, streamID));
    steps := [a, b, c];
    ExecThree(Init(handlers), a, b, c);
  }

  /** The message is in the consumer's queue and nothing has been processed yet. */
  ghost predicate Queued(s: State, k: nat, streamID: string) {
    s.log == Log([], []) && QueueOf(s.queues, k) == [First(k, streamID)] && (k, streamID) in s.handlers
  }

  function Outcome(failed: bool): Return {
    if failed then Failed else Succeeded
  }

  /** Its handler returns, and the retry goroutine notices the return. */
  lemma ReturnsInTime(s: State, k: nat, streamID: string, failed: bool) returns (steps: seq<Step>)
    requires Queued(s, k, streamID)
    ensures Exec(s, steps).log == Log([First(k, streamID)], [Run(s.now, Outcome(failed), Cancelled)])
  {
    steps := [Consume(k), HandlerReturns(0, failed), Cancel(0)];
    ExecThree(s, Consume(k), HandlerReturns(0, failed), Cancel(0));
  }

  /**
   A message whose timer is cancelled by the return of its handler is never retried, whatever
   happens afterwards: after a success, but also after an error with retries left.
   */
  lemma NoticedReturnIsNotRetried(handlers: Handlers, k: nat, streamID: string, failed: bool)
    returns (steps: seq<Step>)
    requires (k, streamID) in handlers
    ensures
      var log := Exec(Init(handlers), steps).log;
      log.begun == [First(k, streamID)] && |log.runs| == 1 && log.runs[0].returned == Outcome(failed)
    ensures forall after: seq<Step> :: NoRetry(Exec(Init(handlers), steps + after), First(k, streamID))
  {
    var a := Arrives(handlers, k, streamID);
    var b := ReturnsInTime(Exec(Init(handlers), a), k, streamID, failed);
    ExecAppend(Init(handlers), a, b);
    steps := a + b;
    forall after: seq<Step>
      ensures NoRetry(Exec(Init(handlers), steps + after), First(k, streamID))
    {
      CancelledRunIsTheLast(handlers, steps, after, 0);
    }
  }

  /** Its handler returns, and the retry goroutine has not noticed before the idle timer expires. */
  lemma ReturnsUnnoticed(s: State, k: nat, streamID: string, failed: bool) returns (steps: seq<Step>)
    requires Queued(s, k, streamID)
    ensures
      var s' := Exec(s, steps);
      && s'.log == Log([First(k, streamID)], [Run(s.now, Outcome(failed), Waiting)])
      && s'.handlers == s.handlers && s'.now == s.now + s.handlers[(k, streamID)].idleTimeout
      && QueueOf(s'.queues, k) == []
  {
    var idle := s.handlers[(k, streamID)].idleTimeout;
    steps := [Consume(k), HandlerReturns(0, failed), Tick(idle)];
    ExecThree(s, Consume(k), HandlerReturns(0, failed), Tick(idle));
  }

  lemma Requeues(s: State, k: nat, streamID: string)
    requires (k, streamID) in s.handlers && s.handlers[(k, streamID)].maxRetries > 0 && QueueOf(s.queues, k) == []
    requires s.log.begun == [First(k, streamID)] && TimerExpired(s, 0)
    ensures
      var next := First(k, streamID).(retries := 1);
      var pushed := Apply(Apply(s, Fire(0)), Push(next));
      QueueOf(pushed.queues, k) == [next] && pushed.log.begun == s.log.begun
  {
  }

  /** The timer wins, and the message is processed once more. */
  lemma TimerWins(s: State, k: nat, streamID: string) returns (steps: seq<Step>)
    requires (k, streamID) in s.handlers && s.handlers[(k, streamID)].maxRetries > 0 && QueueOf(s.queues, k) == []
    requires s.log.begun == [First(k, streamID)] && |s.log.runs| == 1 && TimerExpired(s, 0)
    ensures Exec(s, steps).log.begun == [First(k, streamID), First(k, streamID).(retries := 1)]
  {
    var next := First(k, streamID).(retries := 1);
    steps := [Fire(0), Push(next), Consume(k)];
    ExecThree(s, Fire(0), Push(next), Consume(k));
    Requeues(s, k, streamID);
  }

  /**
   When the timer expires before the retry goroutine has noticed the return of the handler,
   the timer may win: the message is processed again after its handler returned, and even if
   that succeeded.
   */
  lemma HandledMessageMayBeRetried(handlers: Handlers, k: nat, streamID: string, failed: bool)
    returns (before: seq<Step>, after: seq<Step>)
    requires (k, streamID) in handlers && handlers[(k, streamID)].maxRetries > 0
    ensures
      var log := Exec(Init(handlers), before).log;
      && log.begun == [First(k, streamID)] && |log.runs| == 1
      && log.runs[0].returned == Outcome(failed)
    ensures Exec(Init(handlers), before + after).log.begun == [First(k, streamID), First(k, streamID).(retries := 1)]
  {
    var a := Arrives(handlers, k, streamID);
    var b := ReturnsUnnoticed(Exec(Init(handlers), a), k, streamID, failed);
    ExecAppend(Init(handlers), a, b);
    before := a + b;
    after := TimerWins(Exec(Init(handlers), before), k, streamID);
    ExecAppend(Init(handlers), before, after);
  }
}
