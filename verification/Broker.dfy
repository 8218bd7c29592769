/**
 The in-memory broker: one bounded queue for every stream and consumer group. A message is
 offered to all groups that exist when the call holds the read lock; creating a group
 needs the write lock. Calls to `enqueue` and the receivers interleave freely.
 */
module Broker {

  const UINT64 := 0x1_0000_0000_0000_0000

  datatype Message = Message(streamID: string, id: string, values: map<string, string>)

  // ---- generated identifiers ----

  function Digit(d: nat): char
    requires d < 10
  {
    '0' + d as char
  }

  function Decimal(n: nat): string {
    if n < 10 then [Digit(n)] else Decimal(n / 10) + [Digit(n % 10)]
  }

  function Parse(s: string): int {
    if s == [] then 0 else 10 * Parse(s[..|s| - 1]) + (s[|s| - 1] as int - '0' as int)
  }

  lemma {:induction false} ParseUndoesDecimal(n: nat)
    ensures Parse(Decimal(n)) == n
  {
    if n >= 10 {
      ParseUndoesDecimal(n / 10);
      assert Decimal(n)[..|Decimal(n)| - 1] == Decimal(n / 10);
    }
  }

  function GeneratedID(prefix: string, n: nat): string {
    prefix + "-" + Decimal(n)
  }

  lemma GeneratedIDIsInjective(prefix: string, m: nat, n: nat)
    requires GeneratedID(prefix, m) == GeneratedID(prefix, n)
    ensures m == n
  {
    var k := |prefix + "-"|;
    assert GeneratedID(prefix, m)[k..] == Decimal(m) && GeneratedID(prefix, n)[k..] == Decimal(n);
    ParseUndoesDecimal(m);
    ParseUndoesDecimal(n);
  }

  // ---- the machine ----

  datatype Address = Address(streamID: string, group: string)

  /** A message in a queue, with the call that put it there. */
  datatype Entry = Entry(call: nat, message: Message)

  /** `accepted` is everything the queue took in, `taken` what its receivers got, since the group was created. */
  datatype Queue = Queue(accepted: seq<Entry>, taken: seq<Entry>, waiting: seq<Entry>)

  datatype Phase = Numbered | Sending | Done

  /** `ordinal` is n for the n-th generated identifier and 0 for a message that brought its own. */
  datatype Call = Call(
    streamID: string, message: Message, ordinal: nat,
    phase: Phase, groups: set<string>, todo: set<string>, full: set<string>)

  datatype State = State(
    prefix: string, queueSize: nat, generated: nat, latestID: nat,
    queues: map<Address, Queue>, calls: map<nat, Call>)

  datatype Step =
    | Start(c: nat, streamID: string, message: Message)
    | Enter(c: nat)
    | Send(c: nat, group: string)
    | Return(c: nat)
    | Create(address: Address)
    | Take(address: Address)

  function Init(prefix: string, queueSize: nat): State {
    State(prefix, queueSize, 0, 0, map[], map[])
  }

  predicate WantsID(m: Message) {
    m.id == "" || m.id == "*"
  }

  function GroupsOf(queues: map<Address, Queue>, streamID: string): set<string> {
    set a | a in queues && a.streamID == streamID :: a.group
  }

  /** What one non-blocking send leaves in a queue. */
  function Offer<T>(waiting: seq<T>, m: T, size: nat): seq<T> {
    if |waiting| < size then waiting + [m] else waiting
  }

  predicate At(s: State, c: nat, phase: Phase) {
    c in s.calls && s.calls[c].phase == phase
  }

  function ApplyStart(s: State, c: nat, streamID: string, m: Message): State {
    if c in s.calls then s
    else if WantsID(m) then
      var n := (s.latestID + 1) % UINT64;
      s.(latestID := n, generated := s.generated + 1,
         calls :=
           s.calls[c := Call(streamID, m.(id := GeneratedID(s.prefix, n)), s.generated + 1, Numbered, {}, {}, {})])
    else s.(calls := s.calls[c := Call(streamID, m, 0, Numbered, {}, {}, {})])
  }

  function ApplyEnter(s: State, c: nat): State {
    if !At(s, c, Numbered) then s
    else
      var groups := GroupsOf(s.queues, s.calls[c].streamID);
      s.(calls := s.calls[c := s.calls[c].(phase := Sending, groups := groups, todo := groups)])
  }

  function ApplySend(s: State, c: nat, group: string): State {
    if !At(s, c, Sending) || group !in s.calls[c].todo || Address(s.calls[c].streamID, group) !in s.queues then s
    else
      var call := s.calls[c];
      var a := Address(call.streamID, group);
      var q := s.queues[a];
      var e := Entry(c, call.message);
      if |q.waiting| < s.queueSize then
        s.(queues := s.queues[a := Queue(q.accepted + [e], q.taken, Offer(q.waiting, e, s.queueSize))],
           calls := s.calls[c := call.(todo := call.todo - {group})])
      else
        s.(calls := s.calls[c := call.(todo := call.todo - {group}, full := call.full + {group})])
  }

  function Apply(s: State, step: Step): State {
    match step
    case Start(c, streamID, m) => ApplyStart(s, c, streamID, m)
    case Enter(c) => ApplyEnter(s, c)
    case Send(c, group) => ApplySend(s, c, group)
    case Return(c) =>
      if At(s, c, Sending) && s.calls[c].todo == {} then s.(calls := s.calls[c := s.calls[c].(phase := Done)]) else s
    case Create(a) =>
      if a in s.queues || exists c :: c in s.calls && s.calls[c].phase == Sending then s
      else s.(queues := s.queues[a := Queue([], [], [])])
    case Take(a) =>
      if a !in s.queues || s.queues[a].waiting == [] then s
      else
        var q := s.queues[a];
        s.(queues := s.queues[a := Queue(q.accepted, q.taken + [q.waiting[0]], q.waiting[1..])])
  }

  function Exec(s: State, steps: seq<Step>): State {
    if steps == [] then s else Apply(Exec(s, steps[..|steps| - 1]), steps[|steps| - 1])
  }

  // ---- conservation ----

  /** First in, first out, nothing lost or invented, and bounded. */
  ghost predicate Conserved(q: Queue, size: nat) {
    q.taken + q.waiting == q.accepted && |q.waiting| <= size
  }

  lemma {:induction false} QueuesConserve(prefix: string, size: nat, steps: seq<Step>)
    ensures
      var s := Exec(Init(prefix, size), steps);
      s.queueSize == size && forall a :: a in s.queues ==> Conserved(s.queues[a], size)
  {
    if steps != [] {
      QueuesConserve(prefix, size, steps[..|steps| - 1]);
    }
  }

  /** A group can be created exactly while no call is sending, and is empty then; an existing one stays as it is. */
  lemma CreateWaitsForSenders(s: State, a: Address)
    ensures
      var s' := Apply(s, Create(a));
      && (a in s'.queues <==> a in s.queues || forall c :: c in s.calls ==> s.calls[c].phase != Sending)
      && (a in s'.queues && a !in s.queues ==> s'.queues[a] == Queue([], [], []))
      && (forall b :: b in s.queues ==> b in s'.queues && s'.queues[b] == s.queues[b]) && s'.calls == s.calls
  {
  }

  /** A receiver gets the oldest message that was accepted and not yet taken. */
  lemma ReceiverGetsTheOldest(prefix: string, size: nat, steps: seq<Step>, a: Address)
    ensures
      var s := Exec(Init(prefix, size), steps);
      a in s.queues && |s.queues[a].taken| < |s.queues[a].accepted| ==>
        var q := Apply(s, Take(a)).queues[a];
        q.accepted == s.queues[a].accepted && q.taken == q.accepted[..|s.queues[a].taken| + 1]
  {
    QueuesConserve(prefix, size, steps);
  }

  /** How often a call put its message into a queue. */
  function Times(log: seq<Entry>, c: nat): nat {
    if log == [] then 0
    else Times(log[..|log| - 1], c) + if log[|log| - 1].call == c then 1 else 0
  }

  lemma TimesGrows(log: seq<Entry>, e: Entry, c: nat)
    ensures Times(log + [e], c) == Times(log, c) + if e.call == c then 1 else 0
  {
    assert (log + [e])[..|log|] == log;
  }

  /** The call has offered its message to this queue, and the queue had room. */
  predicate Reached(s: State, c: nat, a: Address) {
    && c in s.calls && a.streamID == s.calls[c].streamID
    && a.group in s.calls[c].groups - s.calls[c].todo - s.calls[c].full
  }

  ghost predicate CallOk(s: State, c: nat)
    requires c in s.calls
  {
    var call := s.calls[c];
    && call.todo <= call.groups && call.full <= call.groups && call.full !! call.todo
    && (call.phase == Numbered ==> call.groups == {})
    && (call.phase == Sending ==> call.groups == GroupsOf(s.queues, call.streamID))
    && (call.phase == Done ==> call.todo == {})
    && (forall g :: g in call.groups ==> Address(call.streamID, g) in s.queues)
  }

  ghost predicate DeliveryInv(s: State) {
    && (forall c :: c in s.calls ==> CallOk(s, c))
    && (forall a, c: nat :: a in s.queues ==> Times(s.queues[a].accepted, c) == if Reached(s, c, a) then 1 else 0)
  }

  lemma SendKeepsDelivery(s: State, c: nat, group: string)
    requires DeliveryInv(s)
    ensures DeliveryInv(ApplySend(s, c, group))
  {
    var s' := ApplySend(s, c, group);
    if s' != s {
      var a := Address(s.calls[c].streamID, group);
      forall d: nat {
        TimesGrows(s.queues[a].accepted, Entry(c, s.calls[c].message), d);
      }
      assert s'.queues.Keys == s.queues.Keys;
      forall d | d in s'.calls
        ensures CallOk(s', d)
      {
        assert CallOk(s, d);
        assert GroupsOf(s'.queues, s.calls[d].streamID) == GroupsOf(s.queues, s.calls[d].streamID);
      }
    }
  }

  lemma ApplyKeepsCallsOk(s: State, step: Step)
    requires DeliveryInv(s) && !step.Send?
    ensures var s' := Apply(s, step); forall d :: d in s'.calls ==> CallOk(s', d)
  {
    var s' := Apply(s, step);
    forall d | d in s'.calls
      ensures CallOk(s', d)
    {
      if d in s.calls {
        assert CallOk(s, d);
        if s'.queues.Keys == s.queues.Keys {
          assert GroupsOf(s'.queues, s.calls[d].streamID) == GroupsOf(s.queues, s.calls[d].streamID);
        }
      }
    }
  }

  lemma ApplyKeepsDelivery(s: State, step: Step)
    requires DeliveryInv(s)
    ensures DeliveryInv(Apply(s, step))
  {
    if step.Send? {
      SendKeepsDelivery(s, step.c, step.group);
    } else {
      ApplyKeepsCallsOk(s, step);
      var s' := Apply(s, step);
      forall a, c: nat | a in s'.queues
        ensures Times(s'.queues[a].accepted, c) == if Reached(s', c, a) then 1 else 0
      {
        if c in s.calls {
          assert CallOk(s, c);
        }
        assert a in s.queues ==> Times(s.queues[a].accepted, c) == if Reached(s, c, a) then 1 else 0;
      }
    }
  }

  lemma {:induction false} RunsKeepDelivery(prefix: string, size: nat, steps: seq<Step>)
    ensures DeliveryInv(Exec(Init(prefix, size), steps))
  {
    if steps != [] {
      RunsKeepDelivery(prefix, size, steps[..|steps| - 1]);
      ApplyKeepsDelivery(Exec(Init(prefix, size), steps[..|steps| - 1]), steps[|steps| - 1]);
    }
  }

  /**
   A call that has returned: it reports no error exactly if every group of the stream that
   existed when it got the lock accepted the message, exactly once. A group it reports as
   full, a group created later and a group of another stream never get the message.
   */
  lemma NoErrorIffAllGroupsAccepted(prefix: string, size: nat, steps: seq<Step>, c: nat)
    ensures
      var s := Exec(Init(prefix, size), steps);
      At(s, c, Done) ==>
        var call := s.calls[c];
        && (call.full == {} <==>
            forall g :: g in call.groups ==>
              Address(call.streamID, g) in s.queues && Times(s.queues[Address(call.streamID, g)].accepted, c) == 1)
        && (forall a :: a in s.queues ==>
              Times(s.queues[a].accepted, c) ==
              if a.streamID == call.streamID && a.group in call.groups && a.group !in call.full then 1 else 0)
  {
    RunsKeepDelivery(prefix, size, steps);
    var s := Exec(Init(prefix, size), steps);
    if At(s, c, Done) {
      assert CallOk(s, c);
      var call := s.calls[c];
      if call.full != {} {
        var g :| g in call.full;
        assert Times(s.queues[Address(call.streamID, g)].accepted, c) == 0;
      }
    }
  }

  /** In every run a send is refused, and its group reported, exactly if `queueSize` messages wait. */
  lemma SendIsRefusedIffFull(prefix: string, size: nat, steps: seq<Step>, c: nat, group: string)
    requires var s := Exec(Init(prefix, size), steps); At(s, c, Sending) && group in s.calls[c].todo
    ensures
      var s := Exec(Init(prefix, size), steps);
      var s' := Apply(s, Send(c, group));
      var a := Address(s.calls[c].streamID, group);
      && a in s.queues && a in s'.queues && c in s'.calls && group !in s'.calls[c].todo
      && (group in s'.calls[c].full <==> |s.queues[a].waiting| == size)
      && s'.queues[a].accepted ==
           s.queues[a].accepted + if |s.queues[a].waiting| == size then [] else [Entry(c, s.calls[c].message)]
  {
    QueuesConserve(prefix, size, steps);
    RunsKeepDelivery(prefix, size, steps);
    assert CallOk(Exec(Init(prefix, size), steps), c);
  }

  lemma {:induction false} EntriesMatchCalls(prefix: string, size: nat, steps: seq<Step>, a: Address, i: nat)
    ensures
      var s := Exec(Init(prefix, size), steps);
      a in s.queues && i < |s.queues[a].accepted| ==>
        var e := s.queues[a].accepted[i];
        e.call in s.calls && e.message == s.calls[e.call].message && a.streamID == s.calls[e.call].streamID
  {
    if steps != [] {
      EntriesMatchCalls(prefix, size, steps[..|steps| - 1], a, i);
    }
  }

  /** The message as it was given to the call, except for an identifier that was asked for. */
  predicate Carries(m: Message, given: Message) {
    if WantsID(given) then m == given.(id := m.id) else m == given
  }

  /** The identifier a message brings along, if it does. */
  predicate BringsID(m: Message) {
    m.id != "" && m.id != "*"
  }

  predicate StartedBy(s: State, c: nat, step: Step) {
    && (c in s.calls && step.Start? ==> (s.calls[c].ordinal == 0 <==> BringsID(step.message)))
    && step.Start? && step.c == c && c in s.calls
    && s.calls[c].streamID == step.streamID && Carries(s.calls[c].message, step.message)
  }

  lemma StepKeepsStart(s: State, step: Step, c: nat, start: Step)
    requires StartedBy(s, c, start)
    ensures StartedBy(Apply(s, step), c, start)
  {
  }

  lemma NewCallIsStarted(s: State, step: Step, c: nat)
    requires c !in s.calls && c in Apply(s, step).calls
    ensures StartedBy(Apply(s, step), c, step)
  {
  }

  /** Every call was begun by a step of the run, with its stream and message. */
  lemma {:induction false} CallsWereStarted(prefix: string, size: nat, steps: seq<Step>, c: nat) returns (k: nat)
    requires c in Exec(Init(prefix, size), steps).calls
    ensures k < |steps| && StartedBy(Exec(Init(prefix, size), steps), c, steps[k])
    ensures c !in Exec(Init(prefix, size), steps[..k]).calls
  {
    var n := |steps| - 1;
    var before := Exec(Init(prefix, size), steps[..n]);
    if c in before.calls {
      k := CallsWereStarted(prefix, size, steps[..n], c);
      assert steps[..n][..k] == steps[..k];
      StepKeepsStart(before, steps[n], c, steps[k]);
    } else {
      k := n;
      NewCallIsStarted(before, steps[n], c);
    }
  }

  /**
   Every message in a queue was given to the broker: a step of the run began a call with
   that message, up to an identifier that was asked for, on the stream of the queue.
   */
  lemma EntriesAreGenuine(prefix: string, size: nat, steps: seq<Step>, a: Address, i: nat) returns (k: nat)
    requires var s := Exec(Init(prefix, size), steps); a in s.queues && i < |s.queues[a].accepted|
    ensures
      var e := Exec(Init(prefix, size), steps).queues[a].accepted[i];
      && k < |steps| && steps[k].Start? && steps[k].c == e.call && steps[k].streamID == a.streamID
      && Carries(e.message, steps[k].message)
  {
    EntriesMatchCalls(prefix, size, steps, a, i);
    k := CallsWereStarted(prefix, size, steps, Exec(Init(prefix, size), steps).queues[a].accepted[i].call);
  }

  // ---- identifiers over a run ----

  ghost predicate Labelled(s: State, c: nat)
    requires c in s.calls
  {
    var call := s.calls[c];
    && call.ordinal <= s.generated
    && (call.ordinal > 0 ==> call.message.id == GeneratedID(s.prefix, call.ordinal % UINT64))
  }

  ghost predicate IDInv(s: State) {
    && s.latestID == s.generated % UINT64
    && (forall c :: c in s.calls ==> Labelled(s, c))
    && (forall c, d :: c in s.calls && d in s.calls && c != d && s.calls[c].ordinal == s.calls[d].ordinal
                       ==> s.calls[c].ordinal == 0)
  }

  lemma NextID(n: nat)
    ensures (n % UINT64 + 1) % UINT64 == (n + 1) % UINT64
  {
  }

  lemma StartKeepsIDs(s: State, c: nat, streamID: string, m: Message)
    requires IDInv(s) && c !in s.calls
    ensures IDInv(ApplyStart(s, c, streamID, m))
  {
    var s' := ApplyStart(s, c, streamID, m);
    NextID(s.generated);
    forall d | d in s'.calls
      ensures Labelled(s', d)
    {
      if d != c {
        assert Labelled(s, d);
      }
    }
    forall d, e | d in s'.calls && e in s'.calls && d != e && s'.calls[d].ordinal == s'.calls[e].ordinal
      ensures s'.calls[d].ordinal == 0
    {
      if d == c {
        assert Labelled(s, e);
      } else if e == c {
        assert Labelled(s, d);
      }
    }
  }

  /** A step that neither counts nor relabels. */
  lemma OtherStepsKeepIDs(s: State, s': State)
    requires IDInv(s)
    requires s'.prefix == s.prefix && s'.generated == s.generated && s'.latestID == s.latestID
    requires s'.calls.Keys == s.calls.Keys
    requires forall c :: c in s.calls ==>
      s'.calls[c].ordinal == s.calls[c].ordinal && s'.calls[c].message == s.calls[c].message
    ensures IDInv(s')
  {
    forall c | c in s'.calls
      ensures Labelled(s', c)
    {
      assert Labelled(s, c);
    }
  }

  lemma ApplyKeepsIDs(s: State, step: Step)
    requires IDInv(s)
    ensures IDInv(Apply(s, step))
  {
    if step.Start? && step.c !in s.calls {
      StartKeepsIDs(s, step.c, step.streamID, step.message);
    } else {
      OtherStepsKeepIDs(s, Apply(s, step));
    }
  }

  lemma {:induction false} RunsKeepIDs(prefix: string, size: nat, steps: seq<Step>)
    ensures IDInv(Exec(Init(prefix, size), steps))
  {
    if steps != [] {
      RunsKeepIDs(prefix, size, steps[..|steps| - 1]);
      ApplyKeepsIDs(Exec(Init(prefix, size), steps[..|steps| - 1]), steps[|steps| - 1]);
    }
  }

  lemma IDsRepeatIff(s: State, c: nat, d: nat)
    requires IDInv(s) && c in s.calls && d in s.calls && s.calls[c].ordinal > 0 && s.calls[d].ordinal > 0
    ensures
      s.calls[c].message.id == s.calls[d].message.id <==> s.calls[c].ordinal % UINT64 == s.calls[d].ordinal % UINT64
  {
    assert Labelled(s, c) && Labelled(s, d);
    var m, n := s.calls[c].ordinal % UINT64, s.calls[d].ordinal % UINT64;
    if GeneratedID(s.prefix, m) == GeneratedID(s.prefix, n) {
      GeneratedIDIsInjective(s.prefix, m, n);
    }
  }

  lemma SameRemainder(m: nat, n: nat)
    requires 0 < m <= UINT64 && 0 < n <= UINT64 && m % UINT64 == n % UINT64
    ensures m == n
  {
  }

  /**
   Two calls get the same generated identifier exactly if a multiple of 2^64 identifiers
   lies between them: the counter is 64 bits wide. Fewer than that never repeat.
   */
  lemma GeneratedIDsRepeatIff(prefix: string, size: nat, steps: seq<Step>, c: nat, d: nat)
    ensures
      var s := Exec(Init(prefix, size), steps);
      c != d && c in s.calls && d in s.calls && s.calls[c].ordinal > 0 && s.calls[d].ordinal > 0 ==>
        && (s.calls[c].message.id == s.calls[d].message.id <==>
            s.calls[c].ordinal % UINT64 == s.calls[d].ordinal % UINT64)
        && (s.generated <= UINT64 ==> s.calls[c].message.id != s.calls[d].message.id)
  {
    RunsKeepIDs(prefix, size, steps);
    var s := Exec(Init(prefix, size), steps);
    if c != d && c in s.calls && d in s.calls && s.calls[c].ordinal > 0 && s.calls[d].ordinal > 0 {
      IDsRepeatIff(s, c, d);
      if s.generated <= UINT64 && s.calls[c].message.id == s.calls[d].message.id {
        assert Labelled(s, c) && Labelled(s, d);
        SameRemainder(s.calls[c].ordinal, s.calls[d].ordinal);
      }
    }
  }

  /**
   In every run, a message that was sent without an identifier, or with "*", goes out under a
   generated one; any other message keeps its own.
   */
  lemma MissingIDsAreGenerated(prefix: string, size: nat, steps: seq<Step>, c: nat) returns (k: nat)
    requires c in Exec(Init(prefix, size), steps).calls
    ensures
      var call := Exec(Init(prefix, size), steps).calls[c];
      && k < |steps| && steps[k].Start? && steps[k].c == c && call.streamID == steps[k].streamID
      && call.message.values == steps[k].message.values && call.message.streamID == steps[k].message.streamID
      && (if BringsID(steps[k].message) then call.message.id == steps[k].message.id
          else call.ordinal > 0 && call.message.id == GeneratedID(prefix, call.ordinal % UINT64))
  {
    k := CallsWereStarted(prefix, size, steps, c);
    RunsKeepIDs(prefix, size, steps);
    PrefixStays(prefix, size, steps);
    assert Labelled(Exec(Init(prefix, size), steps), c);
  }

  lemma {:induction false} PrefixStays(prefix: string, size: nat, steps: seq<Step>)
    ensures Exec(Init(prefix, size), steps).prefix == prefix
  {
    if steps != [] {
      PrefixStays(prefix, size, steps[..|steps| - 1]);
    }
  }

  // ---- the object ----

  type Queues = map<string, map<string, seq<Message>>>

  /** Every group of the stream after one message was offered to all of them. */
  function Offered(groups: map<string, seq<Message>>, m: Message, size: nat): map<string, seq<Message>> {
    map g | g in groups :: Offer(groups[g], m, size)
  }

  function FullGroups(groups: map<string, seq<Message>>, size: nat): set<string> {
    set g | g in groups && |groups[g]| >= size
  }

  // ---- an undisturbed call in the machine does what the object's method does ----

  function Messages(entries: seq<Entry>): seq<Message> {
    if entries == [] then [] else Messages(entries[..|entries| - 1]) + [entries[|entries| - 1].message]
  }

  lemma {:induction false} MessagesLength(entries: seq<Entry>)
    ensures |Messages(entries)| == |entries|
  {
    if entries != [] {
      MessagesLength(entries[..|entries| - 1]);
    }
  }

  lemma MessagesOffer(waiting: seq<Entry>, e: Entry, size: nat)
    ensures Messages(Offer(waiting, e, size)) == Offer(Messages(waiting), e.message, size)
  {
    MessagesLength(waiting);
    assert (waiting + [e])[..|waiting|] == waiting;
  }

  /** The queues of a stream as the object stores them. */
  function Contents(queues: map<Address, Queue>, streamID: string): map<string, seq<Message>> {
    map g | g in GroupsOf(queues, streamID) :: Messages(queues[Address(streamID, g)].waiting)
  }

  function Sends(c: nat, order: seq<string>): seq<Step> {
    seq(|order|, i requires 0 <= i < |order| => Send(c, order[i]))
  }

  ghost predicate Distinct(order: seq<string>) {
    forall i, j :: 0 <= i < j < |order| ==> order[i] != order[j]
  }

  /** What the call has to do, and which groups it found full, after it offered to the groups in `order`. */
  ghost predicate CallAfterSends(s: State, call: Call, call': Call, order: seq<string>) {
    && call' == call.(todo := call'.todo, full := call'.full)
    && (forall g :: g in call'.todo <==> g in call.todo && g !in order)
    && (forall g :: g in call'.full <==>
          g in call.full
          || (g in order && Address(call.streamID, g) in s.queues
              && |s.queues[Address(call.streamID, g)].waiting| >= s.queueSize))
  }

  /** What waits in the queues then. */
  ghost predicate QueuesAfterSends(s: State, s': State, c: nat, call: Call, order: seq<string>) {
    && s'.queues.Keys == s.queues.Keys
    && forall a :: a in s.queues ==>
         s'.queues[a].waiting ==
         if a.streamID == call.streamID && a.group in order
         then Offer(s.queues[a].waiting, Entry(c, call.message), s.queueSize) else s.queues[a].waiting
  }

  /** The state after a call that is sending has offered its message to the groups in `order`. */
  ghost predicate AfterSends(s: State, s': State, c: nat, order: seq<string>)
    requires At(s, c, Sending)
  {
    && s'.queueSize == s.queueSize && At(s', c, Sending)
    && CallAfterSends(s, s.calls[c], s'.calls[c], order)
    && QueuesAfterSends(s, s', c, s.calls[c], order)
  }

  lemma {:induction false} SendsMatch(s: State, c: nat, order: seq<string>)
    requires At(s, c, Sending) && Distinct(order)
    requires forall g :: g in order ==> g in s.calls[c].todo && Address(s.calls[c].streamID, g) in s.queues
    ensures AfterSends(s, Exec(s, Sends(c, order)), c, order)
  {
    if order != [] {
      var n := |order| - 1;
      var before := Exec(s, Sends(c, order[..n]));
      SendsMatch(s, c, order[..n]);
      assert Sends(c, order)[..n] == Sends(c, order[..n]);
      OneMoreSend(s, before, c, order);
    }
  }

  lemma OneMoreSend(s: State, before: State, c: nat, order: seq<string>)
    requires At(s, c, Sending) && Distinct(order) && order != []
    requires forall g :: g in order ==> g in s.calls[c].todo && Address(s.calls[c].streamID, g) in s.queues
    requires AfterSends(s, before, c, order[..|order| - 1])
    ensures AfterSends(s, ApplySend(before, c, order[|order| - 1]), c, order)
  {
    var n := |order| - 1;
    assert order[n] !in order[..n];
    assert forall g :: g in order <==> g in order[..n] || g == order[n];
    assert s.queues[Address(s.calls[c].streamID, order[n])].waiting
        == before.queues[Address(s.calls[c].streamID, order[n])].waiting;
  }

  lemma SameGroups(s: State, s': State, streamID: string)
    requires s.queues.Keys == s'.queues.Keys
    ensures GroupsOf(s.queues, streamID) == GroupsOf(s'.queues, streamID)
  {
  }

  lemma GroupAfterSends(s: State, s': State, c: nat, order: seq<string>, g: string)
    requires At(s, c, Sending) && AfterSends(s, s', c, order) && g in order
    requires Address(s.calls[c].streamID, g) in s.queues
    ensures
      var a := Address(s.calls[c].streamID, g);
      Messages(s'.queues[a].waiting) == Offer(Messages(s.queues[a].waiting), s.calls[c].message, s.queueSize)
  {
    MessagesOffer(s.queues[Address(s.calls[c].streamID, g)].waiting, Entry(c, s.calls[c].message), s.queueSize);
  }

  /** Offering to all groups of the stream, seen through the contents of the queues. */
  lemma ContentsAfterSends(s: State, s': State, c: nat, order: seq<string>)
    requires At(s, c, Sending) && AfterSends(s, s', c, order)
    requires forall g :: g in order <==> g in GroupsOf(s.queues, s.calls[c].streamID)
    ensures
      var st := s.calls[c].streamID;
      Contents(s'.queues, st) == Offered(Contents(s.queues, st), s.calls[c].message, s.queueSize)
  {
    var st := s.calls[c].streamID;
    SameGroups(s, s', st);
    forall g | g in GroupsOf(s.queues, st) {
      GroupAfterSends(s, s', c, order, g);
    }
    ContentsOffered(s.queues, s'.queues, st, s.calls[c].message, s.queueSize);
  }

  /** Contents group by group. */
  lemma ContentsOffered(
      queues: map<Address, Queue>, queues': map<Address, Queue>, st: string, m: Message, size: nat)
    requires GroupsOf(queues', st) == GroupsOf(queues, st)
    requires forall g :: g in GroupsOf(queues, st) ==>
      Messages(queues'[Address(st, g)].waiting) == Offer(Messages(queues[Address(st, g)].waiting), m, size)
    ensures Contents(queues', st) == Offered(Contents(queues, st), m, size)
  {
  }

  lemma OthersAfterSends(s: State, s': State, c: nat, order: seq<string>, other: string)
    requires At(s, c, Sending) && AfterSends(s, s', c, order) && other != s.calls[c].streamID
    ensures Contents(s'.queues, other) == Contents(s.queues, other)
  {
    SameGroups(s, s', other);
  }

  lemma FullAfterSends(s: State, s': State, c: nat, order: seq<string>)
    requires At(s, c, Sending) && AfterSends(s, s', c, order) && s.calls[c].full == {}
    requires forall g :: g in order <==> g in GroupsOf(s.queues, s.calls[c].streamID)
    ensures s'.calls[c].full == FullGroups(Contents(s.queues, s.calls[c].streamID), s.queueSize)
  {
    var st := s.calls[c].streamID;
    forall g | g in GroupsOf(s.queues, st)
      ensures |Contents(s.queues, st)[g]| == |s.queues[Address(st, g)].waiting|
    {
      MessagesLength(s.queues[Address(st, g)].waiting);
    }
  }

  /**
   A call whose sends are not interleaved with anything, in whatever order it visits the
   groups, reports the full groups and leaves the queues exactly as the object's method does.
   */
  lemma UndisturbedCallMatches(s: State, c: nat, order: seq<string>)
    requires At(s, c, Numbered) && s.calls[c].full == {} && Distinct(order)
    requires forall g :: g in order <==> g in GroupsOf(s.queues, s.calls[c].streamID)
    ensures
      var st := s.calls[c].streamID;
      var s' := Apply(Exec(ApplyEnter(s, c), Sends(c, order)), Return(c));
      && At(s', c, Done)
      && s'.calls[c].full == FullGroups(Contents(s.queues, st), s.queueSize)
      && Contents(s'.queues, st) == Offered(Contents(s.queues, st), s.calls[c].message, s.queueSize)
      && forall other :: other != st ==> Contents(s'.queues, other) == Contents(s.queues, other)
  {
    var entered := ApplyEnter(s, c);
    var sent := Exec(entered, Sends(c, order));
    SendsMatch(entered, c, order);
    ContentsAfterSends(entered, sent, c, order);
    FullAfterSends(entered, sent, c, order);
    forall other | other != s.calls[c].streamID {
      OthersAfterSends(entered, sent, c, order, other);
    }
    assert entered.queues == s.queues;
    assert sent.calls[c].todo == {};
  }

  /** The loop over the groups of a stream, in any order; `full` are those that had no room. */
  method OfferToAll(before: map<string, seq<Message>>, m: Message, size: nat)
    returns (queues: map<string, seq<Message>>, full: set<string>)
    ensures queues == Offered(before, m, size) && full == FullGroups(before, size)
  {
    queues, full := before, {};
    var todo := before.Keys;
    while todo != {}
      invariant todo <= before.Keys && queues.Keys == before.Keys
      invariant forall g :: g in before ==> queues[g] == if g in todo then before[g] else Offer(before[g], m, size)
      invariant full == FullGroups(before, size) - todo
      decreases todo
    {
      var g :| g in todo;
      todo := todo - {g};
      if |queues[g]| < size {
        queues := queues[g := queues[g] + [m]];
      } else {
        full := full + {g};
      }
    }
  }

  class MemoryBroker {
    const idPrefix: string
    const queueSize: nat
    var latestID: nat
    var messageQueues: Queues

    ghost predicate Valid()
      reads this
    {
      && latestID < UINT64
      && (forall st, g :: st in messageQueues && g in messageQueues[st] ==> |messageQueues[st][g]| <= queueSize)
    }

    constructor (prefix: string, size: nat)
      ensures Valid() && idPrefix == prefix && queueSize == size && latestID == 0 && messageQueues == map[]
    {
      idPrefix, queueSize, latestID, messageQueues := prefix, size, 0, map[];
    }

    /** `full` are the groups named in the aggregated error, which is nil if there are none. */
    method Enqueue(streamID: string, message: Message) returns (id: string, full: set<string>)
      requires Valid()
      modifies this
      ensures Valid()
      ensures latestID == if WantsID(message) then (old(latestID) + 1) % UINT64 else old(latestID)
      ensures
        var m := if WantsID(message) then message.(id := GeneratedID(idPrefix, latestID)) else message;
        if streamID !in old(messageQueues) then
          id == "" && full == {} && messageQueues == old(messageQueues)
        else
          && id == m.id && full == FullGroups(old(messageQueues[streamID]), queueSize)
          && messageQueues == old(messageQueues)[streamID := Offered(old(messageQueues[streamID]), m, queueSize)]
    {
      var m := message;
      if WantsID(m) {
        latestID := (latestID + 1) % UINT64;
        m := m.(id := GeneratedID(idPrefix, latestID));
      }
      full := {};
      if streamID !in messageQueues {
        return "", full;
      }
      var queues;
      queues, full := OfferToAll(messageQueues[streamID], m, queueSize);
      messageQueues := messageQueues[streamID := queues];
      id := m.id;
    }

    /** The queue of the group, which is created empty if there is none yet. */
    method Messages(streamID: string, groupName: string) returns (queue: seq<Message>)
      requires Valid()
      modifies `messageQueues
      ensures Valid()
      ensures streamID in messageQueues && groupName in messageQueues[streamID]
      ensures queue == messageQueues[streamID][groupName]
      ensures
        var groups := if streamID in old(messageQueues) then old(messageQueues[streamID]) else map[];
        messageQueues ==
          if groupName in groups then old(messageQueues) else old(messageQueues)[streamID := groups[groupName := []]]
    {
      if streamID !in messageQueues {
        messageQueues := messageQueues[streamID := map[]];
      }
      if groupName !in messageQueues[streamID] {
        messageQueues := messageQueues[streamID := messageQueues[streamID][groupName := []]];
      }
      queue := messageQueues[streamID][groupName];
    }
  }
}
