/**
 The TTL cache. Entries are served while they are not older than `maxAge`, where the age
 counts from the moment the call that stored the entry began, not from the moment the value
 was produced. Every access to the map holds the mutex, but a call releases it between its
 lookups and while the getter runs, so all other calls, evictions and purges interleave.
 */
module TtlCache {

  /** A key of an ordered type, given by its place in that order. */
  datatype Key = Key(rank: int)

  datatype Entry<V> = Entry(added: int, data: V)

  type Cache<V> = map<Key, Entry<V>>

  /** The entry exists and is not too old to be served. */
  predicate Fresh<V>(cache: Cache<V>, key: Key, now: int, maxAge: nat) {
    key in cache && now - cache[key].added <= maxAge
  }

  function Purged<V>(cache: Cache<V>, now: int, maxAge: nat): Cache<V> {
    map key | key in cache && now - cache[key].added < maxAge :: cache[key]
  }

  /**
   A purge is invisible to every lookup of a later call, and takes from a call of the same
   moment only the entries that are exactly as old as allowed.
   */
  lemma PurgeIsInvisible<V>(cache: Cache<V>, now: int, maxAge: nat, key: Key, later: int)
    requires later >= now
    ensures
      var purged := Purged(cache, now, maxAge);
      && (Fresh(purged, key, later, maxAge) <==>
          Fresh(cache, key, later, maxAge) && !(later == now && now - cache[key].added == maxAge))
      && (Fresh(purged, key, later, maxAge) ==> purged[key] == cache[key])
      && (key in purged ==> now - purged[key].added < maxAge)
  {
  }

  // ---- bounded staleness ----

  /** A value together with the key it was looked up for and the time it was produced. */
  datatype Value = Value(key: Key, data: string, producedAt: int)

  /** `Looking` up keys in the cache, waiting for the getter, holding its answer, done. */
  datatype Phase = Looking | Asking | Holding | Returned

  /** A call of `Get`, which has one key, or of `Map`. */
  datatype Call = Call(
    began: int, single: bool, keys: set<Key>, todo: set<Key>, missed: set<Key>,
    phase: Phase, answer: map<Key, Value>, result: map<Key, Value>)

  datatype State = State(now: int, maxAge: nat, cache: Cache<Value>, calls: map<nat, Call>)

  datatype Step =
    | Tick(elapsed: nat)
    | BeginGet(c: nat, key: Key)
    | BeginMap(c: nat, keys: set<Key>)
    | Lookup(c: nat, key: Key)
    | Ask(c: nat)
    | Answer(c: nat, data: map<Key, string>)
    | Fail(c: nat)
    | Insert(c: nat)
    | Evict(key: Key)
    | EvictAll
    | Purge(delay: nat)

  function Init(now: int, maxAge: nat): State {
    State(now, maxAge, map[], map[])
  }

  predicate At(s: State, c: nat, phase: Phase) {
    c in s.calls && s.calls[c].phase == phase
  }

  function Begin(s: State, c: nat, single: bool, keys: set<Key>): State {
    if c in s.calls then s
    else s.(calls := s.calls[c := Call(s.now, single, keys, keys, {}, Looking, map[], map[])])
  }

  function ApplyLookup(s: State, c: nat, key: Key): State {
    if !At(s, c, Looking) || key !in s.calls[c].todo then s
    else
      var call := s.calls[c].(todo := s.calls[c].todo - {key});
      if Fresh(s.cache, key, call.began, s.maxAge) then
        s.(calls := s.calls[c := call.(result := call.result[key := s.cache[key].data])])
      else
        s.(calls := s.calls[c := call.(missed := call.missed + {key})])
  }

  /** With nothing missed the call returns; otherwise it asks the getter for what it missed. */
  function ApplyAsk(s: State, c: nat): State {
    if !At(s, c, Looking) || s.calls[c].todo != {} then s
    else s.(calls := s.calls[c := s.calls[c].(phase := if s.calls[c].missed == {} then Returned else Asking)])
  }

  /** The getter produces values, for `Get` of its key and for `Map` of any identifiers. */
  function ApplyAnswer(s: State, c: nat, data: map<Key, string>): State {
    if !At(s, c, Asking) || (s.calls[c].single && data.Keys != s.calls[c].keys) then s
    else
      var answer := map key | key in data :: Value(key, data[key], s.now);
      s.(calls := s.calls[c := s.calls[c].(phase := Holding, answer := answer)])
  }

  function ApplyInsert(s: State, c: nat): State {
    if !At(s, c, Holding) then s
    else
      var call := s.calls[c];
      var entries := map key | key in call.answer :: Entry(call.began, call.answer[key]);
      s.(cache := s.cache + entries,
         calls := s.calls[c := call.(phase := Returned, result := call.result + call.answer)])
  }

  /** A failed lookup returns no values. */
  function ApplyFail(s: State, c: nat): State {
    if !At(s, c, Asking) then s
    else s.(calls := s.calls[c := s.calls[c].(phase := Returned, result := map[])])
  }

  function Apply(s: State, step: Step): State {
    match step
    case Tick(elapsed) => s.(now := s.now + elapsed)
    case BeginGet(c, key) => Begin(s, c, true, {key})
    case BeginMap(c, keys) => Begin(s, c, false, keys)
    case Lookup(c, key) => ApplyLookup(s, c, key)
    case Ask(c) => ApplyAsk(s, c)
    case Answer(c, data) => ApplyAnswer(s, c, data)
    case Fail(c) => ApplyFail(s, c)
    case Insert(c) => ApplyInsert(s, c)
    case Evict(key) => s.(cache := s.cache - {key})
    case EvictAll => s.(cache := map[])
    case Purge(delay) => s.(cache := Purged(s.cache, s.now - delay, s.maxAge))
  }

  function Exec(s: State, steps: seq<Step>): State {
    if steps == [] then s else Apply(Exec(s, steps[..|steps| - 1]), steps[|steps| - 1])
  }

  /** Every value in the map was produced for its key, within the given times. */
  ghost predicate Within(values: map<Key, Value>, from: int, to: int) {
    forall key :: key in values ==> values[key].key == key && from <= values[key].producedAt <= to
  }

  /** An entry was produced for its key, no earlier than the time it was stamped with. */
  ghost predicate CacheOk(cache: Cache<Value>, now: int) {
    forall key :: key in cache ==>
      cache[key].data.key == key && cache[key].added <= cache[key].data.producedAt <= now
  }

  ghost predicate CallOk(call: Call, now: int, maxAge: nat) {
    && call.began <= now && Within(call.answer, call.began, now) && Within(call.result, call.began - maxAge, now)
    && (call.single ==> call.answer.Keys <= call.keys)
    && call.todo <= call.keys && call.missed <= call.keys
    && (call.phase == Looking ==> call.result.Keys + call.todo + call.missed == call.keys && call.answer == map[])
    && (call.phase == Asking || call.phase == Holding ==> call.result.Keys + call.missed == call.keys)
    && (call.single ==> call.result.Keys <= call.keys)
  }

  ghost predicate Inv(s: State) {
    CacheOk(s.cache, s.now) && forall c :: c in s.calls ==> CallOk(s.calls[c], s.now, s.maxAge)
  }

  lemma LookupKeepsInv(s: State, c: nat, key: Key)
    requires Inv(s)
    ensures Inv(ApplyLookup(s, c, key))
  {
  }

  lemma InsertKeepsInv(s: State, c: nat)
    requires Inv(s)
    ensures Inv(ApplyInsert(s, c))
  {
  }

  lemma AskKeepsInv(s: State, c: nat)
    requires Inv(s)
    ensures Inv(ApplyAsk(s, c))
  {
  }

  lemma AnswerKeepsInv(s: State, c: nat, data: map<Key, string>)
    requires Inv(s)
    ensures Inv(ApplyAnswer(s, c, data))
  {
  }

  lemma ApplyKeepsInv(s: State, step: Step)
    requires Inv(s)
    ensures Inv(Apply(s, step))
  {
    match step
    case Lookup(c, key) => LookupKeepsInv(s, c, key);
    case Insert(c) => InsertKeepsInv(s, c);
    case Answer(c, data) => AnswerKeepsInv(s, c, data);
    case Ask(c) => AskKeepsInv(s, c);
    case _ =>
  }

  lemma {:induction false} RunsKeepInv(now: int, maxAge: nat, steps: seq<Step>)
    ensures Inv(Exec(Init(now, maxAge), steps)) && Exec(Init(now, maxAge), steps).maxAge == maxAge
  {
    if steps != [] {
      RunsKeepInv(now, maxAge, steps[..|steps| - 1]);
      ApplyKeepsInv(Exec(Init(now, maxAge), steps[..|steps| - 1]), steps[|steps| - 1]);
    }
  }

  /**
   Every value a call returns was produced by the getter for that very key, no earlier than
   `maxAge` before the call began, under every interleaving of calls, evictions and purges:
   even when a slow call overwrites a newer entry or brings back an evicted one.
   */
  lemma BoundedStaleness(now: int, maxAge: nat, steps: seq<Step>, c: nat, key: Key)
    ensures
      var s := Exec(Init(now, maxAge), steps);
      c in s.calls && key in s.calls[c].result ==>
        var v := s.calls[c].result[key];
        v.key == key && s.calls[c].began - maxAge <= v.producedAt <= s.now
  {
    RunsKeepInv(now, maxAge, steps);
  }

  /**
   In every run, a call that stores its answer returns it together with everything it found
   before: a value for every key it did not miss, and the answer for those it did.
   */
  lemma CallReturnsHitsAndAnswer(now: int, maxAge: nat, steps: seq<Step>, c: nat)
    requires At(Exec(Init(now, maxAge), steps), c, Holding)
    ensures
      var s := Exec(Init(now, maxAge), steps);
      var call, done := s.calls[c], Apply(s, Insert(c)).calls[c];
      && done.phase == Returned && call.keys <= done.result.Keys + call.missed
      && done.result.Keys == call.result.Keys + call.answer.Keys
      && (forall key :: key in call.answer ==> done.result[key] == call.answer[key])
      && (forall key :: key in call.result && key !in call.answer ==> done.result[key] == call.result[key])
      && (forall key :: key in call.answer ==>
            key in Apply(s, Insert(c)).cache && Apply(s, Insert(c)).cache[key] == Entry(call.began, call.answer[key]))
  {
    RunsKeepInv(now, maxAge, steps);
  }

  /** A call that has looked up all keys and missed none returns a value for each; any other asks the getter. */
  lemma CallReturnsAllHits(now: int, maxAge: nat, steps: seq<Step>, c: nat)
    requires var s := Exec(Init(now, maxAge), steps); At(s, c, Looking) && s.calls[c].todo == {}
    ensures
      var s := Exec(Init(now, maxAge), steps);
      var s' := Apply(s, Ask(c));
      if s.calls[c].missed == {} then At(s', c, Returned) && s'.calls[c].result.Keys == s.calls[c].keys
      else At(s', c, Asking)
  {
    RunsKeepInv(now, maxAge, steps);
  }

  /** A lookup is a hit exactly if the entry is not older than `maxAge` at the beginning of the call. */
  lemma LookupHitsIffRecent(s: State, c: nat, key: Key)
    requires At(s, c, Looking) && key in s.calls[c].todo
    ensures
      var call, call' := s.calls[c], Apply(s, Lookup(c, key)).calls[c];
      && call'.todo == call.todo - {key}
      && (if key in s.cache && call.began - s.cache[key].added <= s.maxAge then
            call'.result == call.result[key := s.cache[key].data] && call'.missed == call.missed
          else call'.result == call.result && call'.missed == call.missed + {key})
  {
  }

  /** The call keeps all the getter produced, stamped with the present time, and a failed one returns nothing. */
  lemma GetterAnswersOrFails(s: State, c: nat, data: map<Key, string>)
    requires At(s, c, Asking) && (s.calls[c].single ==> data.Keys == s.calls[c].keys)
    ensures
      var held := Apply(s, Answer(c, data)).calls[c];
      && held.phase == Holding && held.answer.Keys == data.Keys && held.result == s.calls[c].result
      && forall key :: key in data ==> held.answer[key] == Value(key, data[key], s.now)
    ensures
      var failed := Apply(s, Fail(c));
      failed.calls[c].phase == Returned && failed.calls[c].result == map[] && failed.cache == s.cache
  {
  }

  /** The step replaces the entry of the key, or is meant to remove it. */
  predicate MayChange(s: State, step: Step, key: Key)
    requires key in s.cache
  {
    match step
    case Insert(c) => At(s, c, Holding) && key in s.calls[c].answer
    case Evict(k) => k == key
    case EvictAll => true
    case Purge(delay) => s.now - delay - s.cache[key].added >= s.maxAge
    case _ => false
  }

  /** An entry stays in the cache until it is replaced, evicted or has reached its age at a purge. */
  lemma EntriesStay(s: State, step: Step, key: Key)
    requires key in s.cache
    ensures !MayChange(s, step, key) ==> key in Apply(s, step).cache && Apply(s, step).cache[key] == s.cache[key]
    ensures MayChange(s, step, key) && !step.Insert? ==> key !in Apply(s, step).cache
  {
  }

  // ---- what an eviction guarantees ----

  /** If the call returns a value for the key, the value was produced at `since` or later. */
  predicate RecentFor(s: State, c: nat, key: Key, since: int) {
    c in s.calls && key in s.calls[c].result ==> s.calls[c].result[key].producedAt >= since
  }

  /** The call has an older value for the key in hand, which a call beginning now would accept. */
  predicate HoldsOld(s: State, c: nat, key: Key) {
    && At(s, c, Holding) && key in s.calls[c].answer
    && s.calls[c].answer[key].producedAt < s.now && s.now - s.calls[c].began <= s.maxAge
  }

  /** The step evicts the key, alone or with all others. */
  predicate Evicts(step: Step, key: Key) {
    step == Evict(key) || step == EvictAll
  }

  /** Whatever happens after the eviction, no call that begins after it gets an older value. */
  ghost predicate EvictionHolds(s: State, step: Step, key: Key) {
    forall steps: seq<Step>, d: nat ::
      d !in s.calls ==> RecentFor(Exec(Apply(s, step), steps), d, key, s.now)
  }

  /** Produced since, or stamped too long ago for a call that begins since. */
  predicate Harmless(added: int, v: Value, since: int, maxAge: nat) {
    v.producedAt >= since || since - added > maxAge
  }

  ghost predicate EvictInv(s: State, former: set<nat>, key: Key, since: int) {
    && since <= s.now
    && (key in s.cache ==> Harmless(s.cache[key].added, s.cache[key].data, since, s.maxAge))
    && (forall c :: At(s, c, Holding) && key in s.calls[c].answer ==>
          Harmless(s.calls[c].began, s.calls[c].answer[key], since, s.maxAge))
    && (forall c :: c in s.calls && c !in former ==> s.calls[c].began >= since && RecentFor(s, c, key, since))
  }

  lemma InsertKeepsEviction(s: State, c: nat, former: set<nat>, key: Key, since: int)
    requires EvictInv(s, former, key, since)
    ensures EvictInv(ApplyInsert(s, c), former, key, since)
  {
    var s' := ApplyInsert(s, c);
    assert forall d :: At(s', d, Holding) ==> At(s, d, Holding) && s'.calls[d] == s.calls[d];
  }

  lemma ApplyKeepsEviction(s: State, step: Step, former: set<nat>, key: Key, since: int)
    requires EvictInv(s, former, key, since)
    ensures EvictInv(Apply(s, step), former, key, since)
  {
    if step.Insert? {
      InsertKeepsEviction(s, step.c, former, key, since);
      return;
    }
    var s' := Apply(s, step);
    forall c | At(s', c, Holding) && key in s'.calls[c].answer
      ensures Harmless(s'.calls[c].began, s'.calls[c].answer[key], since, s'.maxAge)
    {
      if s'.calls[c] == s.calls[c] {
        assert At(s, c, Holding);
      }
    }
  }

  lemma {:induction false} RunsKeepEviction(s: State, steps: seq<Step>, former: set<nat>, key: Key, since: int)
    requires EvictInv(s, former, key, since)
    ensures EvictInv(Exec(s, steps), former, key, since)
  {
    if steps != [] {
      RunsKeepEviction(s, steps[..|steps| - 1], former, key, since);
      ApplyKeepsEviction(Exec(s, steps[..|steps| - 1]), steps[|steps| - 1], former, key, since);
    }
  }

  lemma {:induction false} UnusedNumber(used: set<nat>) returns (d: nat)
    ensures forall u :: u in used ==> u < d
  {
    if used == {} {
      d := 0;
    } else {
      var u :| u in used;
      var rest := UnusedNumber(used - {u});
      d := if rest <= u then u + 1 else rest;
      assert forall v :: v in used ==> v == u || v in used - {u};
    }
  }

  lemma ExecThree(s: State, a: Step, b: Step, c: Step)
    ensures Exec(s, [a, b, c]) == Apply(Apply(Apply(s, a), b), c)
  {
    assert [a, b, c][..2] == [a, b] && [a, b][..1] == [a] && [a][..0] == [];
    assert Exec(s, [a]) == Apply(s, a);
    assert Exec(s, [a, b]) == Apply(Exec(s, [a]), b);
  }

  /** The call in flight stores its value, which is then in the cache. */
  lemma InsertBringsBack(s: State, step: Step, c: nat, key: Key)
    requires HoldsOld(s, c, key) && Evicts(step, key)
    ensures
      var s' := Apply(Apply(s, step), Insert(c));
      && key in s'.cache && s'.cache[key] == Entry(s.calls[c].began, s.calls[c].answer[key])
      && s'.now == s.now && s'.maxAge == s.maxAge && s'.calls.Keys == s.calls.Keys
  {
  }

  /** A call that begins now is served what is fresh in the cache. */
  lemma NewCallIsServed(s: State, d: nat, key: Key)
    requires d !in s.calls && Fresh(s.cache, key, s.now, s.maxAge)
    ensures
      var s' := Apply(Apply(s, BeginGet(d, key)), Lookup(d, key));
      d in s'.calls && key in s'.calls[d].result && s'.calls[d].result[key] == s.cache[key].data
  {
  }

  /** The run in which the older value comes back after the eviction. */
  lemma OldValueReturns(s: State, step: Step, c: nat, key: Key) returns (steps: seq<Step>, d: nat)
    requires HoldsOld(s, c, key) && Evicts(step, key)
    ensures d !in s.calls && !RecentFor(Exec(Apply(s, step), steps), d, key, s.now)
  {
    d := UnusedNumber(s.calls.Keys);
    var evicted := Apply(s, step);
    steps := [Insert(c), BeginGet(d, key), Lookup(d, key)];
    ExecThree(evicted, Insert(c), BeginGet(d, key), Lookup(d, key));
    InsertBringsBack(s, step, c, key);
    NewCallIsServed(Apply(evicted, Insert(c)), d, key);
  }

  /**
   An eviction, of one key or of all, is effective for all calls that begin after it exactly if no call holds, at
   that moment, a value of the key that was produced before and that began recently enough
   for its entry to be served.
   */
  lemma EvictionHoldsIff(s: State, step: Step, key: Key)
    requires Evicts(step, key)
    ensures EvictionHolds(s, step, key) <==> !exists c :: HoldsOld(s, c, key)
  {
    if c :| HoldsOld(s, c, key) {
      var steps, d := OldValueReturns(s, step, c, key);
    } else {
      var s1 := Apply(s, step);
      forall c | At(s1, c, Holding) && key in s1.calls[c].answer
        ensures Harmless(s1.calls[c].began, s1.calls[c].answer[key], s.now, s1.maxAge)
      {
        assert !HoldsOld(s, c, key);
      }
      forall steps: seq<Step>, d: nat | d !in s.calls
        ensures RecentFor(Exec(Apply(s, step), steps), d, key, s.now)
      {
        RunsKeepEviction(s1, steps, s.calls.Keys, key, s.now);
      }
    }
  }
}
