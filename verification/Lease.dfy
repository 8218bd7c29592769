/**
 Expiring locks of the in-memory mutex provider, as a state machine.

 Many mutex objects compete for keys of one provider. Every provider call is one
 atomic step (the provider serialises them), and between any two steps the clock may
 advance and any other mutex may act. A step that is not possible leaves the state
 as it is, so a run is any finite sequence of steps.
 */
module Lease {

  datatype Entry = Entry(token: string, validUntil: int)

  type Keys = map<string, Entry>

  /** What a provider call returns, together with the key table it leaves behind. */
  datatype Reply = Reply(ok: bool, keys: Keys)

  function Acquire(keys: Keys, key: string, token: string, ttl: int, now: int): Reply {
    if key in keys && keys[key].validUntil > now then
      Reply(false, keys)
    else
      Reply(true, keys[key := Entry(token, now + ttl)])
  }

  function Release(keys: Keys, key: string, token: string): Reply {
    if key !in keys || keys[key].token != token then
      Reply(false, keys)
    else
      Reply(true, keys - {key})
  }

  /** A mutex object. `until` is the end of the lease its last successful attempt obtained. */
  datatype Mutex = Mutex(key: string, token: string, expiry: int, held: bool, until: int)

  datatype State = State(now: int, keys: Keys, mutexes: map<nat, Mutex>)

  datatype Step =
    | Create(id: nat, key: string, token: string, expiry: int)
    | Tick(elapsed: nat)
    | Attempt(id: nat)
    | Unlock(id: nat)

  function Init(now: int): State {
    State(now, map[], map[])
  }

  function Apply(s: State, step: Step): State {
    match step
    case Create(id, key, token, expiry) =>
      if id in s.mutexes then s
      else s.(mutexes := s.mutexes[id := Mutex(key, token, expiry, false, 0)])
    case Tick(elapsed) => s.(now := s.now + elapsed)
    case Attempt(id) =>
      if id !in s.mutexes || s.mutexes[id].held then s
      else
        var m := s.mutexes[id];
        var r := Acquire(s.keys, m.key, m.token, m.expiry, s.now);
        if r.ok then
          s.(keys := r.keys, mutexes := s.mutexes[id := m.(held := true, until := s.now + m.expiry)])
        else s
    case Unlock(id) =>
      if id !in s.mutexes || !s.mutexes[id].held then s
      else
        var m := s.mutexes[id];
        var r := Release(s.keys, m.key, m.token);
        if r.ok then s.(keys := r.keys, mutexes := s.mutexes[id := m.(held := false)]) else s
  }

  function Exec(s: State, steps: seq<Step>): State {
    if steps == [] then s else Apply(Exec(s, steps[..|steps| - 1]), steps[|steps| - 1])
  }

  /** The mutex holds a lease that has not run out. */
  predicate Live(s: State, id: nat) {
    id in s.mutexes && s.mutexes[id].held && s.mutexes[id].until > s.now
  }

  /** The provider's table still carries the entry this mutex wrote. */
  predicate Recorded(s: State, id: nat)
    requires id in s.mutexes
  {
    var m := s.mutexes[id];
    m.key in s.keys && s.keys[m.key] == Entry(m.token, m.until)
  }

  ghost predicate DistinctTokens(s: State) {
    forall i, j :: i in s.mutexes && j in s.mutexes && i != j ==> s.mutexes[i].token != s.mutexes[j].token
  }

  ghost predicate Inv(s: State) {
    && DistinctTokens(s)
    && forall i :: Live(s, i) ==> Recorded(s, i)
  }

  /** No mutex has the token yet. */
  predicate Unused(s: State, token: string) {
    forall i :: i in s.mutexes ==> s.mutexes[i].token != token
  }

  lemma ApplyKeepsInv(s: State, step: Step)
    requires Inv(s) && (step.Create? ==> Unused(s, step.token))
    ensures Inv(Apply(s, step))
  {
    var s' := Apply(s, step);
    forall i | Live(s', i)
      ensures Recorded(s', i)
    {
      if i in s.mutexes && s'.mutexes[i] == s.mutexes[i] {
        assert Live(s, i) && Recorded(s, i);
      }
    }
  }

  lemma AtMostOneLive(s: State, i: nat, j: nat)
    requires Inv(s) && Live(s, i) && Live(s, j)
    requires s.mutexes[i].key == s.mutexes[j].key
    ensures i == j
  {
    assert Recorded(s, i) && Recorded(s, j);
  }

  // ---- tokens ----

  /** Mutex `id` gets the token `tokens(id)`: a long random string, or one its caller chose. */
  ghost predicate Uses(steps: seq<Step>, tokens: nat -> string) {
    forall k :: 0 <= k < |steps| && steps[k].Create? ==> steps[k].token == tokens(steps[k].id)
  }

  ghost predicate Injective(tokens: nat -> string) {
    forall i, j :: tokens(i) == tokens(j) ==> i == j
  }

  lemma {:induction false} RunsKeepInv(now: int, tokens: nat -> string, steps: seq<Step>)
    requires Injective(tokens) && Uses(steps, tokens)
    ensures
      var s := Exec(Init(now), steps);
      Inv(s) && forall i :: i in s.mutexes ==> s.mutexes[i].token == tokens(i)
  {
    if steps != [] {
      var front, step := steps[..|steps| - 1], steps[|steps| - 1];
      RunsKeepInv(now, tokens, front);
      if !(step.Create? && step.id in Exec(Init(now), front).mutexes) {
        ApplyKeepsInv(Exec(Init(now), front), step);
      }
    }
  }

  /** Mutual exclusion in every run with distinct tokens: two unexpired holders of one key are the same mutex. */
  lemma MutualExclusion(now: int, tokens: nat -> string, steps: seq<Step>, i: nat, j: nat)
    requires Injective(tokens) && Uses(steps, tokens)
    ensures
      var s := Exec(Init(now), steps);
      Live(s, i) && Live(s, j) && s.mutexes[i].key == s.mutexes[j].key ==> i == j
  {
    RunsKeepInv(now, tokens, steps);
    var s := Exec(Init(now), steps);
    if Live(s, i) && Live(s, j) && s.mutexes[i].key == s.mutexes[j].key {
      AtMostOneLive(s, i, j);
    }
  }

  /**
   In every run with distinct tokens, an unlock, however late, leaves the table entry of
   every other mutex in place, and a live lease of another mutex stays live. In particular a
   holder whose lease ran out cannot remove the entry of the one that took over.
   */
  lemma LateUnlockIsHarmless(now: int, tokens: nat -> string, steps: seq<Step>, late: nat, other: nat)
    requires late != other && Injective(tokens) && Uses(steps, tokens)
    ensures
      var s := Exec(Init(now), steps);
      var s' := Apply(s, Unlock(late));
      && (other in s.mutexes && Recorded(s, other) ==> other in s'.mutexes && Recorded(s', other))
      && (Live(s, other) ==> Live(s', other) && Recorded(s', other))
  {
    RunsKeepInv(now, tokens, steps);
    ApplyKeepsInv(Exec(Init(now), steps), Unlock(late));
  }

  // ---- progress ----

  /** The mutex wrote the entry of the key and still holds it. */
  predicate Owner(s: State, i: nat, key: string) {
    i in s.mutexes && s.mutexes[i].key == key && s.mutexes[i].held && Recorded(s, i)
  }

  ghost predicate EntriesOwned(s: State) {
    forall key :: key in s.keys ==> exists i :: Owner(s, i, key)
  }

  lemma ApplyKeepsOwners(s: State, step: Step)
    requires DistinctTokens(s) && EntriesOwned(s)
    ensures EntriesOwned(Apply(s, step))
  {
    var s' := Apply(s, step);
    forall key | key in s'.keys
      ensures exists i :: Owner(s', i, key)
    {
      if key in s.keys && s'.keys[key] == s.keys[key] {
        var i :| Owner(s, i, key);
        assert Owner(s', i, key);
      } else {
        assert Owner(s', step.id, key);
      }
    }
  }

  lemma {:induction false} RunsKeepOwners(now: int, tokens: nat -> string, steps: seq<Step>)
    requires Injective(tokens) && Uses(steps, tokens)
    ensures EntriesOwned(Exec(Init(now), steps))
  {
    if steps != [] {
      var front := steps[..|steps| - 1];
      RunsKeepInv(now, tokens, front);
      RunsKeepOwners(now, tokens, front);
      ApplyKeepsOwners(Exec(Init(now), front), steps[|steps| - 1]);
    }
  }

  /** Some mutex has an unexpired lease of the key. */
  ghost predicate Taken(s: State, key: string) {
    exists i :: Live(s, i) && s.mutexes[i].key == key
  }

  /**
   In every run with distinct tokens, an attempt of a mutex that is not held succeeds exactly
   if nobody has an unexpired lease of its key; it then holds the lease for the full expiry,
   and a failed attempt changes nothing.
   */
  lemma AttemptSucceedsIffNotTaken(now: int, tokens: nat -> string, steps: seq<Step>, id: nat)
    requires Injective(tokens) && Uses(steps, tokens)
    requires id in Exec(Init(now), steps).mutexes && !Exec(Init(now), steps).mutexes[id].held
    ensures
      var s := Exec(Init(now), steps);
      var s' := Apply(s, Attempt(id));
      if Taken(s, s.mutexes[id].key) then s' == s
      else
        && s'.mutexes == s.mutexes[id := s.mutexes[id].(held := true, until := s.now + s.mutexes[id].expiry)]
        && Recorded(s', id) && s'.now == s.now
        && forall key :: key in s.keys && key != s.mutexes[id].key ==> key in s'.keys && s'.keys[key] == s.keys[key]
  {
    RunsKeepInv(now, tokens, steps);
    RunsKeepOwners(now, tokens, steps);
    var s := Exec(Init(now), steps);
    var key := s.mutexes[id].key;
    if key in s.keys {
      var i :| Owner(s, i, key);
      assert s.keys[key].validUntil > s.now ==> Live(s, i);
    }
  }

  /** An unlock of a mutex that has its entry gives the key back at once. */
  lemma UnlockFreesTheKey(now: int, tokens: nat -> string, steps: seq<Step>, id: nat)
    requires Injective(tokens) && Uses(steps, tokens)
    requires var s := Exec(Init(now), steps); id in s.mutexes && s.mutexes[id].held && Recorded(s, id)
    ensures
      var s := Exec(Init(now), steps);
      var s' := Apply(s, Unlock(id));
      s'.mutexes == s.mutexes[id := s.mutexes[id].(held := false)] && !Taken(s', s.mutexes[id].key)
  {
    RunsKeepInv(now, tokens, steps);
    var s := Exec(Init(now), steps);
    var s' := Apply(s, Unlock(id));
    forall i | Live(s', i)
      ensures s'.mutexes[i].key != s.mutexes[id].key
    {
      assert Live(s, i) && Recorded(s, i);
    }
  }

  lemma {:induction false} ExecAppend(s: State, a: seq<Step>, b: seq<Step>)
    ensures Exec(s, a + b) == Exec(Exec(s, a), b)
  {
    if b == [] {
      assert a + b == a;
    } else {
      ExecAppend(s, a, b[..|b| - 1]);
      assert (a + b)[..|a + b| - 1] == a + b[..|b| - 1];
    }
  }

  lemma ExecThree(s: State, a: Step, b: Step, c: Step)
    ensures Exec(s, [a, b, c]) == Apply(Apply(Apply(s, a), b), c)
  {
    assert [a, b, c][..2] == [a, b] && [a, b][..1] == [a] && [a][..0] == [];
    assert Exec(s, [a]) == Apply(s, a);
    assert Exec(s, [a, b]) == Apply(Exec(s, [a]), b);
  }

  /** No two mutexes hold an unexpired lease of one key. */
  ghost predicate Exclusive(s: State) {
    forall i, j :: Live(s, i) && Live(s, j) && s.mutexes[i].key == s.mutexes[j].key ==> i == j
  }

  /** Three mutexes that nobody has locked. */
  ghost predicate Fresh(s: State, i: nat, j: nat, k: nat) {
    && s.keys == map[]
    && forall m :: m in {i, j, k} ==> m in s.mutexes && s.mutexes[m] == Mutex("", s.mutexes[m].token, 1, false, 0)
  }

  lemma ThreeMutexes(now: int, tokens: nat -> string, i: nat, j: nat, k: nat) returns (steps: seq<Step>)
    requires i != j && i != k && j != k
    ensures Uses(steps, tokens) && Fresh(Exec(Init(now), steps), i, j, k)
    ensures Exec(Init(now), steps).mutexes[i].token == tokens(i) && Exec(Init(now), steps).mutexes[j].token == tokens(j)
  {
    var a, b, c := Create(i, "", tokens(i), 1), Create(j, "", tokens(j), 1), Create(k, "", tokens(k), 1);
    steps := [a, b, c];
    ExecThree(Init(now), a, b, c);
  }

  /** The first one's lease runs out and the second takes over. */
  lemma TakeOver(s: State, i: nat, j: nat, k: nat) returns (steps: seq<Step>)
    requires i != j && i != k && j != k && Fresh(s, i, j, k)
    ensures forall n :: 0 <= n < |steps| ==> !steps[n].Create?
    ensures
      var s' := Exec(s, steps);
      && Live(s', j) && Recorded(s', j) && {i, j, k} <= s'.mutexes.Keys && s'.mutexes[i].held
      && s'.mutexes[k] == Mutex("", s.mutexes[k].token, 1, false, 0)
      && s'.mutexes[i].key == s'.mutexes[j].key == ""
      && s'.mutexes[i].token == s.mutexes[i].token && s'.mutexes[j].token == s.mutexes[j].token
  {
    steps := [Attempt(i), Tick(1), Attempt(j)];
    ExecThree(s, Attempt(i), Tick(1), Attempt(j));
  }

  /** The first one unlocks late, removing the entry of the second, and the third gets in. */
  lemma LateUnlock(s: State, i: nat, j: nat, k: nat) returns (steps: seq<Step>)
    requires i != j && i != k && j != k && {i, j, k} <= s.mutexes.Keys && s.mutexes[i].held
    requires Live(s, j) && Recorded(s, j)
    requires s.mutexes[k] == Mutex("", s.mutexes[k].token, 1, false, 0) && s.mutexes[i].key == s.mutexes[j].key == ""
    requires s.mutexes[i].token == s.mutexes[j].token
    ensures forall n :: 0 <= n < |steps| ==> !steps[n].Create?
    ensures !Exclusive(Exec(s, steps))
  {
    steps := [Unlock(i), Attempt(k), Tick(0)];
    ExecThree(s, Unlock(i), Attempt(k), Tick(0));
    var s' := Exec(s, steps);
    assert Live(s', j) && Live(s', k) && s'.mutexes[j].key == s'.mutexes[k].key;
  }

  /** With one token for two mutexes there is a run in which two mutexes hold the key. */
  lemma SharedTokenLetsThirdIn(now: int, tokens: nat -> string, i: nat, j: nat) returns (steps: seq<Step>)
    requires i != j && tokens(i) == tokens(j)
    ensures Uses(steps, tokens) && !Exclusive(Exec(Init(now), steps))
  {
    var k := i + j + 1;
    var a := ThreeMutexes(now, tokens, i, j, k);
    var b := TakeOver(Exec(Init(now), a), i, j, k);
    var c := LateUnlock(Exec(Exec(Init(now), a), b), i, j, k);
    steps := a + b + c;
    ExecAppend(Init(now), a, b);
    ExecAppend(Init(now), a + b, c);
  }

  /** Mutual exclusion holds in all runs exactly if no two mutexes are given the same token. */
  lemma ExclusionHoldsIffTokensDiffer(now: int, tokens: nat -> string)
    ensures (forall steps :: Uses(steps, tokens) ==> Exclusive(Exec(Init(now), steps))) <==> Injective(tokens)
  {
    if Injective(tokens) {
      forall steps | Uses(steps, tokens)
        ensures Exclusive(Exec(Init(now), steps))
      {
        forall i, j | Live(Exec(Init(now), steps), i) && Live(Exec(Init(now), steps), j)
          ensures Exec(Init(now), steps).mutexes[i].key == Exec(Init(now), steps).mutexes[j].key ==> i == j
        {
          MutualExclusion(now, tokens, steps, i, j);
        }
      }
    } else {
      var i: nat, j: nat :| tokens(i) == tokens(j) && i != j;
      var steps := SharedTokenLetsThirdIn(now, tokens, i, j);
    }
  }
}
