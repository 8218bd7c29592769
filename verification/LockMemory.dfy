/**
 The in-memory mutex provider and its mutex objects, in the imperative form of the source.

 `InMemMutex.Lock` sleeps between attempts, and while it sleeps other mutexes change the
 provider's table. What the caller meets on each wake-up is therefore an input: either the
 context ended, or the waiting time ran out, or the delay passed and the table is `view`.
 */
module LockMemory {
  import opened Lease

  datatype View = View(now: int, keys: Keys)

  datatype Wake = ContextDone | TimedOut | Delayed(view: View)

  datatype ErrorKind = LockHeld | LockNotHeld | CannotLock | ContextError | MaxRetriesExceeded

  datatype Result = Nil | Error(kind: ErrorKind)

  /** How a `Lock` call on a mutex that is not held ends. */
  datatype Outcome = Outcome(result: Result, acquired: bool, attempts: nat)

  predicate Free(view: View, key: string) {
    key in view.keys ==> view.keys[key].validUntil <= view.now
  }

  /** The retry loop, entered at iteration `i` after `i` failed attempts. */
  function Retries(i: nat, tries: int, key: string, wakes: seq<Wake>): Outcome
    requires |wakes| >= tries - 1 && i >= 1
    decreases tries - i
  {
    if i > tries then Outcome(Nil, false, i)
    else if i == tries then Outcome(Error(MaxRetriesExceeded), false, i)
    else
      match wakes[i - 1]
      case ContextDone => Outcome(Error(ContextError), false, i)
      case TimedOut => Outcome(Error(CannotLock), false, i)
      case Delayed(view) =>
        if Free(view, key) then Outcome(Nil, true, i + 1) else Retries(i + 1, tries, key, wakes)
  }

  function LockOutcome(tries: int, key: string, first: View, wakes: seq<Wake>): Outcome
    requires |wakes| >= tries - 1
  {
    if Free(first, key) then Outcome(Nil, true, 1) else Retries(1, tries, key, wakes)
  }

  /** The table met by attempt number `k`; attempt 0 is the one made before any waiting. */
  function ViewAt(k: nat, first: View, wakes: seq<Wake>): View
    requires k <= |wakes| && (k > 0 ==> wakes[k - 1].Delayed?)
  {
    if k == 0 then first else wakes[k - 1].view
  }

  /** Attempt `k` is reached: every wait before it ended by its delay, on a taken key. */
  ghost predicate Reaches(k: nat, key: string, first: View, wakes: seq<Wake>) {
    && k <= |wakes|
    && (forall j :: 0 <= j < k ==> wakes[j].Delayed?)
    && forall j :: 0 <= j < k ==> !Free(ViewAt(j, first, wakes), key)
  }

  lemma {:induction false} RetriesWin(i: nat, tries: int, key: string, first: View, wakes: seq<Wake>)
    requires |wakes| >= tries - 1 && 1 <= i <= tries
    requires Reaches(i - 1, key, first, wakes) && !Free(ViewAt(i - 1, first, wakes), key)
    ensures
      var o := Retries(i, tries, key, wakes);
      && 1 <= o.attempts <= tries
      && (o.acquired <==> o.result == Nil)
      && (o.acquired <==>
            exists k: nat :: k < tries && Reaches(k, key, first, wakes) && Free(ViewAt(k, first, wakes), key))
    decreases tries - i
  {
    if i < tries {
      if wakes[i - 1].Delayed? {
        assert Reaches(i, key, first, wakes);
        if !Free(wakes[i - 1].view, key) {
          RetriesWin(i + 1, tries, key, first, wakes);
        }
      } else {
        assert forall k: nat :: k >= i && Reaches(k, key, first, wakes) ==> wakes[i - 1].Delayed?;
      }
    }
  }

  /**
   With at least one try, `Lock` makes at most `tries` attempts; it returns nil exactly
   when one of its own attempts met a free key, and an error otherwise.
   */
  lemma LockSucceedsIff(tries: int, key: string, first: View, wakes: seq<Wake>)
    requires tries >= 1 && |wakes| >= tries - 1
    ensures
      var o := LockOutcome(tries, key, first, wakes);
      && 1 <= o.attempts <= tries
      && (o.result == Nil <==> o.acquired)
      && (o.acquired <==>
            exists k: nat :: k < tries && Reaches(k, key, first, wakes) && Free(ViewAt(k, first, wakes), key))
  {
    assert Reaches(0, key, first, wakes);
    if !Free(first, key) {
      RetriesWin(1, tries, key, first, wakes);
    }
  }

  /** The call waits in vain after its attempt `k`, and this is how the wait ends. */
  ghost predicate GivesUpAfter(k: nat, key: string, first: View, wakes: seq<Wake>) {
    Reaches(k, key, first, wakes) && !Free(ViewAt(k, first, wakes), key)
  }

  lemma {:induction false} RetriesFail(i: nat, tries: int, key: string, first: View, wakes: seq<Wake>)
    requires |wakes| >= tries - 1 && 1 <= i <= tries && GivesUpAfter(i - 1, key, first, wakes)
    ensures
      match Retries(i, tries, key, wakes).result
      case Nil => true
      case Error(kind) =>
        var n := Retries(i, tries, key, wakes).attempts - 1;
        && 0 <= n < tries && GivesUpAfter(n, key, first, wakes)
        && (kind == MaxRetriesExceeded <==> n == tries - 1)
        && (kind == ContextError <==> n < tries - 1 && wakes[n] == ContextDone)
        && (kind == CannotLock <==> n < tries - 1 && wakes[n] == TimedOut)
    decreases tries - i
  {
    if i < tries && wakes[i - 1].Delayed? && !Free(wakes[i - 1].view, key) {
      assert GivesUpAfter(i, key, first, wakes);
      RetriesFail(i + 1, tries, key, first, wakes);
    }
  }

  /**
   The error tells how the last wait ended: the context, the waiting time, or no wait at all
   because the tries were used up. Each attempt before it met a taken key.
   */
  lemma LockErrorTellsWhy(tries: int, key: string, first: View, wakes: seq<Wake>)
    requires tries >= 1 && |wakes| >= tries - 1 && LockOutcome(tries, key, first, wakes).result.Error?
    ensures
      var o := LockOutcome(tries, key, first, wakes);
      var n := o.attempts - 1;
      && 0 <= n < tries && GivesUpAfter(n, key, first, wakes)
      && (o.result.kind == MaxRetriesExceeded <==> n == tries - 1)
      && (o.result.kind == ContextError <==> n < tries - 1 && wakes[n] == ContextDone)
      && (o.result.kind == CannotLock <==> n < tries - 1 && wakes[n] == TimedOut)
  {
    LockSucceedsIff(tries, key, first, wakes);
    assert GivesUpAfter(0, key, first, wakes);
    RetriesFail(1, tries, key, first, wakes);
  }

  /**
   The exact condition under which a nil result can be trusted whatever the contention:
   the mutex must be configured with at least one try. With none, a taken key makes
   `Lock` return nil without the lease.
   */
  lemma NilMeansAcquiredIff(tries: int, key: string)
    ensures
      (forall first: View, wakes: seq<Wake> :: |wakes| >= tries - 1 ==>
        (LockOutcome(tries, key, first, wakes).result == Nil ==> LockOutcome(tries, key, first, wakes).acquired))
      <==> tries >= 1
  {
    if tries >= 1 {
      forall first: View, wakes: seq<Wake> | |wakes| >= tries - 1
        ensures LockOutcome(tries, key, first, wakes).result == Nil ==> LockOutcome(tries, key, first, wakes).acquired
      {
        LockSucceedsIff(tries, key, first, wakes);
      }
    } else {
      var taken := View(0, map[key := Entry("other", 1)]);
      var none: seq<Wake> := [];
      assert LockOutcome(tries, key, taken, none) == Outcome(Nil, false, 1);
    }
  }

  class InMemory {
    var keys: Keys

    constructor ()
      ensures keys == map[]
    {
      keys := map[];
    }

    method Acquire(key: string, token: string, ttl: int, now: int) returns (ok: bool)
      modifies this
      ensures Reply(ok, keys) == Lease.Acquire(old(keys), key, token, ttl, now)
    {
      if key in keys && keys[key].validUntil > now {
        return false;
      }
      keys := keys[key := Entry(token, now + ttl)];
      return true;
    }

    method Release(key: string, token: string) returns (ok: bool)
      modifies this
      ensures Reply(ok, keys) == Lease.Release(old(keys), key, token)
    {
      if key !in keys || keys[key].token != token {
        return false;
      }
      keys := keys - {key};
      return true;
    }
  }

  class InMemMutex {
    const provider: InMemory
    const key: string
    const token: string
    const expiry: int
    const tries: int
    var isHeld: bool

    constructor (provider: InMemory, key: string, token: string, expiry: int, tries: int)
      ensures this.provider == provider && this.key == key && this.token == token
      ensures this.expiry == expiry && this.tries == tries && !isHeld
    {
      this.provider := provider;
      this.key, this.token, this.expiry, this.tries := key, token, expiry, tries;
      isHeld := false;
    }

    /**
     A call on a held mutex changes nothing. Otherwise the held flag is set exactly when
     this call acquired the lease, and then the table holds this mutex's entry; a call
     that did not acquire leaves the table as the others left it.
     */
    method Lock(now: int, wakes: seq<Wake>) returns (result: Result, attempts: nat)
      requires |wakes| >= tries - 1
      modifies this, provider
      ensures old(isHeld) ==>
        result == Error(LockHeld) && attempts == 0 && isHeld && provider.keys == old(provider.keys)
      ensures !old(isHeld) ==>
        var o := LockOutcome(tries, key, View(now, old(provider.keys)), wakes);
        && result == o.result && attempts == o.attempts && isHeld == o.acquired
        && 1 <= attempts <= |wakes| + 1
        && (attempts > 1 ==> wakes[attempts - 2].Delayed?)
        && var met := ViewAt(attempts - 1, View(now, old(provider.keys)), wakes);
           provider.keys == if isHeld then met.keys[key := Entry(token, met.now + expiry)] else met.keys
    {
      if isHeld {
        return Error(LockHeld), 0;
      }
      var first := View(now, provider.keys);
      var ok := provider.Acquire(key, token, expiry, now);
      if ok {
        isHeld := true;
        return Nil, 1;
      }
      var i := 1;
      while !isHeld && i <= tries
        invariant 1 <= i
        invariant !isHeld ==>
          && (i > 1 ==> i - 1 <= |wakes| && wakes[i - 2].Delayed?)
          && provider.keys == ViewAt(i - 1, first, wakes).keys
          && LockOutcome(tries, key, first, wakes) == Retries(i, tries, key, wakes)
        invariant isHeld ==>
          && 2 <= i && i - 1 <= |wakes| && wakes[i - 2].Delayed?
          && LockOutcome(tries, key, first, wakes) == Outcome(Nil, true, i)
          && provider.keys == wakes[i - 2].view.keys[key := Entry(token, wakes[i - 2].view.now + expiry)]
        decreases tries - i + 1
      {
        var failure := Retry(i, wakes);
        if failure != Nil {
          return failure, i;
        }
        i := i + 1;
      }
      return Nil, i;
    }

    /** One iteration: give up, or wait and try once more. */
    method Retry(attempt: nat, wakes: seq<Wake>) returns (failure: Result)
      requires !isHeld && 1 <= attempt <= tries && |wakes| >= tries - 1
      modifies this, provider
      ensures attempt == tries ==>
        failure == Error(MaxRetriesExceeded) && !isHeld && provider.keys == old(provider.keys)
      ensures attempt < tries ==>
        match wakes[attempt - 1]
        case ContextDone => failure == Error(ContextError) && !isHeld && provider.keys == old(provider.keys)
        case TimedOut => failure == Error(CannotLock) && !isHeld && provider.keys == old(provider.keys)
        case Delayed(view) =>
          && failure == Nil
          && Reply(isHeld, provider.keys) == Lease.Acquire(view.keys, key, token, expiry, view.now)
    {
      if attempt == tries {
        return Error(MaxRetriesExceeded);
      }
      match wakes[attempt - 1]
      case ContextDone => return Error(ContextError);
      case TimedOut => return Error(CannotLock);
      case Delayed(view) =>
        provider.keys := view.keys; // what the other mutexes did in the meantime
        var ok := provider.Acquire(key, token, expiry, view.now);
        if ok {
          isHeld := true;
        }
        return Nil;
    }

    /** Succeeds exactly when this mutex is held and the table still carries its token. */
    method Unlock() returns (result: Result)
      modifies this, provider
      ensures
        var r := Lease.Release(old(provider.keys), key, token);
        if old(isHeld) && r.ok then result == Nil && !isHeld && provider.keys == r.keys
        else result == Error(LockNotHeld) && isHeld == old(isHeld) && provider.keys == old(provider.keys)
    {
      if !isHeld {
        return Error(LockNotHeld);
      }
      var ok := provider.Release(key, token);
      if !ok {
        return Error(LockNotHeld);
      }
      isHeld := false;
      return Nil;
    }
  }
}
