/**
 Goroutines of one instance that execute jobs, and the map of cancel functions that keeps
 a job from being executed twice at a time. The map is only touched under a mutex, so
 looking up and registering a job is one step.
 */
module Executions {

  /** Between `Starting` and `Settling` a goroutine is inside `doExec`. */
  datatype Stage =
    | Starting            // spawned, not registered yet
    | Handling            // registered, its handler runs
    | Returned            // the handler has returned, the entry is still registered
    | Refused             // the job was being executed already: the start failed
    | Settling            // back from `doExec`, about to update the store

  datatype Goroutine = Goroutine(uid: string, stage: Stage, canceled: bool)

  /** `cancelJobMap` maps a job to the goroutine whose context its cancel function ends. */
  datatype Instance = Instance(goroutines: map<nat, Goroutine>, cancelJobMap: map<string, nat>)

  datatype Step =
    | Spawn(g: nat, uid: string)
    | Register(g: nat)
    | HandlerReturns(g: nat)
    | Unregister(g: nat)
    | GiveUp(g: nat)
    | CancelJob(uid: string)
    | Exit(g: nat)

  const INIT := Instance(map[], map[])

  predicate At(s: Instance, g: nat, stage: Stage) {
    g in s.goroutines && s.goroutines[g].stage == stage
  }

  function Move(s: Instance, g: nat, stage: Stage): Instance
    requires g in s.goroutines
  {
    s.(goroutines := s.goroutines[g := s.goroutines[g].(stage := stage)])
  }

  function Apply(s: Instance, step: Step): Instance {
    match step
    case Spawn(g, uid) =>
      if g in s.goroutines then s else s.(goroutines := s.goroutines[g := Goroutine(uid, Starting, false)])
    case Register(g) =>
      if !At(s, g, Starting) then s
      else if s.goroutines[g].uid in s.cancelJobMap then Move(s, g, Refused)
      else Move(s.(cancelJobMap := s.cancelJobMap[s.goroutines[g].uid := g]), g, Handling)
    case HandlerReturns(g) => if At(s, g, Handling) then Move(s, g, Returned) else s
    case Unregister(g) =>
      if At(s, g, Returned) then Move(s.(cancelJobMap := s.cancelJobMap - {s.goroutines[g].uid}), g, Settling) else s
    case GiveUp(g) => if At(s, g, Refused) then Move(s, g, Settling) else s
    case CancelJob(uid) =>
      if uid !in s.cancelJobMap || s.cancelJobMap[uid] !in s.goroutines then s
      else
        var g := s.cancelJobMap[uid];
        s.(goroutines := s.goroutines[g := s.goroutines[g].(canceled := true)])
    case Exit(g) => if At(s, g, Settling) then s.(goroutines := s.goroutines - {g}) else s
  }

  function Exec(s: Instance, steps: seq<Step>): Instance {
    if steps == [] then s else Apply(Exec(s, steps[..|steps| - 1]), steps[|steps| - 1])
  }

  /** The goroutine owns the registration of its job. */
  predicate Owns(s: Instance, g: nat) {
    At(s, g, Handling) || At(s, g, Returned)
  }

  ghost predicate Inv(s: Instance) {
    && (forall g :: Owns(s, g) ==> s.goroutines[g].uid in s.cancelJobMap && s.cancelJobMap[s.goroutines[g].uid] == g)
    && (forall u :: u in s.cancelJobMap ==> Owns(s, s.cancelJobMap[u]) && s.goroutines[s.cancelJobMap[u]].uid == u)
    && (forall g :: g in s.goroutines && s.goroutines[g].stage in {Starting, Refused} ==> !s.goroutines[g].canceled)
  }

  lemma RegisterKeepsInv(s: Instance, g: nat)
    requires Inv(s)
    ensures Inv(Apply(s, Register(g)))
  {
    var s' := Apply(s, Register(g));
    assert forall h :: h != g && Owns(s', h) ==> Owns(s, h);
    assert forall h :: Owns(s, h) ==> Owns(s', h);
  }

  lemma UnregisterKeepsInv(s: Instance, g: nat)
    requires Inv(s)
    ensures Inv(Apply(s, Unregister(g)))
  {
    var s' := Apply(s, Unregister(g));
    assert forall h :: Owns(s', h) ==> Owns(s, h);
    assert forall h :: h != g && Owns(s, h) ==> Owns(s', h);
  }

  lemma ApplyKeepsInv(s: Instance, step: Step)
    requires Inv(s)
    ensures Inv(Apply(s, step))
  {
    match step
    case Register(g) => RegisterKeepsInv(s, g);
    case Unregister(g) => UnregisterKeepsInv(s, g);
    case _ =>
      var s' := Apply(s, step);
      assert s'.cancelJobMap == s.cancelJobMap;
      assert forall h :: Owns(s, h) <==> Owns(s', h);
      assert forall h :: Owns(s, h) ==> s'.goroutines[h].uid == s.goroutines[h].uid;
  }

  lemma {:induction false} RunsKeepInv(steps: seq<Step>)
    ensures Inv(Exec(INIT, steps))
  {
    if steps != [] {
      RunsKeepInv(steps[..|steps| - 1]);
      ApplyKeepsInv(Exec(INIT, steps[..|steps| - 1]), steps[|steps| - 1]);
    }
  }

  /**
   In every run at most one handler per job executes on the instance, however often the
   job was started again while an old goroutine was still alive.
   */
  lemma OneHandlerPerJob(steps: seq<Step>, g: nat, h: nat)
    ensures
      var s := Exec(INIT, steps);
      At(s, g, Handling) && At(s, h, Handling) && s.goroutines[g].uid == s.goroutines[h].uid ==> g == h
  {
    RunsKeepInv(steps);
    var s := Exec(INIT, steps);
    assert At(s, g, Handling) ==> Owns(s, g);
    assert At(s, h, Handling) ==> Owns(s, h);
  }

  /** The map holds exactly the jobs being executed, each with the goroutine that executes it. */
  lemma MapHoldsExactlyTheExecuted(steps: seq<Step>, uid: string, g: nat)
    ensures
      var s := Exec(INIT, steps);
      (uid in s.cancelJobMap && s.cancelJobMap[uid] == g) <==> (Owns(s, g) && s.goroutines[g].uid == uid)
  {
    RunsKeepInv(steps);
  }

  /**
   A refused start leaves the registration of the owner alone, from the refusal to its
   exit, and is never hit by a cancellation meant for the owner.
   */
  lemma RefusedStartIsHarmless(steps: seq<Step>, g: nat)
    ensures
      var s := Exec(INIT, steps);
      && (At(s, g, Starting) && s.goroutines[g].uid in s.cancelJobMap ==>
            At(Apply(s, Register(g)), g, Refused) && Apply(s, Register(g)).cancelJobMap == s.cancelJobMap)
      && (At(s, g, Refused) ==>
            && !s.goroutines[g].canceled
            && forall step :: step in {Register(g), HandlerReturns(g), Unregister(g), GiveUp(g), Exit(g)} ==>
                 Apply(s, step).cancelJobMap == s.cancelJobMap)
  {
    RunsKeepInv(steps);
  }

  lemma ExecFive(s: Instance, a: Step, b: Step, c: Step, d: Step, e: Step)
    ensures Exec(s, [a, b, c, d, e]) == Apply(Apply(Apply(Apply(Apply(s, a), b), c), d), e)
  {
    assert [a, b, c, d, e][..4] == [a, b, c, d] && [a, b, c, d][..3] == [a, b, c] && [a, b, c][..2] == [a, b];
    assert [a, b][..1] == [a] && [a][..0] == [];
    assert Exec(s, [a]) == Apply(s, a);
    assert Exec(s, [a, b]) == Apply(Exec(s, [a]), b);
    assert Exec(s, [a, b, c]) == Apply(Exec(s, [a, b]), c);
    assert Exec(s, [a, b, c, d]) == Apply(Exec(s, [a, b, c]), d);
  }

  /** An execution that is not disturbed runs its handler and leaves the instance as it was. */
  lemma ExecutionLeavesNothingBehind(s: Instance, g: nat, uid: string)
    requires g !in s.goroutines && uid !in s.cancelJobMap
    ensures At(Apply(Apply(s, Spawn(g, uid)), Register(g)), g, Handling)
    ensures Exec(s, [Spawn(g, uid), Register(g), HandlerReturns(g), Unregister(g), Exit(g)]) == s
  {
    ExecFive(s, Spawn(g, uid), Register(g), HandlerReturns(g), Unregister(g), Exit(g));
  }

  /** So does a refused one. */
  lemma RefusedStartLeavesNothingBehind(s: Instance, g: nat, uid: string)
    requires g !in s.goroutines && uid in s.cancelJobMap
    ensures At(Apply(Apply(s, Spawn(g, uid)), Register(g)), g, Refused)
    ensures Apply(Apply(Apply(Apply(s, Spawn(g, uid)), Register(g)), GiveUp(g)), Exit(g)) == s
  {
  }

  // ---- cancellation ----

  /** What one step does to the flag of a goroutine that is there before and after it. */
  ghost predicate FlagFollows(s: Instance, step: Step, g: nat) {
    var s' := Apply(s, step);
    g in s.goroutines && g in s'.goroutines ==>
      && s'.goroutines[g].uid == s.goroutines[g].uid
      && (s'.goroutines[g].canceled <==>
          s.goroutines[g].canceled || (Owns(s, g) && step == CancelJob(s.goroutines[g].uid)))
  }

  /**
   In every run, a cancellation of a job reaches exactly the goroutine that executes it, no
   other step cancels a goroutine, and no step takes a cancellation back.
   */
  lemma CancellationReachesTheOwner(steps: seq<Step>, step: Step, g: nat)
    ensures FlagFollows(Exec(INIT, steps), step, g)
  {
    RunsKeepInv(steps);
  }

  /** It changes nothing else. */
  lemma CancellationChangesNothingElse(s: Instance, uid: string)
    ensures
      var s' := Apply(s, CancelJob(uid));
      && s'.cancelJobMap == s.cancelJobMap && s'.goroutines.Keys == s.goroutines.Keys
      && forall g :: g in s.goroutines ==>
           s'.goroutines[g].(canceled := s.goroutines[g].canceled) == s.goroutines[g]
  {
  }

  /** Every canceled goroutine was hit, while it executed its job, by a cancellation of that job. */
  lemma {:induction false} FlagsComeFromCancellations(steps: seq<Step>, g: nat) returns (k: nat)
    requires var s := Exec(INIT, steps); g in s.goroutines && s.goroutines[g].canceled
    ensures k < |steps| && steps[k] == CancelJob(Exec(INIT, steps).goroutines[g].uid)
    ensures Owns(Exec(INIT, steps[..k]), g)
  {
    var n := |steps| - 1;
    var before := Exec(INIT, steps[..n]);
    CancellationReachesTheOwner(steps[..n], steps[n], g);
    if before.goroutines[g].canceled {
      k := FlagsComeFromCancellations(steps[..n], g);
      assert steps[..n][..k] == steps[..k];
    } else {
      k := n;
    }
  }

  /**
   The cancel map as the scheduler uses it. `instance` records what the goroutines are doing;
   each method is one step of theirs. `ended` are the goroutines whose context was ended.
   */
  class CancelMap {
    var entries: map<string, nat>
    var ended: set<nat>
    ghost var instance: Instance

    ghost predicate Valid()
      reads this
    {
      && Inv(instance) && entries == instance.cancelJobMap
      && forall g :: Owns(instance, g) ==> (g in ended <==> instance.goroutines[g].canceled)
    }

    constructor ()
      ensures Valid() && instance == INIT
    {
      entries, ended, instance := map[], {}, INIT;
    }

    /**
     The check-and-register at the start of `doExec`: the goroutine may run the handler
     exactly if no other goroutine has the job registered, and no registration is lost.
     */
    method TryRegister(g: nat, uid: string) returns (ok: bool)
      requires Valid() && At(instance, g, Starting) && instance.goroutines[g].uid == uid
      modifies this
      ensures Valid() && instance == Apply(old(instance), Register(g))
      ensures ok <==> At(instance, g, Handling)
      ensures ok <==> forall h :: Owns(old(instance), h) ==> old(instance).goroutines[h].uid != uid
      ensures forall h :: Owns(old(instance), h) ==> Owns(instance, h)
    {
      RegisterKeepsInv(instance, g);
      ended := ended - {g};
      assert forall h :: Owns(instance, h) && instance.goroutines[h].uid == uid ==> entries[uid] == h;
      instance := Apply(instance, Register(g));
      if uid in entries {
        return false;
      }
      entries := entries[uid := g];
      return true;
    }

    /** The removal at the end of `doExec`: the goroutine gives up its own registration and no other. */
    method Remove(g: nat, uid: string)
      requires Valid() && At(instance, g, Returned) && instance.goroutines[g].uid == uid
      modifies this
      ensures Valid() && instance == Apply(old(instance), Unregister(g))
      ensures forall h :: Owns(instance, h) <==> Owns(old(instance), h) && h != g
    {
      UnregisterKeepsInv(instance, g);
      instance := Apply(instance, Unregister(g));
      entries := entries - {uid};
    }

    /**
     The lookup of a cancellation: it finds the goroutine that executes the job, and nothing
     exactly if no goroutine of this instance does.
     */
    method Lookup(uid: string) returns (found: bool, g: nat)
      requires Valid()
      ensures found ==> Owns(instance, g) && instance.goroutines[g].uid == uid
      ensures !found ==> forall h :: Owns(instance, h) ==> instance.goroutines[h].uid != uid
    {
      if uid in entries {
        return true, entries[uid];
      }
      return false, 0;
    }

    /**
     A cancellation ends the context of the goroutine that executes the job, and of no other;
     if this instance does not execute the job, the other instances are to be told.
     */
    method Cancel(uid: string) returns (found: bool)
      requires Valid()
      modifies this
      ensures Valid() && instance == Apply(old(instance), CancelJob(uid)) && entries == old(entries)
      ensures found <==> exists g :: Owns(old(instance), g) && old(instance).goroutines[g].uid == uid
      ensures forall g ::
                g in ended <==> g in old(ended) || (Owns(old(instance), g) && old(instance).goroutines[g].uid == uid)
    {
      var g;
      found, g := Lookup(uid);
      ApplyKeepsInv(instance, CancelJob(uid));
      assert forall h :: Owns(instance, h) <==> Owns(Apply(instance, CancelJob(uid)), h);
      assert forall h :: Owns(instance, h) && instance.goroutines[h].uid == uid ==> found && h == g;
      instance := Apply(instance, CancelJob(uid));
      if found {
        ended := ended + {g};
      }
    }
  }
}
