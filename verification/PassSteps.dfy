/** The pass method and the cluster machine describe the same pass. */
module PassSteps {
  import opened Jobs
  import opened JobStore
  import Pass
  import opened Cluster

  function WriteSteps(id: nat, writes: seq<Pass.Write>, instance: string, k: nat): seq<Step>
    requires k <= |writes|
  {
    if k == 0 then []
    else
      WriteSteps(id, writes, instance, k - 1)
      + [Act(id, WriteNext(writes[k - 1].reachable, writes[k - 1].now, NextAt(0), instance))]
  }

  lemma {:induction false} WritesMatch(
      s: Cluster, id: nat, todo: seq<Job>, writes: seq<Pass.Write>, instance: string, k: nat)
    requires k <= |todo| && k <= |writes|
    requires Inside(s, id) && s.ops[id].kind.ReadyPass? && s.ops[id].phase == Writing(todo)
    ensures
      var s' := Exec(s, WriteSteps(id, writes, instance, k));
      && Inside(s', id) && s'.ops[id] == Op(s.ops[id].kind, Writing(todo[k..]))
      && s'.rows == Pass.RowsAfter(s.rows, todo, writes, instance, k)
  {
    if k > 0 {
      WritesMatch(s, id, todo, writes, instance, k - 1);
      var front := WriteSteps(id, writes, instance, k - 1);
      var call := WriteNext(writes[k - 1].reachable, writes[k - 1].now, NextAt(0), instance);
      ExecStep(s, front, Act(id, call));
      assert todo[k - 1..][0] == todo[k - 1] && todo[k - 1..][1..] == todo[k..];
    }
  }

  /**
   A pass that nobody interrupts, made of the machine's steps, leaves the table exactly as
   the pass method does. What the machine adds is everything that can happen in between.
   */
  lemma UninterruptedPassMatches(
      s: Cluster, id: nat, now: int, r: Pass.Replies, writes: seq<Pass.Write>, instance: string)
    requires Inside(s, id) && s.ops[id].kind.ReadyPass? && s.ops[id].phase == Entered
    requires
      var maxRunning := s.ops[id].kind.maxRunning;
      && Pass.Truthful(s.rows, now, maxRunning, r) && Pass.Proceeds(maxRunning, r)
      && |writes| >= |Pass.Todo(maxRunning, r)|
    ensures
      var todo := Pass.Todo(s.ops[id].kind.maxRunning, r);
      var steps := [Act(id, Count), Act(id, List(now, r.ready.value))] + WriteSteps(id, writes, instance, |todo|);
      Exec(s, steps).rows == Pass.RowsAfter(s.rows, todo, writes, instance, |todo|)
  {
    var todo := Pass.Todo(s.ops[id].kind.maxRunning, r);
    var count, list := Act(id, Count), Act(id, List(now, r.ready.value));
    var listed := Exec(s, [count, list]);
    ExecStep(s, [], count);
    ExecStep(s, [count], list);
    assert [] + [count] == [count] && [count] + [list] == [count, list];
    assert listed.ops[id] == Op(s.ops[id].kind, Writing(todo)) && listed.rows == s.rows;
    WritesMatch(listed, id, todo, writes, instance, |todo|);
    ExecAppend(s, [count, list], WriteSteps(id, writes, instance, |todo|));
  }
}
