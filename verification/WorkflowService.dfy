// The workflow builder: steps with `after` edges, submitted in topological order.

module WorkflowService {
  import opened Wrappers
  import opened PhaseSpecs
  import opened Dag

  class WorkflowStep {
    const after: seq<WorkflowStep>
    var task: Option<nat>

    constructor (after: seq<WorkflowStep>)
      ensures this.after == after && task == None
    {
      this.after, task := after, None;
    }
  }

  /** Accepts submissions; the id of a task is its rank, so ids are never reused. */
  class TaskSubmitter {
    var submitted: seq<seq<nat>>

    constructor ()
      ensures submitted == []
    {
      submitted := [];
    }

    method SubmitTask(dependsOn: seq<nat>) returns (id: nat)
      modifies this
      ensures id == |old(submitted)| && submitted == old(submitted) + [dependsOn]
    {
      id := |submitted|;
      submitted := submitted + [dependsOn];
    }
  }

  function Described(steps: seq<WorkflowStep>): (specs: seq<Spec<WorkflowStep>>)
    ensures |specs| == |steps|
    ensures forall i | 0 <= i < |steps| :: specs[i] == TaskSpec(steps[i], steps[i].after)
    ensures Ids(specs) == steps
  {
    seq(|steps|, i requires 0 <= i < |steps| => TaskSpec(steps[i], steps[i].after))
  }

  /** Every `after` edge leads to a step of the workflow. */
  ghost predicate SelfContained(steps: seq<WorkflowStep>) {
    forall s, a | s in steps && a in s.after :: a in steps
  }

  ghost predicate AfterFirst(order: seq<WorkflowStep>) {
    forall i, a | 0 <= i < |order| && a in order[i].after :: a in order[..i]
  }

  method TopologicalSort(steps: seq<WorkflowStep>) returns (r: Result<seq<WorkflowStep>, DagError>)
    requires NoDuplicates(steps)
    ensures r.Ok? <==> SelfContained(steps) && Acyclic(Edges(Described(steps)))
    ensures r == Err(UnknownDependency) <==> !SelfContained(steps)
    ensures r.Ok? ==> multiset(r.value) == multiset(steps) && AfterFirst(r.value)
  {
    var specs := Described(steps);
    DescribedKnown(steps);
    var sorted := ValidateDag(specs);
    match sorted {
      case Err(e) => r := Err(e);
      case Ok(order) =>
        SortedSteps(steps, order);
        r := Ok(Ids(order));
    }
  }

  lemma DescribedKnown(steps: seq<WorkflowStep>)
    ensures KnownDependencies(Described(steps)) <==> SelfContained(steps)
  {
    var specs := Described(steps);
    if KnownDependencies(specs) {
      forall s, a | s in steps && a in s.after
        ensures a in steps
      {
        var i :| 0 <= i < |steps| && steps[i] == s;
        assert specs[i] in specs && a in specs[i].dependsOn;
      }
    }
    if SelfContained(steps) {
      forall t, d | t in specs && d in t.dependsOn
        ensures d in Ids(specs)
      {
        var i :| 0 <= i < |specs| && specs[i] == t;
        assert steps[i] in steps;
      }
    }
  }

  lemma SortedSteps(steps: seq<WorkflowStep>, order: seq<Spec<WorkflowStep>>)
    requires NoDuplicates(steps) && multiset(order) == multiset(Described(steps)) && DependenciesFirst(order)
    ensures multiset(Ids(order)) == multiset(steps) && AfterFirst(Ids(order))
  {
    var specs, ids := Described(steps), Ids(order);
    DistinctIdsDistinctTasks(specs);
    forall t | t in order
      ensures t in specs && t.dependsOn == t.id.after
    {
      assert t in multiset(order);
    }
    forall i, j | 0 <= i < j < |order|
      ensures ids[i] != ids[j]
    {
      assert order[i] in order && order[j] in order;
      if ids[i] == ids[j] {
        assert order[i] == order[j];
        assert multiset(order)[order[i]] >= 2 by {
          assert order == order[..j] + [order[j]] + order[j + 1..];
          assert order[i] in order[..j];
        }
        DistinctCount(specs, order[i]);
      }
    }
    forall x | x in ids
      ensures x in steps
    {
      var i :| 0 <= i < |order| && ids[i] == x;
      assert order[i] in order;
    }
    forall x | x in steps
      ensures x in ids
    {
      var i :| 0 <= i < |steps| && steps[i] == x;
      assert specs[i] in multiset(specs);
      assert specs[i] in order;
      var k :| 0 <= k < |order| && order[k] == specs[i];
      assert ids[k] == x;
    }
    SameDistinctElements(ids, steps);
    forall i, a | 0 <= i < |ids| && a in ids[i].after
      ensures a in ids[..i]
    {
      assert order[i] in order;
      assert Ids(order[..i]) == ids[..i];
    }
  }

  /** The recorded task ids of the given steps, in order; steps not yet submitted are passed over. */
  function TaskIds(steps: seq<WorkflowStep>): seq<nat>
    reads steps
  {
    if steps == [] then []
    else (if steps[0].task.Some? then [steps[0].task.value] else []) + TaskIds(steps[1..])
  }

  /** The step was submitted with one dependency for each `after` edge, all submitted earlier. */
  ghost predicate Submitted(s: WorkflowStep, submitted: seq<seq<nat>>)
    reads s, s.after
  {
    && s.task.Some? && s.task.value < |submitted|
    && |submitted[s.task.value]| == |s.after|
    && forall k | 0 <= k < |s.after| ::
         s.after[k].task == Some(submitted[s.task.value][k]) && submitted[s.task.value][k] < s.task.value
  }

  lemma {:induction false} TaskIdsComplete(steps: seq<WorkflowStep>)
    requires forall s | s in steps :: s.task.Some?
    ensures |TaskIds(steps)| == |steps|
    ensures forall k | 0 <= k < |steps| :: steps[k].task == Some(TaskIds(steps)[k])
  {
    if steps != [] {
      assert steps[0] in steps;
      TaskIdsComplete(steps[1..]);
    }
  }

  class Workflow {
    var steps: seq<WorkflowStep>

    constructor ()
      ensures steps == []
    {
      steps := [];
    }

    method Step(after: seq<WorkflowStep>) returns (s: WorkflowStep)
      modifies this
      ensures fresh(s) && s.after == after && s.task == None
      ensures steps == old(steps) + [s]
    {
      s := new WorkflowStep(after);
      steps := steps + [s];
    }

    /**
      * Submits every step once, after all steps it waits for, and passes on every `after` edge; an
      * invalid graph submits nothing.
      */
    method Run(submitter: TaskSubmitter) returns (r: Result<seq<nat>, DagError>)
      requires NoDuplicates(steps)
      modifies submitter, set s | s in steps :: s
      ensures r.Ok? <==> SelfContained(steps) && Acyclic(Edges(Described(steps)))
      ensures r.Err? ==> submitter.submitted == old(submitter.submitted)
      ensures r.Ok? ==> |submitter.submitted| == |old(submitter.submitted)| + |steps| && |r.value| == |steps|
      ensures r.Ok? ==> forall s | s in steps :: Submitted(s, submitter.submitted) && s.task.value in r.value
      ensures steps == old(steps)
    {
      var sorted := TopologicalSort(steps);
      if sorted.Err? {
        return Err(sorted.error);
      }
      var order := sorted.value;
      ghost var base := |submitter.submitted|;
      OrderDistinct(order, steps);
      var tasks := SubmitInOrder(order, submitter);
      AllSubmitted(order, base, submitter.submitted, tasks);
      r := Ok(tasks);
    }
  }

  method SubmitInOrder(order: seq<WorkflowStep>, submitter: TaskSubmitter) returns (tasks: seq<nat>)
    requires NoDuplicates(order) && AfterFirst(order)
    modifies submitter, set s | s in order :: s
    ensures var base := |old(submitter.submitted)|;
            && |submitter.submitted| == base + |order| && |tasks| == |order|
            && (forall k | 0 <= k < |order| :: order[k].task == Some(base + k) && tasks[k] == base + k)
            && (forall k | 0 <= k < |order| :: submitter.submitted[base + k] == Ranks(order, base, order[k].after))
  {
    ghost var base := |submitter.submitted|;
    tasks := [];
    for i := 0 to |order|
      invariant |submitter.submitted| == base + i && |tasks| == i
      invariant forall k | 0 <= k < i :: order[k].task == Some(base + k) && tasks[k] == base + k
      invariant forall k | 0 <= k < i :: submitter.submitted[base + k] == Ranks(order, base, order[k].after)
    {
      var step := order[i];
      assert step in order;
      RanksAre(order, base, i, step.after);
      var dependsOn := TaskIds(step.after);
      var id := submitter.SubmitTask(dependsOn);
      step.task := Some(id);
      tasks := tasks + [id];
    }
  }

  lemma AllSubmitted(order: seq<WorkflowStep>, base: nat, submitted: seq<seq<nat>>, tasks: seq<nat>)
    requires NoDuplicates(order) && AfterFirst(order)
    requires |submitted| == base + |order| && |tasks| == |order|
    requires forall k | 0 <= k < |order| :: order[k].task == Some(base + k) && tasks[k] == base + k
    requires forall k | 0 <= k < |order| :: submitted[base + k] == Ranks(order, base, order[k].after)
    ensures forall s | s in order :: Submitted(s, submitted) && s.task.value in tasks
  {
    forall s | s in order
      ensures Submitted(s, submitted) && s.task.value in tasks
    {
      var k := Position(order, s);
      RanksAre(order, base, k, s.after);
      assert tasks[k] == base + k;
    }
  }

  /** The ids the given steps receive when `order` is submitted from id `base` on. */
  ghost function Ranks(order: seq<WorkflowStep>, base: nat, steps: seq<WorkflowStep>): seq<nat>
  {
    seq(|steps|, k requires 0 <= k < |steps| => base + if steps[k] in order then Position(order, steps[k]) else 0)
  }

  lemma RanksAre(order: seq<WorkflowStep>, base: nat, i: nat, after: seq<WorkflowStep>)
    requires i < |order| && NoDuplicates(order)
    requires forall a | a in after :: a in order[..i]
    requires forall k | 0 <= k < i :: order[k].task == Some(base + k)
    ensures TaskIds(after) == Ranks(order, base, after)
    ensures |Ranks(order, base, after)| == |after|
    ensures forall k | 0 <= k < |after| ::
              after[k].task == Some(Ranks(order, base, after)[k]) && Ranks(order, base, after)[k] < base + i
  {
    forall a | a in after
      ensures a in order && Position(order, a) < i && a.task == Some(base + Position(order, a))
    {
      var k :| 0 <= k < i && order[..i][k] == a;
      assert order[k] == a;
      assert Position(order, a) == k;
    }
    TaskIdsComplete(after);
  }

  lemma OrderDistinct(order: seq<WorkflowStep>, steps: seq<WorkflowStep>)
    requires NoDuplicates(steps) && multiset(order) == multiset(steps)
    ensures NoDuplicates(order) && |order| == |steps|
    ensures forall s :: s in order <==> s in steps
  {
    assert |order| == |multiset(order)| == |multiset(steps)| == |steps|;
    forall s
      ensures s in order <==> s in steps
    {
      assert s in multiset(order) <==> s in multiset(steps);
    }
    forall i, j | 0 <= i < j < |order|
      ensures order[i] != order[j]
    {
      if order[i] == order[j] {
        assert order == order[..j] + [order[j]] + order[j + 1..];
        assert order[i] in order[..j];
        DistinctCount(steps, order[i]);
      }
    }
  }
}
