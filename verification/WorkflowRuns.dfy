// One tracked workflow run: how completions, failures, retries and cancellation move its status,
// the status of its phases, and the one-time cleanup.

module WorkflowRuns {
  import opened PhaseSpecs
  import opened Tasks
  import opened Wrappers

  datatype Status = Pending | Running | Complete | Failed | Cancelled | Skipped

  datatype Phase = Phase(name: string, taskIds: seq<Id>, status: Status)

  /**
    * `finished` says that the completion time is set, `cleanups` counts how often branch cleanup was
    * triggered. The phase tables are the manager's, restricted to this run.
    */
  datatype WorkflowRun = WorkflowRun(
    taskIds: seq<Id>, phases: seq<Phase>, status: Status, completed: set<Id>, failed: set<Id>, finished: bool,
    phaseOf: map<Id, string>, phaseCompleted: map<string, set<Id>>, phaseFailed: map<string, set<Id>>,
    cleanups: nat)

  // ---- Submission ----

  function NewRun(taskIds: seq<Id>): WorkflowRun {
    WorkflowRun(taskIds, [], Pending, {}, {}, false, map[], map[], map[], 0)
  }

  function SetOf(table: map<string, set<Id>>, name: string): set<Id> {
    if name in table then table[name] else {}
  }

  function Assign(phaseOf: map<Id, string>, ids: seq<Id>, name: string): (r: map<Id, string>)
    ensures forall t :: t in r <==> t in phaseOf || t in ids
    ensures forall t | t in r :: r[t] == if t in ids then name else phaseOf[t]
    decreases ids
  {
    if ids == [] then phaseOf else Assign(phaseOf[ids[0] := name], ids[1..], name)
  }

  /** Skipped and empty phases are not tracked. */
  function RegisterPhases(run: WorkflowRun, phases: seq<Phase>): WorkflowRun
    decreases phases
  {
    if phases == [] then run
    else
      var p := phases[0];
      if p.status.Skipped? || p.taskIds == [] then RegisterPhases(run, phases[1..])
      else
        RegisterPhases(
          run.(phaseOf := Assign(run.phaseOf, p.taskIds, p.name),
               phaseCompleted := run.phaseCompleted[p.name := SetOf(run.phaseCompleted, p.name)],
               phaseFailed := run.phaseFailed[p.name := SetOf(run.phaseFailed, p.name)]), phases[1..])
  }

  function Started(taskIds: seq<Id>, phases: seq<Phase>): WorkflowRun {
    RegisterPhases(NewRun(taskIds).(phases := phases), phases)
  }

  // ---- Status ----

  predicate Covered(run: WorkflowRun) {
    forall t | t in run.taskIds :: t in run.completed || t in run.failed
  }

  function UpdateStatus(run: WorkflowRun): WorkflowRun {
    run.(status := if run.failed != {} then Failed
                   else if Covered(run) then Complete
                   else if run.completed != {} then Running
                   else Pending,
         finished := run.finished || Covered(run),
         cleanups := run.cleanups + if !run.finished && Covered(run) then 1 else 0)
  }

  /** The first phase of that name. */
  function FindPhase(phases: seq<Phase>, name: string): (r: Option<nat>)
    ensures r.None? ==> forall i | 0 <= i < |phases| :: phases[i].name != name
    ensures r.Some? ==> r.value < |phases| && phases[r.value].name == name
    ensures r.Some? ==> forall i | 0 <= i < r.value :: phases[i].name != name
  {
    if phases == [] then None
    else if phases[0].name == name then Some(0)
    else match FindPhase(phases[1..], name)
      case None => None
      case Some(i) => assert phases[1..][i] == phases[i + 1]; Some(i + 1)
  }

  predicate Resolved(p: Phase, completed: set<Id>, failed: set<Id>) {
    forall t | t in p.taskIds :: t in completed || t in failed
  }

  function Moved(p: Phase, completed: set<Id>, failed: set<Id>): Phase {
    p.(status := if Resolved(p, completed, failed) then (if failed != {} then Failed else Complete)
                 else if p.status.Pending? then Running else p.status)
  }

  function UpdatePhaseStatus(run: WorkflowRun, id: Id, ok: bool): WorkflowRun {
    if id !in run.phaseOf then run
    else
      var name := run.phaseOf[id];
      match FindPhase(run.phases, name)
      case None => run
      case Some(i) =>
        var completed := if ok then SetOf(run.phaseCompleted, name) + {id} else SetOf(run.phaseCompleted, name) - {id};
        var failed := if ok then SetOf(run.phaseFailed, name) - {id} else SetOf(run.phaseFailed, name) + {id};
        run.(phases := run.phases[i := Moved(run.phases[i], completed, failed)],
             phaseCompleted := run.phaseCompleted[name := completed],
             phaseFailed := run.phaseFailed[name := failed])
  }

  function Drop(table: map<string, set<Id>>, name: string, id: Id): map<string, set<Id>> {
    if name in table then table[name := table[name] - {id}] else table
  }

  function RevertPhase(run: WorkflowRun, id: Id): WorkflowRun {
    if id !in run.phaseOf then run
    else
      var name := run.phaseOf[id];
      var reverted := run.(phaseFailed := Drop(run.phaseFailed, name, id),
                           phaseCompleted := Drop(run.phaseCompleted, name, id));
      match FindPhase(run.phases, name)
      case None => reverted
      case Some(i) =>
        if run.phases[i].status.Failed? then
          reverted.(phases := run.phases[i := run.phases[i].(status := Running)])
        else reverted
  }

  // ---- Events ----

  datatype Event = TaskComplete(id: Id) | TaskFailed(id: Id) | TaskRetrying(id: Id) | Cancel

  /** A cancelled run ignores completions and failures, but not retries. */
  function Apply(run: WorkflowRun, e: Event): WorkflowRun {
    match e
    case TaskComplete(id) =>
      if run.status.Cancelled? then run
      else UpdateStatus(UpdatePhaseStatus(run.(completed := run.completed + {id}, failed := run.failed - {id}), id, true))
    case TaskFailed(id) =>
      if run.status.Cancelled? then run
      else UpdateStatus(UpdatePhaseStatus(run.(completed := run.completed - {id}, failed := run.failed + {id}), id, false))
    case TaskRetrying(id) =>
      UpdateStatus(RevertPhase(run.(completed := run.completed - {id}, failed := run.failed - {id}), id))
    case Cancel => run.(status := Cancelled, finished := true)
  }

  function Replay(run: WorkflowRun, history: seq<Event>): WorkflowRun {
    if history == [] then run
    else Apply(Replay(run, history[..|history| - 1]), history[|history| - 1])
  }

  /** Phase tracking touches nothing but the phases and their tables. */
  ghost predicate OnlyPhases(run: WorkflowRun, r: WorkflowRun) {
    && r == run.(phases := r.phases, phaseCompleted := r.phaseCompleted, phaseFailed := r.phaseFailed)
    && |r.phases| == |run.phases|
  }

  lemma PhaseTrackingIsLocal(run: WorkflowRun, id: Id, ok: bool)
    ensures OnlyPhases(run, UpdatePhaseStatus(run, id, ok)) && OnlyPhases(run, RevertPhase(run, id))
  {
  }

  /** An ignored event changes nothing; any other moves its task between the sets and updates the status. */
  predicate Ignored(run: WorkflowRun, e: Event) {
    run.status.Cancelled? && (e.TaskComplete? || e.TaskFailed?)
  }

  lemma ApplyMoves(run: WorkflowRun, e: Event)
    requires !e.Cancel? && !Ignored(run, e)
    ensures var r := Apply(run, e);
            && r.taskIds == run.taskIds
            && r.completed == (if e.TaskComplete? then run.completed + {e.id} else run.completed - {e.id})
            && r.failed == (if e.TaskFailed? then run.failed + {e.id} else run.failed - {e.id})
            && r.status == (if r.failed != {} then Failed
                            else if Covered(r) then Complete
                            else if r.completed != {} then Running
                            else Pending)
            && r.finished == (run.finished || Covered(r))
            && r.cleanups == run.cleanups + (if !run.finished && Covered(r) then 1 else 0)
  {
    match e
    case TaskComplete(id) =>
      PhaseTrackingIsLocal(run.(completed := run.completed + {id}, failed := run.failed - {id}), id, true);
    case TaskFailed(id) =>
      PhaseTrackingIsLocal(run.(completed := run.completed - {id}, failed := run.failed + {id}), id, false);
    case TaskRetrying(id) =>
      PhaseTrackingIsLocal(run.(completed := run.completed - {id}, failed := run.failed - {id}), id, true);
  }

  /**
    * A cancelled run stays as it is, and cancelled, if and only if no retry is reported: completions and
    * failures are ignored, but a retry gives it an ordinary status again.
    */
  lemma {:induction false} CancelledStays(run: WorkflowRun, history: seq<Event>)
    requires NoCancel(history)
    ensures var cancelled := run.(status := Cancelled, finished := true);
            var r := Replay(Apply(run, Cancel), history);
            if forall e | e in history :: !e.TaskRetrying? then r == cancelled else !r.status.Cancelled?
    decreases |history|
  {
    if history != [] {
      var before, e := history[..|history| - 1], history[|history| - 1];
      assert e in history && forall x :: x in history <==> x in before || x == e;
      CancelledStays(run, before);
      var m := Replay(Apply(run, Cancel), before);
      if !Ignored(m, e) {
        ApplyMoves(m, e);
      }
    }
  }

  // ---- The status depends on each task's last event only ----

  /** The last event of the history about the task. */
  function Last(history: seq<Event>, id: Id): Option<Event> {
    if history == [] then None
    else
      var e := history[|history| - 1];
      if !e.Cancel? && e.id == id then Some(e) else Last(history[..|history| - 1], id)
  }

  ghost predicate NoCancel(history: seq<Event>) {
    forall e | e in history :: !e.Cancel?
  }

  /** The status a run with these finished tasks must show. */
  function Verdict(taskIds: seq<Id>, completed: set<Id>, failed: set<Id>): Status {
    if failed != {} then Failed
    else if forall t | t in taskIds :: t in completed then Complete
    else if completed != {} then Running
    else Pending
  }

  /** After any uncancelled history the sets hold exactly the tasks whose last event says so. */
  lemma {:induction false} StatusFromLastEvents(taskIds: seq<Id>, phases: seq<Phase>, history: seq<Event>)
    requires NoCancel(history)
    ensures var r := Replay(Started(taskIds, phases), history);
            && r.taskIds == taskIds
            && (forall t :: t in r.completed <==> Last(history, t) == Some(TaskComplete(t)))
            && (forall t :: t in r.failed <==> Last(history, t) == Some(TaskFailed(t)))
            && r.completed !! r.failed
            && r.status == if history == [] then Pending else Verdict(taskIds, r.completed, r.failed)
    decreases |history|
  {
    RegisterKeeps(NewRun(taskIds).(phases := phases), phases);
    if history != [] {
      var before, e := history[..|history| - 1], history[|history| - 1];
      StatusFromLastEvents(taskIds, phases, before);
      var run := Replay(Started(taskIds, phases), before);
      assert e in history;
      ApplyMoves(run, e);
    }
  }

  lemma {:induction false} RegisterKeeps(run: WorkflowRun, phases: seq<Phase>)
    ensures var r := RegisterPhases(run, phases);
            r == run.(phaseOf := r.phaseOf, phaseCompleted := r.phaseCompleted, phaseFailed := r.phaseFailed)
    decreases phases
  {
    if phases != [] {
      var p := phases[0];
      if p.status.Skipped? || p.taskIds == [] {
        RegisterKeeps(run, phases[1..]);
      } else {
        RegisterKeeps(
          run.(phaseOf := Assign(run.phaseOf, p.taskIds, p.name),
               phaseCompleted := run.phaseCompleted[p.name := SetOf(run.phaseCompleted, p.name)],
               phaseFailed := run.phaseFailed[p.name := SetOf(run.phaseFailed, p.name)]), phases[1..]);
      }
    }
  }

  /**
    * Reordering the events of different tasks, or dropping events that a later one of the same task
    * overrides, cannot change the status of a run.
    */
  lemma OrderDoesNotMatter(taskIds: seq<Id>, phases: seq<Phase>, a: seq<Event>, b: seq<Event>)
    requires NoCancel(a) && NoCancel(b)
    requires forall t :: Last(a, t) == Last(b, t)
    ensures var run := Started(taskIds, phases);
            && Replay(run, a).status == Replay(run, b).status
            && Replay(run, a).completed == Replay(run, b).completed
            && Replay(run, a).failed == Replay(run, b).failed
  {
    var run := Started(taskIds, phases);
    StatusFromLastEvents(taskIds, phases, a);
    StatusFromLastEvents(taskIds, phases, b);
    var x, y := Replay(run, a), Replay(run, b);
    forall t
      ensures (t in x.completed <==> t in y.completed) && (t in x.failed <==> t in y.failed)
    {
      assert Last(a, t) == Last(b, t);
    }
    assert x.completed == y.completed && x.failed == y.failed;
    SomeLast(a);
    SomeLast(b);
  }

  lemma SomeLast(history: seq<Event>)
    requires NoCancel(history)
    ensures history == [] <==> forall t :: Last(history, t).None?
  {
    if history != [] {
      var e := history[|history| - 1];
      assert e in history && Last(history, e.id) == Some(e);
      assert !Last(history, e.id).None?;
    } else {
      assert forall t :: Last([], t).None?;
    }
  }
}
