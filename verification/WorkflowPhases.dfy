// When the status shown for a phase is right: an exact condition on phase names for all histories,
// and an exact condition on each retry.

module WorkflowPhases {
  import opened PhaseSpecs
  import opened Tasks
  import opened Wrappers
  import opened WorkflowRuns

  /** The phase's tasks have all ended, none of them in failure. */
  predicate Succeeded(run: WorkflowRun, p: Phase) {
    Resolved(p, run.completed, run.failed) && forall t | t in p.taskIds :: t !in run.failed
  }

  predicate EndedBadly(run: WorkflowRun, p: Phase) {
    Resolved(p, run.completed, run.failed) && exists t :: t in p.taskIds && t in run.failed
  }

  /** The phase shows complete, or failed, exactly when its own tasks say so. */
  ghost predicate ShowsTruth(run: WorkflowRun, p: Phase) {
    && (p.status.Complete? <==> Succeeded(run, p))
    && (p.status.Failed? <==> EndedBadly(run, p))
  }

  // ---- Which phases are tracked ----

  /** Phases as the expander hands them over: with tasks and pending, or empty; no task in two phases. */
  ghost predicate Fresh(phases: seq<Phase>) {
    && (forall i | 0 <= i < |phases| :: phases[i].taskIds == [] || phases[i].status.Pending?)
    && (forall i, j, t | 0 <= i < |phases| && 0 <= j < |phases| && t in phases[i].taskIds && t in phases[j].taskIds :: i == j)
  }

  /** An earlier phase has the same name, so every lookup by name finds that one. */
  predicate Shadowed(phases: seq<Phase>, j: nat)
    requires j < |phases|
  {
    phases[j].taskIds != [] && exists i :: 0 <= i < j && phases[i].name == phases[j].name
  }

  ghost predicate Unshadowed(phases: seq<Phase>) {
    forall j | 0 <= j < |phases| :: !Shadowed(phases, j)
  }

  /** The tables send each task to its phase's name, and each tracked phase is found by its name. */
  ghost predicate Tracked(run: WorkflowRun) {
    && Unshadowed(run.phases)
    && (forall i, t | 0 <= i < |run.phases| && t in run.phases[i].taskIds ::
          t in run.phaseOf && run.phaseOf[t] == run.phases[i].name)
    && (forall t | t in run.phaseOf :: exists i :: 0 <= i < |run.phases| && t in run.phases[i].taskIds)
  }

  ghost predicate TablesMatch(run: WorkflowRun, p: Phase) {
    forall t ::
      && (t in SetOf(run.phaseCompleted, p.name) <==> t in p.taskIds && t in run.completed)
      && (t in SetOf(run.phaseFailed, p.name) <==> t in p.taskIds && t in run.failed)
  }

  ghost predicate Exact(run: WorkflowRun, i: nat)
    requires i < |run.phases|
  {
    var p := run.phases[i];
    p.taskIds != [] ==> TablesMatch(run, p) && ShowsTruth(run, p)
  }

  ghost predicate AllExact(run: WorkflowRun) {
    forall i | 0 <= i < |run.phases| :: Exact(run, i)
  }

  lemma FoundByName(phases: seq<Phase>, i: nat)
    requires i < |phases| && phases[i].taskIds != [] && !Shadowed(phases, i)
    ensures FindPhase(phases, phases[i].name) == Some(i)
  {
  }

  // ---- Registration ----

  lemma {:induction false} RegisteredTables(run: WorkflowRun, phases: seq<Phase>)
    requires forall i | 0 <= i < |phases| :: phases[i].taskIds == [] || phases[i].status.Pending?
    ensures var r := RegisterPhases(run, phases);
            && (forall n :: SetOf(r.phaseCompleted, n) == SetOf(run.phaseCompleted, n))
            && (forall n :: SetOf(r.phaseFailed, n) == SetOf(run.phaseFailed, n))
            && (forall t :: t in r.phaseOf <==> t in run.phaseOf || exists i :: 0 <= i < |phases| && t in phases[i].taskIds)
            && (forall t | t in run.phaseOf && t in r.phaseOf && r.phaseOf[t] != run.phaseOf[t] ::
                  exists i :: 0 <= i < |phases| && t in phases[i].taskIds)
    decreases phases
  {
    if phases != [] {
      var p, rest := phases[0], phases[1..];
      InTail(phases);
      if p.status.Skipped? || p.taskIds == [] {
        RegisteredTables(run, rest);
        assert RegisterPhases(run, phases) == RegisterPhases(run, rest);
      } else {
        var next := run.(phaseOf := Assign(run.phaseOf, p.taskIds, p.name),
                         phaseCompleted := run.phaseCompleted[p.name := SetOf(run.phaseCompleted, p.name)],
                         phaseFailed := run.phaseFailed[p.name := SetOf(run.phaseFailed, p.name)]);
        RegisteredTables(next, rest);
        SameSets(run.phaseCompleted, p.name);
        SameSets(run.phaseFailed, p.name);
        assert RegisterPhases(run, phases) == RegisterPhases(next, rest);
      }
    }
  }

  lemma SameSets(table: map<string, set<Id>>, name: string)
    ensures forall n :: SetOf(table[name := SetOf(table, name)], n) == SetOf(table, n)
  {
  }

  lemma InTail(phases: seq<Phase>)
    requires phases != []
    ensures forall t :: (exists i :: 0 <= i < |phases| && t in phases[i].taskIds)
                   <==> t in phases[0].taskIds || exists i :: 0 <= i < |phases[1..]| && t in phases[1..][i].taskIds
  {
    forall t
      ensures (exists i :: 0 <= i < |phases| && t in phases[i].taskIds)
         <==> t in phases[0].taskIds || exists i :: 0 <= i < |phases[1..]| && t in phases[1..][i].taskIds
    {
      if i :| 0 <= i < |phases| && t in phases[i].taskIds {
        assert i > 0 ==> t in phases[1..][i - 1].taskIds;
      }
      if i :| 0 <= i < |phases[1..]| && t in phases[1..][i].taskIds {
        assert t in phases[i + 1].taskIds;
      }
    }
  }

  lemma {:induction false} RegisteredName(run: WorkflowRun, phases: seq<Phase>, i: nat, t: Id)
    requires Fresh(phases) && i < |phases| && t in phases[i].taskIds
    ensures var r := RegisterPhases(run, phases); t in r.phaseOf && r.phaseOf[t] == phases[i].name
    decreases phases
  {
    var p := phases[0];
    var next := if p.status.Skipped? || p.taskIds == [] then run
                else run.(phaseOf := Assign(run.phaseOf, p.taskIds, p.name),
                          phaseCompleted := run.phaseCompleted[p.name := SetOf(run.phaseCompleted, p.name)],
                          phaseFailed := run.phaseFailed[p.name := SetOf(run.phaseFailed, p.name)]);
    FreshTail(phases);
    if i > 0 {
      assert phases[1..][i - 1] == phases[i];
      RegisteredName(next, phases[1..], i - 1, t);
    } else {
      RegisteredTables(next, phases[1..]);
      forall k | 0 <= k < |phases[1..]|
        ensures t !in phases[1..][k].taskIds
      {
        assert phases[1..][k] == phases[k + 1];
      }
    }
  }

  lemma FreshTail(phases: seq<Phase>)
    requires Fresh(phases) && phases != []
    ensures Fresh(phases[1..])
  {
    var rest := phases[1..];
    forall i, j, t | 0 <= i < |rest| && 0 <= j < |rest| && t in rest[i].taskIds && t in rest[j].taskIds
      ensures i == j
    {
      assert rest[i] == phases[i + 1] && rest[j] == phases[j + 1];
    }
  }

  lemma StartedIsExact(taskIds: seq<Id>, phases: seq<Phase>)
    requires Fresh(phases)
    ensures var run := Started(taskIds, phases);
            run.phases == phases && AllExact(run) && (Unshadowed(phases) ==> Tracked(run))
  {
    var start := NewRun(taskIds).(phases := phases);
    RegisterKeeps(start, phases);
    RegisteredTables(start, phases);
    var run := Started(taskIds, phases);
    forall i | 0 <= i < |phases|
      ensures Exact(run, i)
    {
      var p := phases[i];
      if p.taskIds != [] {
        assert p.taskIds[0] in p.taskIds;
        assert !Resolved(p, {}, {});
      }
    }
    forall i, t | 0 <= i < |phases| && t in phases[i].taskIds
      ensures t in run.phaseOf && run.phaseOf[t] == phases[i].name
    {
      RegisteredName(start, phases, i, t);
    }
  }

  // ---- Steps ----

  /** The retry that leaves a phase showing complete although one of its tasks runs again. */
  ghost predicate Reopens(run: WorkflowRun, e: Event) {
    exists i :: 0 <= i < |run.phases| && ReopensAt(run, e, i)
  }

  ghost predicate ReopensAt(run: WorkflowRun, e: Event, i: nat)
    requires i < |run.phases|
  {
    e.TaskRetrying? && e.id in run.phases[i].taskIds && run.phases[i].status.Complete?
  }

  ghost predicate OnePhaseEach(run: WorkflowRun) {
    forall i, j, t | 0 <= i < |run.phases| && 0 <= j < |run.phases|
                     && t in run.phases[i].taskIds && t in run.phases[j].taskIds :: i == j
  }

  /** The run with the event's task moved between the completed and failed sets. */
  ghost function SetsMoved(run: WorkflowRun, e: Event): WorkflowRun
    requires !e.Cancel?
  {
    run.(completed := if e.TaskComplete? then run.completed + {e.id} else run.completed - {e.id},
         failed := if e.TaskFailed? then run.failed + {e.id} else run.failed - {e.id})
  }

  ghost function PhasesMoved(run: WorkflowRun, e: Event): WorkflowRun
    requires !e.Cancel?
  {
    if e.TaskRetrying? then RevertPhase(SetsMoved(run, e), e.id)
    else UpdatePhaseStatus(SetsMoved(run, e), e.id, e.TaskComplete?)
  }

  lemma UpdateElsewhere(run: WorkflowRun, id: Id, ok: bool, i: nat, k: nat)
    requires i < |run.phases| && k < |run.phases| && run.phases[i].name != run.phases[k].name
    requires id in run.phaseOf && FindPhase(run.phases, run.phaseOf[id]) == Some(i)
    ensures var r := UpdatePhaseStatus(run, id, ok);
            && |r.phases| == |run.phases| && r.phases[k] == run.phases[k]
            && SetOf(r.phaseCompleted, run.phases[k].name) == SetOf(run.phaseCompleted, run.phases[k].name)
            && SetOf(r.phaseFailed, run.phases[k].name) == SetOf(run.phaseFailed, run.phases[k].name)
  {
  }

  lemma RevertElsewhere(run: WorkflowRun, id: Id, i: nat, k: nat)
    requires i < |run.phases| && k < |run.phases| && run.phases[i].name != run.phases[k].name
    requires id in run.phaseOf && FindPhase(run.phases, run.phaseOf[id]) == Some(i)
    ensures var r := RevertPhase(run, id);
            && |r.phases| == |run.phases| && r.phases[k] == run.phases[k]
            && SetOf(r.phaseCompleted, run.phases[k].name) == SetOf(run.phaseCompleted, run.phases[k].name)
            && SetOf(r.phaseFailed, run.phases[k].name) == SetOf(run.phaseFailed, run.phases[k].name)
  {
  }

  lemma RevertHere(run: WorkflowRun, id: Id, i: nat)
    requires i < |run.phases| && id in run.phaseOf && FindPhase(run.phases, run.phaseOf[id]) == Some(i)
    ensures var p, r := run.phases[i], RevertPhase(run, id);
            && |r.phases| == |run.phases|
            && r.phases[i] == p.(status := if p.status.Failed? then Running else p.status)
            && SetOf(r.phaseCompleted, p.name) == SetOf(run.phaseCompleted, p.name) - {id}
            && SetOf(r.phaseFailed, p.name) == SetOf(run.phaseFailed, p.name) - {id}
  {
  }

  /** The phase of a tracked task, as the lookup by name finds it. */
  lemma PhaseOfTask(run: WorkflowRun, id: Id) returns (i: nat)
    requires Tracked(run) && id in run.phaseOf
    ensures i < |run.phases| && id in run.phases[i].taskIds && FindPhase(run.phases, run.phaseOf[id]) == Some(i)
  {
    i :| 0 <= i < |run.phases| && id in run.phases[i].taskIds;
    FoundByName(run.phases, i);
  }

  /** A phase that does not hold the task keeps its status and its tables. */
  lemma OtherPhase(run: WorkflowRun, e: Event, k: nat)
    requires Tracked(run) && !e.Cancel? && k < |run.phases| && run.phases[k].taskIds != []
    requires e.id !in run.phases[k].taskIds
    ensures var r := PhasesMoved(run, e);
            && |r.phases| == |run.phases| && r.phases[k] == run.phases[k]
            && SetOf(r.phaseCompleted, run.phases[k].name) == SetOf(run.phaseCompleted, run.phases[k].name)
            && SetOf(r.phaseFailed, run.phases[k].name) == SetOf(run.phaseFailed, run.phases[k].name)
  {
    if e.id in run.phaseOf {
      var i := PhaseOfTask(run, e.id);
      FoundByName(run.phases, k);
      if e.TaskRetrying? {
        RevertElsewhere(SetsMoved(run, e), e.id, i, k);
      } else {
        UpdateElsewhere(SetsMoved(run, e), e.id, e.TaskComplete?, i, k);
      }
    }
  }

  lemma OtherPhaseExact(run: WorkflowRun, e: Event, k: nat)
    requires Tracked(run) && !e.Cancel? && k < |run.phases| && Exact(run, k)
    requires e.id !in run.phases[k].taskIds
    ensures |PhasesMoved(run, e).phases| == |run.phases| && Exact(PhasesMoved(run, e), k)
  {
    PhaseTrackingIsLocal(SetsMoved(run, e), e.id, e.TaskComplete?);
    SamePhases(run, e);
    var p := run.phases[k];
    var r := PhasesMoved(run, e);
    if p.taskIds != [] {
      OtherPhase(run, e, k);
      assert Resolved(p, r.completed, r.failed) <==> Resolved(p, run.completed, run.failed);
    }
  }

  lemma UpdateHere(run: WorkflowRun, id: Id, ok: bool, i: nat)
    requires i < |run.phases| && id in run.phaseOf && FindPhase(run.phases, run.phaseOf[id]) == Some(i)
    ensures var p, r := run.phases[i], UpdatePhaseStatus(run, id, ok);
            var completed, failed := SetOf(r.phaseCompleted, p.name), SetOf(r.phaseFailed, p.name);
            && |r.phases| == |run.phases| && r.phases[i] == Moved(p, completed, failed)
            && completed == (if ok then SetOf(run.phaseCompleted, p.name) + {id} else SetOf(run.phaseCompleted, p.name) - {id})
            && failed == (if ok then SetOf(run.phaseFailed, p.name) - {id} else SetOf(run.phaseFailed, p.name) + {id})
  {
  }

  lemma MovedShowsTruth(before: WorkflowRun, r: WorkflowRun, p: Phase, completed: set<Id>, failed: set<Id>)
    requires ShowsTruth(before, p)
    requires Resolved(p, before.completed, before.failed) ==> Resolved(p, r.completed, r.failed)
    requires forall t :: (t in completed <==> t in p.taskIds && t in r.completed)
                         && (t in failed <==> t in p.taskIds && t in r.failed)
    ensures ShowsTruth(r, Moved(p, completed, failed))
  {
    var moved := Moved(p, completed, failed);
    assert Resolved(p, completed, failed) <==> Resolved(p, r.completed, r.failed);
    assert failed != {} <==> exists t :: t in p.taskIds && t in r.failed by {
      if t :| t in failed {
        assert t in p.taskIds && t in r.failed;
      }
    }
    assert Succeeded(r, moved) <==> Succeeded(r, p);
    assert EndedBadly(r, moved) <==> EndedBadly(r, p);
  }

  lemma EndedPhaseExact(run: WorkflowRun, e: Event, i: nat)
    requires Tracked(run) && (e.TaskComplete? || e.TaskFailed?) && i < |run.phases| && Exact(run, i)
    requires e.id in run.phases[i].taskIds
    ensures |PhasesMoved(run, e).phases| == |run.phases| && Exact(PhasesMoved(run, e), i)
  {
    var p := run.phases[i];
    FoundByName(run.phases, i);
    PhaseTrackingIsLocal(SetsMoved(run, e), e.id, e.TaskComplete?);
    UpdateHere(SetsMoved(run, e), e.id, e.TaskComplete?, i);
    var r := PhasesMoved(run, e);
    MovedShowsTruth(run, r, p, SetOf(r.phaseCompleted, p.name), SetOf(r.phaseFailed, p.name));
  }

  lemma RetriedPhaseExact(run: WorkflowRun, e: Event, i: nat)
    requires Tracked(run) && e.TaskRetrying? && i < |run.phases| && Exact(run, i)
    requires e.id in run.phases[i].taskIds
    ensures |PhasesMoved(run, e).phases| == |run.phases|
    ensures Exact(PhasesMoved(run, e), i) <==> !run.phases[i].status.Complete?
  {
    var p := run.phases[i];
    FoundByName(run.phases, i);
    RevertHere(SetsMoved(run, e), e.id, i);
    PhaseTrackingIsLocal(SetsMoved(run, e), e.id, true);
    var r := PhasesMoved(run, e);
    assert TablesMatch(r, p);
    assert !Resolved(p, r.completed, r.failed);
  }

  lemma MovedTracked(run: WorkflowRun, e: Event)
    requires Tracked(run) && OnePhaseEach(run) && !e.Cancel?
    ensures Tracked(PhasesMoved(run, e)) && OnePhaseEach(PhasesMoved(run, e))
  {
    SamePhases(run, e);
    var r := PhasesMoved(run, e);
    forall j | 0 <= j < |r.phases|
      ensures !Shadowed(r.phases, j)
    {
      assert !Shadowed(run.phases, j);
    }
    forall t | t in r.phaseOf
      ensures exists i :: 0 <= i < |r.phases| && t in r.phases[i].taskIds
    {
      var i :| 0 <= i < |run.phases| && t in run.phases[i].taskIds;
      assert t in r.phases[i].taskIds;
    }
  }

  lemma MovedExactAt(run: WorkflowRun, e: Event, k: nat)
    requires Tracked(run) && !e.Cancel? && k < |run.phases| && Exact(run, k)
    ensures |PhasesMoved(run, e).phases| == |run.phases|
    ensures Exact(PhasesMoved(run, e), k) <==> !ReopensAt(run, e, k)
  {
    SamePhases(run, e);
    if e.id !in run.phases[k].taskIds {
      OtherPhaseExact(run, e, k);
    } else if e.TaskRetrying? {
      RetriedPhaseExact(run, e, k);
    } else {
      EndedPhaseExact(run, e, k);
    }
  }

  lemma MovedExact(run: WorkflowRun, e: Event)
    requires Tracked(run) && AllExact(run) && !e.Cancel?
    ensures AllExact(PhasesMoved(run, e)) <==> !Reopens(run, e)
  {
    SamePhases(run, e);
    var r := PhasesMoved(run, e);
    forall k | 0 <= k < |r.phases|
      ensures Exact(r, k) <==> !ReopensAt(run, e, k)
    {
      MovedExactAt(run, e, k);
    }
  }

  /** Names and tasks of phases never change. */
  lemma SamePhases(run: WorkflowRun, e: Event)
    requires !e.Cancel?
    ensures var r := PhasesMoved(run, e);
            |r.phases| == |run.phases| && r.phaseOf == run.phaseOf &&
            forall k | 0 <= k < |run.phases| :: r.phases[k].name == run.phases[k].name && r.phases[k].taskIds == run.phases[k].taskIds
  {
  }

  /** Only the phases, their tables and the two sets matter. */
  lemma SameExactness(run: WorkflowRun, r: WorkflowRun)
    requires r == run.(status := r.status, finished := r.finished, cleanups := r.cleanups)
    ensures AllExact(r) <==> AllExact(run)
    ensures Tracked(run) && OnePhaseEach(run) ==> Tracked(r) && OnePhaseEach(r)
  {
    assert forall i | 0 <= i < |run.phases| :: Exact(r, i) == Exact(run, i);
  }

  lemma StepShowsTruth(run: WorkflowRun, e: Event)
    requires Tracked(run) && OnePhaseEach(run) && AllExact(run)
    ensures var r := Apply(run, e);
            Tracked(r) && OnePhaseEach(r) && (AllExact(r) <==> Ignored(run, e) || !Reopens(run, e))
  {
    var r := Apply(run, e);
    if e.Cancel? || Ignored(run, e) {
      SameExactness(run, r);
    } else {
      MovedExact(run, e);
      MovedTracked(run, e);
      SameExactness(PhasesMoved(run, e), r);
    }
  }

  /** The phase's tasks have all been reported as ended. */
  ghost predicate AllEnded(r: WorkflowRun, p: Phase) {
    forall t | t in p.taskIds :: t in r.completed || t in r.failed
  }

  /**
    * What an event does to the phases: the phase of an ended task starts running, and ends once all its
    * tasks have, failed if one of them has; a retry sets a failed phase running again; no other phase moves.
    */
  lemma PhaseStepMeans(run: WorkflowRun, e: Event, k: nat)
    requires Tracked(run) && OnePhaseEach(run) && AllExact(run) && !e.Cancel? && !Ignored(run, e)
    requires k < |run.phases| && run.phases[k].taskIds != []
    ensures var p, r := run.phases[k], Apply(run, e);
            && |r.phases| == |run.phases|
            && r.phases[k] == p.(status :=
                 if e.id !in p.taskIds then p.status
                 else if e.TaskRetrying? then (if p.status.Failed? then Running else p.status)
                 else if AllEnded(r, p) then (if exists t :: t in p.taskIds && t in r.failed then Failed else Complete)
                 else if p.status.Pending? then Running
                 else p.status)
  {
    var m := PhasesMoved(run, e);
    assert Apply(run, e) == UpdateStatus(m);
    SamePhases(run, e);
    if e.id !in run.phases[k].taskIds {
      OtherPhase(run, e, k);
    } else if e.TaskRetrying? {
      FoundByName(run.phases, k);
      RevertHere(SetsMoved(run, e), e.id, k);
    } else {
      EndedPhaseMeans(run, e, k);
    }
  }

  lemma EndedPhaseMeans(run: WorkflowRun, e: Event, k: nat)
    requires Tracked(run) && (e.TaskComplete? || e.TaskFailed?) && k < |run.phases| && Exact(run, k)
    requires e.id in run.phases[k].taskIds
    ensures var p, r := run.phases[k], PhasesMoved(run, e);
            && |r.phases| == |run.phases|
            && r.phases[k] == p.(status :=
                 if AllEnded(r, p) then (if exists t :: t in p.taskIds && t in r.failed then Failed else Complete)
                 else if p.status.Pending? then Running
                 else p.status)
  {
    var p, m := run.phases[k], PhasesMoved(run, e);
    FoundByName(run.phases, k);
    PhaseTrackingIsLocal(SetsMoved(run, e), e.id, e.TaskComplete?);
    UpdateHere(SetsMoved(run, e), e.id, e.TaskComplete?, k);
    MovedMeans(m, p, SetOf(m.phaseCompleted, p.name), SetOf(m.phaseFailed, p.name));
  }

  lemma MovedMeans(r: WorkflowRun, p: Phase, completed: set<Id>, failed: set<Id>)
    requires forall t :: (t in completed <==> t in p.taskIds && t in r.completed)
                         && (t in failed <==> t in p.taskIds && t in r.failed)
    ensures Moved(p, completed, failed)
         == p.(status := if AllEnded(r, p) then (if exists t :: t in p.taskIds && t in r.failed then Failed else Complete)
                         else if p.status.Pending? then Running else p.status)
  {
    assert Resolved(p, completed, failed) <==> AllEnded(r, p);
    if t :| t in failed {
      assert t in p.taskIds && t in r.failed;
    }
  }

  // ---- Whole histories ----

  /** No retry of the history hits a phase that is already complete. */
  ghost predicate RetriesOpen(run: WorkflowRun, history: seq<Event>)
    decreases |history|
  {
    history == [] ||
    (RetriesOpen(run, history[..|history| - 1])
     && !Reopens(Replay(run, history[..|history| - 1]), history[|history| - 1]))
  }

  lemma {:induction false} ReplayShowsTruth(run: WorkflowRun, history: seq<Event>)
    requires Tracked(run) && OnePhaseEach(run) && AllExact(run) && RetriesOpen(run, history)
    ensures var r := Replay(run, history); Tracked(r) && OnePhaseEach(r) && AllExact(r)
    decreases |history|
  {
    if history != [] {
      var before := history[..|history| - 1];
      ReplayShowsTruth(run, before);
      StepShowsTruth(Replay(run, before), history[|history| - 1]);
    }
  }

  lemma {:induction false} ShadowedNeverMoves(run: WorkflowRun, history: seq<Event>, j: nat)
    requires j < |run.phases| && Shadowed(run.phases, j)
    ensures var r := Replay(run, history);
            && |r.phases| == |run.phases| && r.phases[j] == run.phases[j]
            && forall k | 0 <= k < |run.phases| :: r.phases[k].name == run.phases[k].name
    decreases |history|
  {
    if history != [] {
      var before, e := history[..|history| - 1], history[|history| - 1];
      ShadowedNeverMoves(run, before, j);
      var m := Replay(run, before);
      var i :| 0 <= i < j && run.phases[i].name == run.phases[j].name;
      assert m.phases[i].name == m.phases[j].name;
      if !e.Cancel? && !Ignored(m, e) {
        SamePhases(m, e);
        NotTheOne(m, e, i, j);
        assert Apply(m, e) == UpdateStatus(PhasesMoved(m, e));
      }
    }
  }

  lemma NotTheOne(run: WorkflowRun, e: Event, i: nat, j: nat)
    requires !e.Cancel? && i < j < |run.phases| && run.phases[i].name == run.phases[j].name
    ensures |PhasesMoved(run, e).phases| == |run.phases| && PhasesMoved(run, e).phases[j] == run.phases[j]
  {
  }

  function AllComplete(ids: seq<Id>): (h: seq<Event>)
    ensures |h| == |ids| && forall k | 0 <= k < |ids| :: h[k] == TaskComplete(ids[k])
  {
    seq(|ids|, k requires 0 <= k < |ids| => TaskComplete(ids[k]))
  }

  lemma {:induction false} CompletingAll(run: WorkflowRun, ids: seq<Id>)
    requires !run.status.Cancelled?
    ensures var r := Replay(run, AllComplete(ids));
            && !r.status.Cancelled? && RetriesOpen(run, AllComplete(ids))
            && (forall t | t in ids :: t in r.completed && t !in r.failed)
    decreases |ids|
  {
    if ids != [] {
      var n := |ids| - 1;
      assert AllComplete(ids)[..n] == AllComplete(ids[..n]);
      CompletingAll(run, ids[..n]);
      ApplyMoves(Replay(run, AllComplete(ids[..n])), TaskComplete(ids[n]));
      assert ids == ids[..n] + [ids[n]];
    }
  }

  ghost predicate AlwaysTrue(taskIds: seq<Id>, phases: seq<Phase>) {
    forall history | RetriesOpen(Started(taskIds, phases), history) :: AllExact(Replay(Started(taskIds, phases), history))
  }

  /**
    * The statuses shown for phases are right after every history without retries of complete phases,
    * if and only if no phase with tasks has the name of an earlier phase.
    */
  lemma PhasesShowTruthExactly(taskIds: seq<Id>, phases: seq<Phase>)
    requires Fresh(phases)
    ensures AlwaysTrue(taskIds, phases) <==> Unshadowed(phases)
  {
    var run := Started(taskIds, phases);
    StartedIsExact(taskIds, phases);
    RegisterKeeps(NewRun(taskIds).(phases := phases), phases);
    if Unshadowed(phases) {
      forall history | RetriesOpen(run, history)
        ensures AllExact(Replay(run, history))
      {
        ReplayShowsTruth(run, history);
      }
    } else {
      var j :| 0 <= j < |phases| && Shadowed(phases, j);
      var history := AllComplete(phases[j].taskIds);
      CompletingAll(run, phases[j].taskIds);
      ShadowedNeverMoves(run, history, j);
      assert !Exact(Replay(run, history), j);
    }
  }
}
