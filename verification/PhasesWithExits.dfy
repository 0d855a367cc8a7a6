// What the status of a phase means in runs with early exits of loops: complete, failed and skipped, each
// exactly when.

module PhasesWithExits {
  import opened PhaseSpecs
  import opened Tasks
  import opened Wrappers
  import opened WorkflowRuns
  import opened WorkflowPhases
  import opened TrackedRuns
  import WorkflowManager
  import Scheduler
  import SchedulerSafety
  import SchedulerRuns
  import SchedulerEnds

  // ---- What a status stands for ----

  ghost predicate AllOver(p: Phase, done: set<Id>, failed: set<Id>) {
    forall t | t in p.taskIds :: t in done || t in failed
  }

  ghost predicate SomeIn(p: Phase, ids: set<Id>) {
    exists t :: t in p.taskIds && t in ids
  }

  /**
    * Complete: all its tasks are done. Failed: all have ended, some in failure. Skipped: not all have
    * ended, but some were left by an early exit.
    */
  ghost predicate StatusMeans(p: Phase, done: set<Id>, failed: set<Id>, left: set<Id>) {
    && (p.status.Complete? <==> forall t | t in p.taskIds :: t in done)
    && (p.status.Failed? <==> AllOver(p, done, failed) && SomeIn(p, failed))
    && (p.status.Skipped? <==> !AllOver(p, done, failed) && SomeIn(p, left))
  }

  ghost predicate TablesShow(run: WorkflowRun, p: Phase, done: set<Id>, failed: set<Id>) {
    forall t ::
      && (t in SetOf(run.phaseCompleted, p.name) <==> t in p.taskIds && t in done)
      && (t in SetOf(run.phaseFailed, p.name) <==> t in p.taskIds && t in failed)
  }

  ghost predicate Shows(run: WorkflowRun, k: nat, done: set<Id>, failed: set<Id>, left: set<Id>)
    requires k < |run.phases|
  {
    var p := run.phases[k];
    p.taskIds != [] ==> TablesShow(run, p, done, failed) && StatusMeans(p, done, failed, left)
  }

  /** All phases show what they should, are looked up correctly and have only tasks of the run. */
  ghost predicate AllShow(run: WorkflowRun, done: set<Id>, failed: set<Id>, left: set<Id>) {
    && Tracked(run) && OnePhaseEach(run) && !run.status.Cancelled?
    && (forall k, t | 0 <= k < |run.phases| && t in run.phases[k].taskIds :: t in run.taskIds)
    && forall k | 0 <= k < |run.phases| :: Shows(run, k, done, failed, left)
  }

  // ---- One report ----

  lemma MovedMeans(before: Phase, done: set<Id>, failed: set<Id>, left: set<Id>, done': set<Id>, failed': set<Id>,
                   completed: set<Id>, losses: set<Id>)
    requires StatusMeans(before, done, failed, left) && before.taskIds != []
    requires done <= done' && failed <= failed' && done' !! failed'
    requires forall t :: (t in completed <==> t in before.taskIds && t in done')
                         && (t in losses <==> t in before.taskIds && t in failed')
    ensures StatusMeans(Moved(before, completed, losses), done', failed', left)
  {
    var p := Moved(before, completed, losses);
    assert Resolved(before, completed, losses) <==> AllOver(p, done', failed');
    assert losses != {} <==> SomeIn(p, failed') by {
      if t :| t in losses {
        assert t in p.taskIds && t in failed';
      }
    }
    assert before.taskIds[0] in before.taskIds;
  }

  lemma CompleteShows(run: WorkflowRun, id: Id, k: nat, done: set<Id>, failed: set<Id>, left: set<Id>)
    requires Tracked(run) && k < |run.phases| && Shows(run, k, done, failed, left)
    requires id !in failed && done !! failed
    ensures k < |PhasesMoved(run, TaskComplete(id)).phases|
    ensures Shows(PhasesMoved(run, TaskComplete(id)), k, done + {id}, failed, left)
  {
    var p, e := run.phases[k], TaskComplete(id);
    SamePhases(run, e);
    if p.taskIds == [] {
    } else if id !in p.taskIds {
      OtherPhase(run, e, k);
    } else {
      FoundByName(run.phases, k);
      UpdateHere(SetsMoved(run, e), id, true, k);
      var r := PhasesMoved(run, e);
      MovedMeans(p, done, failed, left, done + {id}, failed, SetOf(r.phaseCompleted, p.name), SetOf(r.phaseFailed, p.name));
    }
  }

  lemma FailureShows(run: WorkflowRun, id: Id, k: nat, done: set<Id>, failed: set<Id>, left: set<Id>)
    requires Tracked(run) && k < |run.phases| && Shows(run, k, done, failed, left)
    requires id !in done && done !! failed
    ensures k < |PhasesMoved(run, TaskFailed(id)).phases|
    ensures Shows(PhasesMoved(run, TaskFailed(id)), k, done, failed + {id}, left)
  {
    var p, e := run.phases[k], TaskFailed(id);
    SamePhases(run, e);
    if p.taskIds == [] {
    } else if id !in p.taskIds {
      OtherPhase(run, e, k);
    } else {
      FoundByName(run.phases, k);
      UpdateHere(SetsMoved(run, e), id, false, k);
      var r := PhasesMoved(run, e);
      MovedMeans(p, done, failed, left, done, failed + {id}, SetOf(r.phaseCompleted, p.name), SetOf(r.phaseFailed, p.name));
    }
  }

  lemma RetryShows(run: WorkflowRun, id: Id, k: nat, done: set<Id>, failed: set<Id>, left: set<Id>)
    requires Tracked(run) && k < |run.phases| && Shows(run, k, done, failed, left)
    requires id !in done && id !in failed
    ensures k < |PhasesMoved(run, TaskRetrying(id)).phases|
    ensures Shows(PhasesMoved(run, TaskRetrying(id)), k, done, failed, left)
  {
    var p, e := run.phases[k], TaskRetrying(id);
    SamePhases(run, e);
    if p.taskIds == [] {
    } else if id !in p.taskIds {
      OtherPhase(run, e, k);
    } else {
      FoundByName(run.phases, k);
      RevertHere(SetsMoved(run, e), id, k);
      assert !p.status.Failed?;
    }
  }

  /** The sets after a report. */
  ghost function DoneBy(done: set<Id>, e: Event): set<Id> {
    if e.TaskComplete? then done + {e.id} else done
  }

  ghost function FailedBy(failed: set<Id>, e: Event): set<Id> {
    if e.TaskFailed? then failed + {e.id} else failed
  }

  lemma ReportShows(run: WorkflowRun, e: Event, done: set<Id>, failed: set<Id>, left: set<Id>)
    requires AllShow(run, done, failed, left) && !e.Cancel?
    requires DoneBy(done, e) !! FailedBy(failed, e) && (e.TaskRetrying? ==> e.id !in done && e.id !in failed)
    ensures AllShow(Apply(run, e), DoneBy(done, e), FailedBy(failed, e), left)
  {
    ApplyMoves(run, e);
    SamePhases(run, e);
    MovedTracked(run, e);
    var m := PhasesMoved(run, e);
    forall k | 0 <= k < |run.phases|
      ensures Shows(m, k, DoneBy(done, e), FailedBy(failed, e), left)
    {
      match e
      case TaskComplete(id) => CompleteShows(run, id, k, done, failed, left);
      case TaskFailed(id) => FailureShows(run, id, k, done, failed, left);
      case TaskRetrying(id) => RetryShows(run, id, k, done, failed, left);
    }
    StatusLeavesShown(m, DoneBy(done, e), FailedBy(failed, e), left);
    SameExactness(m, UpdateStatus(m));
  }

  lemma StatusLeavesShown(run: WorkflowRun, done: set<Id>, failed: set<Id>, left: set<Id>)
    requires forall k | 0 <= k < |run.phases| :: Shows(run, k, done, failed, left)
    ensures forall k | 0 <= k < |UpdateStatus(run).phases| :: Shows(UpdateStatus(run), k, done, failed, left)
  {
    assert UpdateStatus(run).phases == run.phases;
    forall k | 0 <= k < |run.phases|
      ensures Shows(UpdateStatus(run), k, done, failed, left)
    {
      assert Shows(run, k, done, failed, left);
    }
  }

  /** A report about a task of another workflow. */
  lemma ForeignShows(run: WorkflowRun, e: Event, done: set<Id>, failed: set<Id>, left: set<Id>)
    requires AllShow(run, done, failed, left) && !e.Cancel? && e.id !in run.taskIds
    ensures AllShow(run, DoneBy(done, e), FailedBy(failed, e), left)
  {
    forall k | 0 <= k < |run.phases|
      ensures Shows(run, k, DoneBy(done, e), FailedBy(failed, e), left)
    {
      var p := run.phases[k];
      assert Shows(run, k, done, failed, left);
      assert e.id !in p.taskIds;
      assert AllOver(p, done, failed) <==> AllOver(p, DoneBy(done, e), FailedBy(failed, e));
      assert SomeIn(p, failed) <==> SomeIn(p, FailedBy(failed, e));
    }
  }

  // ---- All reports of a step ----

  ghost function DoneAfter(done: set<Id>, reports: seq<Event>): set<Id>
    decreases reports
  {
    if reports == [] then done else DoneAfter(DoneBy(done, reports[0]), reports[1..])
  }

  ghost function FailedAfter(failed: set<Id>, reports: seq<Event>): set<Id>
    decreases reports
  {
    if reports == [] then failed else FailedAfter(FailedBy(failed, reports[0]), reports[1..])
  }

  lemma {:induction false} AfterGrows(ids: set<Id>, reports: seq<Event>)
    ensures ids <= DoneAfter(ids, reports) && ids <= FailedAfter(ids, reports)
    decreases reports
  {
    if reports != [] {
      AfterGrows(DoneBy(ids, reports[0]), reports[1..]);
      AfterGrows(FailedBy(ids, reports[0]), reports[1..]);
    }
  }

  lemma {:induction false} TellShows(run: WorkflowRun, reports: seq<Event>, done: set<Id>, failed: set<Id>, left: set<Id>)
    requires AllShow(run, done, failed, left) && forall e | e in reports :: !e.Cancel?
    requires DoneAfter(done, reports) !! FailedAfter(failed, reports)
    requires forall e | e in reports && e.TaskRetrying? ::
               e.id !in DoneAfter(done, reports) && e.id !in FailedAfter(failed, reports)
    ensures AllShow(Tell(run, reports), DoneAfter(done, reports), FailedAfter(failed, reports), left)
    decreases reports
  {
    if reports != [] {
      var e, rest := reports[0], reports[1..];
      var done', failed' := DoneBy(done, e), FailedBy(failed, e);
      AfterGrows(done', rest);
      AfterGrows(failed', rest);
      assert e in reports && forall x | x in rest :: x in reports;
      if e.id in run.taskIds {
        ReportShows(run, e, done, failed, left);
        TellShows(Apply(run, e), rest, done', failed', left);
      } else {
        ForeignShows(run, e, done, failed, left);
        TellShows(run, rest, done', failed', left);
      }
    }
  }

  // ---- An early exit ----

  lemma LeavingShows(run: WorkflowRun, ids: seq<Id>, done: set<Id>, failed: set<Id>, left: set<Id>)
    requires AllShow(run, done, failed, left)
    ensures AllShow(WorkflowManager.ExitLoop(run, ids), done, failed, left + WorkflowManager.SetFrom(ids))
  {
    var m, more := WorkflowManager.SkipTasks(run, ids), left + WorkflowManager.SetFrom(ids);
    WorkflowManager.SkipTasksSets(run, ids);
    forall k | 0 <= k < |run.phases|
      ensures m.phases[k].name == run.phases[k].name && m.phases[k].taskIds == run.phases[k].taskIds
      ensures Shows(m, k, done, failed, more)
    {
      WorkflowManager.SkipTasksPhase(run, ids, k);
      assert Shows(run, k, done, failed, left);
      LeftMeans(run.phases[k], m.phases[k], ids, done, failed, left);
    }
    LeftTracked(run, m);
    StatusLeavesShown(m, done, failed, more);
    SameExactness(m, UpdateStatus(m));
  }

  lemma LeftMeans(before: Phase, after: Phase, ids: seq<Id>, done: set<Id>, failed: set<Id>, left: set<Id>)
    requires WorkflowManager.SkippedIf(before, after, ids)
    requires before.taskIds != [] ==> StatusMeans(before, done, failed, left)
    ensures after.taskIds != [] ==> StatusMeans(after, done, failed, left + WorkflowManager.SetFrom(ids))
  {
    var more := left + WorkflowManager.SetFrom(ids);
    assert AllOver(before, done, failed) <==> AllOver(after, done, failed);
    assert SomeIn(before, failed) <==> SomeIn(after, failed);
    assert SomeIn(after, more) <==> SomeIn(before, left) || exists t :: t in ids && t in before.taskIds;
    if before.taskIds != [] && AllOver(before, done, failed) && !SomeIn(before, failed) {
      assert forall t | t in before.taskIds :: t in done;
    }
  }

  lemma LeftTracked(run: WorkflowRun, m: WorkflowRun)
    requires Tracked(run) && OnePhaseEach(run) && m.phaseOf == run.phaseOf && |m.phases| == |run.phases|
    requires forall k | 0 <= k < |run.phases| ::
               m.phases[k].name == run.phases[k].name && m.phases[k].taskIds == run.phases[k].taskIds
    ensures Tracked(m) && OnePhaseEach(m)
  {
    forall j | 0 <= j < |m.phases|
      ensures !Shadowed(m.phases, j)
    {
      assert !Shadowed(run.phases, j);
    }
    forall t | t in m.phaseOf
      ensures exists i :: 0 <= i < |m.phases| && t in m.phases[i].taskIds
    {
      var i :| 0 <= i < |run.phases| && t in run.phases[i].taskIds;
      assert t in m.phases[i].taskIds;
    }
  }

  // ---- What the scheduler's steps report ----

  lemma {:induction false} ReapReportsMatch(s: Scheduler.State, ids: seq<Id>, done: set<Id>, failed: set<Id>)
    requires failed <= s.failed
    ensures DoneAfter(done, ReapReports(s, ids)) == done
    ensures FailedAfter(failed, ReapReports(s, ids)) <= Scheduler.Reap(s, ids).failed
    ensures Scheduler.Reap(s, ids).completed == s.completed
    decreases ids
  {
    if ids != [] {
      var next := Scheduler.Reap(s, [ids[0]]);
      ReapFirst(s, ids);
      SchedulerEnds.ReapKeepsEnds(s, [ids[0]]);
      var reports := ReapReports(next, ids[1..]);
      if ids[0] in s.waiting {
        var e := TaskFailed(ids[0]);
        assert ReapReports(s, ids) == [e] + reports && ([e] + reports)[1..] == reports;
        ReapReportsMatch(next, ids[1..], done, failed + {ids[0]});
      } else {
        assert [] + reports == reports;
        ReapReportsMatch(next, ids[1..], done, failed);
      }
    }
  }

  lemma ReapFirst(s: Scheduler.State, ids: seq<Id>)
    requires ids != []
    ensures var next := Scheduler.Reap(s, [ids[0]]);
            && Scheduler.Reap(s, ids) == Scheduler.Reap(next, ids[1..]) && next.completed == s.completed
            && (ids[0] in s.waiting ==> ids[0] in next.failed)
  {
    var id := ids[0];
    assert [id][1..] == [];
    if id in s.waiting {
      var taken := s.(waiting := s.waiting - {id},
                      dependents := Scheduler.Unlink(s.dependents, s.waiting[id].dependsOn, id, None));
      SchedulerSafety.OnDepFailedMoves(taken.(failed := s.failed + {id}), id);
      assert Scheduler.Reap(s, [id]) == Scheduler.Reap(Scheduler.Expire(taken, id), []);
    } else {
      assert Scheduler.Reap(s, [id]) == Scheduler.Reap(s, []);
    }
  }

  /** The step completes exactly what it reports as completed, and fails what it reports as failed. */
  ghost predicate Matched(s: Scheduler.State, r: Scheduler.State, reports: seq<Event>, failed: set<Id>) {
    && (forall x | x in reports :: !x.Cancel? && (x.TaskRetrying? ==> x.id in r.queue))
    && r.completed == s.completed + DoneAfter({}, reports)
    && FailedAfter(failed, reports) <= r.failed
  }

  lemma NoReport(s: Scheduler.State, r: Scheduler.State, failed: set<Id>)
    requires r.completed == s.completed && failed <= r.failed
    ensures Matched(s, r, [], failed)
  {
  }

  lemma OneReport(s: Scheduler.State, r: Scheduler.State, e: Event, failed: set<Id>)
    requires !e.Cancel? && failed <= r.failed
    requires r.completed == DoneBy(s.completed, e)
    requires (e.TaskFailed? ==> e.id in r.failed) && (e.TaskRetrying? ==> e.id in r.queue)
    ensures Matched(s, r, [e], failed)
  {
    assert [e][1..] == [];
    assert DoneAfter({}, [e]) == DoneBy({}, e) && FailedAfter(failed, [e]) == FailedBy(failed, e);
  }

  lemma DispatchMatched(
      s: Scheduler.State, cfg: Scheduler.Config, e: Entry, now: real, registry: Scheduler.Registry, failed: set<Id>)
    requires SchedulerSafety.Sound(s) && e.task.id in s.queue && failed <= s.failed
    ensures Matched(s, Scheduler.Dispatch(s, cfg, e, now, registry),
                    Reports(s, cfg, Scheduler.Dispatching(e, now, registry)), failed)
  {
    var id, r := e.task.id, Scheduler.Dispatch(s, cfg, e, now, registry);
    if id !in s.tombstones && Scheduler.Expired(e.task, now) {
      SchedulerRuns.DispatchExpires(s, cfg, e, now, registry);
      SchedulerSafety.OnDepFailedMoves(s.(queue := s.queue - {id}, failed := s.failed + {id}), id);
      OneReport(s, r, TaskFailed(id), failed);
    } else {
      SchedulerRuns.DispatchQuiet(s, cfg, e, now, registry);
      NoReport(s, r, failed);
    }
  }

  lemma SuccessMatched(s: Scheduler.State, cfg: Scheduler.Config, id: Id, agent: Agent, failed: set<Id>)
    requires SchedulerSafety.Sound(s) && id in s.inFlight && id !in s.tombstones && failed <= s.failed
    ensures Matched(s, Scheduler.HandleResult(s, cfg, id, agent, Scheduler.Success), [TaskComplete(id)], failed)
  {
    var done := s.(inFlight := s.inFlight - {id}, active := s.active - {id}, completed := s.completed + {id});
    SchedulerRuns.ResultSucceeds(s, cfg, id, agent);
    SchedulerSafety.OnDepSatisfiedMoves(done, id);
    OneReport(s, Scheduler.OnDepSatisfied(done, id), TaskComplete(id), failed);
  }

  lemma FinalFailureMatched(
      s: Scheduler.State, cfg: Scheduler.Config, id: Id, agent: Agent, outcome: Scheduler.Outcome, failed: set<Id>)
    requires SchedulerSafety.Sound(s) && id in s.inFlight && failed <= s.failed
    requires SchedulerRuns.FinalFailure(s, cfg, id, outcome)
    ensures Matched(s, Scheduler.HandleResult(s, cfg, id, agent, outcome), [TaskFailed(id)], failed)
  {
    var f := s.(inFlight := s.inFlight - {id}, active := s.active - {id}, failed := s.failed + {id});
    SchedulerRuns.ResultFails(s, cfg, id, agent, outcome);
    SchedulerSafety.OnDepFailedMoves(f, id);
    OneReport(s, Scheduler.OnDepFailed(f, id), TaskFailed(id), failed);
  }

  lemma RetryMatched(
      s: Scheduler.State, cfg: Scheduler.Config, id: Id, agent: Agent, outcome: Scheduler.Outcome, failed: set<Id>)
    requires SchedulerSafety.Sound(s) && id in s.inFlight && failed <= s.failed
    requires ResultReports(s, cfg, id, outcome) == [TaskRetrying(id)]
    ensures Matched(s, Scheduler.HandleResult(s, cfg, id, agent, outcome), [TaskRetrying(id)], failed)
  {
    assert SchedulerSafety.TaskSound(s, id);
    SchedulerRuns.ResultQuiet(s, cfg, id, agent, outcome);
    RetriedIsQueued(s, cfg, id, agent, outcome);
    OneReport(s, Scheduler.HandleResult(s, cfg, id, agent, outcome), TaskRetrying(id), failed);
  }

  lemma RetriedIsQueued(s: Scheduler.State, cfg: Scheduler.Config, id: Id, agent: Agent, outcome: Scheduler.Outcome)
    requires id in s.active && s.active[id].id == id && ResultReports(s, cfg, id, outcome) == [TaskRetrying(id)]
    ensures id in Scheduler.HandleResult(s, cfg, id, agent, outcome).queue
  {
  }

  lemma ResultMatched(
      s: Scheduler.State, cfg: Scheduler.Config, id: Id, agent: Agent, outcome: Scheduler.Outcome, failed: set<Id>)
    requires SchedulerSafety.Sound(s) && id in s.inFlight && failed <= s.failed
    ensures Matched(s, Scheduler.HandleResult(s, cfg, id, agent, outcome), ResultReports(s, cfg, id, outcome), failed)
  {
    var reports := ResultReports(s, cfg, id, outcome);
    if reports == [TaskComplete(id)] {
      SuccessMatched(s, cfg, id, agent, failed);
    } else if reports == [TaskFailed(id)] {
      FinalFailureMatched(s, cfg, id, agent, outcome, failed);
    } else if reports == [TaskRetrying(id)] {
      RetryMatched(s, cfg, id, agent, outcome, failed);
    } else {
      SchedulerRuns.ResultQuiet(s, cfg, id, agent, outcome);
      NoReport(s, Scheduler.HandleResult(s, cfg, id, agent, outcome), failed);
    }
  }

  lemma OthersMatched(s: Scheduler.State, cfg: Scheduler.Config, e: Scheduler.Event, failed: set<Id>)
    requires SchedulerSafety.Sound(s) && Scheduler.Allowed(s, e) && failed <= s.failed
    requires e.Submitting? || e.Cancelling? || e.Reprioritising?
    ensures Matched(s, Scheduler.Step(s, cfg, e), [], failed)
  {
    SchedulerEnds.StepKeepsEnds(s, cfg, e);
    if e.Submitting? {
      SubmitCompletes(s, e.sub);
    } else if e.Cancelling? {
      CancelCompletes(s, e.id);
    }
    NoReport(s, Scheduler.Step(s, cfg, e), failed);
  }

  lemma CancelCompletes(s: Scheduler.State, id: Id)
    ensures Scheduler.Cancel(s, id).completed == s.completed
  {
    if id in s.active || id !in s.waiting {
      SchedulerRuns.CancelQuiet(s, id);
    } else {
      var unlinked := Scheduler.Unlink(s.dependents, s.waiting[id].dependsOn, id, None);
      assert Scheduler.Cancel(s, id)
          == s.(waiting := s.waiting - {id}, dependents := unlinked, withdrawn := s.withdrawn + {id});
    }
  }

  /** What a step reports is exactly what it completes, and only what it fails. */
  lemma ReportsMatch(s: Scheduler.State, cfg: Scheduler.Config, e: Scheduler.Event, failed: set<Id>)
    requires SchedulerSafety.Sound(s) && Scheduler.Allowed(s, e) && failed <= s.failed
    ensures Matched(s, Scheduler.Step(s, cfg, e), Reports(s, cfg, e), failed)
  {
    match e
    case Dispatching(entry, now, registry) => DispatchMatched(s, cfg, entry, now, registry, failed);
    case Resulting(id, agent, outcome) => ResultMatched(s, cfg, id, agent, outcome, failed);
    case Reaping(_, ids) =>
      ReapReportsMatch(s, ids, {}, failed);
      ReapNeverCompletes(s, ids);
    case _ => OthersMatched(s, cfg, e, failed);
  }

  lemma {:induction false} DoneAfterAdds(done: set<Id>, reports: seq<Event>)
    ensures DoneAfter(done, reports) == done + DoneAfter({}, reports)
    decreases reports
  {
    if reports != [] {
      DoneAfterAdds(DoneBy(done, reports[0]), reports[1..]);
      DoneAfterAdds(DoneBy({}, reports[0]), reports[1..]);
    }
  }

  // ---- Whole runs ----

  /** The failures reported, and the tasks left by early exits, in the course of a run. */
  ghost function ReportedFailed(j: Joint, cfg: Scheduler.Config, events: seq<JointEvent>, failed: set<Id>): set<Id>
    decreases events
  {
    if events == [] then failed
    else
      ReportedFailed(JointStep(j, cfg, events[0]), cfg, events[1..],
                     if events[0].Scheduled? then FailedAfter(failed, Reports(j.scheduler, cfg, events[0].e)) else failed)
  }

  ghost function LeftBehind(events: seq<JointEvent>, left: set<Id>): set<Id>
    decreases events
  {
    if events == [] then left
    else LeftBehind(events[1..], if events[0].Leaving? then left + WorkflowManager.SetFrom(events[0].ids) else left)
  }

  lemma EndsApart(s: Scheduler.State)
    requires SchedulerSafety.Sound(s)
    ensures s.completed !! s.failed && s.queue.Keys !! s.completed && s.queue.Keys !! s.failed
  {
    forall t
      ensures !(t in s.completed && t in s.failed) && !(t in s.queue && (t in s.completed || t in s.failed))
    {
      assert SchedulerSafety.TaskSound(s, t);
    }
  }

  /** What is done since the start grows by what the step reports as completed. */
  lemma DoneByStep(s: Scheduler.State, cfg: Scheduler.Config, e: Scheduler.Event, start: set<Id>, failed: set<Id>)
    requires SchedulerSafety.Sound(s) && Scheduler.Allowed(s, e) && start <= s.completed && failed <= s.failed
    ensures var r, reports := Scheduler.Step(s, cfg, e), Reports(s, cfg, e);
            && Matched(s, r, reports, failed) && start <= r.completed
            && DoneAfter(s.completed - start, reports) == r.completed - start
  {
    ReportsMatch(s, cfg, e, failed);
    DoneAfterAdds(s.completed - start, Reports(s, cfg, e));
    NewlyDone(s, cfg, e, start);
  }

  lemma StepShows(j: Joint, cfg: Scheduler.Config, e: Scheduler.Event, start: set<Id>, failed: set<Id>, left: set<Id>)
    requires SchedulerSafety.Sound(j.scheduler) && Scheduler.Allowed(j.scheduler, e)
    requires start <= j.scheduler.completed && failed <= j.scheduler.failed
    requires AllShow(j.run, j.scheduler.completed - start, failed, left)
    ensures var r := JointStep(j, cfg, Scheduled(e));
            && SchedulerSafety.Sound(r.scheduler) && start <= r.scheduler.completed
            && FailedAfter(failed, Reports(j.scheduler, cfg, e)) <= r.scheduler.failed
            && AllShow(r.run, r.scheduler.completed - start, FailedAfter(failed, Reports(j.scheduler, cfg, e)), left)
  {
    SchedulerSafety.StepSound(j.scheduler, cfg, e);
    DoneByStep(j.scheduler, cfg, e, start, failed);
    EndsApart(Scheduler.Step(j.scheduler, cfg, e));
    TellShows(j.run, Reports(j.scheduler, cfg, e), j.scheduler.completed - start, failed, left);
  }

  /** What a step reports as completed was not completed before. */
  lemma NewlyDone(s: Scheduler.State, cfg: Scheduler.Config, e: Scheduler.Event, start: set<Id>)
    requires SchedulerSafety.Sound(s) && Scheduler.Allowed(s, e) && start <= s.completed
    ensures DoneAfter({}, Reports(s, cfg, e)) !! s.completed
  {
    var reports := Reports(s, cfg, e);
    if e.Reaping? {
      ReapReportsMatch(s, e.ids, {}, {});
    } else if e.Resulting? {
      assert SchedulerSafety.TaskSound(s, e.id);
      if reports != [] {
        assert reports[1..] == [];
      }
    } else if reports != [] {
      assert reports[1..] == [];
    }
  }

  lemma {:induction false} RunShows(
      j: Joint, cfg: Scheduler.Config, events: seq<JointEvent>, start: set<Id>, failed: set<Id>, left: set<Id>)
    requires SchedulerSafety.Sound(j.scheduler) && JointAllowed(j, cfg, events)
    requires forall e | e in events :: !e.CancelRun?
    requires start <= j.scheduler.completed && failed <= j.scheduler.failed
    requires AllShow(j.run, j.scheduler.completed - start, failed, left)
    ensures var r := JointRun(j, cfg, events);
            && start <= r.scheduler.completed
            && AllShow(r.run, r.scheduler.completed - start, ReportedFailed(j, cfg, events, failed), LeftBehind(events, left))
    decreases events
  {
    if events != [] {
      var e := events[0];
      assert e in events && forall x | x in events[1..] :: x in events;
      match e
      case Scheduled(step) =>
        StepShows(j, cfg, step, start, failed, left);
        RunShows(JointStep(j, cfg, e), cfg, events[1..], start, FailedAfter(failed, Reports(j.scheduler, cfg, step)), left);
      case Leaving(ids) =>
        LeavingShows(j.run, ids, j.scheduler.completed - start, failed, left);
        RunShows(JointStep(j, cfg, e), cfg, events[1..], start, failed, left + WorkflowManager.SetFrom(ids));
    }
  }

  lemma StartedShows(taskIds: seq<Id>, phases: seq<Phase>)
    requires Fresh(phases) && Unshadowed(phases)
    requires forall k, t | 0 <= k < |phases| && t in phases[k].taskIds :: t in taskIds
    ensures AllShow(Started(taskIds, phases), {}, {}, {})
  {
    var start := NewRun(taskIds).(phases := phases);
    RegisterKeeps(start, phases);
    RegisteredTables(start, phases);
    StartedIsExact(taskIds, phases);
    var run := Started(taskIds, phases);
    forall k | 0 <= k < |run.phases|
      ensures Shows(run, k, {}, {}, {})
    {
      var p := phases[k];
      if p.taskIds != [] {
        assert p.taskIds[0] in p.taskIds;
        assert p.status.Pending?;
        assert !AllOver(p, {}, {}) && !SomeIn(p, {});
      }
    }
  }

  /**
    * In every run of scheduler and workflow together that is not cancelled, early exits of loops
    * included, each phase with tasks shows complete exactly if the scheduler has completed all of them
    * since the workflow was registered, failed exactly if all have ended and some were reported as
    * failed, and skipped exactly if neither is so and an early exit has left some of them behind.
    */
  lemma JointPhasesMean(
      taskIds: seq<Id>, phases: seq<Phase>, cfg: Scheduler.Config, before: seq<Scheduler.Event>, events: seq<JointEvent>, k: nat)
    requires Fresh(phases) && Unshadowed(phases) && Scheduler.AllowedRun(Scheduler.INITIAL, cfg, before)
    requires forall i, t | 0 <= i < |phases| && t in phases[i].taskIds :: t in taskIds
    requires var s := Scheduler.Run(Scheduler.INITIAL, cfg, before); JointAllowed(Joint(s, Started(taskIds, phases)), cfg, events)
    requires forall e | e in events :: !e.CancelRun?
    ensures var j := Joint(Scheduler.Run(Scheduler.INITIAL, cfg, before), Started(taskIds, phases));
            var r := JointRun(j, cfg, events);
            k < |r.run.phases| && r.run.phases[k].taskIds != [] ==>
              StatusMeans(r.run.phases[k], r.scheduler.completed - j.scheduler.completed,
                          ReportedFailed(j, cfg, events, {}), LeftBehind(events, {}))
  {
    var s := Scheduler.Run(Scheduler.INITIAL, cfg, before);
    var j := Joint(s, Started(taskIds, phases));
    SchedulerSafety.RunSound(Scheduler.INITIAL, cfg, before);
    StartedShows(taskIds, phases);
    assert s.completed - s.completed == {};
    RunShows(j, cfg, events, s.completed, {}, {});
    var r := JointRun(j, cfg, events);
    if k < |r.run.phases| {
      assert Shows(r.run, k, r.scheduler.completed - s.completed, ReportedFailed(j, cfg, events, {}), LeftBehind(events, {}));
    }
  }
}
