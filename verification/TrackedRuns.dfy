// The scheduler and a tracked run together: what the orchestrator reports to the workflow manager,
// and why the retries it reports never hit a phase that is already complete.

module TrackedRuns {
  import opened PhaseSpecs
  import opened Tasks
  import opened Wrappers
  import opened WorkflowRuns
  import opened WorkflowPhases
  import WorkflowManager
  import Scheduler
  import SchedulerSafety
  import SchedulerRuns

  // ---- What the orchestrator reports ----

  function ResultReports(
      s: Scheduler.State, cfg: Scheduler.Config, id: Id, outcome: Scheduler.Outcome): seq<Event>
  {
    if id in s.tombstones then []
    else if outcome.Success? then [TaskComplete(id)]
    else if outcome.WatchdogTimeout? && id in s.active && Scheduler.Escalates(cfg, s.active[id]) then []
    else if id in s.active && s.active[id].retryCount < s.active[id].maxRetries then [TaskRetrying(id)]
    else [TaskFailed(id)]
  }

  /** The reaper reports each expired task that is still waiting when its turn comes. */
  function ReapReports(s: Scheduler.State, ids: seq<Id>): seq<Event>
    decreases ids
  {
    if ids == [] then []
    else (if ids[0] in s.waiting then [TaskFailed(ids[0])] else []) + ReapReports(Scheduler.Reap(s, [ids[0]]), ids[1..])
  }

  /** Tasks that fail in a cascade, are dead-lettered or cancelled are not reported. */
  function Reports(s: Scheduler.State, cfg: Scheduler.Config, e: Scheduler.Event): seq<Event> {
    match e
    case Resulting(id, _, outcome) => ResultReports(s, cfg, id, outcome)
    case Dispatching(entry, now, _) =>
      if entry.task.id !in s.tombstones && Scheduler.Expired(entry.task, now) then [TaskFailed(entry.task.id)] else []
    case Reaping(_, ids) => ReapReports(s, ids)
    case _ => []
  }

  /**
    * What a result makes the orchestrator report, over the configuration: nothing for a cancelled or an
    * escalated task, else the completion, the retry or the failure. An expiry at dispatch is a failure.
    */
  lemma ReportsMean(s: Scheduler.State, cfg: Scheduler.Config, e: Scheduler.Event)
    requires SchedulerSafety.Sound(s) && Scheduler.Allowed(s, e)
    ensures e.Resulting? ==>
              && e.id in s.active
              && var task := s.active[e.id];
                 Reports(s, cfg, e)
                 == if e.id in s.tombstones then []
                    else if e.outcome.Success? then [TaskComplete(e.id)]
                    else if e.outcome.WatchdogTimeout? && cfg.escalationEnabled
                            && task.escalationCount < cfg.maxEscalations then []
                    else if task.retryCount < task.maxRetries then [TaskRetrying(e.id)]
                    else [TaskFailed(e.id)]
    ensures e.Dispatching? ==>
              var task := e.entry.task;
              Reports(s, cfg, e)
              == if task.id !in s.tombstones && task.expiresAt.Some? && e.now > task.expiresAt.value
                 then [TaskFailed(task.id)] else []
  {
    if e.Resulting? {
      assert SchedulerSafety.TaskSound(s, e.id);
    }
  }

  /** The run hears of its own tasks only. */
  function Tell(run: WorkflowRun, reports: seq<Event>): WorkflowRun
    decreases reports
  {
    if reports == [] then run
    else
      var e := reports[0];
      Tell(if e.Cancel? || e.id in run.taskIds then Apply(run, e) else run, reports[1..])
  }

  // ---- Scheduler and run together ----

  /** Besides the scheduler's steps the run can be cancelled, or lose tasks when a loop ends early. */
  datatype JointEvent = Scheduled(e: Scheduler.Event) | CancelRun | Leaving(ids: seq<Id>)

  datatype Joint = Joint(scheduler: Scheduler.State, run: WorkflowRun)

  function JointStep(j: Joint, cfg: Scheduler.Config, e: JointEvent): Joint {
    match e
    case Scheduled(step) => Joint(Scheduler.Step(j.scheduler, cfg, step), Tell(j.run, Reports(j.scheduler, cfg, step)))
    case CancelRun => j.(run := Apply(j.run, Cancel))
    case Leaving(ids) => j.(run := WorkflowManager.ExitLoop(j.run, ids))
  }

  function JointRun(j: Joint, cfg: Scheduler.Config, events: seq<JointEvent>): Joint
    decreases events
  {
    if events == [] then j else JointRun(JointStep(j, cfg, events[0]), cfg, events[1..])
  }

  ghost predicate JointAllowed(j: Joint, cfg: Scheduler.Config, events: seq<JointEvent>)
    decreases events
  {
    events == [] ||
    ((events[0].Scheduled? ==> Scheduler.Allowed(j.scheduler, events[0].e))
     && JointAllowed(JointStep(j, cfg, events[0]), cfg, events[1..]))
  }

  /** No retry that is reported in the run hits a phase that is already complete. */
  ghost predicate NeverReopens(j: Joint, cfg: Scheduler.Config, events: seq<JointEvent>)
    decreases events
  {
    events == [] ||
    ((events[0].Scheduled? ==>
        forall r | r in Reports(j.scheduler, cfg, events[0].e) && r.TaskRetrying? :: !Reopens(j.run, r))
     && NeverReopens(JointStep(j, cfg, events[0]), cfg, events[1..]))
  }

  // ---- Complete phases hold only tasks the scheduler has completed ----

  ghost predicate Backed(run: WorkflowRun, completed: set<Id>) {
    && (forall n, t | t in SetOf(run.phaseCompleted, n) :: t in completed)
    && (forall i, t | 0 <= i < |run.phases| && run.phases[i].status.Complete? && t in run.phases[i].taskIds :: t in completed)
  }

  lemma UpdateBacked(run: WorkflowRun, id: Id, ok: bool, completed: set<Id>)
    requires Backed(run, completed) && (ok ==> id in completed)
    ensures Backed(UpdatePhaseStatus(run, id, ok), completed)
  {
    if id in run.phaseOf && FindPhase(run.phases, run.phaseOf[id]).Some? {
      var i := FindPhase(run.phases, run.phaseOf[id]).value;
      UpdateHere(run, id, ok, i);
      var r, name := UpdatePhaseStatus(run, id, ok), run.phaseOf[id];
      forall n, t | t in SetOf(r.phaseCompleted, n)
        ensures t in completed
      {
        if n == name {
          assert t in SetOf(run.phaseCompleted, name) || (ok && t == id);
        } else {
          assert t in SetOf(run.phaseCompleted, n);
        }
      }
    }
  }

  lemma RevertBacked(run: WorkflowRun, id: Id, completed: set<Id>)
    requires Backed(run, completed)
    ensures Backed(RevertPhase(run, id), completed)
  {
    if id in run.phaseOf {
      var r := RevertPhase(run, id);
      forall n, t | t in SetOf(r.phaseCompleted, n)
        ensures t in completed
      {
        assert t in SetOf(run.phaseCompleted, n);
      }
    }
  }

  lemma ApplyBacked(run: WorkflowRun, e: Event, completed: set<Id>)
    requires Backed(run, completed) && (e.TaskComplete? ==> e.id in completed)
    ensures Backed(Apply(run, e), completed)
  {
    match e
    case TaskComplete(id) =>
      UpdateBacked(run.(completed := run.completed + {id}, failed := run.failed - {id}), id, true, completed);
    case TaskFailed(id) =>
      UpdateBacked(run.(completed := run.completed - {id}, failed := run.failed + {id}), id, false, completed);
    case TaskRetrying(id) =>
      RevertBacked(run.(completed := run.completed - {id}, failed := run.failed - {id}), id, completed);
    case Cancel =>
  }

  lemma {:induction false} TellBacked(run: WorkflowRun, reports: seq<Event>, completed: set<Id>)
    requires Backed(run, completed) && forall e | e in reports && e.TaskComplete? :: e.id in completed
    ensures Backed(Tell(run, reports), completed)
    decreases reports
  {
    if reports != [] {
      var e := reports[0];
      ApplyBacked(run, e, completed);
      TellBacked(if e.Cancel? || e.id in run.taskIds then Apply(run, e) else run, reports[1..], completed);
    }
  }

  lemma {:induction false} SkipBacked(run: WorkflowRun, ids: seq<Id>, completed: set<Id>)
    requires Backed(run, completed)
    ensures Backed(WorkflowManager.SkipTasks(run, ids), completed)
    decreases ids
  {
    if ids != [] {
      SkipBacked(WorkflowManager.SkipTask(run, ids[0]), ids[1..], completed);
    }
  }

  // ---- What the scheduler has completed ----

  lemma SubmitCompletes(s: Scheduler.State, sub: Scheduler.Submission)
    ensures Scheduler.Submit(s, sub).completed == s.completed
  {
    if Scheduler.SomeFailed(s, sub.dependsOn) {
    } else if Scheduler.Unmet(s, sub.dependsOn) == [] {
    } else {
    }
  }

  lemma {:induction false} ReapNeverCompletes(s: Scheduler.State, ids: seq<Id>)
    ensures forall r | r in ReapReports(s, ids) :: r.TaskFailed?
    decreases ids
  {
    if ids != [] {
      ReapNeverCompletes(Scheduler.Reap(s, [ids[0]]), ids[1..]);
    }
  }

  lemma SuccessCompletes(s: Scheduler.State, cfg: Scheduler.Config, id: Id, agent: Agent)
    requires SchedulerSafety.Sound(s) && id in s.inFlight && id !in s.tombstones
    ensures id in Scheduler.HandleResult(s, cfg, id, agent, Scheduler.Success).completed
  {
    SchedulerRuns.ResultSucceeds(s, cfg, id, agent);
    SchedulerSafety.OnDepSatisfiedMoves(
      s.(inFlight := s.inFlight - {id}, active := s.active - {id}, completed := s.completed + {id}), id);
  }

  /** Completions stay, and whatever is reported as completed is. */
  lemma StepCompletes(s: Scheduler.State, cfg: Scheduler.Config, e: Scheduler.Event)
    requires SchedulerSafety.Sound(s) && Scheduler.Allowed(s, e)
    ensures s.completed <= Scheduler.Step(s, cfg, e).completed
    ensures forall r | r in Reports(s, cfg, e) && r.TaskComplete? :: r.id in Scheduler.Step(s, cfg, e).completed
  {
    if e.Submitting? {
      SubmitCompletes(s, e.sub);
    } else {
      SchedulerRuns.StepRemembers(s, cfg, e);
      if e.Reaping? {
        ReapNeverCompletes(s, e.ids);
      } else if e.Resulting? && e.outcome.Success? && e.id !in s.tombstones {
        SuccessCompletes(s, cfg, e.id, e.agent);
      }
    }
  }

  // ---- Retries never hit complete phases ----

  ghost predicate JointSound(j: Joint) {
    SchedulerSafety.Sound(j.scheduler) && Backed(j.run, j.scheduler.completed)
  }

  lemma MoreCompleted(run: WorkflowRun, few: set<Id>, more: set<Id>)
    requires Backed(run, few) && few <= more
    ensures Backed(run, more)
  {
  }

  lemma JointStepSound(j: Joint, cfg: Scheduler.Config, e: JointEvent)
    requires JointSound(j) && (e.Scheduled? ==> Scheduler.Allowed(j.scheduler, e.e))
    ensures JointSound(JointStep(j, cfg, e))
  {
    match e
    case Scheduled(step) =>
      var s := Scheduler.Step(j.scheduler, cfg, step);
      SchedulerSafety.StepSound(j.scheduler, cfg, step);
      StepCompletes(j.scheduler, cfg, step);
      MoreCompleted(j.run, j.scheduler.completed, s.completed);
      TellBacked(j.run, Reports(j.scheduler, cfg, step), s.completed);
    case CancelRun =>
    case Leaving(ids) => SkipBacked(j.run, ids, j.scheduler.completed);
  }

  /** A task whose retry is reported was executing, so it is not completed. */
  lemma RetriedIsOpen(j: Joint, cfg: Scheduler.Config, e: Scheduler.Event, r: Event)
    requires JointSound(j) && Scheduler.Allowed(j.scheduler, e)
    requires r in Reports(j.scheduler, cfg, e) && r.TaskRetrying?
    ensures !Reopens(j.run, r)
  {
    if e.Reaping? {
      ReapNeverCompletes(j.scheduler, e.ids);
    }
    assert e.Resulting? && r.id == e.id;
    assert SchedulerSafety.TaskSound(j.scheduler, e.id);
  }

  lemma {:induction false} JointRunSound(j: Joint, cfg: Scheduler.Config, events: seq<JointEvent>)
    requires JointSound(j) && JointAllowed(j, cfg, events)
    ensures JointSound(JointRun(j, cfg, events)) && NeverReopens(j, cfg, events)
    decreases events
  {
    if events != [] {
      if events[0].Scheduled? {
        forall r | r in Reports(j.scheduler, cfg, events[0].e) && r.TaskRetrying?
          ensures !Reopens(j.run, r)
        {
          RetriedIsOpen(j, cfg, events[0].e, r);
        }
      }
      JointStepSound(j, cfg, events[0]);
      JointRunSound(JointStep(j, cfg, events[0]), cfg, events[1..]);
    }
  }

  lemma StartedBacked(taskIds: seq<Id>, phases: seq<Phase>, completed: set<Id>)
    requires Fresh(phases)
    ensures Backed(Started(taskIds, phases), completed)
  {
    var start := NewRun(taskIds).(phases := phases);
    RegisterKeeps(start, phases);
    RegisteredTables(start, phases);
    var run := Started(taskIds, phases);
    forall n
      ensures SetOf(run.phaseCompleted, n) == {}
    {
      assert SetOf(run.phaseCompleted, n) == SetOf(start.phaseCompleted, n);
    }
  }

  /**
    * Whatever the scheduler did before the workflow was registered, and whatever happens afterwards,
    * cancellations and early exits of loops included: no retry that the orchestrator reports is of a
    * task of a phase that is already complete, and a complete phase holds only completed tasks.
    */
  lemma ReportedRetriesNeverReopen(
      taskIds: seq<Id>, phases: seq<Phase>, cfg: Scheduler.Config, before: seq<Scheduler.Event>, events: seq<JointEvent>)
    requires Fresh(phases) && Scheduler.AllowedRun(Scheduler.INITIAL, cfg, before)
    requires var s := Scheduler.Run(Scheduler.INITIAL, cfg, before); JointAllowed(Joint(s, Started(taskIds, phases)), cfg, events)
    ensures var j := Joint(Scheduler.Run(Scheduler.INITIAL, cfg, before), Started(taskIds, phases));
            var r := JointRun(j, cfg, events);
            && NeverReopens(j, cfg, events)
            && forall i, t | 0 <= i < |r.run.phases| && r.run.phases[i].status.Complete? && t in r.run.phases[i].taskIds ::
                 t in r.scheduler.completed
  {
    var s := Scheduler.Run(Scheduler.INITIAL, cfg, before);
    SchedulerSafety.RunSound(Scheduler.INITIAL, cfg, before);
    StartedBacked(taskIds, phases, s.completed);
    JointRunSound(Joint(s, Started(taskIds, phases)), cfg, events);
  }

  // ---- Without early exits the phases always show the truth ----

  ghost predicate TrueToPhases(run: WorkflowRun) {
    Tracked(run) && OnePhaseEach(run) && AllExact(run)
  }

  lemma {:induction false} TellShowsTruth(run: WorkflowRun, reports: seq<Event>)
    requires TrueToPhases(run)
    requires forall r | r in reports && r.TaskRetrying? :: !Reopens(run, r) && |reports| == 1
    ensures TrueToPhases(Tell(run, reports))
    decreases reports
  {
    if reports != [] {
      var e := reports[0];
      StepShowsTruth(run, e);
      assert !e.TaskRetrying? ==> !Reopens(run, e);
      assert forall r | r in reports[1..] :: r in reports;
      TellShowsTruth(if e.Cancel? || e.id in run.taskIds then Apply(run, e) else run, reports[1..]);
    }
  }

  lemma {:induction false} JointRunShowsTruth(j: Joint, cfg: Scheduler.Config, events: seq<JointEvent>)
    requires JointSound(j) && TrueToPhases(j.run) && JointAllowed(j, cfg, events)
    requires forall e | e in events :: !e.Leaving?
    ensures TrueToPhases(JointRun(j, cfg, events).run)
    decreases events
  {
    if events != [] {
      var e := events[0];
      assert forall x | x in events[1..] :: x in events;
      match e {
        case Scheduled(step) =>
          var reports := Reports(j.scheduler, cfg, step);
          forall r | r in reports && r.TaskRetrying?
            ensures !Reopens(j.run, r) && |reports| == 1
          {
            RetriedIsOpen(j, cfg, step, r);
            if step.Reaping? {
              ReapNeverCompletes(j.scheduler, step.ids);
            }
          }
          TellShowsTruth(j.run, reports);
        case CancelRun => StepShowsTruth(j.run, Cancel);
      }
      JointStepSound(j, cfg, e);
      JointRunShowsTruth(JointStep(j, cfg, e), cfg, events[1..]);
    }
  }

  /**
    * In every joint run without early exits, the status of every phase is right at the end, provided
    * no phase with tasks has the name of an earlier one.
    */
  lemma JointPhasesShowTruth(
      taskIds: seq<Id>, phases: seq<Phase>, cfg: Scheduler.Config, before: seq<Scheduler.Event>, events: seq<JointEvent>)
    requires Fresh(phases) && Unshadowed(phases) && Scheduler.AllowedRun(Scheduler.INITIAL, cfg, before)
    requires var s := Scheduler.Run(Scheduler.INITIAL, cfg, before); JointAllowed(Joint(s, Started(taskIds, phases)), cfg, events)
    requires forall e | e in events :: !e.Leaving?
    ensures var j := Joint(Scheduler.Run(Scheduler.INITIAL, cfg, before), Started(taskIds, phases));
            AllExact(JointRun(j, cfg, events).run)
  {
    var s := Scheduler.Run(Scheduler.INITIAL, cfg, before);
    SchedulerSafety.RunSound(Scheduler.INITIAL, cfg, before);
    StartedBacked(taskIds, phases, s.completed);
    StartedIsExact(taskIds, phases);
    JointRunShowsTruth(Joint(s, Started(taskIds, phases)), cfg, events);
  }
}
