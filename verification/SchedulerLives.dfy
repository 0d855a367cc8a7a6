// One task in the course of a run: what the steps about other tasks can do to it, that a cancelled task
// never runs on, and exactly when a task is given up.

module SchedulerLives {
  import opened Wrappers
  import opened Tasks
  import opened Scheduler
  import opened SchedulerSafety
  import opened SchedulerIndex
  import opened SchedulerRuns
  import opened SchedulerEnds
  import opened SchedulerMeaning

  // ---- Steps about other tasks ----

  /** The task that a step is about; the reaper is about no task in particular. */
  function Subject(e: Event): Option<Id> {
    match e
    case Submitting(sub) => Some(sub.id)
    case Dispatching(entry, _, _) => Some(entry.task.id)
    case Resulting(id, _, _) => Some(id)
    case Cancelling(id) => Some(id)
    case Reaping(_, _) => None
    case Reprioritising(id, _) => Some(id)
  }

  ghost predicate SameAt<V>(a: map<Id, V>, b: map<Id, V>, id: Id) {
    (id in a <==> id in b) && (id in a ==> a[id] == b[id])
  }

  /** Nothing happens to the task, except that it may stop waiting: it is queued as it is, or fails. */
  ghost predicate Spared(s: State, r: State, id: Id) {
    && SameAt(s.active, r.active, id) && SameAt(s.inFlight, r.inFlight, id) && SameAt(s.submitted, r.submitted, id)
    && SameAt(s.sent, r.sent, id)
    && (id in r.completed <==> id in s.completed) && (id in r.tombstones <==> id in s.tombstones)
    && (id in r.withdrawn <==> id in s.withdrawn) && (id in r.dlq <==> id in s.dlq)
    && (id in s.queue ==> id in r.queue && r.queue[id] == s.queue[id])
    && (id in r.waiting ==> id in s.waiting && r.waiting[id] == s.waiting[id])
    && (id in s.waiting && id !in r.waiting ==> id in r.queue || id in r.failed)
    && (id in r.queue && id !in s.queue ==> id in s.waiting && id !in r.waiting && r.queue[id].task == s.waiting[id])
    && (id in r.failed && id !in s.failed ==> id in s.waiting && id !in r.waiting)
    && (id in s.failed ==> id in r.failed)
  }

  lemma TakedownSpares(s: State, f: State, r: State, causes: seq<Id>, id: Id)
    requires Spared(s, f, id) && TakesDown(f, r, causes) && f.waiting == s.waiting
    requires r == f.(waiting := r.waiting, dependents := r.dependents, failed := r.failed)
    ensures Spared(s, r, id)
  {
  }

  lemma GivenUpSpares(s: State, r: State, x: Id, id: Id)
    requires GivesUp(s, r, x) && id != x
    ensures Spared(s, r, id)
  {
  }

  lemma QueuedSpares(s: State, r: State, priority: int, task: Task, id: Id)
    requires Queued(s, r, priority, task) && id != task.id
    ensures Spared(s, r, id)
  {
  }

  lemma GivenSpares(s: State, r: State, task: Task, agent: Agent, id: Id)
    requires GivenTo(s, r, task, agent) && id != task.id
    ensures Spared(s, r, id)
  {
  }

  lemma RouteSpares(s: State, r: State, cfg: Config, task: Task, choice: Choice, id: Id)
    requires Routed(s, r, cfg, task, choice) && id != task.id
    ensures Spared(s, r, id)
  {
    match choice
    case Unroutable => GivenUpSpares(s, r, task.id, id);
    case Nobody =>
      if task.requeues + 1 < cfg.dlqMaxRetries {
        QueuedSpares(s, r, task.priority, task.(requeues := task.requeues + 1), id);
      } else {
        GivenUpSpares(s, r, task.id, id);
      }
    case Chosen(agent) => GivenSpares(s, r, task, agent, id);
  }

  lemma DropSpares(s: State, r: State, x: Id, id: Id)
    requires Drops(s, r, x) && id != x
    ensures Spared(s, r, id)
  {
  }

  lemma ExpirySpares(s: State, r: State, x: Id, id: Id)
    requires Expires(s, r, x) && id != x
    ensures Spared(s, r, id)
  {
    TakedownSpares(s, s.(queue := s.queue - {x}, failed := s.failed + {x}), r, [x], id);
  }

  lemma DispatchSpares(s: State, r: State, cfg: Config, task: Task, now: real, registry: Registry, id: Id)
    requires Dispatches(s, r, cfg, task, now, registry) && id != task.id
    ensures Spared(s, r, id)
  {
    if task.id in s.tombstones {
      DropSpares(s, r, task.id, id);
    } else if task.expiresAt.Some? && now > task.expiresAt.value {
      ExpirySpares(s, r, task.id, id);
    } else {
      RouteSpares(s, r, cfg, task, Select(task, registry), id);
    }
  }

  lemma CompletionSpares(s: State, r: State, x: Id, id: Id)
    requires Completes(s, r, x) && id != x && (id in s.waiting ==> id !in s.queue)
    ensures Spared(s, r, id)
  {
    assert Woken(s, r, s.completed + {x}, id);
  }

  lemma ReturnSpares(s: State, r: State, task: Task, id: Id)
    requires Returned(s, r, task) && id != task.id
    ensures Spared(s, r, id)
  {
  }

  lemma ResultSpares(s: State, r: State, cfg: Config, task: Task, agent: Agent, outcome: Outcome, id: Id)
    requires Lands(s, r, cfg, task, agent, outcome) && id != task.id && (id in s.waiting ==> id !in s.queue)
    ensures Spared(s, r, id)
  {
    if task.id in s.tombstones {
      DiscardSpares(s, r, task.id, id);
    } else if outcome.Success? {
      CompletionSpares(s, r, task.id, id);
    } else if outcome.WatchdogTimeout? && cfg.escalationEnabled && task.escalationCount < cfg.maxEscalations {
      ReturnSpares(s, r, OneUp(task, agent), id);
    } else if task.retryCount < task.maxRetries {
      ReturnSpares(s, r, task.(retryCount := task.retryCount + 1), id);
    } else {
      EndSpares(s, r, task.id, id);
    }
  }

  lemma DiscardSpares(s: State, r: State, x: Id, id: Id)
    requires Discards(s, r, x) && id != x
    ensures Spared(s, r, id)
  {
  }

  lemma EndSpares(s: State, r: State, x: Id, id: Id)
    requires Ends(s, r, x) && id != x
    ensures Spared(s, r, id)
  {
    TakedownSpares(s, s.(inFlight := s.inFlight - {x}, active := s.active - {x}, failed := s.failed + {x}), r, [x], id);
  }

  lemma SubmitSpares(s: State, r: State, sub: Submission, id: Id)
    requires Submits(s, r, sub) && id != sub.id
    ensures Spared(s, r, id)
  {
    var task := r.submitted[sub.id];
    PlaceSpares(s, s.(submitted := s.submitted[sub.id := task], priorities := s.priorities[sub.id := task.priority],
                      taskDeps := r.taskDeps), r, sub, task, id);
  }

  lemma SparedBoth(s: State, m: State, r: State, id: Id)
    requires Spared(s, m, id) && Spared(m, r, id)
    ensures Spared(s, r, id)
  {
  }

  lemma FailedSpares(s: State, r: State, x: Id, id: Id)
    requires r == s.(failed := s.failed + {x}) && id != x
    ensures Spared(s, r, id)
  {
  }

  lemma HeldSpares(s: State, r: State, task: Task, id: Id)
    requires r == s.(waiting := s.waiting[task.id := task], dependents := r.dependents) && id != task.id
    ensures Spared(s, r, id)
  {
  }

  lemma PlaceSpares(s: State, known: State, r: State, sub: Submission, task: Task, id: Id)
    requires PlacedBy(s, known, r, sub, task) && id != sub.id && task.id == sub.id
    requires known == s.(submitted := known.submitted, priorities := known.priorities, taskDeps := known.taskDeps)
    requires SameAt(s.submitted, known.submitted, id)
    ensures Spared(s, r, id)
  {
    assert Spared(s, known, id);
    if exists d :: d in sub.dependsOn && d in s.failed {
      FailedSpares(known, r, sub.id, id);
    } else if forall d | d in sub.dependsOn :: d in s.completed {
      QueuedSpares(known, r, sub.priority, task, id);
    } else {
      HeldSpares(known, r, task, id);
    }
    SparedBoth(s, known, r, id);
  }

  lemma CancelSpares(s: State, r: State, x: Id, id: Id)
    requires Cancels(s, r, x) && id != x
    ensures Spared(s, r, id)
  {
    if x in s.active {
      MarkSpares(s, r, x, id);
    } else if x in s.waiting || x in s.queue {
      WithdrawalSpares(s, r, x, id);
    } else {
      assert r == s;
    }
  }

  lemma MarkSpares(s: State, r: State, x: Id, id: Id)
    requires r == s.(tombstones := s.tombstones + {x}) && id != x
    ensures Spared(s, r, id)
  {
  }

  lemma WithdrawalSpares(s: State, r: State, x: Id, id: Id)
    requires Withdrawn(s, r, x) && id != x
    ensures Spared(s, r, id)
  {
  }

  lemma MoveSpares(s: State, r: State, cfg: Config, e: Event, id: Id)
    requires Moves(s, r, cfg, e) && Subject(e) != Some(id) && (id in s.waiting ==> id !in s.queue)
    ensures Spared(s, r, id)
  {
    match e
    case Submitting(sub) => SubmitSpares(s, r, sub, id);
    case Dispatching(entry, now, registry) => DispatchSpares(s, r, cfg, entry.task, now, registry, id);
    case Resulting(x, agent, outcome) => ResultSpares(s, r, cfg, s.active[x], agent, outcome, id);
    case Cancelling(x) => CancelSpares(s, r, x, id);
    case Reaping(now, ids) => TakedownSpares(s, s, r, ids, id);
    case Reprioritising(x, priority) => ReprioritiseSpares(s, r, x, priority, id);
  }

  lemma ReprioritiseSpares(s: State, r: State, x: Id, priority: int, id: Id)
    requires Reprioritises(s, r, x, priority) && id != x
    ensures Spared(s, r, id)
  {
  }

  /** A step spares every task that it is not about. */
  lemma StepSpares(s: State, cfg: Config, e: Event, id: Id)
    requires Healthy(s) && Allowed(s, e) && Subject(e) != Some(id)
    ensures Spared(s, Step(s, cfg, e), id)
  {
    assert TaskSound(s, id);
    StepMeans(s, cfg, e);
    MoveSpares(s, Step(s, cfg, e), cfg, e, id);
  }

  // ---- A cancelled task never runs on ----

  /** What is still in the table of tasks that were sent is queued again, executing, or has ended. */
  ghost predicate Accounted(s: State, id: Id) {
    id in s.active ==> id in s.queue || id in s.inFlight || Ended(s, id)
  }

  lemma DispatchAccounted(s: State, r: State, cfg: Config, task: Task, now: real, registry: Registry)
    requires Dispatches(s, r, cfg, task, now, registry)
    ensures Accounted(r, task.id)
  {
    if task.id !in s.tombstones && (task.expiresAt.None? || now <= task.expiresAt.value) {
      RouteAccounted(s, r, cfg, task, Select(task, registry));
    }
  }

  lemma RouteAccounted(s: State, r: State, cfg: Config, task: Task, choice: Choice)
    requires Routed(s, r, cfg, task, choice)
    ensures Accounted(r, task.id)
  {
    match choice
    case Unroutable => GivenUpEnds(s, r, task.id);
    case Nobody =>
      if task.requeues + 1 < cfg.dlqMaxRetries {
        assert task.id in r.queue;
      } else {
        GivenUpEnds(s, r, task.id);
      }
    case Chosen(agent) => assert task.id in r.inFlight;
  }

  lemma GivenUpEnds(s: State, r: State, id: Id)
    requires GivesUp(s, r, id)
    ensures Ended(r, id)
  {
  }

  lemma SubmitAccounted(s: State, r: State, sub: Submission)
    requires Submits(s, r, sub) && sub.id !in s.active
    ensures Accounted(r, sub.id)
  {
    var task := r.submitted[sub.id];
    PlacedElsewhere(s, s.(submitted := s.submitted[sub.id := task], priorities := s.priorities[sub.id := task.priority],
                          taskDeps := r.taskDeps), r, sub, task);
  }

  lemma PlacedElsewhere(s: State, known: State, r: State, sub: Submission, task: Task)
    requires PlacedBy(s, known, r, sub, task)
    ensures r.active == known.active
  {
    if exists d :: d in sub.dependsOn && d in s.failed {
    } else if forall d | d in sub.dependsOn :: d in s.completed {
      assert Queued(known, r, sub.priority, task);
    } else {
    }
  }

  lemma CancelAccounted(s: State, r: State, id: Id)
    requires Cancels(s, r, id) && Accounted(s, id)
    ensures Accounted(r, id)
  {
    if id in s.active {
    } else if id in s.waiting || id in s.queue {
    } else {
    }
  }

  lemma MoveAccounted(s: State, r: State, cfg: Config, e: Event, id: Id)
    requires Moves(s, r, cfg, e) && Subject(e) == Some(id) && Accounted(s, id)
    requires id in s.active ==> id in s.submitted
    requires Allowed(s, e)
    ensures Accounted(r, id)
  {
    match e
    case Submitting(sub) => SubmitAccounted(s, r, sub);
    case Dispatching(entry, now, registry) => DispatchAccounted(s, r, cfg, entry.task, now, registry);
    case Resulting(_, agent, outcome) => ResultAccounted(s, r, cfg, s.active[id], agent, outcome);
    case Cancelling(_) => CancelAccounted(s, r, id);
    case Reprioritising(_, priority) =>
  }

  lemma ResultAccounted(s: State, r: State, cfg: Config, task: Task, agent: Agent, outcome: Outcome)
    requires Lands(s, r, cfg, task, agent, outcome)
    ensures Accounted(r, task.id)
  {
    var id := task.id;
    if id in s.tombstones || outcome.Success? || Ends(s, r, id) {
      assert id !in r.active;
    } else if outcome.WatchdogTimeout? && cfg.escalationEnabled && task.escalationCount < cfg.maxEscalations {
      ReturnedIsQueued(s, r, OneUp(task, agent));
    } else {
      ReturnedIsQueued(s, r, task.(retryCount := task.retryCount + 1));
    }
  }

  lemma ReturnedIsQueued(s: State, r: State, task: Task)
    requires Returned(s, r, task)
    ensures task.id in r.queue
  {
  }

  lemma StepAccounted(s: State, cfg: Config, e: Event, id: Id)
    requires Healthy(s) && Allowed(s, e) && Accounted(s, id)
    ensures Accounted(Step(s, cfg, e), id)
  {
    if Subject(e) != Some(id) {
      StepSpares(s, cfg, e, id);
    } else {
      assert TaskSound(s, id);
      StepMeans(s, cfg, e);
      MoveAccounted(s, Step(s, cfg, e), cfg, e, id);
    }
  }

  lemma {:induction false} RunAccounted(s: State, cfg: Config, events: seq<Event>, id: Id)
    requires Healthy(s) && AllowedRun(s, cfg, events) && Accounted(s, id)
    ensures Accounted(Run(s, cfg, events), id) && Healthy(Run(s, cfg, events))
    decreases events
  {
    if events != [] {
      StepHealthy(s, cfg, events[0]);
      StepAccounted(s, cfg, events[0], id);
      RunAccounted(Step(s, cfg, events[0]), cfg, events[1..], id);
    }
  }

  /** The task has ended without success, or it is marked and will be dropped when its turn or result comes. */
  ghost predicate Stopped(s: State, id: Id) {
    Ended(s, id) || (id in s.tombstones && (id in s.queue || id in s.inFlight))
  }

  /** The task is stopped and has not been sent once more. */
  ghost predicate StaysStopped(s: State, r: State, id: Id) {
    Stopped(r, id) && SentCount(r, id) == SentCount(s, id) && (id in r.inFlight ==> id in s.inFlight)
  }

  lemma DispatchStopped(s: State, r: State, cfg: Config, task: Task, now: real, registry: Registry)
    requires Dispatches(s, r, cfg, task, now, registry) && task.id in s.tombstones
    ensures StaysStopped(s, r, task.id)
  {
  }

  lemma ResultStopped(s: State, r: State, cfg: Config, task: Task, agent: Agent, outcome: Outcome)
    requires Lands(s, r, cfg, task, agent, outcome) && task.id in s.tombstones
    ensures StaysStopped(s, r, task.id)
  {
  }

  lemma CancelStopped(s: State, r: State, id: Id)
    requires Cancels(s, r, id) && (Stopped(s, id) || (Accounted(s, id) && (id in s.active || id in s.waiting || id in s.queue)))
    ensures StaysStopped(s, r, id)
  {
    if id in s.active {
    } else if id in s.waiting || id in s.queue {
    } else {
    }
  }

  lemma ReprioritiseStopped(s: State, r: State, id: Id, priority: int)
    requires Reprioritises(s, r, id, priority) && Stopped(s, id)
    ensures StaysStopped(s, r, id)
  {
  }

  lemma MoveStopped(s: State, r: State, cfg: Config, e: Event, id: Id)
    requires Moves(s, r, cfg, e) && Allowed(s, e) && Subject(e) == Some(id) && Stopped(s, id)
    requires TaskSound(s, id)
    ensures StaysStopped(s, r, id)
  {
    match e
    case Submitting(sub) => assert false;
    case Dispatching(entry, now, registry) => DispatchStopped(s, r, cfg, entry.task, now, registry);
    case Resulting(_, agent, outcome) => ResultStopped(s, r, cfg, s.active[id], agent, outcome);
    case Cancelling(_) => CancelStopped(s, r, id);
    case Reprioritising(_, priority) => ReprioritiseStopped(s, r, id, priority);
  }

  lemma StepStopped(s: State, cfg: Config, e: Event, id: Id)
    requires Healthy(s) && Allowed(s, e) && Stopped(s, id)
    ensures StaysStopped(s, Step(s, cfg, e), id)
  {
    assert TaskSound(s, id);
    if Subject(e) != Some(id) {
      StepSpares(s, cfg, e, id);
    } else {
      StepMeans(s, cfg, e);
      MoveStopped(s, Step(s, cfg, e), cfg, e, id);
    }
  }

  lemma {:induction false} RunStopped(s: State, cfg: Config, events: seq<Event>, id: Id)
    requires Healthy(s) && AllowedRun(s, cfg, events) && Stopped(s, id)
    ensures StaysStopped(s, Run(s, cfg, events), id)
    ensures id !in Run(s, cfg, events).completed
    decreases events
  {
    if events == [] {
      assert TaskSound(s, id);
    } else {
      StepHealthy(s, cfg, events[0]);
      StepStopped(s, cfg, events[0], id);
      RunStopped(Step(s, cfg, events[0]), cfg, events[1..], id);
    }
  }

  lemma CancelStops(s: State, cfg: Config, id: Id)
    requires Healthy(s) && Accounted(s, id) && (id in s.active || id in s.waiting || id in s.queue)
    ensures StaysStopped(s, Step(s, cfg, Cancelling(id)), id)
  {
    CancelMeans(s, cfg, id);
    CancelStopped(s, Step(s, cfg, Cancelling(id)), id);
  }

  /**
    * Once a waiting, queued or executing task is cancelled, then in every continuation of the run it is
    * not completed, it is not sent to an agent again, and a result that is still to come is dropped.
    */
  lemma CancelledNeverRuns(cfg: Config, before: seq<Event>, id: Id, later: seq<Event>)
    requires AllowedRun(INITIAL, cfg, before)
    requires var s := Run(INITIAL, cfg, before);
             (id in s.active || id in s.waiting || id in s.queue)
             && AllowedRun(Step(s, cfg, Cancelling(id)), cfg, later)
    ensures var s := Run(INITIAL, cfg, before);
            var r := Run(Step(s, cfg, Cancelling(id)), cfg, later);
            && id !in r.completed && SentCount(r, id) == SentCount(s, id)
            && (id in r.inFlight ==> id in s.inFlight && id in r.tombstones)
            && (id in r.queue ==> id in r.tombstones)
  {
    var s := Run(INITIAL, cfg, before);
    InitialHealthy();
    RunAccounted(INITIAL, cfg, before, id);
    CancelStops(s, cfg, id);
    StepHealthy(s, cfg, Cancelling(id));
    var m := Step(s, cfg, Cancelling(id));
    RunStopped(m, cfg, later, id);
    RunHealthy(m, cfg, later);
    assert TaskSound(Run(m, cfg, later), id);
  }

  // ---- Given up exactly when nobody can take the task often enough ----

  /** The step is a dispatch turn for the task, which is neither cancelled nor expired, with that outcome. */
  ghost predicate TurnEnds(s: State, e: Event, id: Id, choice: Choice) {
    && e.Dispatching? && e.entry.task.id == id && id !in s.tombstones
    && (e.entry.task.expiresAt.Some? ==> e.now <= e.entry.task.expiresAt.value)
    && Select(e.entry.task, e.registry) == choice
  }

  /** How many of the turns found nobody for the task. */
  ghost function Misses(s: State, cfg: Config, events: seq<Event>, id: Id): nat
    decreases events
  {
    if events == [] then 0
    else (if TurnEnds(s, events[0], id, Nobody) then 1 else 0) + Misses(Step(s, cfg, events[0]), cfg, events[1..], id)
  }

  /** At one of the turns the task named an agent or a group that is not known. */
  ghost predicate OnceUnroutable(s: State, cfg: Config, events: seq<Event>, id: Id)
    decreases events
  {
    events != [] &&
    (TurnEnds(s, events[0], id, Unroutable) || OnceUnroutable(Step(s, cfg, events[0]), cfg, events[1..], id))
  }

  /** The tries that a task has: at least one, whatever is configured. */
  function Tries(cfg: Config): nat {
    if cfg.dlqMaxRetries < 1 then 1 else cfg.dlqMaxRetries
  }

  /** After so many misses, and a turn without route or none: what is stored of the task has counted them. */
  ghost predicate Tallied(s: State, cfg: Config, id: Id, misses: nat, lost: bool) {
    && misses <= Tries(cfg) && (id in s.dlq <==> lost || misses == Tries(cfg))
    && (id in s.queue ==> s.queue[id].task.requeues == misses)
    && (id in s.inFlight ==> id in s.active && s.active[id].requeues == misses)
    && (id in s.waiting ==> s.waiting[id].requeues == misses)
    && (id !in s.submitted ==> misses == 0 && !lost)
  }

  ghost function MissesAfter(s: State, e: Event, id: Id, misses: nat): nat {
    misses + if TurnEnds(s, e, id, Nobody) then 1 else 0
  }

  lemma SubmitTallied(s: State, r: State, cfg: Config, sub: Submission, misses: nat, lost: bool)
    requires Submits(s, r, sub) && sub.id !in s.submitted && TaskSound(s, sub.id)
    requires Tallied(s, cfg, sub.id, misses, lost)
    ensures Tallied(r, cfg, sub.id, misses, lost)
  {
    var task := r.submitted[sub.id];
    PlaceTallied(s, s.(submitted := s.submitted[sub.id := task], priorities := s.priorities[sub.id := task.priority],
                       taskDeps := r.taskDeps), r, cfg, sub, task);
  }

  lemma PlaceTallied(s: State, known: State, r: State, cfg: Config, sub: Submission, task: Task)
    requires PlacedBy(s, known, r, sub, task) && task.id == sub.id && task.requeues == 0 && sub.id in known.submitted
    requires known == s.(submitted := known.submitted, priorities := known.priorities, taskDeps := known.taskDeps)
    requires Places(s, sub.id) == 0
    ensures Tallied(r, cfg, sub.id, 0, false)
  {
    if exists d :: d in sub.dependsOn && d in s.failed {
      FailedTallied(known, r, cfg, sub.id);
    } else if forall d | d in sub.dependsOn :: d in s.completed {
      FirstQueuedTallied(known, r, cfg, sub.priority, task);
    } else {
      HeldTallied(known, r, cfg, task);
    }
  }

  /** The task is known, and in none of the tables. */
  ghost predicate OnlyKnown(s: State, id: Id) {
    id in s.submitted && id !in s.waiting && id !in s.queue && id !in s.inFlight && id !in s.dlq
  }

  lemma FailedTallied(s: State, r: State, cfg: Config, id: Id)
    requires OnlyKnown(s, id) && r == s.(failed := s.failed + {id})
    ensures Tallied(r, cfg, id, 0, false)
  {
    NewTallied(r, cfg, id);
  }

  lemma FirstQueuedTallied(s: State, r: State, cfg: Config, priority: int, task: Task)
    requires OnlyKnown(s, task.id) && Queued(s, r, priority, task) && task.requeues == 0
    ensures Tallied(r, cfg, task.id, 0, false)
  {
    NewTallied(r, cfg, task.id);
  }

  lemma HeldTallied(s: State, r: State, cfg: Config, task: Task)
    requires OnlyKnown(s, task.id) && r == s.(waiting := s.waiting[task.id := task], dependents := r.dependents)
    requires task.requeues == 0
    ensures Tallied(r, cfg, task.id, 0, false)
  {
    NewTallied(r, cfg, task.id);
  }

  lemma NewTallied(r: State, cfg: Config, id: Id)
    requires id !in r.dlq && id !in r.inFlight && id in r.submitted
    requires (id in r.queue ==> r.queue[id].task.requeues == 0) && (id in r.waiting ==> r.waiting[id].requeues == 0)
    ensures Tallied(r, cfg, id, 0, false)
  {
  }

  lemma RouteTallied(s: State, r: State, cfg: Config, task: Task, choice: Choice, misses: nat, lost: bool)
    requires Routed(s, r, cfg, task, choice) && task.requeues == misses
    requires task.id in s.queue && TaskSound(s, task.id) && Tallied(s, cfg, task.id, misses, lost)
    ensures Tallied(r, cfg, task.id, if choice.Nobody? then misses + 1 else misses, lost || choice.Unroutable?)
  {
    match choice
    case Unroutable => GivenUpTallied(s, r, cfg, task.id, misses, true);
    case Nobody =>
      if task.requeues + 1 < cfg.dlqMaxRetries {
        QueuedTallied(s, r, cfg, task.(requeues := task.requeues + 1), misses, lost);
      } else {
        GivenUpTallied(s, r, cfg, task.id, misses + 1, lost);
      }
    case Chosen(agent) => GivenTallied(s, r, cfg, task, agent, misses, lost);
  }

  lemma GivenUpTallied(s: State, r: State, cfg: Config, id: Id, misses: nat, lost: bool)
    requires GivesUp(s, r, id) && id in s.queue && TaskSound(s, id)
    requires misses <= Tries(cfg) && (lost || misses == Tries(cfg))
    ensures Tallied(r, cfg, id, misses, lost)
  {
  }

  lemma QueuedTallied(s: State, r: State, cfg: Config, task: Task, misses: nat, lost: bool)
    requires Queued(s, r, task.priority, task) && task.id in s.queue && TaskSound(s, task.id)
    requires Tallied(s, cfg, task.id, misses, lost) && task.requeues == misses + 1 < Tries(cfg)
    ensures Tallied(r, cfg, task.id, misses + 1, lost)
  {
  }

  lemma GivenTallied(s: State, r: State, cfg: Config, task: Task, agent: Agent, misses: nat, lost: bool)
    requires GivenTo(s, r, task, agent) && task.id in s.queue && TaskSound(s, task.id)
    requires Tallied(s, cfg, task.id, misses, lost) && task.requeues == misses
    ensures Tallied(r, cfg, task.id, misses, lost)
  {
  }

  lemma DispatchTallied(s: State, r: State, cfg: Config, e: Event, misses: nat, lost: bool)
    requires e.Dispatching? && Dispatches(s, r, cfg, e.entry.task, e.now, e.registry)
    requires Allowed(s, e) && TaskSound(s, e.entry.task.id) && Tallied(s, cfg, e.entry.task.id, misses, lost)
    ensures var id := e.entry.task.id;
            Tallied(r, cfg, id, MissesAfter(s, e, id, misses), lost || TurnEnds(s, e, id, Unroutable))
  {
    var task := e.entry.task;
    if task.id in s.tombstones || (task.expiresAt.Some? && e.now > task.expiresAt.value) {
      DroppedTallied(s, r, cfg, task, e.now, e.registry, misses, lost);
    } else {
      TurnTallied(s, r, cfg, e, Select(task, e.registry), misses, lost);
    }
  }

  lemma TurnTallied(s: State, r: State, cfg: Config, e: Event, choice: Choice, misses: nat, lost: bool)
    requires e.Dispatching? && TurnEnds(s, e, e.entry.task.id, choice)
    requires Dispatches(s, r, cfg, e.entry.task, e.now, e.registry)
    requires Allowed(s, e) && TaskSound(s, e.entry.task.id) && Tallied(s, cfg, e.entry.task.id, misses, lost)
    ensures var id := e.entry.task.id;
            Tallied(r, cfg, id, MissesAfter(s, e, id, misses), lost || TurnEnds(s, e, id, Unroutable))
  {
    RouteTallied(s, r, cfg, e.entry.task, choice, misses, lost);
  }

  lemma DroppedTallied(s: State, r: State, cfg: Config, task: Task, now: real, registry: Registry, misses: nat, lost: bool)
    requires Dispatches(s, r, cfg, task, now, registry) && task.id in s.queue
    requires task.id in s.tombstones || (task.expiresAt.Some? && now > task.expiresAt.value)
    requires TaskSound(s, task.id) && Tallied(s, cfg, task.id, misses, lost)
    ensures Tallied(r, cfg, task.id, misses, lost)
  {
    GoneTallied(s, r, cfg, task.id, misses, lost);
  }

  lemma GoneTallied(s: State, r: State, cfg: Config, id: Id, misses: nat, lost: bool)
    requires Tallied(s, cfg, id, misses, lost) && id in s.submitted && r.submitted == s.submitted && r.dlq == s.dlq
    requires id !in r.queue && id !in r.inFlight && id !in r.waiting
    ensures Tallied(r, cfg, id, misses, lost)
  {
  }

  lemma ReturnedTallied(s: State, r: State, cfg: Config, task: Task, misses: nat, lost: bool)
    requires Tallied(s, cfg, task.id, misses, lost) && task.id in s.inFlight && TaskSound(s, task.id)
    requires Returned(s, r, task) && task.requeues == misses
    ensures Tallied(r, cfg, task.id, misses, lost)
  {
  }

  lemma ResultTallied(s: State, r: State, cfg: Config, task: Task, agent: Agent, outcome: Outcome, misses: nat, lost: bool)
    requires Lands(s, r, cfg, task, agent, outcome) && task.id in s.inFlight && task.id in s.active
    requires task == s.active[task.id] && TaskSound(s, task.id) && Tallied(s, cfg, task.id, misses, lost)
    ensures Tallied(r, cfg, task.id, misses, lost)
  {
    if task.id in s.tombstones {
      GoneTallied(s, r, cfg, task.id, misses, lost);
    } else if outcome.Success? {
      assert Woken(s, r, s.completed + {task.id}, task.id);
      GoneTallied(s, r, cfg, task.id, misses, lost);
    } else if outcome.WatchdogTimeout? && cfg.escalationEnabled && task.escalationCount < cfg.maxEscalations {
      ReturnedTallied(s, r, cfg, OneUp(task, agent), misses, lost);
    } else if task.retryCount < task.maxRetries {
      ReturnedTallied(s, r, cfg, task.(retryCount := task.retryCount + 1), misses, lost);
    } else {
      GoneTallied(s, r, cfg, task.id, misses, lost);
    }
  }

  lemma SparedTallied(s: State, r: State, cfg: Config, id: Id, misses: nat, lost: bool)
    requires Spared(s, r, id) && TaskSound(s, id) && Tallied(s, cfg, id, misses, lost)
    ensures Tallied(r, cfg, id, misses, lost)
  {
  }

  lemma StepTallied(s: State, cfg: Config, e: Event, id: Id, misses: nat, lost: bool)
    requires Healthy(s) && Allowed(s, e) && Tallied(s, cfg, id, misses, lost)
    ensures Tallied(Step(s, cfg, e), cfg, id, MissesAfter(s, e, id, misses), lost || TurnEnds(s, e, id, Unroutable))
  {
    assert TaskSound(s, id);
    StepMeans(s, cfg, e);
    if Subject(e) != Some(id) {
      StepSpares(s, cfg, e, id);
      SparedTallied(s, Step(s, cfg, e), cfg, id, misses, lost);
    } else {
      MoveTallied(s, Step(s, cfg, e), cfg, e, id, misses, lost);
    }
  }

  lemma MoveTallied(s: State, r: State, cfg: Config, e: Event, id: Id, misses: nat, lost: bool)
    requires Moves(s, r, cfg, e) && Allowed(s, e) && Subject(e) == Some(id)
    requires TaskSound(s, id) && Tallied(s, cfg, id, misses, lost)
    ensures Tallied(r, cfg, id, MissesAfter(s, e, id, misses), lost || TurnEnds(s, e, id, Unroutable))
  {
    match e
    case Submitting(sub) => SubmitTallied(s, r, cfg, sub, misses, lost);
    case Dispatching(_, _, _) => DispatchTallied(s, r, cfg, e, misses, lost);
    case Resulting(_, agent, outcome) => ResultTallied(s, r, cfg, s.active[id], agent, outcome, misses, lost);
    case Cancelling(_) => CancelTallied(s, r, cfg, id, misses, lost);
    case Reprioritising(_, priority) => ReprioritiseTallied(s, r, cfg, id, priority, misses, lost);
  }

  lemma ReprioritiseTallied(s: State, r: State, cfg: Config, id: Id, priority: int, misses: nat, lost: bool)
    requires Reprioritises(s, r, id, priority) && TaskSound(s, id) && Tallied(s, cfg, id, misses, lost)
    ensures Tallied(r, cfg, id, misses, lost)
  {
  }

  lemma CancelTallied(s: State, r: State, cfg: Config, id: Id, misses: nat, lost: bool)
    requires Cancels(s, r, id) && Tallied(s, cfg, id, misses, lost)
    ensures Tallied(r, cfg, id, misses, lost)
  {
    if id in s.active {
    } else if id in s.waiting || id in s.queue {
    } else {
    }
  }

  lemma {:induction false} RunTallied(s: State, cfg: Config, events: seq<Event>, id: Id, misses: nat, lost: bool)
    requires Healthy(s) && AllowedRun(s, cfg, events) && Tallied(s, cfg, id, misses, lost)
    ensures Tallied(Run(s, cfg, events), cfg, id, misses + Misses(s, cfg, events, id),
                    lost || OnceUnroutable(s, cfg, events, id))
    decreases events
  {
    if events != [] {
      StepHealthy(s, cfg, events[0]);
      StepTallied(s, cfg, events[0], id, misses, lost);
      RunTallied(Step(s, cfg, events[0]), cfg, events[1..], id, MissesAfter(s, events[0], id, misses),
                 lost || TurnEnds(s, events[0], id, Unroutable));
    }
  }

  /**
    * In every run a task is given up if and only if at some turn it could not be routed, or as many turns
    * as there are tries found nobody for it; and there are never more such turns than tries.
    */
  lemma GivenUpExactly(cfg: Config, events: seq<Event>, id: Id)
    requires AllowedRun(INITIAL, cfg, events)
    ensures var misses := Misses(INITIAL, cfg, events, id);
            && misses <= (if cfg.dlqMaxRetries < 1 then 1 else cfg.dlqMaxRetries)
            && (id in Run(INITIAL, cfg, events).dlq <==>
                  OnceUnroutable(INITIAL, cfg, events, id)
                  || misses == if cfg.dlqMaxRetries < 1 then 1 else cfg.dlqMaxRetries)
  {
    InitialHealthy();
    RunTallied(INITIAL, cfg, events, id, 0, false);
  }
}
