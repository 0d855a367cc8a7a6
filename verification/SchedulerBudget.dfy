// How often a task can be sent, re-queued and escalated over its whole life, and which agents it
// can no longer be sent to.

module SchedulerBudget {
  import opened Wrappers
  import opened PhaseSpecs
  import opened Tasks
  import opened Scheduler
  import opened SchedulerSafety
  import opened SchedulerRuns

  function Clamp(n: int): nat {
    if n < 0 then 0 else n
  }

  /** The most often a task can be sent to an agent: once, and again per retry and escalation. */
  function MostSends(cfg: Config, task: Task): nat {
    1 + Clamp(task.maxRetries) + Clamp(cfg.maxEscalations)
  }

  /** The most often a task can go back to the queue because no agent could take it. */
  function MostRequeues(cfg: Config): nat {
    Clamp(cfg.dlqMaxRetries - 1)
  }

  predicate Fresh(task: Task) {
    task.retryCount == 0 && task.escalationCount == 0 && task.excluded == [] && task.requeues == 0
  }

  /** A stored task is its submission with counters within budget and one excluded agent per escalation. */
  ghost predicate Within(cfg: Config, submitted: Task, task: Task) {
    && task.maxRetries == submitted.maxRetries && task.target == submitted.target
    && task.retryCount <= Clamp(task.maxRetries)
    && task.escalationCount <= Clamp(cfg.maxEscalations)
    && task.requeues <= MostRequeues(cfg)
    && |task.excluded| == task.escalationCount
    && (task.target.None? ==> NoDuplicates(task.excluded))
  }

  ghost predicate Budgeted(s: State, cfg: Config, id: Id) {
    && (id in s.waiting ==> id in s.submitted && SentCount(s, id) == 0
                            && Within(cfg, s.submitted[id], s.waiting[id]) && Fresh(s.waiting[id]))
    && (id in s.queue ==>
          var task := s.queue[id].task;
          id in s.submitted && Within(cfg, s.submitted[id], task)
          && SentCount(s, id) == task.retryCount + task.escalationCount)
    && (id in s.inFlight ==>
          id in s.active && id in s.submitted &&
          var task := s.active[id];
          Within(cfg, s.submitted[id], task)
          && SentCount(s, id) == 1 + task.retryCount + task.escalationCount
          && (task.target.None? ==> s.inFlight[id] !in task.excluded))
    && (if id in s.submitted then SentCount(s, id) <= MostSends(cfg, s.submitted[id]) else SentCount(s, id) == 0)
  }

  ghost predicate AllBudgeted(s: State, cfg: Config) {
    forall id :: Budgeted(s, cfg, id)
  }

  /** What `Budgeted` reads is the same for `id`. */
  ghost predicate SameStores(s: State, r: State, id: Id) {
    && (id in s.waiting <==> id in r.waiting) && (id in s.waiting ==> r.waiting[id] == s.waiting[id])
    && (id in s.queue <==> id in r.queue) && (id in s.queue ==> r.queue[id].task == s.queue[id].task)
    && (id in s.active <==> id in r.active) && (id in s.active ==> r.active[id] == s.active[id])
    && (id in s.inFlight <==> id in r.inFlight) && (id in s.inFlight ==> r.inFlight[id] == s.inFlight[id])
    && (id in s.submitted <==> id in r.submitted) && (id in s.submitted ==> r.submitted[id] == s.submitted[id])
    && SentCount(s, id) == SentCount(r, id)
  }

  /** How many more turns of the dispatch loop a task can take. */
  ghost function Left(s: State, cfg: Config, id: Id): int {
    if id in s.queue then 1 + TurnsLeft(cfg, s.queue[id].task)
    else if id in s.inFlight && id in s.active then TurnsLeft(cfg, s.active[id])
    else if id in s.waiting then 1 + TurnsLeft(cfg, s.waiting[id])
    else 0
  }

  function TurnsLeft(cfg: Config, task: Task): int {
    Clamp(task.maxRetries) - task.retryCount + Clamp(cfg.maxEscalations) - task.escalationCount
    + MostRequeues(cfg) - task.requeues
  }

  /** The most turns a submitted task can take over its whole life. */
  function MostTurns(s: State, cfg: Config, id: Id): nat {
    if id in s.submitted then MostSends(cfg, s.submitted[id]) + MostRequeues(cfg) else 0
  }

  /** `turn` names the task the dispatch loop has taken a turn for, if the step was such a turn. */
  ghost predicate Spends(s: State, r: State, cfg: Config, turn: Option<Id>, id: Id) {
    && Left(r, cfg, id) + (if turn == Some(id) then 1 else 0) - MostTurns(r, cfg, id)
       <= Left(s, cfg, id) - MostTurns(s, cfg, id)
    && Advances(s, r, id)
  }

  /** The task as the queue or the active table holds it, while it is queued or executing. */
  ghost function Stored(s: State, id: Id): Option<Task> {
    if id in s.queue then Some(s.queue[id].task)
    else if id in s.inFlight && id in s.active then Some(s.active[id])
    else None
  }

  /** How far a task has come: unknown, waiting, queued or executing, and finally neither. */
  ghost function Stage(s: State, id: Id): nat {
    if Stored(s, id).Some? then 2 else if id in s.waiting then 1 else if id in s.submitted then 3 else 0
  }

  /** A task never goes back a stage, and between the queue and the agents it only gains excluded agents. */
  ghost predicate Advances(s: State, r: State, id: Id) {
    && Stage(s, id) <= Stage(r, id)
    && (Stage(s, id) == 2 && Stage(r, id) == 2 ==>
          forall a | a in Stored(s, id).value.excluded :: a in Stored(r, id).value.excluded)
    && (id in s.submitted ==> id in r.submitted && r.submitted[id] == s.submitted[id])
  }

  lemma AdvancesBoth(s: State, m: State, r: State, id: Id)
    requires Advances(s, m, id) && Advances(m, r, id)
    ensures Advances(s, r, id)
  {
  }

  /** The step leads to a state within budget and pays for its turn. */
  ghost predicate Pays(s: State, r: State, cfg: Config, turn: Option<Id>) {
    AllBudgeted(r, cfg) && forall id :: Spends(s, r, cfg, turn, id)
  }

  lemma OneTaskPays(s: State, r: State, cfg: Config, turn: Option<Id>, id: Id)
    requires AllBudgeted(s, cfg) && Budgeted(r, cfg, id) && Spends(s, r, cfg, turn, id)
    requires turn.None? || turn == Some(id)
    requires forall k | k != id :: SameStores(s, r, k)
    ensures Pays(s, r, cfg, turn)
  {
    forall k
      ensures Budgeted(r, cfg, k) && Spends(s, r, cfg, turn, k)
    {
      assert Budgeted(s, cfg, k);
      if k != id {
        assert SameStores(s, r, k);
      }
    }
  }

  lemma PaysBoth(s: State, m: State, r: State, cfg: Config, turn: Option<Id>)
    requires Pays(s, m, cfg, turn) && Pays(m, r, cfg, None)
    ensures Pays(s, r, cfg, turn)
  {
    forall id
      ensures Spends(s, r, cfg, turn, id)
    {
      assert Spends(s, m, cfg, turn, id) && Spends(m, r, cfg, None, id);
      AdvancesBoth(s, m, r, id);
    }
  }

  lemma FreeOfCharge(s: State, r: State, cfg: Config, turn: Option<Id>)
    requires (r == s && AllBudgeted(s, cfg)) || Pays(s, r, cfg, turn)
    ensures Pays(s, r, cfg, None)
  {
    forall id
      ensures Spends(s, r, cfg, None, id)
    {
      assert r == s || Spends(s, r, cfg, turn, id);
    }
  }

  lemma FailsPay(s: State, r: State, cfg: Config)
    requires AllBudgeted(s, cfg) && OnlyFails(s, r)
    ensures Pays(s, r, cfg, None)
  {
    forall k
      ensures Budgeted(r, cfg, k) && Spends(s, r, cfg, None, k)
    {
      assert Budgeted(s, cfg, k);
    }
  }

  lemma ReleasesPay(s: State, r: State, cfg: Config)
    requires AllBudgeted(s, cfg) && OnlyReleases(s, r) && WaitingApart(s)
    ensures Pays(s, r, cfg, None)
  {
    forall k
      ensures Budgeted(r, cfg, k) && Spends(s, r, cfg, None, k)
    {
      assert Budgeted(s, cfg, k) && ReleasedOrSame(s, r, k);
    }
  }

  // ---- Submission ----

  lemma NewIdBudget(s: State, cfg: Config, sub: Submission)
    requires Sound(s) && AllBudgeted(s, cfg) && sub.id !in s.submitted
    ensures Within(cfg, NewTask(s, sub), NewTask(s, sub)) && Fresh(NewTask(s, sub))
    ensures SentCount(s, sub.id) == 0 && Places(s, sub.id) == 0
  {
    assert TaskSound(s, sub.id) && Budgeted(s, cfg, sub.id);
  }

  lemma FailedAtOncePays(s: State, cfg: Config, sub: Submission)
    requires Sound(s) && AllBudgeted(s, cfg) && sub.id !in s.submitted
    ensures Pays(s, Known(s, sub).(failed := s.failed + {sub.id}), cfg, None)
  {
    NewIdBudget(s, cfg, sub);
    OneTaskPays(s, Known(s, sub).(failed := s.failed + {sub.id}), cfg, None, sub.id);
  }

  lemma QueuedAtOncePays(s: State, cfg: Config, sub: Submission)
    requires Sound(s) && AllBudgeted(s, cfg) && sub.id !in s.submitted
    ensures Pays(s, Enqueue(Known(s, sub), sub.priority, NewTask(s, sub)), cfg, None)
  {
    NewIdBudget(s, cfg, sub);
    OneTaskPays(s, Enqueue(Known(s, sub), sub.priority, NewTask(s, sub)), cfg, None, sub.id);
  }

  lemma HeldPays(s: State, cfg: Config, sub: Submission, linked: map<Id, seq<Id>>)
    requires Sound(s) && AllBudgeted(s, cfg) && sub.id !in s.submitted
    ensures Pays(s, Known(s, sub).(waiting := s.waiting[sub.id := NewTask(s, sub)], dependents := linked), cfg, None)
  {
    NewIdBudget(s, cfg, sub);
    OneTaskPays(s, Known(s, sub).(waiting := s.waiting[sub.id := NewTask(s, sub)], dependents := linked),
                cfg, None, sub.id);
  }

  lemma SubmitPays(s: State, cfg: Config, sub: Submission)
    requires Sound(s) && AllBudgeted(s, cfg) && sub.id !in s.submitted
    ensures Pays(s, Submit(s, sub), cfg, None)
  {
    if SomeFailed(s, sub.dependsOn) {
      FailedAtOncePays(s, cfg, sub);
    } else if Unmet(s, sub.dependsOn) == [] {
      QueuedAtOncePays(s, cfg, sub);
    } else {
      HeldPays(s, cfg, sub, Link(s.dependents, Unmet(s, sub.dependsOn), sub.id));
    }
  }

  // ---- Dispatch ----

  lemma DroppedPays(s: State, cfg: Config, id: Id, tombstones: set<Id>)
    requires Sound(s) && AllBudgeted(s, cfg) && id in s.queue
    ensures Pays(s, s.(queue := s.queue - {id}, tombstones := tombstones, withdrawn := s.withdrawn + {id}), cfg, Some(id))
  {
    assert TaskSound(s, id) && Budgeted(s, cfg, id);
    OneTaskPays(s, s.(queue := s.queue - {id}, tombstones := tombstones, withdrawn := s.withdrawn + {id}), cfg, Some(id), id);
  }

  lemma DeadLetteredPays(s: State, cfg: Config, id: Id)
    requires Sound(s) && AllBudgeted(s, cfg) && id in s.queue
    ensures Pays(s, DeadLetter(s.(queue := s.queue - {id}), id), cfg, Some(id))
  {
    assert TaskSound(s, id) && Budgeted(s, cfg, id);
    OneTaskPays(s, DeadLetter(s.(queue := s.queue - {id}), id), cfg, Some(id), id);
  }

  lemma ExpiredPays(s: State, cfg: Config, id: Id)
    requires Sound(s) && AllBudgeted(s, cfg) && id in s.queue
    ensures Pays(s, Expire(s.(queue := s.queue - {id}), id), cfg, Some(id))
  {
    var f := s.(queue := s.queue - {id}, failed := s.failed + {id});
    assert TaskSound(s, id) && Budgeted(s, cfg, id);
    OneTaskPays(s, f, cfg, Some(id), id);
    OnDepFailedMoves(f, id);
    FailsPay(f, OnDepFailed(f, id), cfg);
    PaysBoth(s, f, OnDepFailed(f, id), cfg, Some(id));
  }

  lemma SentPays(s: State, cfg: Config, task: Task, agent: Agent)
    requires Sound(s) && AllBudgeted(s, cfg) && task.id in s.queue && s.queue[task.id].task == task
    requires task.target.None? ==> agent !in task.excluded
    ensures Pays(s, Send(s.(queue := s.queue - {task.id}), task, agent), cfg, Some(task.id))
  {
    assert TaskSound(s, task.id) && Budgeted(s, cfg, task.id);
    OneTaskPays(s, Send(s.(queue := s.queue - {task.id}), task, agent), cfg, Some(task.id), task.id);
  }

  lemma RequeuedPays(s: State, cfg: Config, task: Task)
    requires Sound(s) && AllBudgeted(s, cfg) && task.id in s.queue && s.queue[task.id].task == task
    requires task.requeues + 1 < cfg.dlqMaxRetries
    ensures Pays(s, Enqueue(s.(queue := s.queue - {task.id}), task.priority, task.(requeues := task.requeues + 1)), cfg, Some(task.id))
  {
    assert TaskSound(s, task.id) && Budgeted(s, cfg, task.id);
    OneTaskPays(s, Enqueue(s.(queue := s.queue - {task.id}), task.priority, task.(requeues := task.requeues + 1)),
                cfg, Some(task.id), task.id);
  }

  lemma DispatchPays(s: State, cfg: Config, e: Entry, now: real, registry: Registry)
    requires Sound(s) && AllBudgeted(s, cfg) && e.task.id in s.queue && s.queue[e.task.id] == e
    ensures Pays(s, Dispatch(s, cfg, e, now, registry), cfg, Some(e.task.id))
  {
    var id := e.task.id;
    if id in s.tombstones {
      DroppedPays(s, cfg, id, s.tombstones - {id});
    } else if Expired(e.task, now) {
      ExpiredPays(s, cfg, id);
    } else {
      match Select(e.task, registry)
      case Unroutable => DeadLetteredPays(s, cfg, id);
      case Nobody =>
        if e.task.requeues + 1 >= cfg.dlqMaxRetries {
          DeadLetteredPays(s, cfg, id);
        } else {
          RequeuedPays(s, cfg, e.task);
        }
      case Chosen(agent) =>
        SelectMeans(e.task, registry);
        SentPays(s, cfg, e.task, agent);
    }
  }

  // ---- Results ----

  lemma DiscardedPays(s: State, cfg: Config, id: Id)
    requires Sound(s) && AllBudgeted(s, cfg) && id in s.inFlight
    ensures Pays(s, s.(inFlight := s.inFlight - {id}, tombstones := s.tombstones - {id},
                           active := s.active - {id}, withdrawn := s.withdrawn + {id}), cfg, None)
  {
    assert TaskSound(s, id) && Budgeted(s, cfg, id);
    OneTaskPays(s, s.(inFlight := s.inFlight - {id}, tombstones := s.tombstones - {id},
                          active := s.active - {id}, withdrawn := s.withdrawn + {id}), cfg, None, id);
  }

  lemma CompletedPays(s: State, cfg: Config, id: Id, agent: Agent)
    requires Sound(s) && AllBudgeted(s, cfg) && id in s.inFlight && id !in s.tombstones
    ensures Pays(s, HandleResult(s, cfg, id, agent, Success), cfg, None)
  {
    var done := s.(inFlight := s.inFlight - {id}, active := s.active - {id}, completed := s.completed + {id});
    assert TaskSound(s, id) && Budgeted(s, cfg, id);
    OneTaskPays(s, done, cfg, None, id);
    ResultSucceeds(s, cfg, id, agent);
    OnDepSatisfiedMoves(done, id);
    ReleasesPay(done, OnDepSatisfied(done, id), cfg);
    PaysBoth(s, done, OnDepSatisfied(done, id), cfg, None);
  }

  lemma FailedPays(s: State, cfg: Config, id: Id, agent: Agent, outcome: Outcome)
    requires Sound(s) && AllBudgeted(s, cfg) && id in s.inFlight && FinalFailure(s, cfg, id, outcome)
    ensures Pays(s, HandleResult(s, cfg, id, agent, outcome), cfg, None)
  {
    var f := s.(inFlight := s.inFlight - {id}, active := s.active - {id}, failed := s.failed + {id});
    assert TaskSound(s, id) && Budgeted(s, cfg, id);
    OneTaskPays(s, f, cfg, None, id);
    ResultFails(s, cfg, id, agent, outcome);
    OnDepFailedMoves(f, id);
    FailsPay(f, OnDepFailed(f, id), cfg);
    PaysBoth(s, f, OnDepFailed(f, id), cfg, None);
  }

  lemma ReturnedPays(s: State, cfg: Config, task: Task, priorities: map<Id, int>)
    requires Sound(s) && AllBudgeted(s, cfg) && task.id in s.inFlight
    requires task.id in s.submitted && Within(cfg, s.submitted[task.id], task)
    requires task.retryCount + task.escalationCount == SentCount(s, task.id)
    requires task.id in s.active && task.requeues == s.active[task.id].requeues
    requires forall a | a in s.active[task.id].excluded :: a in task.excluded
    ensures Pays(s, Enqueue(s.(inFlight := s.inFlight - {task.id}), task.priority, task).(
                          priorities := priorities, active := s.active[task.id := task]), cfg, None)
  {
    assert TaskSound(s, task.id) && Budgeted(s, cfg, task.id);
    OneTaskPays(s, Enqueue(s.(inFlight := s.inFlight - {task.id}), task.priority, task).(
                         priorities := priorities, active := s.active[task.id := task]), cfg, None, task.id);
  }

  lemma EscalatedWithin(s: State, cfg: Config, id: Id, agent: Agent)
    requires Budgeted(s, cfg, id) && id in s.inFlight && s.inFlight[id] == agent && Escalates(cfg, s.active[id])
    ensures Within(cfg, s.submitted[id], Escalated(s.active[id], agent))
  {
  }

  lemma ResultPays(s: State, cfg: Config, id: Id, agent: Agent, outcome: Outcome)
    requires Sound(s) && AllBudgeted(s, cfg) && id in s.inFlight && s.inFlight[id] == agent
    ensures Pays(s, HandleResult(s, cfg, id, agent, outcome), cfg, None)
  {
    if id in s.tombstones {
      DiscardedPays(s, cfg, id);
    } else if outcome.Success? {
      CompletedPays(s, cfg, id, agent);
    } else if FinalFailure(s, cfg, id, outcome) {
      FailedPays(s, cfg, id, agent, outcome);
    } else {
      assert Budgeted(s, cfg, id);
      if outcome.WatchdogTimeout? && Escalates(cfg, s.active[id]) {
        var task := Escalated(s.active[id], agent);
        assert TaskSound(s, id);
        EscalatedWithin(s, cfg, id, agent);
        ReturnedPays(s, cfg, task, s.priorities[id := task.priority]);
      } else {
        RetriedPays(s, cfg, id);
      }
    }
  }

  lemma RetriedPays(s: State, cfg: Config, id: Id)
    requires Sound(s) && AllBudgeted(s, cfg) && id in s.inFlight && id in s.active
    requires s.active[id].retryCount < s.active[id].maxRetries
    ensures var task := s.active[id].(retryCount := s.active[id].retryCount + 1);
            Pays(s, Enqueue(s.(inFlight := s.inFlight - {id}), task.priority, task).(active := s.active[id := task]), cfg, None)
  {
    assert TaskSound(s, id) && Budgeted(s, cfg, id);
    var task := s.active[id].(retryCount := s.active[id].retryCount + 1);
    ReturnedPays(s, cfg, task, s.priorities);
    assert Enqueue(s.(inFlight := s.inFlight - {id}), task.priority, task).(active := s.active[id := task])
        == Enqueue(s.(inFlight := s.inFlight - {id}), task.priority, task).(
             priorities := s.priorities, active := s.active[id := task]);
  }

  // ---- The remaining steps ----

  lemma UnheldPays(s: State, cfg: Config, id: Id, unlinked: map<Id, seq<Id>>, withdrawn: set<Id>)
    requires AllBudgeted(s, cfg)
    ensures Pays(s, s.(waiting := s.waiting - {id}, dependents := unlinked, withdrawn := withdrawn), cfg, None)
  {
    assert Budgeted(s, cfg, id);
    OneTaskPays(s, s.(waiting := s.waiting - {id}, dependents := unlinked, withdrawn := withdrawn), cfg, None, id);
  }

  lemma CancelPays(s: State, cfg: Config, id: Id)
    requires Sound(s) && AllBudgeted(s, cfg)
    ensures Pays(s, Cancel(s, id), cfg, None)
  {
    if id in s.active {
      assert Budgeted(s, cfg, id);
      OneTaskPays(s, s.(tombstones := s.tombstones + {id}), cfg, None, id);
    } else if id in s.waiting {
      UnheldPays(s, cfg, id, Unlink(s.dependents, s.waiting[id].dependsOn, id, None), s.withdrawn + {id});
    } else if id in s.queue {
      DroppedPays(s, cfg, id, s.tombstones);
      assert s.(queue := s.queue - {id}, tombstones := s.tombstones, withdrawn := s.withdrawn + {id}) == Cancel(s, id);
      FreeOfCharge(s, Cancel(s, id), cfg, Some(id));
    } else {
      FreeOfCharge(s, s, cfg, None);
    }
  }

  lemma {:induction false} ReapOnePays(s: State, cfg: Config, id: Id)
    requires AllBudgeted(s, cfg) && id in s.waiting
    ensures Pays(s, Expire(s.(waiting := s.waiting - {id},
                              dependents := Unlink(s.dependents, s.waiting[id].dependsOn, id, None)), id), cfg, None)
  {
    var f := s.(waiting := s.waiting - {id}, failed := s.failed + {id},
                dependents := Unlink(s.dependents, s.waiting[id].dependsOn, id, None));
    assert Budgeted(s, cfg, id);
    OneTaskPays(s, f, cfg, None, id);
    OnDepFailedMoves(f, id);
    FailsPay(f, OnDepFailed(f, id), cfg);
    PaysBoth(s, f, OnDepFailed(f, id), cfg, None);
  }

  lemma {:induction false} ReapPays(s: State, cfg: Config, ids: seq<Id>)
    requires AllBudgeted(s, cfg)
    ensures Pays(s, Reap(s, ids), cfg, None)
    decreases ids
  {
    if ids == [] {
      FreeOfCharge(s, s, cfg, None);
    } else {
      var id := ids[0];
      if id in s.waiting {
        var next := Expire(s.(waiting := s.waiting - {id},
                              dependents := Unlink(s.dependents, s.waiting[id].dependsOn, id, None)), id);
        ReapOnePays(s, cfg, id);
        ReapPays(next, cfg, ids[1..]);
        PaysBoth(s, next, Reap(next, ids[1..]), cfg, None);
      } else {
        ReapPays(s, cfg, ids[1..]);
      }
    }
  }

  lemma ReprioritisePays(s: State, cfg: Config, id: Id, priority: int)
    requires AllBudgeted(s, cfg)
    ensures Pays(s, Reprioritise(s, id, priority), cfg, None)
  {
    assert Budgeted(s, cfg, id);
    OneTaskPays(s, Reprioritise(s, id, priority), cfg, None, id);
  }

  /** The task for which the event is a turn of the dispatch loop. */
  function TurnOf(e: Event): Option<Id> {
    if e.Dispatching? then Some(e.entry.task.id) else None
  }

  lemma StepPays(s: State, cfg: Config, e: Event)
    requires Sound(s) && AllBudgeted(s, cfg) && Allowed(s, e)
    ensures Pays(s, Step(s, cfg, e), cfg, TurnOf(e))
  {
    match e
    case Submitting(sub) => SubmitPays(s, cfg, sub);
    case Dispatching(entry, now, registry) => DispatchPays(s, cfg, entry, now, registry);
    case Resulting(id, agent, outcome) => ResultPays(s, cfg, id, agent, outcome);
    case Cancelling(id) => CancelPays(s, cfg, id);
    case Reaping(_, ids) => ReapPays(s, cfg, ids);
    case Reprioritising(id, priority) => ReprioritisePays(s, cfg, id, priority);
  }

  /** How many turns of the dispatch loop a run spends on a task. */
  function Turns(events: seq<Event>, id: Id): nat {
    if events == [] then 0
    else (if TurnOf(events[0]) == Some(id) then 1 else 0) + Turns(events[1..], id)
  }

  lemma {:induction false} RunPays(s: State, cfg: Config, events: seq<Event>, id: Id)
    requires Sound(s) && AllBudgeted(s, cfg) && AllowedRun(s, cfg, events)
    ensures var r := Run(s, cfg, events);
            && AllBudgeted(r, cfg)
            && Turns(events, id) + Left(r, cfg, id) - MostTurns(r, cfg, id)
               <= Left(s, cfg, id) - MostTurns(s, cfg, id)
            && Advances(s, r, id)
    decreases events
  {
    if events != [] {
      var next := Step(s, cfg, events[0]);
      StepSound(s, cfg, events[0]);
      StepPays(s, cfg, events[0]);
      assert Spends(s, next, cfg, TurnOf(events[0]), id);
      RunPays(next, cfg, events[1..], id);
      AdvancesBoth(s, next, Run(next, cfg, events[1..]), id);
    }
  }

  /**
    * In every run a task is sent to agents at most once plus once per configured retry and
    * escalation, and the dispatch loop takes it from the queue at most that often plus once per
    * allowed re-queue. So no task can keep the loop busy for ever.
    */
  lemma EveryRunIsBounded(cfg: Config, events: seq<Event>, id: Id)
    requires AllowedRun(INITIAL, cfg, events) && id in Run(INITIAL, cfg, events).submitted
    ensures var s := Run(INITIAL, cfg, events);
            && SentCount(s, id) <= MostSends(cfg, s.submitted[id])
            && Turns(events, id) <= MostSends(cfg, s.submitted[id]) + MostRequeues(cfg)
            && (id in s.queue && s.queue[id].task.requeues > 0 ==> s.queue[id].task.requeues < cfg.dlqMaxRetries)
  {
    RunPays(INITIAL, cfg, events, id);
    assert Budgeted(Run(INITIAL, cfg, events), cfg, id);
  }

  // ---- Excluded agents ----

  /**
    * In every run the agents an untargeted task was escalated away from are distinct, one per
    * escalation, and none of them is executing it.
    */
  lemma EveryRunExcludes(cfg: Config, events: seq<Event>, id: Id)
    requires AllowedRun(INITIAL, cfg, events) && id in Run(INITIAL, cfg, events).inFlight
    ensures var s := Run(INITIAL, cfg, events);
            && id in s.active
            && |s.active[id].excluded| == s.active[id].escalationCount
            && (s.active[id].target.None? ==> NoDuplicates(s.active[id].excluded)
                                              && s.inFlight[id] !in s.active[id].excluded)
  {
    RunPays(INITIAL, cfg, events, id);
    assert Budgeted(Run(INITIAL, cfg, events), cfg, id);
  }

  /** The watchdog is refused an escalation although the task still has a retry left. */
  predicate RetriesInstead(cfg: Config, task: Task) {
    !Escalates(cfg, task) && task.retryCount < task.maxRetries
  }

  /** Some registry would make the dispatch loop give the queued task to the agent. */
  ghost predicate CanBeGiven(s: State, id: Id, agent: Agent) {
    id in s.queue && exists registry :: Select(s.queue[id].task, registry) == Chosen(agent)
  }

  /** A registry in which the agent is idle, carries all the tags and belongs to the task's group. */
  ghost function OnlyAgent(task: Task, agent: Agent): Registry {
    Registry([AgentView(agent, true, true, true, task.tags)],
             if task.group.Some? then map[task.group.value := {agent}] else map[])
  }

  lemma GivenUnlessExcluded(task: Task, agent: Agent)
    requires task.target.None?
    ensures (exists registry :: Select(task, registry) == Chosen(agent)) <==> agent !in task.excluded
  {
    if agent !in task.excluded {
      var registry := OnlyAgent(task, agent);
      var members := if task.group.Some? then Some({agent}) else None;
      assert Eligible(registry.agents[0], task.tags, members, task.excluded);
      assert Select(task, registry) == Chosen(agent);
    }
  }

  /**
    * After a watchdog timeout the same agent can be given the untargeted task again exactly if the
    * timeout is handled by a retry, because escalation is off or used up.
    */
  lemma TimeoutExcludes(s: State, cfg: Config, id: Id, agent: Agent)
    requires Sound(s) && AllBudgeted(s, cfg) && id in s.inFlight && s.inFlight[id] == agent && id !in s.tombstones
    requires id in s.active && s.active[id].target.None?
    ensures CanBeGiven(HandleResult(s, cfg, id, agent, WatchdogTimeout), id, agent) <==> RetriesInstead(cfg, s.active[id])
  {
    assert TaskSound(s, id) && Budgeted(s, cfg, id);
    var r := HandleResult(s, cfg, id, agent, WatchdogTimeout);
    if Escalates(cfg, s.active[id]) {
      var task := Escalated(s.active[id], agent);
      assert r.queue[id].task == task && task.excluded[|task.excluded| - 1] == agent;
      GivenUnlessExcluded(task, agent);
    } else if s.active[id].retryCount < s.active[id].maxRetries {
      assert r.queue[id].task.excluded == s.active[id].excluded;
      GivenUnlessExcluded(r.queue[id].task, agent);
    } else {
      ResultFails(s, cfg, id, agent, WatchdogTimeout);
      OnDepFailedMoves(s.(inFlight := s.inFlight - {id}, active := s.active - {id}, failed := s.failed + {id}), id);
    }
  }

  lemma {:induction false} RunsJoin(s: State, cfg: Config, a: seq<Event>, b: seq<Event>)
    requires AllowedRun(s, cfg, a + b)
    ensures AllowedRun(s, cfg, a) && AllowedRun(Run(s, cfg, a), cfg, b)
    ensures Run(s, cfg, a + b) == Run(Run(s, cfg, a), cfg, b)
    decreases a
  {
    if a == [] {
      assert a + b == b;
    } else {
      assert (a + b)[1..] == a[1..] + b;
      RunsJoin(Step(s, cfg, a[0]), cfg, a[1..], b);
    }
  }

  /**
    * Over whole runs: once a watchdog timeout of an untargeted task was not turned into a retry,
    * whatever happens afterwards the task never executes on that agent again.
    */
  lemma NeverGivenAgain(
      cfg: Config, before: seq<Event>, id: Id, agent: Agent, after: seq<Event>)
    requires AllowedRun(INITIAL, cfg, before + ([Resulting(id, agent, WatchdogTimeout)] + after))
    requires var s := Run(INITIAL, cfg, before);
             && id !in s.tombstones && id in s.active && s.active[id].target.None?
             && !RetriesInstead(cfg, s.active[id])
    ensures var r := Run(INITIAL, cfg, before + ([Resulting(id, agent, WatchdogTimeout)] + after));
            id in r.inFlight ==> r.inFlight[id] != agent
  {
    var e := Resulting(id, agent, WatchdogTimeout);
    RunsJoin(INITIAL, cfg, before, [e] + after);
    var s := Run(INITIAL, cfg, before);
    var next := Step(s, cfg, e);
    assert ([e] + after)[1..] == after && ([e] + after)[0] == e;
    RunSound(INITIAL, cfg, before);
    RunPays(INITIAL, cfg, before, id);
    ExcludedOrGone(s, cfg, id, agent);
    StepSound(s, cfg, e);
    StepPays(s, cfg, e);
    RunSound(next, cfg, after);
    RunPays(next, cfg, after, id);
    var r := Run(next, cfg, after);
    assert Budgeted(r, cfg, id) && TaskSound(r, id) && Budgeted(next, cfg, id) && Budgeted(s, cfg, id);
    assert Spends(s, next, cfg, None, id);
  }

  lemma ExcludedOrGone(s: State, cfg: Config, id: Id, agent: Agent)
    requires Sound(s) && AllBudgeted(s, cfg) && id in s.inFlight && s.inFlight[id] == agent && id !in s.tombstones
    requires id in s.active && s.active[id].target.None? && !RetriesInstead(cfg, s.active[id])
    ensures var r := HandleResult(s, cfg, id, agent, WatchdogTimeout);
            Stage(r, id) == 3 || (Stage(r, id) == 2 && agent in Stored(r, id).value.excluded)
  {
    assert TaskSound(s, id) && Budgeted(s, cfg, id);
    if Escalates(cfg, s.active[id]) {
      var task := Escalated(s.active[id], agent);
      assert HandleResult(s, cfg, id, agent, WatchdogTimeout).queue[id].task == task;
      assert task.excluded[|task.excluded| - 1] == agent;
    } else {
      ResultFails(s, cfg, id, agent, WatchdogTimeout);
      OnDepFailedMoves(s.(inFlight := s.inFlight - {id}, active := s.active - {id}, failed := s.failed + {id}), id);
    }
  }

  /** A run in which the agent that timed out is given the task again: escalation off, one retry. */
  lemma TimedOutAgentGivenAgain(x: Id, agent: Agent)
    ensures var cfg := Config(3, false, 2);
            var registry := Registry([AgentView(agent, true, true, true, [])], map[]);
            var task := Task(x, 0, [], None, None, [], 1, 0, 0, [], 0, None);
            var run := [Submitting(Submission(x, 0, [], false, None, None, [], 1, None))]
                       + ([Dispatching(Entry(0, 1, task), 0.0, registry)]
                       + ([Resulting(x, agent, WatchdogTimeout)]
                       + ([Dispatching(Entry(0, 2, task.(retryCount := 1)), 1.0, registry)] + [])));
            var s := Run(INITIAL, cfg, run);
            AllowedRun(INITIAL, cfg, run) && x in s.inFlight && s.inFlight[x] == agent
  {
    var cfg := Config(3, false, 2);
    var view := AgentView(agent, true, true, true, []);
    var registry := Registry([view], map[]);
    var task := Task(x, 0, [], None, None, [], 1, 0, 0, [], 0, None);
    var e1 := Submitting(Submission(x, 0, [], false, None, None, [], 1, None));
    var e2 := Dispatching(Entry(0, 1, task), 0.0, registry);
    var e3 := Resulting(x, agent, WatchdogTimeout);
    var e4 := Dispatching(Entry(0, 2, task.(retryCount := 1)), 1.0, registry);
    assert Eligible(view, [], None, []);
    assert Select(task, registry) == Chosen(agent);
    var s1 := Step(INITIAL, cfg, e1);
    assert s1.queue == map[x := Entry(0, 1, task)];
    var s2 := Step(s1, cfg, e2);
    assert s2.inFlight == map[x := agent] && s2.active == map[x := task] && s2.queue == map[];
    var s3 := Step(s2, cfg, e3);
    assert s3.queue == map[x := Entry(0, 2, task.(retryCount := 1))];
    RunFirst(s3, cfg, e4, []);
    RunFirst(s2, cfg, e3, [e4] + []);
    RunFirst(s1, cfg, e2, [e3] + ([e4] + []));
    RunFirst(INITIAL, cfg, e1, [e2] + ([e3] + ([e4] + [])));
  }
}
