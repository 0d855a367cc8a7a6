// What each step of the scheduler does to its tables, field by field, and what it leaves alone.

module SchedulerMeaning {
  import opened Wrappers
  import opened Tasks
  import opened Scheduler
  import opened SchedulerSafety
  import opened SchedulerIndex
  import opened SchedulerRuns

  // ---- Submission ----

  /** The record of a submitted task: as submitted, with its own priority or one inherited. */
  ghost predicate RecordOf(s: State, sub: Submission, task: Task) {
    && task == Task(sub.id, task.priority, sub.dependsOn, sub.target, sub.group, sub.tags, sub.maxRetries, 0, 0, [], 0,
                    sub.expiresAt)
    && (!sub.inherit ==> task.priority == sub.priority)
    && (sub.inherit ==>
          && task.priority <= sub.priority
          && (forall d | d in sub.dependsOn && d in s.priorities :: task.priority <= s.priorities[d])
          && (task.priority == sub.priority
              || exists d :: d in sub.dependsOn && d in s.priorities && s.priorities[d] == task.priority))
  }

  lemma NewTaskMeans(s: State, sub: Submission)
    ensures RecordOf(s, sub, NewTask(s, sub))
  {
  }

  lemma UnmetMeans(s: State, deps: seq<Id>)
    ensures Unmet(s, deps) == [] <==> forall d | d in deps :: d in s.completed
  {
    UnmetExact(s, deps);
    if Unmet(s, deps) != [] {
      assert Unmet(s, deps)[0] in Unmet(s, deps);
    } else {
      forall d | d in deps
        ensures d in s.completed
      {
        assert d !in Unmet(s, deps);
      }
    }
  }

  /** In the queue under the priority, behind everything that was ever put there. */
  ghost predicate Queued(s: State, r: State, priority: int, task: Task) {
    r == s.(queue := s.queue[task.id := Entry(priority, s.lastNumber + 1, task)], lastNumber := s.lastNumber + 1)
  }

  /** What becomes of a recorded submission: failed at once, queued, or held and listed under what it lacks. */
  ghost predicate PlacedBy(s: State, known: State, r: State, sub: Submission, task: Task) {
    if exists d :: d in sub.dependsOn && d in s.failed then r == known.(failed := s.failed + {sub.id})
    else if forall d | d in sub.dependsOn :: d in s.completed then
      Queued(known, r, sub.priority, task)
    else
      && r == known.(waiting := s.waiting[sub.id := task], dependents := r.dependents)
      && (forall d, t :: Listings(r.dependents, d, t) == Listings(s.dependents, d, t)
                           + if t == sub.id && d !in s.completed then multiset(sub.dependsOn)[d] else 0)
  }

  /**
    * A submission is recorded, and its task fails at once if a dependency has failed, is queued behind
    * everything of its priority if all dependencies are complete, and otherwise is held, listed under
    * each incomplete dependency as often as it names it. Nothing else changes.
    */
  ghost predicate Submits(s: State, r: State, sub: Submission) {
    && sub.id in r.submitted && RecordOf(s, sub, r.submitted[sub.id])
    && (forall id :: Deps(r, id) == if id == sub.id then sub.dependsOn else Deps(s, id))
    && var task := r.submitted[sub.id];
       var known := s.(submitted := s.submitted[sub.id := task], priorities := s.priorities[sub.id := task.priority],
                       taskDeps := r.taskDeps);
       PlacedBy(s, known, r, sub, task)
  }

  lemma SubmitMeans(s: State, cfg: Config, sub: Submission)
    requires Sound(s) && sub.id !in s.submitted
    ensures Submits(s, Step(s, cfg, Submitting(sub)), sub)
  {
    NewTaskMeans(s, sub);
    PlaceMeans(s, sub);
    RecordedDeps(s, sub, Submit(s, sub));
  }

  lemma RecordedDeps(s: State, sub: Submission, r: State)
    requires Sound(s) && sub.id !in s.submitted && r.taskDeps == Known(s, sub).taskDeps
    ensures forall id :: Deps(r, id) == if id == sub.id then sub.dependsOn else Deps(s, id)
  {
    NewId(s, sub);
    forall id
      ensures Deps(r, id) == if id == sub.id then sub.dependsOn else Deps(s, id)
    {
      assert id != sub.id ==> SameFor(s, Known(s, sub), id);
    }
  }

  lemma PlaceMeans(s: State, sub: Submission)
    ensures PlacedBy(s, Known(s, sub), Submit(s, sub), sub, NewTask(s, sub))
    ensures Submit(s, sub).submitted == Known(s, sub).submitted && Submit(s, sub).taskDeps == Known(s, sub).taskDeps
  {
    UnmetMeans(s, sub.dependsOn);
    if SomeFailed(s, sub.dependsOn) {
      FailsAtOnce(s, sub);
    } else if Unmet(s, sub.dependsOn) == [] {
      QueuesAtOnce(s, sub);
    } else {
      Holds(s, sub);
    }
  }

  lemma FailsAtOnce(s: State, sub: Submission)
    requires SomeFailed(s, sub.dependsOn)
    ensures Submit(s, sub) == Known(s, sub).(failed := s.failed + {sub.id})
  {
  }

  lemma QueuesAtOnce(s: State, sub: Submission)
    requires !SomeFailed(s, sub.dependsOn) && Unmet(s, sub.dependsOn) == []
    ensures Submit(s, sub) == Known(s, sub).(
              queue := s.queue[sub.id := Entry(sub.priority, s.lastNumber + 1, NewTask(s, sub))],
              lastNumber := s.lastNumber + 1)
  {
  }

  lemma Holds(s: State, sub: Submission)
    requires !SomeFailed(s, sub.dependsOn) && Unmet(s, sub.dependsOn) != []
    ensures var r := Submit(s, sub);
            && r == Known(s, sub).(waiting := s.waiting[sub.id := NewTask(s, sub)], dependents := r.dependents)
            && (forall d, t :: Listings(r.dependents, d, t) == Listings(s.dependents, d, t)
                                 + if t == sub.id && d !in s.completed then multiset(sub.dependsOn)[d] else 0)
  {
    var linked := Link(s.dependents, Unmet(s, sub.dependsOn), sub.id);
    assert Submit(s, sub) == Known(s, sub).(waiting := s.waiting[sub.id := NewTask(s, sub)], dependents := linked);
    forall d, t
      ensures Listings(linked, d, t) == Listings(s.dependents, d, t)
                + if t == sub.id && d !in s.completed then multiset(sub.dependsOn)[d] else 0
    {
      LinkCount(s.dependents, Unmet(s, sub.dependsOn), sub.id, d, t);
      UnmetCount(s, sub.dependsOn, d);
    }
  }

  // ---- Failure ----

  /** The waiting tasks that a failure of the given ones takes down: themselves, and whatever waits for them. */
  ghost predicate TakenDown(waiting: map<Id, Task>, causes: seq<Id>, t: Id) {
    t in waiting && exists x :: x in causes && (x == t || WaitsFor(waiting, x, t))
  }

  /** Of the waiting tasks exactly those that the failed ones take down are gone, and they have failed. */
  ghost predicate TakesDown(s: State, r: State, causes: seq<Id>) {
    && (forall t :: t in r.waiting <==> t in s.waiting && !TakenDown(s.waiting, causes, t))
    && (forall t | t in r.waiting :: r.waiting[t] == s.waiting[t])
    && (forall t :: t in r.failed <==> t in s.failed || TakenDown(s.waiting, causes, t))
  }

  lemma OnlyItself(waiting: map<Id, Task>, id: Id, t: Id)
    requires id !in waiting
    ensures TakenDown(waiting, [id], t) <==> t in waiting && WaitsFor(waiting, id, t)
  {
    assert id in [id];
  }

  /** What follows once a task that was not waiting has failed. */
  lemma FailureMeans(s: State, f: State, id: Id)
    requires Healthy(s) && JustFailed(s, f, id)
    ensures var r := OnDepFailed(f, id);
            TakesDown(f, r, [id]) && r == f.(waiting := r.waiting, dependents := r.dependents, failed := r.failed)
  {
    SameTables(s, f);
    ApartFromCompleted(s);
    CascadeExact(f, id);
    forall t
      ensures TakenDown(f.waiting, [id], t) <==> t in f.waiting && WaitsFor(f.waiting, id, t)
    {
      OnlyItself(f.waiting, id, t);
    }
  }

  // ---- Dispatch ----

  /** Sent to the chosen agent, put back with one more try counted while tries are left, or given up. */
  ghost predicate Routed(s: State, r: State, cfg: Config, task: Task, choice: Choice) {
    var id := task.id;
    match choice
    case Unroutable => GivesUp(s, r, id)
    case Nobody =>
      if task.requeues + 1 < cfg.dlqMaxRetries then
        Queued(s, r, task.priority, task.(requeues := task.requeues + 1))
      else GivesUp(s, r, id)
    case Chosen(agent) => GivenTo(s, r, task, agent)
  }

  ghost predicate Drops(s: State, r: State, id: Id) {
    r == s.(queue := s.queue - {id}, tombstones := s.tombstones - {id}, withdrawn := s.withdrawn + {id})
  }

  /** The queued task has failed, and exactly what waits for it has failed with it. */
  ghost predicate Expires(s: State, r: State, id: Id) {
    var f := s.(queue := s.queue - {id}, failed := s.failed + {id});
    TakesDown(f, r, [id]) && r == f.(waiting := r.waiting, dependents := r.dependents, failed := r.failed)
  }

  ghost predicate GivesUp(s: State, r: State, id: Id) {
    r == s.(queue := s.queue - {id}, dlq := s.dlq + [id])
  }

  ghost predicate GivenTo(s: State, r: State, task: Task, agent: Agent) {
    r == s.(queue := s.queue - {task.id}, active := s.active[task.id := task], inFlight := s.inFlight[task.id := agent],
            sent := s.sent[task.id := (if task.id in s.sent then s.sent[task.id] else 0) + 1])
  }

  /**
    * One turn of the dispatch loop. A cancelled task is dropped. An expired one fails, with everything
    * that waits for it. Any other is sent to the agent selected for it; if nobody can take it, it goes
    * back behind its own priority with one more try counted, as long as tries are left; otherwise, or if
    * it cannot be routed, it is given up. Nothing else changes.
    */
  ghost predicate Dispatches(s: State, r: State, cfg: Config, task: Task, now: real, registry: Registry) {
    var id := task.id;
    if id in s.tombstones then Drops(s, r, id)
    else if task.expiresAt.Some? && now > task.expiresAt.value then Expires(s, r, id)
    else Routed(s, r, cfg, task, Select(task, registry))
  }

  lemma DispatchMeans(s: State, cfg: Config, e: Entry, now: real, registry: Registry)
    requires Healthy(s) && IsLeast(s.queue, e)
    ensures Dispatches(s, Step(s, cfg, Dispatching(e, now, registry)), cfg, e.task, now, registry)
  {
    if e.task.id !in s.tombstones {
      if e.task.expiresAt.Some? && now > e.task.expiresAt.value {
        DispatchExpires(s, cfg, e, now, registry);
        FailureMeans(s, s.(queue := s.queue - {e.task.id}, failed := s.failed + {e.task.id}), e.task.id);
      } else {
        DispatchRoutes(s, cfg, e, now, registry);
        RouteMeans(s, cfg, e.task, Select(e.task, registry));
      }
    }
  }

  lemma DispatchRoutes(s: State, cfg: Config, e: Entry, now: real, registry: Registry)
    requires e.task.id !in s.tombstones && !Expired(e.task, now)
    ensures var taken := s.(queue := s.queue - {e.task.id});
            Dispatch(s, cfg, e, now, registry)
            == match Select(e.task, registry)
               case Unroutable => DeadLetter(taken, e.task.id)
               case Nobody => Requeue(taken, cfg, e.task)
               case Chosen(agent) => Send(taken, e.task, agent)
  {
  }

  lemma RouteMeans(s: State, cfg: Config, task: Task, choice: Choice)
    ensures var taken := s.(queue := s.queue - {task.id});
            Routed(s, match choice
                      case Unroutable => DeadLetter(taken, task.id)
                      case Nobody => Requeue(taken, cfg, task)
                      case Chosen(agent) => Send(taken, task, agent), cfg, task, choice)
  {
    if choice.Nobody? {
      PutBackMeans(s, cfg, task);
    }
  }

  lemma PutBackMeans(s: State, cfg: Config, task: Task)
    ensures Routed(s, Requeue(s.(queue := s.queue - {task.id}), cfg, task), cfg, task, Nobody)
  {
    var again := Entry(task.priority, s.lastNumber + 1, task.(requeues := task.requeues + 1));
    assert (s.queue - {task.id})[task.id := again] == s.queue[task.id := again];
  }

  // ---- Results ----

  /** A waiting task whose dependencies are all among the given ones is queued by its own priority; others stay. */
  ghost predicate Woken(s: State, r: State, completed: set<Id>, t: Id) {
    if t in s.waiting && forall d | d in s.waiting[t].dependsOn :: d in completed then
      && t !in r.waiting && t in r.queue
      && r.queue[t].task == s.waiting[t] && r.queue[t].priority == s.waiting[t].priority
      && s.lastNumber < r.queue[t].number <= r.lastNumber
    else
      && (t in r.waiting <==> t in s.waiting) && (t in r.waiting ==> r.waiting[t] == s.waiting[t])
      && (t in r.queue <==> t in s.queue) && (t in r.queue ==> r.queue[t] == s.queue[t])
  }

  /** The result of a cancelled task has no effect but that the task has come back. */
  ghost predicate Discards(s: State, r: State, id: Id) {
    r == s.(inFlight := s.inFlight - {id}, active := s.active - {id}, tombstones := s.tombstones - {id},
            withdrawn := s.withdrawn + {id})
  }

  ghost predicate Completes(s: State, r: State, id: Id) {
    && r == s.(inFlight := s.inFlight - {id}, active := s.active - {id}, completed := s.completed + {id},
               waiting := r.waiting, dependents := r.dependents, queue := r.queue, lastNumber := r.lastNumber)
    && forall t :: Woken(s, r, s.completed + {id}, t)
  }

  /** The task has failed for good, and exactly what waits for it has failed with it. */
  ghost predicate Ends(s: State, r: State, id: Id) {
    var f := s.(inFlight := s.inFlight - {id}, active := s.active - {id}, failed := s.failed + {id});
    TakesDown(f, r, [id]) && r == f.(waiting := r.waiting, dependents := r.dependents, failed := r.failed)
  }

  lemma CompletionMeans(s: State, cfg: Config, id: Id, agent: Agent)
    requires Healthy(s) && id in s.inFlight && id !in s.tombstones
    ensures Completes(s, HandleResult(s, cfg, id, agent, Success), id)
  {
    var idle := s.(inFlight := s.inFlight - {id}, active := s.active - {id});
    var done := idle.(completed := s.completed + {id});
    ResultSucceeds(s, cfg, id, agent);
    SameTables(s, idle);
    CompletionWakesAll(idle, id);
    OnDepSatisfiedMoves(done, id);
    WaitingIsApart(s);
    AllWoken(s, done, OnDepSatisfied(done, id));
  }

  lemma AllWoken(s: State, done: State, r: State)
    requires OnlyReleases(done, r) && NoLostWakeUp(r) && WaitingApart(s)
    requires done.waiting == s.waiting && done.queue == s.queue && done.lastNumber == s.lastNumber
    ensures forall t :: Woken(s, r, done.completed, t)
  {
    forall t
      ensures Woken(s, r, done.completed, t)
    {
      assert Blocked(r, t) && ReleasedOrSame(done, r, t);
    }
  }

  /** The task is released, and later than everything released before it. */
  lemma ReleasedLater(s: State, m: State, r: State, t: Id, u: Id)
    requires OnlyReleases(s, m) && OnlyReleases(m, r) && WaitingApart(s)
    requires t in s.waiting && t !in m.waiting && u in m.waiting && u !in r.waiting
    ensures t in r.queue && u in r.queue && r.queue[t].number < r.queue[u].number
  {
    assert ReleasedOrSame(s, m, t) && ReleasedOrSame(m, r, t) && ReleasedOrSame(m, r, u);
  }

  lemma {:induction false} ReleaseInOrder(s: State, cause: Id, listed: seq<Id>, i: nat, j: nat)
    requires WaitingApart(s) && i < j < |listed| && forall k | 0 <= k < j :: listed[k] != listed[j]
    requires listed[i] in s.waiting && listed[j] in s.waiting
    requires AllCompleted(s, s.waiting[listed[i]].dependsOn)
    ensures var r := Release(s, cause, listed);
            listed[j] !in r.waiting ==>
              listed[i] in r.queue && listed[j] in r.queue && r.queue[listed[i]].number < r.queue[listed[j]].number
    decreases listed
  {
    var id, rest := listed[0], listed[1..];
    if id in s.waiting && AllCompleted(s, s.waiting[id].dependsOn) {
      var next := ReleaseOne(s, cause, id);
      ReleaseOneMoves(s, cause, id);
      ReleaseMoves(next, cause, rest);
      if id == listed[i] {
        if listed[j] !in Release(next, cause, rest).waiting {
          ReleasedLater(s, next, Release(next, cause, rest), listed[i], listed[j]);
        }
      } else {
        ReleaseInOrder(next, cause, rest, i - 1, j - 1);
      }
    } else {
      assert i > 0;
      ReleaseInOrder(s, cause, rest, i - 1, j - 1);
    }
  }

  /**
    * First come, first served: of two tasks that a completion releases, the one that is listed first under
    * the completed task gets the smaller number, so at equal priority it is dispatched first.
    */
  lemma ReleasedInOrder(s: State, cfg: Config, id: Id, agent: Agent, i: nat, j: nat)
    requires Healthy(s) && id in s.inFlight && id !in s.tombstones
    requires var listed := Listed(s.dependents, id);
             && i < j < |listed| && (forall k | 0 <= k < j :: listed[k] != listed[j])
             && listed[i] in s.waiting && listed[j] in s.waiting
             && (forall d | d in s.waiting[listed[i]].dependsOn :: d in s.completed || d == id)
             && (forall d | d in s.waiting[listed[j]].dependsOn :: d in s.completed || d == id)
    ensures var r, listed := Step(s, cfg, Resulting(id, agent, Success)), Listed(s.dependents, id);
            && listed[i] in r.queue && listed[j] in r.queue && r.queue[listed[i]].number < r.queue[listed[j]].number
  {
    var listed := Listed(s.dependents, id);
    var done := s.(inFlight := s.inFlight - {id}, active := s.active - {id}, completed := s.completed + {id});
    ResultSucceeds(s, cfg, id, agent);
    CompletionMeans(s, cfg, id, agent);
    assert Woken(s, HandleResult(s, cfg, id, agent, Success), s.completed + {id}, listed[j]);
    ReleaseInOrder(done.(dependents := Without(done.dependents, id)), id, listed, i, j);
  }

  /** The task as it is escalated: one step more urgent, and no longer for this agent. */
  ghost function OneUp(task: Task, agent: Agent): Task {
    task.(escalationCount := task.escalationCount + 1, excluded := task.excluded + [agent],
          priority := if task.priority <= 0 then 0 else task.priority - 1)
  }

  /** Queued again, by its priority and behind everything of that priority, as it now is. */
  ghost predicate Returned(s: State, r: State, task: Task) {
    r == s.(inFlight := s.inFlight - {task.id}, active := s.active[task.id := task],
            queue := s.queue[task.id := Entry(task.priority, s.lastNumber + 1, task)], lastNumber := s.lastNumber + 1,
            priorities := r.priorities)
  }

  /**
    * A result. That of a cancelled task is dropped. A success completes the task and queues exactly the
    * waiting tasks for which it was the last dependency. A watchdog timeout is escalated if escalation is
    * on and not used up: the task is queued one priority up, and never again for this agent. Any other
    * failure is retried if retries are left, and otherwise final: it takes down exactly what waits for it.
    */
  ghost predicate Lands(s: State, r: State, cfg: Config, task: Task, agent: Agent, outcome: Outcome) {
    var id := task.id;
    if id in s.tombstones then Discards(s, r, id)
    else if outcome.Success? then Completes(s, r, id)
    else if outcome.WatchdogTimeout? && cfg.escalationEnabled && task.escalationCount < cfg.maxEscalations then
      Returned(s, r, OneUp(task, agent)) && r.priorities == s.priorities[id := OneUp(task, agent).priority]
    else if task.retryCount < task.maxRetries then
      Returned(s, r, task.(retryCount := task.retryCount + 1)) && r.priorities == s.priorities
    else Ends(s, r, id)
  }

  lemma ResultMeans(s: State, cfg: Config, id: Id, agent: Agent, outcome: Outcome)
    requires Healthy(s) && id in s.inFlight
    ensures id in s.active && s.active[id].id == id
    ensures Lands(s, Step(s, cfg, Resulting(id, agent, outcome)), cfg, s.active[id], agent, outcome)
  {
    assert TaskSound(s, id);
    if id !in s.tombstones {
      if outcome.Success? {
        CompletionMeans(s, cfg, id, agent);
      } else if outcome.WatchdogTimeout? && cfg.escalationEnabled && s.active[id].escalationCount < cfg.maxEscalations {
        EscalationMeans(s, cfg, id, agent);
      } else if s.active[id].retryCount < s.active[id].maxRetries {
        RetryMeans(s, cfg, id, agent, outcome);
      } else {
        FinalMeans(s, cfg, id, agent, outcome);
      }
    }
  }

  lemma EscalationMeans(s: State, cfg: Config, id: Id, agent: Agent)
    requires id in s.active && s.active[id].id == id && id !in s.tombstones
    requires cfg.escalationEnabled && s.active[id].escalationCount < cfg.maxEscalations
    ensures var r, up := HandleResult(s, cfg, id, agent, WatchdogTimeout), OneUp(s.active[id], agent);
            Returned(s, r, up) && r.priorities == s.priorities[id := up.priority]
  {
    assert OneUp(s.active[id], agent) == Escalated(s.active[id], agent);
  }

  lemma RetryMeans(s: State, cfg: Config, id: Id, agent: Agent, outcome: Outcome)
    requires id in s.active && s.active[id].id == id && id !in s.tombstones && !outcome.Success?
    requires !(outcome.WatchdogTimeout? && cfg.escalationEnabled && s.active[id].escalationCount < cfg.maxEscalations)
    requires s.active[id].retryCount < s.active[id].maxRetries
    ensures var r, task := HandleResult(s, cfg, id, agent, outcome), s.active[id];
            Returned(s, r, task.(retryCount := task.retryCount + 1)) && r.priorities == s.priorities
  {
  }

  lemma FinalMeans(s: State, cfg: Config, id: Id, agent: Agent, outcome: Outcome)
    requires Healthy(s) && id in s.inFlight && FinalFailure(s, cfg, id, outcome)
    ensures Ends(s, HandleResult(s, cfg, id, agent, outcome), id)
  {
    ResultFails(s, cfg, id, agent, outcome);
    FailureMeans(s, s.(inFlight := s.inFlight - {id}, active := s.active - {id}, failed := s.failed + {id}), id);
  }

  // ---- Cancellation ----

  /** Out of the waiting table and the queue, in no list of the index, and nothing else changed. */
  ghost predicate Withdrawn(s: State, r: State, id: Id) {
    && r == s.(waiting := s.waiting - {id}, queue := s.queue - {id}, withdrawn := s.withdrawn + {id},
               dependents := r.dependents)
    && (forall d :: d in r.dependents ==> id !in r.dependents[d])
    && (forall d, t | t != id :: Listings(r.dependents, d, t) == Listings(s.dependents, d, t))
  }

  /**
    * Cancelling. A task that was sent is marked, and nothing else changes. A waiting or queued one is
    * withdrawn: it is in no table and in no list of the index any more, and every other task is where it
    * was and as often listed. For any other id nothing happens.
    */
  ghost predicate Cancels(s: State, r: State, id: Id) {
    if id in s.active then r == s.(tombstones := s.tombstones + {id})
    else if id in s.waiting || id in s.queue then Withdrawn(s, r, id)
    else r == s
  }

  lemma CancelMeans(s: State, cfg: Config, id: Id)
    requires Healthy(s)
    ensures Cancels(s, Step(s, cfg, Cancelling(id)), id)
  {
    assert TaskSound(s, id);
    if id !in s.active && id in s.waiting {
      HeldCancelled(s, id);
    } else if id !in s.active && id in s.queue {
      assert s.waiting - {id} == s.waiting;
      assert Cancel(s, id)
          == s.(waiting := s.waiting - {id}, queue := s.queue - {id}, withdrawn := s.withdrawn + {id});
      Unlisted(s, id);
    }
  }

  lemma HeldCancelled(s: State, id: Id)
    requires Healthy(s) && id in s.waiting && id !in s.active && id !in s.queue
    ensures Withdrawn(s, Cancel(s, id), id)
  {
    var unlinked := Unlink(s.dependents, s.waiting[id].dependsOn, id, None);
    var r := s.(waiting := s.waiting - {id}, dependents := unlinked, withdrawn := s.withdrawn + {id});
    assert Cancel(s, id) == r && s.queue - {id} == s.queue;
    CancelHealthy(s, id);
    Unlisted(r, id);
    forall d, t | t != id
      ensures Listings(unlinked, d, t) == Listings(s.dependents, d, t)
    {
      UnlinkCount(s.dependents, s.waiting[id].dependsOn, id, None, d, t);
    }
  }

  /** A task that is not waiting is nowhere in the index. */
  lemma Unlisted(s: State, id: Id)
    requires Indexed(s, {}) && id !in s.waiting
    ensures forall d | d in s.dependents :: id !in s.dependents[d]
  {
    forall d | d in s.dependents
      ensures id !in s.dependents[d]
    {
      assert Agrees(s, {}, d, id);
      assert multiset(s.dependents[d])[id] == 0;
    }
  }

  // ---- Expiry of waiting tasks ----

  lemma ExpiredWaiting(s: State, id: Id)
    requires Healthy(s) && id in s.waiting
    ensures var taken := s.(waiting := s.waiting - {id},
                            dependents := Unlink(s.dependents, s.waiting[id].dependsOn, id, None));
            var r := Expire(taken, id);
            && r == s.(waiting := r.waiting, dependents := r.dependents, failed := r.failed)
            && Shrinks(r.waiting, s.waiting) && r.failed == s.failed + Removed(s, r)
            && (forall t | t in Removed(s, r) :: t == id || WaitsFor(s.waiting, id, t))
            && (forall x | x in Removed(s, r) :: FreeOf(r, x)) && id in Removed(s, r)
  {
    var taken := s.(waiting := s.waiting - {id}, dependents := Unlink(s.dependents, s.waiting[id].dependsOn, id, None));
    var f := taken.(failed := s.failed + {id});
    var r := Expire(taken, id);
    UnheldIndexed(s, id);
    SameTables(taken, f);
    ApartFromCompleted(s);
    OnDepFailedCascades(f, id, {});
    assert Removed(s, r) == {id} + Removed(f, r);
    assert r.failed == s.failed + Removed(s, r);
    forall t | t in Removed(s, r)
      ensures t == id || WaitsFor(s.waiting, id, t)
    {
      if t != id {
        WaitsMore(f.waiting, s.waiting, id, t);
      }
    }
  }

  /** Everything that is gone has a cause among the ids, and nothing that is left waits for what is gone. */
  ghost predicate Reaped(s: State, r: State, ids: seq<Id>) {
    && r == s.(waiting := r.waiting, dependents := r.dependents, failed := r.failed)
    && Shrinks(r.waiting, s.waiting) && r.failed == s.failed + Removed(s, r)
    && (forall t | t in Removed(s, r) :: TakenDown(s.waiting, ids, t))
    && (forall x | x in Removed(s, r) :: FreeOf(r, x))
    && (forall x | x in ids :: x !in r.waiting)
  }

  lemma ReapedOn(s: State, m: State, r: State, ids: seq<Id>)
    requires ids != [] && ids[0] in s.waiting && Reaped(m, r, ids[1..])
    requires m == s.(waiting := m.waiting, dependents := m.dependents, failed := m.failed)
    requires Shrinks(m.waiting, s.waiting) && m.failed == s.failed + Removed(s, m) && ids[0] in Removed(s, m)
    requires forall t | t in Removed(s, m) :: t == ids[0] || WaitsFor(s.waiting, ids[0], t)
    requires forall x | x in Removed(s, m) :: FreeOf(m, x)
    ensures Reaped(s, r, ids)
  {
    assert Removed(s, r) == Removed(s, m) + Removed(m, r);
    assert r.failed == s.failed + Removed(s, r);
    forall t | t in Removed(s, r)
      ensures TakenDown(s.waiting, ids, t)
    {
      if t in Removed(s, m) {
        assert ids[0] in ids;
      } else {
        var x :| x in ids[1..] && (x == t || WaitsFor(m.waiting, x, t));
        assert x in ids;
        if x != t {
          WaitsMore(m.waiting, s.waiting, x, t);
        }
      }
    }
    forall x | x in Removed(s, r)
      ensures FreeOf(r, x)
    {
      if x !in Removed(m, r) {
        assert FreeOf(m, x);
      }
    }
  }

  lemma {:induction false} ReapReaps(s: State, ids: seq<Id>)
    requires Healthy(s)
    ensures Reaped(s, Reap(s, ids), ids)
    decreases ids
  {
    if ids != [] {
      var id := ids[0];
      if id in s.waiting {
        var m := Expire(s.(waiting := s.waiting - {id},
                           dependents := Unlink(s.dependents, s.waiting[id].dependsOn, id, None)), id);
        ReapOneHealthy(s, id);
        ExpiredWaiting(s, id);
        ReapReaps(m, ids[1..]);
        ReapedOn(s, m, Reap(m, ids[1..]), ids);
      } else {
        ReapReaps(s, ids[1..]);
        var r := Reap(s, ids[1..]);
        forall t | t in Removed(s, r)
          ensures TakenDown(s.waiting, ids, t)
        {
          var x :| x in ids[1..] && (x == t || WaitsFor(s.waiting, x, t));
          assert x in ids;
        }
      }
    }
  }

  lemma {:induction false} GoneAlong(s: State, r: State, x: Id, path: seq<Id>, k: nat)
    requires x in Removed(s, r) && forall y | y in Removed(s, r) :: FreeOf(r, y)
    requires Shrinks(r.waiting, s.waiting) && WaitChain(s.waiting, x, path) && k < |path|
    ensures path[k] !in r.waiting
    decreases k
  {
    if k > 0 {
      GoneAlong(s, r, x, path, k - 1);
      assert path[k - 1] in s.waiting[path[k - 1 + 1]].dependsOn;
      assert path[k - 1] in Removed(s, r);
    }
  }

  /**
    * The reaper fails exactly the waiting tasks whose time is up and that are not cancelled, together
    * with exactly the tasks that wait for them, directly or through others. Nothing else changes.
    */
  ghost predicate Reaps(s: State, r: State, now: real, ids: seq<Id>) {
    && (forall id :: id in ids <==> id in s.waiting && id !in s.tombstones && s.waiting[id].expiresAt.Some?
                                    && now > s.waiting[id].expiresAt.value)
    && TakesDown(s, r, ids) && r == s.(waiting := r.waiting, dependents := r.dependents, failed := r.failed)
  }

  lemma ReapMeans(s: State, cfg: Config, now: real, ids: seq<Id>)
    requires Healthy(s) && Allowed(s, Reaping(now, ids))
    ensures Reaps(s, Step(s, cfg, Reaping(now, ids)), now, ids)
  {
    forall id
      ensures id in ids <==> id in s.waiting && id !in s.tombstones && s.waiting[id].expiresAt.Some?
                             && now > s.waiting[id].expiresAt.value
    {
      assert id in ids <==> Reapable(s, id, now);
    }
    ReapReaps(s, ids);
    AllGone(s, Reap(s, ids), ids);
  }

  lemma AllGone(s: State, r: State, ids: seq<Id>)
    requires Reaped(s, r, ids) && forall x | x in ids :: x in s.waiting
    ensures TakesDown(s, r, ids)
  {
    forall t | TakenDown(s.waiting, ids, t)
      ensures t !in r.waiting
    {
      var x :| x in ids && (x == t || WaitsFor(s.waiting, x, t));
      if x != t {
        var path :| WaitChain(s.waiting, x, path) && path[|path| - 1] == t;
        GoneAlong(s, r, x, path, |path| - 1);
      }
    }
    forall t
      ensures t in r.waiting <==> t in s.waiting && !TakenDown(s.waiting, ids, t)
    {
      assert t in s.waiting && t !in r.waiting ==> t in Removed(s, r);
    }
  }

  // ---- Priorities ----

  /** A queued task gets the new priority, in its record as in the queue; nothing else changes. */
  ghost predicate Reprioritises(s: State, r: State, id: Id, priority: int) {
    if id in s.queue then
      var changed := Entry(priority, s.lastUpdate - 1, s.queue[id].task.(priority := priority));
      r == s.(lastUpdate := s.lastUpdate - 1, queue := s.queue[id := changed])
    else r == s
  }

  lemma ReprioritiseMeans(s: State, cfg: Config, id: Id, priority: int)
    ensures Reprioritises(s, Step(s, cfg, Reprioritising(id, priority)), id, priority)
  {
  }

  // ---- All steps ----

  /** What the step that the event stands for does, as a relation between the tables before and after. */
  ghost predicate Moves(s: State, r: State, cfg: Config, e: Event) {
    match e
    case Submitting(sub) => Submits(s, r, sub)
    case Dispatching(entry, now, registry) => Dispatches(s, r, cfg, entry.task, now, registry)
    case Resulting(id, agent, outcome) =>
      id in s.active && s.active[id].id == id && Lands(s, r, cfg, s.active[id], agent, outcome)
    case Cancelling(id) => Cancels(s, r, id)
    case Reaping(now, ids) => Reaps(s, r, now, ids)
    case Reprioritising(id, priority) => Reprioritises(s, r, id, priority)
  }

  /** Every allowed step of a run moves the tables as described. */
  lemma StepMeans(s: State, cfg: Config, e: Event)
    requires Healthy(s) && Allowed(s, e)
    ensures Moves(s, Step(s, cfg, e), cfg, e)
  {
    match e
    case Submitting(sub) => SubmitMeans(s, cfg, sub);
    case Dispatching(entry, now, registry) => DispatchMeans(s, cfg, entry, now, registry);
    case Resulting(id, agent, outcome) => ResultMeans(s, cfg, id, agent, outcome);
    case Cancelling(id) => CancelMeans(s, cfg, id);
    case Reaping(now, ids) => ReapMeans(s, cfg, now, ids);
    case Reprioritising(id, priority) => ReprioritiseMeans(s, cfg, id, priority);
  }
}
