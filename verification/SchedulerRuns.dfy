// The scheduler's invariants over whole runs.

module SchedulerRuns {
  import opened Wrappers
  import opened Tasks
  import opened Scheduler
  import opened SchedulerSafety
  import opened SchedulerIndex

  /** Safe, indexed, and with no waiting task whose dependencies are all complete. */
  ghost predicate Healthy(s: State) {
    Sound(s) && Indexed(s, {}) && NoLostWakeUp(s)
  }

  lemma SameTables(s: State, r: State)
    requires Indexed(s, {}) && NoLostWakeUp(s)
    requires r.waiting == s.waiting && r.dependents == s.dependents && r.completed == s.completed
    ensures Indexed(r, {}) && NoLostWakeUp(r)
  {
    forall d, t
      ensures Agrees(r, {}, d, t)
    {
      assert Agrees(s, {}, d, t);
    }
    forall t
      ensures Blocked(r, t)
    {
      assert Blocked(s, t);
    }
  }

  lemma ApartFromCompleted(s: State)
    requires Sound(s)
    ensures s.waiting.Keys !! s.completed
  {
    forall id | id in s.waiting
      ensures id !in s.completed
    {
      assert TaskSound(s, id);
    }
  }

  lemma FailureHealthy(s: State, id: Id)
    requires Indexed(s, {}) && NoLostWakeUp(s) && s.waiting.Keys !! s.completed
    requires id !in s.waiting && id !in s.completed
    ensures var r := OnDepFailed(s, id); Indexed(r, {}) && NoLostWakeUp(r)
  {
    CascadeExact(s, id);
    var r := OnDepFailed(s, id);
    forall t
      ensures Blocked(r, t)
    {
      assert Blocked(s, t);
    }
  }

  lemma HeldIndexed(s: State, sub: Submission)
    requires Sound(s) && Indexed(s, {}) && NoLostWakeUp(s) && sub.id !in s.submitted
    requires Unmet(s, sub.dependsOn) != []
    ensures var linked := Link(s.dependents, Unmet(s, sub.dependsOn), sub.id);
            var r := Known(s, sub).(waiting := s.waiting[sub.id := NewTask(s, sub)], dependents := linked);
            Indexed(r, {}) && NoLostWakeUp(r)
  {
    var unmet := Unmet(s, sub.dependsOn);
    var r := Known(s, sub).(waiting := s.waiting[sub.id := NewTask(s, sub)],
                            dependents := Link(s.dependents, unmet, sub.id));
    assert TaskSound(s, sub.id);
    forall d, t
      ensures Agrees(r, {}, d, t)
    {
      assert Agrees(s, {}, d, t);
      LinkCount(s.dependents, unmet, sub.id, d, t);
      UnmetCount(s, sub.dependsOn, d);
    }
    UnmetExact(s, sub.dependsOn);
    assert unmet[0] in unmet;
    forall t
      ensures Blocked(r, t)
    {
      assert Blocked(s, t);
    }
  }

  lemma SubmitHealthy(s: State, sub: Submission)
    requires Healthy(s) && sub.id !in s.submitted
    ensures Healthy(Submit(s, sub))
  {
    SubmitSound(s, sub);
    if !SomeFailed(s, sub.dependsOn) && Unmet(s, sub.dependsOn) != [] {
      HeldIndexed(s, sub);
    } else {
      SubmitTables(s, sub);
      SameTables(s, Submit(s, sub));
    }
  }

  lemma SubmitTables(s: State, sub: Submission)
    requires SomeFailed(s, sub.dependsOn) || Unmet(s, sub.dependsOn) == []
    ensures var r := Submit(s, sub);
            r.waiting == s.waiting && r.dependents == s.dependents && r.completed == s.completed
  {
    if SomeFailed(s, sub.dependsOn) {
    } else {
    }
  }

  // ---- Steps that release and fail nothing ----

  /** The step leaves waiting and finished tasks, the index and the submission records as they are. */
  ghost predicate Quiet(s: State, r: State) {
    && r.waiting == s.waiting && r.dependents == s.dependents
    && r.completed == s.completed && r.failed == s.failed
    && r.submitted == s.submitted && r.taskDeps == s.taskDeps
  }

  lemma DispatchQuiet(s: State, cfg: Config, e: Entry, now: real, registry: Registry)
    requires e.task.id in s.tombstones || !Expired(e.task, now)
    ensures Quiet(s, Dispatch(s, cfg, e, now, registry))
  {
    if e.task.id in s.tombstones {
    } else {
      RouteQuiet(s.(queue := s.queue - {e.task.id}), cfg, e.task, Select(e.task, registry));
    }
  }

  lemma RouteQuiet(s: State, cfg: Config, task: Task, choice: Choice)
    ensures Quiet(s, match choice
                     case Unroutable => DeadLetter(s, task.id)
                     case Nobody => Requeue(s, cfg, task)
                     case Chosen(agent) => Send(s, task, agent))
  {
    RequeueQuiet(s, cfg, task);
  }

  lemma RequeueQuiet(s: State, cfg: Config, task: Task)
    ensures Quiet(s, Requeue(s, cfg, task))
  {
    if task.requeues + 1 >= cfg.dlqMaxRetries {
    } else {
    }
  }

  /** A result that ends the task without success. */
  predicate FinalFailure(s: State, cfg: Config, id: Id, outcome: Outcome) {
    && id !in s.tombstones && !outcome.Success?
    && !(outcome.WatchdogTimeout? && id in s.active && Escalates(cfg, s.active[id]))
    && !(id in s.active && s.active[id].retryCount < s.active[id].maxRetries)
  }

  lemma ResultQuiet(s: State, cfg: Config, id: Id, agent: Agent, outcome: Outcome)
    requires id in s.tombstones || (!outcome.Success? && !FinalFailure(s, cfg, id, outcome))
    ensures Quiet(s, HandleResult(s, cfg, id, agent, outcome))
  {
    var landed := s.(inFlight := s.inFlight - {id});
    if id in s.tombstones {
    } else if outcome.WatchdogTimeout? && Escalates(cfg, s.active[id]) {
      var task := Escalated(s.active[id], agent);
      assert Quiet(s, Enqueue(landed, task.priority, task).(
                        priorities := s.priorities[id := task.priority], active := s.active[id := task]));
    } else {
      var task := s.active[id].(retryCount := s.active[id].retryCount + 1);
      assert Quiet(s, Enqueue(landed, task.priority, task).(active := s.active[id := task]));
    }
  }

  lemma CancelQuiet(s: State, id: Id)
    requires id in s.active || id !in s.waiting
    ensures Quiet(s, Cancel(s, id))
  {
  }

  /** The state in which a task has just failed for good, before its dependents are told. */
  ghost predicate JustFailed(s: State, f: State, id: Id) {
    && f.waiting == s.waiting && f.dependents == s.dependents && f.completed == s.completed
    && f.submitted == s.submitted && f.taskDeps == s.taskDeps
    && f.failed == s.failed + {id} && id !in s.waiting && id !in s.completed
  }

  lemma JustFailedHealthy(s: State, f: State, id: Id)
    requires Healthy(s) && JustFailed(s, f, id)
    ensures var r := OnDepFailed(f, id); Indexed(r, {}) && NoLostWakeUp(r)
  {
    SameTables(s, f);
    ApartFromCompleted(s);
    FailureHealthy(f, id);
  }

  lemma DispatchHealthy(s: State, cfg: Config, e: Entry, now: real, registry: Registry)
    requires Healthy(s) && e.task.id in s.queue && s.queue[e.task.id] == e
    ensures Healthy(Dispatch(s, cfg, e, now, registry))
  {
    var id := e.task.id;
    DispatchSound(s, cfg, e, now, registry);
    if id !in s.tombstones && Expired(e.task, now) {
      DispatchExpires(s, cfg, e, now, registry);
      JustFailedHealthy(s, s.(queue := s.queue - {id}, failed := s.failed + {id}), id);
    } else {
      DispatchQuiet(s, cfg, e, now, registry);
      SameTables(s, Dispatch(s, cfg, e, now, registry));
    }
  }

  lemma DispatchExpires(s: State, cfg: Config, e: Entry, now: real, registry: Registry)
    requires Sound(s) && e.task.id in s.queue && e.task.id !in s.tombstones && Expired(e.task, now)
    ensures var f := s.(queue := s.queue - {e.task.id}, failed := s.failed + {e.task.id});
            JustFailed(s, f, e.task.id) && Dispatch(s, cfg, e, now, registry) == OnDepFailed(f, e.task.id)
  {
    assert TaskSound(s, e.task.id);
  }

  lemma ResultSucceeds(s: State, cfg: Config, id: Id, agent: Agent)
    requires Sound(s) && id in s.inFlight && id !in s.tombstones
    ensures var idle := s.(inFlight := s.inFlight - {id}, active := s.active - {id});
            && id !in s.completed && WaitingApart(idle)
            && WaitingApart(idle.(completed := s.completed + {id}))
            && HandleResult(s, cfg, id, agent, Success) == OnDepSatisfied(idle.(completed := s.completed + {id}), id)
  {
    assert TaskSound(s, id);
    WaitingIsApart(s);
  }

  lemma ResultFails(s: State, cfg: Config, id: Id, agent: Agent, outcome: Outcome)
    requires Sound(s) && id in s.inFlight && FinalFailure(s, cfg, id, outcome)
    ensures var f := s.(inFlight := s.inFlight - {id}, active := s.active - {id}, failed := s.failed + {id});
            JustFailed(s, f, id) && HandleResult(s, cfg, id, agent, outcome) == OnDepFailed(f, id)
  {
    assert TaskSound(s, id);
  }

  lemma ResultHealthy(s: State, cfg: Config, id: Id, agent: Agent, outcome: Outcome)
    requires Healthy(s) && id in s.inFlight
    ensures Healthy(HandleResult(s, cfg, id, agent, outcome))
  {
    ResultSound(s, cfg, id, agent, outcome);
    if id !in s.tombstones && outcome.Success? {
      ResultSucceeds(s, cfg, id, agent);
      var idle := s.(inFlight := s.inFlight - {id}, active := s.active - {id});
      SameTables(s, idle);
      CompletionWakesAll(idle, id);
    } else if FinalFailure(s, cfg, id, outcome) {
      ResultFails(s, cfg, id, agent, outcome);
      JustFailedHealthy(s, s.(inFlight := s.inFlight - {id}, active := s.active - {id}, failed := s.failed + {id}), id);
    } else {
      ResultQuiet(s, cfg, id, agent, outcome);
      SameTables(s, HandleResult(s, cfg, id, agent, outcome));
    }
  }

  lemma UnheldIndexed(s: State, id: Id)
    requires Indexed(s, {}) && NoLostWakeUp(s) && id in s.waiting
    ensures var r := s.(waiting := s.waiting - {id},
                        dependents := Unlink(s.dependents, s.waiting[id].dependsOn, id, None));
            Indexed(r, {}) && NoLostWakeUp(r)
  {
    var deps := s.waiting[id].dependsOn;
    var r := s.(waiting := s.waiting - {id}, dependents := Unlink(s.dependents, deps, id, None));
    forall d, t
      ensures Agrees(r, {}, d, t)
    {
      assert Agrees(s, {}, d, t);
      UnlinkCount(s.dependents, deps, id, None, d, t);
    }
    forall t
      ensures Blocked(r, t)
    {
      assert Blocked(s, t);
    }
  }

  lemma CancelHealthy(s: State, id: Id)
    requires Healthy(s)
    ensures Healthy(Cancel(s, id))
  {
    CancelSound(s, id);
    if id !in s.active && id in s.waiting {
      UnheldIndexed(s, id);
      var unlinked := Unlink(s.dependents, s.waiting[id].dependsOn, id, None);
      var held := s.(waiting := s.waiting - {id}, dependents := unlinked);
      SameTables(held, held.(withdrawn := s.withdrawn + {id}));
    } else {
      CancelQuiet(s, id);
      SameTables(s, Cancel(s, id));
    }
  }

  lemma ReapOneHealthy(s: State, id: Id)
    requires Healthy(s) && id in s.waiting
    ensures Healthy(Expire(s.(waiting := s.waiting - {id},
                              dependents := Unlink(s.dependents, s.waiting[id].dependsOn, id, None)), id))
  {
    var unlinked := Unlink(s.dependents, s.waiting[id].dependsOn, id, None);
    var taken := s.(waiting := s.waiting - {id}, dependents := unlinked);
    var f := taken.(failed := s.failed + {id});
    assert TaskSound(s, id);
    ReapedSound(s, id, unlinked);
    ExpireSound(taken, id);
    UnheldIndexed(s, id);
    SameTables(taken, f);
    ApartFromCompleted(s);
    FailureHealthy(f, id);
  }

  lemma {:induction false} ReapHealthy(s: State, ids: seq<Id>)
    requires Healthy(s)
    ensures Healthy(Reap(s, ids))
    decreases ids
  {
    if ids != [] {
      if ids[0] in s.waiting {
        ReapOneHealthy(s, ids[0]);
        ReapHealthy(Expire(s.(waiting := s.waiting - {ids[0]},
          dependents := Unlink(s.dependents, s.waiting[ids[0]].dependsOn, ids[0], None)), ids[0]), ids[1..]);
      } else {
        ReapHealthy(s, ids[1..]);
      }
    }
  }

  lemma StepHealthy(s: State, cfg: Config, e: Event)
    requires Healthy(s) && Allowed(s, e)
    ensures Healthy(Step(s, cfg, e))
  {
    match e
    case Submitting(sub) => SubmitHealthy(s, sub);
    case Dispatching(entry, now, registry) => DispatchHealthy(s, cfg, entry, now, registry);
    case Resulting(id, agent, outcome) => ResultHealthy(s, cfg, id, agent, outcome);
    case Cancelling(id) => CancelHealthy(s, id);
    case Reaping(_, ids) => ReapHealthy(s, ids);
    case Reprioritising(id, priority) =>
      ReprioritiseSound(s, id, priority);
      SameTables(s, Reprioritise(s, id, priority));
  }

  lemma {:induction false} RunHealthy(s: State, cfg: Config, events: seq<Event>)
    requires Healthy(s) && AllowedRun(s, cfg, events)
    ensures Healthy(Run(s, cfg, events))
    decreases events
  {
    if events != [] {
      StepHealthy(s, cfg, events[0]);
      RunHealthy(Step(s, cfg, events[0]), cfg, events[1..]);
    }
  }

  lemma InitialHealthy()
    ensures Healthy(INITIAL)
  {
  }

  /**
    * After every run the reverse index lists each waiting task under each incomplete dependency as
    * often as the task names it, lists nothing else, and every waiting task has something left to
    * wait for.
    */
  lemma EveryRunIsIndexed(cfg: Config, events: seq<Event>, d: Id, t: Id)
    requires AllowedRun(INITIAL, cfg, events)
    ensures var s := Run(INITIAL, cfg, events);
            && multiset(Listed(s.dependents, d))[t]
               == (if t in s.waiting && d !in s.completed then multiset(s.waiting[t].dependsOn)[d] else 0)
            && (t in s.waiting ==> exists u :: u in s.waiting[t].dependsOn && u !in s.completed)
  {
    InitialHealthy();
    RunHealthy(INITIAL, cfg, events);
    var s := Run(INITIAL, cfg, events);
    assert Agrees(s, {}, d, t) && Blocked(s, t);
  }

  // ---- Waiting on something that has failed ----

  ghost predicate NotDoomed(s: State, t: Id) {
    t in s.waiting ==> forall d | d in s.waiting[t].dependsOn :: d !in s.failed
  }

  ghost predicate Undoomed(s: State) {
    forall t :: NotDoomed(s, t)
  }

  /** A submission that fails at once although a task is already waiting for its id. */
  ghost predicate Orphans(s: State, e: Event) {
    e.Submitting? && SomeFailed(s, e.sub.dependsOn) &&
    exists t :: t in s.waiting && e.sub.id in s.waiting[t].dependsOn
  }

  lemma FailureUndoomed(s: State, id: Id)
    requires Undoomed(s.(failed := s.failed - {id})) && id in s.failed
    requires Indexed(s, {}) && s.waiting.Keys !! s.completed && id !in s.waiting && id !in s.completed
    ensures Undoomed(OnDepFailed(s, id))
  {
    var r := OnDepFailed(s, id);
    CascadeExact(s, id);
    forall t
      ensures NotDoomed(r, t)
    {
      if t in r.waiting {
        assert NotDoomed(s.(failed := s.failed - {id}), t);
        forall d | d in r.waiting[t].dependsOn
          ensures d !in r.failed
        {
          if d == id {
            WaitsDirectly(s.waiting, id, t);
          } else if d in s.waiting && WaitsFor(s.waiting, id, d) {
            WaitsNext(s.waiting, id, d, t);
          }
        }
      }
    }
  }

  lemma WaitsNext(waiting: map<Id, Task>, cause: Id, d: Id, t: Id)
    requires WaitsFor(waiting, cause, d) && t in waiting && d in waiting[t].dependsOn
    ensures WaitsFor(waiting, cause, t)
  {
    var path :| WaitChain(waiting, cause, path) && path[|path| - 1] == d;
    var longer := path + [t];
    forall k | 0 <= k < |longer| - 1
      ensures longer[k] in waiting[longer[k + 1]].dependsOn
    {
      if k < |path| - 1 {
        assert path[k] in waiting[path[k + 1]].dependsOn;
      }
    }
    assert WaitChain(waiting, cause, longer);
  }

  lemma SameFailed(s: State, r: State)
    requires Undoomed(s) && Shrinks(r.waiting, s.waiting) && r.failed <= s.failed
    ensures Undoomed(r)
  {
    forall t
      ensures NotDoomed(r, t)
    {
      assert NotDoomed(s, t);
    }
  }

  lemma JustFailedUndoomed(s: State, f: State, id: Id)
    requires Healthy(s) && Undoomed(s) && JustFailed(s, f, id)
    ensures Undoomed(OnDepFailed(f, id))
  {
    SameTables(s, f);
    ApartFromCompleted(s);
    SameFailed(s, f.(failed := f.failed - {id}));
    FailureUndoomed(f, id);
  }

  lemma FailedAtOnceUndoomed(s: State, id: Id, r: State)
    requires Undoomed(s) && r.waiting == s.waiting && r.failed == s.failed + {id}
    ensures Undoomed(r) <==> forall t | t in s.waiting :: id !in s.waiting[t].dependsOn
  {
    if t :| t in s.waiting && id in s.waiting[t].dependsOn {
      assert !NotDoomed(r, t);
    } else {
      forall t
        ensures NotDoomed(r, t)
      {
        assert NotDoomed(s, t);
      }
    }
  }

  lemma HeldUndoomed(s: State, task: Task, r: State)
    requires Undoomed(s) && r.waiting == s.waiting[task.id := task] && r.failed == s.failed
    requires !SomeFailed(s, task.dependsOn)
    ensures Undoomed(r)
  {
    forall t
      ensures NotDoomed(r, t)
    {
      assert NotDoomed(s, t);
    }
  }

  lemma SubmitUndoomed(s: State, sub: Submission)
    requires Undoomed(s)
    ensures Undoomed(Submit(s, sub)) <==> !Orphans(s, Submitting(sub))
  {
    if SomeFailed(s, sub.dependsOn) {
      FailedAtOnceUndoomed(s, sub.id, Known(s, sub).(failed := s.failed + {sub.id}));
    } else if Unmet(s, sub.dependsOn) == [] {
      SameFailed(s, Enqueue(Known(s, sub), sub.priority, NewTask(s, sub)));
    } else {
      var linked := Link(s.dependents, Unmet(s, sub.dependsOn), sub.id);
      HeldUndoomed(s, NewTask(s, sub),
                   Known(s, sub).(waiting := s.waiting[sub.id := NewTask(s, sub)], dependents := linked));
    }
  }

  lemma ReapOneUndoomed(s: State, id: Id)
    requires Healthy(s) && Undoomed(s) && id in s.waiting
    ensures Undoomed(Expire(s.(waiting := s.waiting - {id},
                               dependents := Unlink(s.dependents, s.waiting[id].dependsOn, id, None)), id))
  {
    var taken := s.(waiting := s.waiting - {id},
                    dependents := Unlink(s.dependents, s.waiting[id].dependsOn, id, None));
    var f := taken.(failed := s.failed + {id});
    ApartFromCompleted(s);
    UnheldIndexed(s, id);
    SameTables(taken, f);
    SameFailed(s, f.(failed := f.failed - {id}));
    FailureUndoomed(f, id);
  }

  lemma {:induction false} ReapUndoomed(s: State, ids: seq<Id>)
    requires Healthy(s) && Undoomed(s)
    ensures Undoomed(Reap(s, ids))
    decreases ids
  {
    if ids != [] {
      var id := ids[0];
      if id in s.waiting {
        ReapOneHealthy(s, id);
        ReapOneUndoomed(s, id);
        ReapUndoomed(Expire(s.(waiting := s.waiting - {id},
          dependents := Unlink(s.dependents, s.waiting[id].dependsOn, id, None)), id), ids[1..]);
      } else {
        ReapUndoomed(s, ids[1..]);
      }
    }
  }

  lemma DispatchUndoomed(s: State, cfg: Config, e: Entry, now: real, registry: Registry)
    requires Healthy(s) && Undoomed(s) && e.task.id in s.queue && s.queue[e.task.id] == e
    ensures Undoomed(Dispatch(s, cfg, e, now, registry))
  {
    var id := e.task.id;
    if id !in s.tombstones && Expired(e.task, now) {
      DispatchExpires(s, cfg, e, now, registry);
      JustFailedUndoomed(s, s.(queue := s.queue - {id}, failed := s.failed + {id}), id);
    } else {
      DispatchQuiet(s, cfg, e, now, registry);
      SameFailed(s, Dispatch(s, cfg, e, now, registry));
    }
  }

  lemma ResultUndoomed(s: State, cfg: Config, id: Id, agent: Agent, outcome: Outcome)
    requires Healthy(s) && Undoomed(s) && id in s.inFlight
    ensures Undoomed(HandleResult(s, cfg, id, agent, outcome))
  {
    if id !in s.tombstones && outcome.Success? {
      ResultSucceeds(s, cfg, id, agent);
      var done := s.(inFlight := s.inFlight - {id}, active := s.active - {id}, completed := s.completed + {id});
      OnDepSatisfiedMoves(done, id);
      SameFailed(s, OnDepSatisfied(done, id));
    } else if FinalFailure(s, cfg, id, outcome) {
      ResultFails(s, cfg, id, agent, outcome);
      JustFailedUndoomed(s, s.(inFlight := s.inFlight - {id}, active := s.active - {id}, failed := s.failed + {id}), id);
    } else {
      ResultQuiet(s, cfg, id, agent, outcome);
      SameFailed(s, HandleResult(s, cfg, id, agent, outcome));
    }
  }

  lemma CancelUndoomed(s: State, id: Id)
    requires Undoomed(s)
    ensures Undoomed(Cancel(s, id))
  {
    CancelRemembers(s, id);
    SameFailed(s, Cancel(s, id));
  }

  lemma ReprioritiseUndoomed(s: State, id: Id, priority: int)
    requires Undoomed(s)
    ensures Undoomed(Reprioritise(s, id, priority))
  {
    SameFailed(s, Reprioritise(s, id, priority));
  }

  /**
    * No waiting task depends on a failed one: every step keeps this, except exactly a submission
    * that fails at once while a task already waits for its id, which is not failed with it.
    */
  lemma StepUndoomed(s: State, cfg: Config, e: Event)
    requires Healthy(s) && Undoomed(s) && Allowed(s, e)
    ensures Undoomed(Step(s, cfg, e)) <==> !Orphans(s, e)
  {
    match e
    case Submitting(sub) => SubmitUndoomed(s, sub);
    case Dispatching(entry, now, registry) => DispatchUndoomed(s, cfg, entry, now, registry);
    case Resulting(id, agent, outcome) => ResultUndoomed(s, cfg, id, agent, outcome);
    case Cancelling(id) => CancelUndoomed(s, id);
    case Reaping(_, ids) => ReapUndoomed(s, ids);
    case Reprioritising(id, priority) => ReprioritiseUndoomed(s, id, priority);
  }

  // ---- Runs whose submissions only name earlier ids ----

  /** Submissions, the dependencies recorded for them, and completions are never forgotten or changed. */
  ghost predicate Remembers(s: State, r: State) {
    && r.submitted == s.submitted && r.taskDeps == s.taskDeps && Shrinks(r.waiting, s.waiting)
    && s.completed <= r.completed
  }

  lemma FailureRemembers(s: State, f: State, id: Id)
    requires f.submitted == s.submitted && f.taskDeps == s.taskDeps && Shrinks(f.waiting, s.waiting)
    requires s.completed <= f.completed
    ensures Remembers(s, OnDepFailed(f, id))
  {
    OnDepFailedMoves(f, id);
  }

  lemma DispatchRemembers(s: State, cfg: Config, e: Entry, now: real, registry: Registry)
    requires Sound(s) && e.task.id in s.queue
    ensures Remembers(s, Dispatch(s, cfg, e, now, registry))
  {
    var id := e.task.id;
    if id !in s.tombstones && Expired(e.task, now) {
      DispatchExpires(s, cfg, e, now, registry);
      FailureRemembers(s, s.(queue := s.queue - {id}, failed := s.failed + {id}), id);
    } else {
      DispatchQuiet(s, cfg, e, now, registry);
    }
  }

  lemma ResultRemembers(s: State, cfg: Config, id: Id, agent: Agent, outcome: Outcome)
    requires Sound(s) && id in s.inFlight
    ensures Remembers(s, HandleResult(s, cfg, id, agent, outcome))
  {
    if id !in s.tombstones && outcome.Success? {
      ResultSucceeds(s, cfg, id, agent);
      OnDepSatisfiedMoves(
        s.(inFlight := s.inFlight - {id}, active := s.active - {id}, completed := s.completed + {id}), id);
    } else if FinalFailure(s, cfg, id, outcome) {
      ResultFails(s, cfg, id, agent, outcome);
      FailureRemembers(s, s.(inFlight := s.inFlight - {id}, active := s.active - {id}, failed := s.failed + {id}), id);
    } else {
      ResultQuiet(s, cfg, id, agent, outcome);
    }
  }

  lemma {:induction false} ReapRemembers(s: State, ids: seq<Id>)
    ensures Remembers(s, Reap(s, ids))
    decreases ids
  {
    if ids != [] {
      var id := ids[0];
      if id in s.waiting {
        var taken := s.(waiting := s.waiting - {id},
                        dependents := Unlink(s.dependents, s.waiting[id].dependsOn, id, None));
        FailureRemembers(s, taken.(failed := taken.failed + {id}), id);
        ReapRemembers(Expire(taken, id), ids[1..]);
      } else {
        ReapRemembers(s, ids[1..]);
      }
    }
  }

  lemma CancelRemembers(s: State, id: Id)
    ensures Remembers(s, Cancel(s, id)) && Cancel(s, id).failed == s.failed
  {
    if id in s.active || id !in s.waiting {
      CancelQuiet(s, id);
    } else {
      var unlinked := Unlink(s.dependents, s.waiting[id].dependsOn, id, None);
      assert Cancel(s, id)
          == s.(waiting := s.waiting - {id}, dependents := unlinked, withdrawn := s.withdrawn + {id});
    }
  }

  lemma ReprioritiseRemembers(s: State, id: Id, priority: int)
    ensures Remembers(s, Reprioritise(s, id, priority))
  {
  }

  lemma StepRemembers(s: State, cfg: Config, e: Event)
    requires Sound(s) && Allowed(s, e) && !e.Submitting?
    ensures Remembers(s, Step(s, cfg, e))
  {
    match e
    case Dispatching(entry, now, registry) => DispatchRemembers(s, cfg, entry, now, registry);
    case Resulting(id, agent, outcome) => ResultRemembers(s, cfg, id, agent, outcome);
    case Cancelling(id) => CancelRemembers(s, id);
    case Reaping(_, ids) => ReapRemembers(s, ids);
    case Reprioritising(id, priority) => ReprioritiseRemembers(s, id, priority);
  }

  /** Every submission of the run names only ids submitted before it. */
  ghost predicate BackwardRun(s: State, cfg: Config, events: seq<Event>)
    decreases events
  {
    events == [] ||
    ((events[0].Submitting? ==> forall d | d in events[0].sub.dependsOn :: d in s.submitted) &&
     BackwardRun(Step(s, cfg, events[0]), cfg, events[1..]))
  }

  ghost predicate DependsOnKnown(s: State, t: Id) {
    t in s.waiting ==> forall d | d in s.waiting[t].dependsOn :: d in s.submitted
  }

  lemma RemembersKnown(s: State, r: State)
    requires (forall t :: DependsOnKnown(s, t)) && Remembers(s, r)
    ensures forall t :: DependsOnKnown(r, t)
  {
    forall t
      ensures DependsOnKnown(r, t)
    {
      assert DependsOnKnown(s, t);
    }
  }

  lemma SubmitKnown(s: State, sub: Submission)
    requires (forall t :: DependsOnKnown(s, t)) && forall d | d in sub.dependsOn :: d in s.submitted
    ensures forall t :: DependsOnKnown(Submit(s, sub), t)
  {
    if SomeFailed(s, sub.dependsOn) || Unmet(s, sub.dependsOn) == [] {
      assert Submit(s, sub).submitted == s.submitted[sub.id := NewTask(s, sub)];
      SubmitTables(s, sub);
      MoreKnown(s, Submit(s, sub), NewTask(s, sub));
    } else {
      MoreKnown(s, Known(s, sub).(waiting := s.waiting[sub.id := NewTask(s, sub)],
                                  dependents := Link(s.dependents, Unmet(s, sub.dependsOn), sub.id)), NewTask(s, sub));
    }
  }

  lemma MoreKnown(s: State, r: State, task: Task)
    requires (forall t :: DependsOnKnown(s, t)) && forall d | d in task.dependsOn :: d in s.submitted
    requires r.waiting == s.waiting || r.waiting == s.waiting[task.id := task]
    requires r.submitted == s.submitted[task.id := task]
    ensures forall t :: DependsOnKnown(r, t)
  {
    forall t
      ensures DependsOnKnown(r, t)
    {
      assert DependsOnKnown(s, t);
    }
  }

  lemma NewIdUnawaited(s: State, id: Id)
    requires (forall t :: DependsOnKnown(s, t)) && id !in s.submitted
    ensures forall t | t in s.waiting :: id !in s.waiting[t].dependsOn
  {
    forall t | t in s.waiting
      ensures id !in s.waiting[t].dependsOn
    {
      assert DependsOnKnown(s, t);
    }
  }

  lemma {:induction false} BackwardRunUndoomed(s: State, cfg: Config, events: seq<Event>)
    requires Healthy(s) && Undoomed(s) && (forall t :: DependsOnKnown(s, t))
    requires AllowedRun(s, cfg, events) && BackwardRun(s, cfg, events)
    ensures Undoomed(Run(s, cfg, events))
    decreases events
  {
    if events != [] {
      var e := events[0];
      if e.Submitting? {
        NewIdUnawaited(s, e.sub.id);
        SubmitKnown(s, e.sub);
      } else {
        StepRemembers(s, cfg, e);
        RemembersKnown(s, Step(s, cfg, e));
      }
      StepHealthy(s, cfg, e);
      StepUndoomed(s, cfg, e);
      BackwardRunUndoomed(Step(s, cfg, e), cfg, events[1..]);
    }
  }

  /** When submissions only name earlier ids, no waiting task ever depends on a failed one. */
  lemma EveryBackwardRunIsUndoomed(cfg: Config, events: seq<Event>, t: Id, d: Id)
    requires AllowedRun(INITIAL, cfg, events) && BackwardRun(INITIAL, cfg, events)
    requires var s := Run(INITIAL, cfg, events); t in s.waiting && d in s.waiting[t].dependsOn
    ensures d !in Run(INITIAL, cfg, events).failed
  {
    InitialHealthy();
    BackwardRunUndoomed(INITIAL, cfg, events);
    assert NotDoomed(Run(INITIAL, cfg, events), t);
  }

  lemma RunFirst(s: State, cfg: Config, e: Event, rest: seq<Event>)
    requires Allowed(s, e) && AllowedRun(Step(s, cfg, e), cfg, rest)
    ensures AllowedRun(s, cfg, [e] + rest) && Run(s, cfg, [e] + rest) == Run(Step(s, cfg, e), cfg, rest)
  {
    assert ([e] + rest)[1..] == rest;
  }

  lemma FailsAlone(s: State, id: Id)
    requires id !in s.dependents
    ensures OnDepFailed(s, id) == s.(dependents := Without(s.dependents, id))
  {
  }

  /** A run that ends with `b` waiting for `x` although `x` has failed: `x` was submitted after `b`. */
  lemma OrphanKeepsWaiting(f: Id, x: Id, b: Id)
    requires f != x && x != b && b != f
    ensures var cfg := Config(3, true, 2);
            var task := Task(f, 0, [], None, None, [], 0, 0, 0, [], 0, Some(0.0));
            var run := [Submitting(Submission(f, 0, [], false, None, None, [], 0, Some(0.0)))]
                       + ([Dispatching(Entry(0, 1, task), 1.0, Registry([], map[]))]
                       + ([Submitting(Submission(b, 0, [x], false, None, None, [], 0, None))]
                       + ([Submitting(Submission(x, 0, [f], false, None, None, [], 0, None))] + [])));
            var s := Run(INITIAL, cfg, run);
            AllowedRun(INITIAL, cfg, run) && b in s.waiting && x in s.waiting[b].dependsOn && x in s.failed
  {
    var cfg := Config(3, true, 2);
    var task := Task(f, 0, [], None, None, [], 0, 0, 0, [], 0, Some(0.0));
    var e1 := Submitting(Submission(f, 0, [], false, None, None, [], 0, Some(0.0)));
    var e2 := Dispatching(Entry(0, 1, task), 1.0, Registry([], map[]));
    var e3 := Submitting(Submission(b, 0, [x], false, None, None, [], 0, None));
    var e4 := Submitting(Submission(x, 0, [f], false, None, None, [], 0, None));
    var s1 := Step(INITIAL, cfg, e1);
    assert s1.queue == map[f := Entry(0, 1, task)];
    var s2 := Step(s1, cfg, e2);
    var taken := s1.(queue := s1.queue - {f});
    FailsAlone(taken.(failed := taken.failed + {f}), f);
    assert s2 == taken.(failed := taken.failed + {f}, dependents := Without(taken.dependents, f));
    assert s2.failed == {f} && s2.waiting == map[] && s2.submitted.Keys == {f} && s2.completed == {};
    var s3 := Step(s2, cfg, e3);
    assert Unmet(s2, [x]) == [x] && !SomeFailed(s2, [x]);
    assert s3.waiting.Keys == {b} && s3.failed == {f} && s3.submitted.Keys == {f, b};
    assert f in [f] && SomeFailed(s3, [f]);
    RunFirst(s3, cfg, e4, []);
    RunFirst(s2, cfg, e3, [e4] + []);
    RunFirst(s1, cfg, e2, [e3] + ([e4] + []));
    RunFirst(INITIAL, cfg, e1, [e2] + ([e3] + ([e4] + [])));
  }
}
