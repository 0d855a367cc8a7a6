// What every step of the scheduler keeps: each task is in exactly one place, and nothing is
// dispatchable before all of its dependencies have completed.

module SchedulerSafety {
  import opened Wrappers
  import opened PhaseSpecs
  import opened Tasks
  import opened Scheduler

  // ---- How the recursive updates change the tables ----

  ghost predicate Shrinks(a: map<Id, Task>, b: map<Id, Task>) {
    a.Keys <= b.Keys && forall k | k in a :: a[k] == b[k]
  }

  /** `r` differs from `s` only in tasks moved from waiting to failed, and in the index. */
  ghost predicate OnlyFails(s: State, r: State) {
    && Shrinks(r.waiting, s.waiting)
    && r == s.(waiting := r.waiting, dependents := r.dependents,
               failed := s.failed + (s.waiting.Keys - r.waiting.Keys))
  }

  lemma {:induction false} OnDepFailedMoves(s: State, id: Id)
    ensures OnlyFails(s, OnDepFailed(s, id))
    decreases s.waiting.Keys, 1, 0
  {
    CascadeMoves(s.(dependents := Without(s.dependents, id)), id, Listed(s.dependents, id));
  }

  lemma {:induction false} CascadeMoves(s: State, cause: Id, listed: seq<Id>)
    ensures OnlyFails(s, Cascade(s, cause, listed))
    decreases s.waiting.Keys, 0, |listed|
  {
    if listed != [] {
      var id := listed[0];
      if id !in s.waiting {
        CascadeMoves(s, cause, listed[1..]);
      } else {
        var failed := FailWaiting(s, cause, id);
        OnDepFailedMoves(failed, id);
        var next := OnDepFailed(failed, id);
        CascadeMoves(next, cause, listed[1..]);
        var r := Cascade(next, cause, listed[1..]);
        assert s.waiting.Keys - r.waiting.Keys
            == {id} + (failed.waiting.Keys - next.waiting.Keys) + (next.waiting.Keys - r.waiting.Keys);
        assert r.failed == s.failed + (s.waiting.Keys - r.waiting.Keys);
      }
    }
  }

  /** `r` differs from `s` only in tasks moved from waiting to the queue, and in the index. */
  ghost predicate OnlyReleases(s: State, r: State) {
    && Shrinks(r.waiting, s.waiting)
    && r == s.(waiting := r.waiting, dependents := r.dependents, queue := r.queue, lastNumber := r.lastNumber)
    && s.lastNumber <= r.lastNumber
    && forall k :: ReleasedOrSame(s, r, k)
  }

  ghost predicate ReleasedOrSame(s: State, r: State, k: Id) {
    if k in s.waiting && k !in r.waiting then
      && k in r.queue && r.queue[k].task == s.waiting[k] && AllCompleted(s, s.waiting[k].dependsOn)
      && r.queue[k].priority == s.waiting[k].priority && s.lastNumber < r.queue[k].number <= r.lastNumber
    else
      (k in r.queue <==> k in s.queue) && (k in r.queue && k in s.queue ==> r.queue[k] == s.queue[k])
  }

  /** Waiting tasks are stored under their own id and are not queued. */
  ghost predicate WaitingApart(s: State) {
    s.waiting.Keys !! s.queue.Keys && forall k | k in s.waiting :: s.waiting[k].id == k
  }

  ghost function ReleaseOne(s: State, completed: Id, id: Id): State
    requires id in s.waiting
  {
    var task := s.waiting[id];
    Enqueue(s, task.priority, task).(
      waiting := s.waiting - {id}, dependents := Unlink(s.dependents, task.dependsOn, id, Some(completed)))
  }

  lemma ReleaseOneMoves(s: State, completed: Id, id: Id)
    requires WaitingApart(s) && id in s.waiting && AllCompleted(s, s.waiting[id].dependsOn)
    ensures OnlyReleases(s, ReleaseOne(s, completed, id)) && WaitingApart(ReleaseOne(s, completed, id))
  {
  }

  lemma ReleasesCompose(s: State, m: State, r: State)
    requires WaitingApart(s) && OnlyReleases(s, m) && OnlyReleases(m, r)
    ensures OnlyReleases(s, r)
  {
    forall k
      ensures ReleasedOrSame(s, r, k)
    {
      assert ReleasedOrSame(s, m, k) && ReleasedOrSame(m, r, k);
    }
  }

  lemma {:induction false} ReleaseMoves(s: State, completed: Id, listed: seq<Id>)
    requires WaitingApart(s)
    ensures OnlyReleases(s, Release(s, completed, listed))
    decreases listed
  {
    if listed != [] {
      var id := listed[0];
      if id in s.waiting && AllCompleted(s, s.waiting[id].dependsOn) {
        var next := ReleaseOne(s, completed, id);
        ReleaseOneMoves(s, completed, id);
        ReleaseMoves(next, completed, listed[1..]);
        ReleasesCompose(s, next, Release(next, completed, listed[1..]));
      } else {
        ReleaseMoves(s, completed, listed[1..]);
      }
    }
  }

  lemma OnDepSatisfiedMoves(s: State, id: Id)
    requires WaitingApart(s)
    ensures OnlyReleases(s, OnDepSatisfied(s, id))
  {
    var popped := s.(dependents := Without(s.dependents, id));
    var r := OnDepSatisfied(s, id);
    ReleaseMoves(popped, id, Listed(s.dependents, id));
    forall k
      ensures ReleasedOrSame(s, r, k)
    {
      assert ReleasedOrSame(popped, r, k);
    }
  }

  // ---- Each submitted task is in exactly one place ----

  function One(holds: bool): nat {
    if holds then 1 else 0
  }

  /** In how many places the task is: waiting, queued, executing, finished, withdrawn or dead-lettered. */
  ghost function Places(s: State, id: Id): nat {
    One(id in s.waiting) + One(id in s.queue) + One(id in s.inFlight) + One(id in s.completed) + One(id in s.failed)
    + One(id in s.withdrawn) + One(id in s.dlq)
  }

  /** A stored task carries its own id and the dependencies recorded for it. */
  ghost predicate Recorded(s: State, id: Id, task: Task) {
    task.id == id && task.dependsOn == Deps(s, id)
  }

  /**
    * Everything the invariant says about one id: a submitted task is in exactly one place, stored
    * tasks match their records, and nothing is queued, active or completed before all its
    * dependencies are completed.
    */
  ghost predicate TaskSound(s: State, id: Id) {
    && Places(s, id) == One(id in s.submitted)
    && (id in s.waiting ==> Recorded(s, id, s.waiting[id]))
    && (id in s.queue ==> Recorded(s, id, s.queue[id].task))
    && (id in s.active ==> id in s.submitted && Recorded(s, id, s.active[id]))
    && (id in s.inFlight ==> id in s.active)
    && (id in s.taskDeps ==> id in s.submitted)
    && (id in s.queue || id in s.active || id in s.completed ==> AllCompleted(s, Deps(s, id)))
  }

  ghost predicate Sound(s: State) {
    forall id :: TaskSound(s, id)
  }

  /** Every table other than the waiting map and the index is the same for `id`. */
  ghost predicate SameFor(s: State, r: State, id: Id) {
    && (id in s.waiting <==> id in r.waiting) && (id in s.waiting && id in r.waiting ==> r.waiting[id] == s.waiting[id])
    && (id in s.queue <==> id in r.queue) && (id in s.queue && id in r.queue ==> r.queue[id] == s.queue[id])
    && (id in s.active <==> id in r.active) && (id in s.active && id in r.active ==> r.active[id] == s.active[id])
    && (id in s.inFlight <==> id in r.inFlight)
    && (id in s.completed <==> id in r.completed)
    && (id in s.failed <==> id in r.failed)
    && (id in s.withdrawn <==> id in r.withdrawn)
    && (id in s.dlq <==> id in r.dlq)
    && (id in s.submitted <==> id in r.submitted)
    && (id in s.taskDeps <==> id in r.taskDeps) && Deps(s, id) == Deps(r, id)
  }

  /** A step that touches one task only need be checked for that task. */
  lemma OneTaskChanged(s: State, r: State, id: Id)
    requires Sound(s) && s.completed <= r.completed
    requires forall k | k != id :: SameFor(s, r, k)
    requires TaskSound(r, id)
    ensures Sound(r)
  {
    forall k
      ensures TaskSound(r, k)
    {
      assert TaskSound(s, k);
      if k != id {
        assert SameFor(s, r, k);
      }
    }
  }

  lemma FailsKeepSound(s: State, r: State)
    requires Sound(s) && OnlyFails(s, r)
    ensures Sound(r)
  {
    forall k
      ensures TaskSound(r, k)
    {
      assert TaskSound(s, k);
      assert Deps(r, k) == Deps(s, k);
    }
  }

  lemma ReleasesKeepSound(s: State, r: State)
    requires Sound(s) && OnlyReleases(s, r)
    ensures Sound(r)
  {
    forall k
      ensures TaskSound(r, k)
    {
      assert TaskSound(s, k) && ReleasedOrSame(s, r, k);
      assert Deps(r, k) == Deps(s, k);
    }
  }

  lemma {:induction false} UnmetExact(s: State, deps: seq<Id>)
    ensures forall d :: d in Unmet(s, deps) <==> d in deps && d !in s.completed
    decreases deps
  {
    if deps != [] {
      UnmetExact(s, deps[1..]);
    }
  }

  /** A submission before it is placed: its task, dependencies and priority are on record. */
  ghost function Known(s: State, sub: Submission): State {
    var task := NewTask(s, sub);
    s.(priorities := s.priorities[sub.id := task.priority],
       taskDeps := if sub.dependsOn == [] then s.taskDeps else s.taskDeps[sub.id := sub.dependsOn],
       submitted := s.submitted[sub.id := task])
  }

  /** A new id is in no table, so its recorded dependencies are the submitted ones. */
  lemma NewId(s: State, sub: Submission)
    requires Sound(s) && sub.id !in s.submitted
    ensures Deps(Known(s, sub), sub.id) == sub.dependsOn
    ensures Places(s, sub.id) == 0 && sub.id !in s.active
    ensures forall k | k != sub.id :: SameFor(s, Known(s, sub), k)
  {
    assert TaskSound(s, sub.id);
  }

  lemma FailedAtOnceSound(s: State, sub: Submission)
    requires Sound(s) && sub.id !in s.submitted
    ensures Sound(Known(s, sub).(failed := s.failed + {sub.id}))
  {
    NewId(s, sub);
    var r := Known(s, sub).(failed := s.failed + {sub.id});
    forall k | k != sub.id
      ensures SameFor(s, r, k)
    {
      assert SameFor(s, Known(s, sub), k);
    }
    OneTaskChanged(s, r, sub.id);
  }

  lemma QueuedAtOnceSound(s: State, sub: Submission)
    requires Sound(s) && sub.id !in s.submitted && AllCompleted(s, sub.dependsOn)
    ensures Sound(Enqueue(Known(s, sub), sub.priority, NewTask(s, sub)))
  {
    NewId(s, sub);
    var r := Enqueue(Known(s, sub), sub.priority, NewTask(s, sub));
    forall k | k != sub.id
      ensures SameFor(s, r, k)
    {
      assert SameFor(s, Known(s, sub), k);
    }
    assert Deps(r, sub.id) == Deps(Known(s, sub), sub.id);
    OneTaskChanged(s, r, sub.id);
  }

  lemma HeldSound(s: State, sub: Submission, linked: map<Id, seq<Id>>)
    requires Sound(s) && sub.id !in s.submitted
    ensures Sound(Known(s, sub).(waiting := s.waiting[sub.id := NewTask(s, sub)], dependents := linked))
  {
    NewId(s, sub);
    var r := Known(s, sub).(waiting := s.waiting[sub.id := NewTask(s, sub)], dependents := linked);
    forall k | k != sub.id
      ensures SameFor(s, r, k)
    {
      assert SameFor(s, Known(s, sub), k);
    }
    assert Deps(r, sub.id) == Deps(Known(s, sub), sub.id);
    OneTaskChanged(s, r, sub.id);
  }

  lemma SubmitSound(s: State, sub: Submission)
    requires Sound(s) && sub.id !in s.submitted
    ensures Sound(Submit(s, sub))
  {
    UnmetExact(s, sub.dependsOn);
    if SomeFailed(s, sub.dependsOn) {
      FailedAtOnceSound(s, sub);
    } else if Unmet(s, sub.dependsOn) == [] {
      forall d | d in sub.dependsOn
        ensures d in s.completed
      {
        assert d !in Unmet(s, sub.dependsOn);
      }
      QueuedAtOnceSound(s, sub);
    } else {
      HeldSound(s, sub, Link(s.dependents, Unmet(s, sub.dependsOn), sub.id));
    }
  }

  lemma ExpireSound(s: State, id: Id)
    requires Sound(s.(failed := s.failed + {id}))
    ensures Sound(Expire(s, id))
  {
    OnDepFailedMoves(s.(failed := s.failed + {id}), id);
    FailsKeepSound(s.(failed := s.failed + {id}), Expire(s, id));
  }

  lemma DroppedSound(s: State, id: Id)
    requires Sound(s) && id in s.queue
    ensures Sound(s.(queue := s.queue - {id}, tombstones := s.tombstones - {id}, withdrawn := s.withdrawn + {id}))
  {
    assert TaskSound(s, id);
    OneTaskChanged(s, s.(queue := s.queue - {id}, tombstones := s.tombstones - {id}, withdrawn := s.withdrawn + {id}), id);
  }

  lemma DeadLetteredSound(s: State, id: Id)
    requires Sound(s) && id in s.queue
    ensures Sound(DeadLetter(s.(queue := s.queue - {id}), id))
  {
    assert TaskSound(s, id);
    OneTaskChanged(s, s.(queue := s.queue - {id}, dlq := s.dlq + [id]), id);
  }

  lemma RequeuedSound(s: State, task: Task)
    requires Sound(s) && task.id in s.queue && Recorded(s, task.id, task)
    ensures Sound(Enqueue(s.(queue := s.queue - {task.id}), task.priority, task))
  {
    assert TaskSound(s, task.id);
    OneTaskChanged(s, Enqueue(s.(queue := s.queue - {task.id}), task.priority, task), task.id);
  }

  lemma SentSound(s: State, task: Task, agent: Agent)
    requires Sound(s) && task.id in s.queue && Recorded(s, task.id, task)
    ensures Sound(Send(s.(queue := s.queue - {task.id}), task, agent))
  {
    assert TaskSound(s, task.id);
    OneTaskChanged(s, Send(s.(queue := s.queue - {task.id}), task, agent), task.id);
  }

  lemma ExpiredSound(s: State, id: Id)
    requires Sound(s) && id in s.queue
    ensures Sound(Expire(s.(queue := s.queue - {id}), id))
  {
    assert TaskSound(s, id);
    OneTaskChanged(s, s.(queue := s.queue - {id}, failed := s.failed + {id}), id);
    ExpireSound(s.(queue := s.queue - {id}), id);
  }

  lemma DispatchSound(s: State, cfg: Config, e: Entry, now: real, registry: Registry)
    requires Sound(s) && e.task.id in s.queue && s.queue[e.task.id] == e
    ensures Sound(Dispatch(s, cfg, e, now, registry))
  {
    var id := e.task.id;
    assert TaskSound(s, id);
    if id in s.tombstones {
      DroppedSound(s, id);
    } else if Expired(e.task, now) {
      ExpiredSound(s, id);
    } else {
      match Select(e.task, registry)
      case Unroutable => DeadLetteredSound(s, id);
      case Nobody =>
        var counted := e.task.(requeues := e.task.requeues + 1);
        if counted.requeues >= cfg.dlqMaxRetries {
          DeadLetteredSound(s, id);
        } else {
          RequeuedSound(s, counted);
        }
      case Chosen(agent) => SentSound(s, e.task, agent);
    }
  }

  /** The executing task leaves the agent and goes back to the queue. */
  lemma ReturnedSound(s: State, task: Task, priorities: map<Id, int>)
    requires Sound(s) && task.id in s.inFlight && Recorded(s, task.id, task)
    ensures Sound(Enqueue(s.(inFlight := s.inFlight - {task.id}), task.priority, task).(
                    priorities := priorities, active := s.active[task.id := task]))
  {
    assert TaskSound(s, task.id);
    OneTaskChanged(s, Enqueue(s.(inFlight := s.inFlight - {task.id}), task.priority, task).(
      priorities := priorities, active := s.active[task.id := task]), task.id);
  }

  lemma DiscardedSound(s: State, id: Id)
    requires Sound(s) && id in s.inFlight
    ensures Sound(s.(inFlight := s.inFlight - {id}, tombstones := s.tombstones - {id},
                     active := s.active - {id}, withdrawn := s.withdrawn + {id}))
  {
    assert TaskSound(s, id);
    OneTaskChanged(s, s.(inFlight := s.inFlight - {id}, tombstones := s.tombstones - {id},
                         active := s.active - {id}, withdrawn := s.withdrawn + {id}), id);
  }

  lemma CompletedSound(s: State, id: Id)
    requires Sound(s) && id in s.inFlight
    ensures Sound(s.(inFlight := s.inFlight - {id}, completed := s.completed + {id}, active := s.active - {id}))
  {
    assert TaskSound(s, id);
    OneTaskChanged(s, s.(inFlight := s.inFlight - {id}, completed := s.completed + {id}, active := s.active - {id}), id);
  }

  lemma FailedSound(s: State, id: Id)
    requires Sound(s) && id in s.inFlight
    ensures Sound(s.(inFlight := s.inFlight - {id}, active := s.active - {id}, failed := s.failed + {id}))
  {
    assert TaskSound(s, id);
    OneTaskChanged(s, s.(inFlight := s.inFlight - {id}, active := s.active - {id}, failed := s.failed + {id}), id);
  }

  lemma ResultSound(s: State, cfg: Config, id: Id, agent: Agent, outcome: Outcome)
    requires Sound(s) && id in s.inFlight
    ensures Sound(HandleResult(s, cfg, id, agent, outcome))
  {
    var landed := s.(inFlight := s.inFlight - {id});
    assert TaskSound(s, id);
    if id in s.tombstones {
      DiscardedSound(s, id);
    } else if outcome.Success? {
      var done := landed.(completed := s.completed + {id}, active := s.active - {id});
      CompletedSound(s, id);
      WaitingIsApart(done);
      OnDepSatisfiedMoves(done, id);
      ReleasesKeepSound(done, OnDepSatisfied(done, id));
    } else if outcome.WatchdogTimeout? && Escalates(cfg, s.active[id]) {
      var task := Escalated(s.active[id], agent);
      ReturnedSound(s, task, s.priorities[id := task.priority]);
    } else if s.active[id].retryCount < s.active[id].maxRetries {
      ReturnedSound(s, s.active[id].(retryCount := s.active[id].retryCount + 1), s.priorities);
    } else {
      var f := landed.(active := s.active - {id}, failed := s.failed + {id});
      FailedSound(s, id);
      OnDepFailedMoves(f, id);
      FailsKeepSound(f, OnDepFailed(f, id));
    }
  }

  lemma WaitingIsApart(s: State)
    requires Sound(s)
    ensures WaitingApart(s)
  {
    forall id | id in s.waiting
      ensures id !in s.queue && s.waiting[id].id == id
    {
      assert TaskSound(s, id);
    }
  }

  lemma UnheldSound(s: State, id: Id, unlinked: map<Id, seq<Id>>)
    requires Sound(s) && id in s.waiting
    ensures Sound(s.(waiting := s.waiting - {id}, dependents := unlinked, withdrawn := s.withdrawn + {id}))
  {
    assert TaskSound(s, id);
    OneTaskChanged(s, s.(waiting := s.waiting - {id}, dependents := unlinked, withdrawn := s.withdrawn + {id}), id);
  }

  lemma ReapedSound(s: State, id: Id, unlinked: map<Id, seq<Id>>)
    requires Sound(s) && id in s.waiting
    ensures Sound(s.(waiting := s.waiting - {id}, dependents := unlinked, failed := s.failed + {id}))
  {
    assert TaskSound(s, id);
    OneTaskChanged(s, s.(waiting := s.waiting - {id}, dependents := unlinked, failed := s.failed + {id}), id);
  }

  lemma TombstonedSound(s: State, tombstones: set<Id>)
    requires Sound(s)
    ensures Sound(s.(tombstones := tombstones))
  {
    forall k
      ensures TaskSound(s.(tombstones := tombstones), k)
    {
      assert TaskSound(s, k);
    }
  }

  lemma CancelSound(s: State, id: Id)
    requires Sound(s)
    ensures Sound(Cancel(s, id))
  {
    if id in s.active {
      TombstonedSound(s, s.tombstones + {id});
    } else if id in s.waiting {
      UnheldSound(s, id, Unlink(s.dependents, s.waiting[id].dependsOn, id, None));
    } else if id in s.queue {
      DroppedSound(s, id);
      TombstonedSound(s.(queue := s.queue - {id}, tombstones := s.tombstones - {id}, withdrawn := s.withdrawn + {id}),
                      s.tombstones);
    }
  }

  lemma {:induction false} ReapSound(s: State, ids: seq<Id>)
    requires Sound(s)
    ensures Sound(Reap(s, ids))
    decreases ids
  {
    if ids != [] {
      var id := ids[0];
      if id in s.waiting {
        var unlinked := Unlink(s.dependents, s.waiting[id].dependsOn, id, None);
        var taken := s.(waiting := s.waiting - {id}, dependents := unlinked);
        ReapedSound(s, id, unlinked);
        ExpireSound(taken, id);
        ReapSound(Expire(taken, id), ids[1..]);
      } else {
        ReapSound(s, ids[1..]);
      }
    }
  }

  lemma ReprioritiseSound(s: State, id: Id, priority: int)
    requires Sound(s)
    ensures Sound(Reprioritise(s, id, priority))
  {
    assert TaskSound(s, id);
    OneTaskChanged(s, Reprioritise(s, id, priority), id);
  }

  lemma StepSound(s: State, cfg: Config, e: Event)
    requires Sound(s) && Allowed(s, e)
    ensures Sound(Step(s, cfg, e))
  {
    match e
    case Submitting(sub) => SubmitSound(s, sub);
    case Dispatching(entry, now, registry) => DispatchSound(s, cfg, entry, now, registry);
    case Resulting(id, agent, outcome) => ResultSound(s, cfg, id, agent, outcome);
    case Cancelling(id) => CancelSound(s, id);
    case Reaping(_, ids) => ReapSound(s, ids);
    case Reprioritising(id, priority) => ReprioritiseSound(s, id, priority);
  }

  lemma {:induction false} RunSound(s: State, cfg: Config, events: seq<Event>)
    requires Sound(s) && AllowedRun(s, cfg, events)
    ensures Sound(Run(s, cfg, events))
    decreases events
  {
    if events != [] {
      StepSound(s, cfg, events[0]);
      RunSound(Step(s, cfg, events[0]), cfg, events[1..]);
    }
  }

  // ---- Transitive safety ----

  /** Each element of the path depends on the next. */
  ghost predicate Requires(s: State, path: seq<Id>) {
    path != [] && forall k | 0 <= k < |path| - 1 :: path[k + 1] in Deps(s, path[k])
  }

  lemma {:induction false} PathCompleted(s: State, path: seq<Id>)
    requires Sound(s) && Requires(s, path) && |path| >= 2
    requires path[0] in s.queue || path[0] in s.active || path[0] in s.completed
    ensures path[|path| - 1] in s.completed
    decreases |path|
  {
    assert path[0 + 1] in Deps(s, path[0]);
    assert TaskSound(s, path[0]);
    if |path| > 2 {
      var tail := path[1..];
      forall k | 0 <= k < |tail| - 1
        ensures tail[k + 1] in Deps(s, tail[k])
      {
        assert path[k + 1 + 1] in Deps(s, path[k + 1]);
      }
      PathCompleted(s, tail);
    }
  }

  /**
    * In every run from the initial state, whatever a queued, active or completed task depends on,
    * directly or through other tasks, has completed.
    */
  lemma EveryRunIsSafe(cfg: Config, events: seq<Event>, path: seq<Id>)
    requires AllowedRun(INITIAL, cfg, events)
    requires var s := Run(INITIAL, cfg, events);
             Requires(s, path) && |path| >= 2 &&
             (path[0] in s.queue || path[0] in s.active || path[0] in s.completed)
    ensures path[|path| - 1] in Run(INITIAL, cfg, events).completed
  {
    RunSound(INITIAL, cfg, events);
    PathCompleted(Run(INITIAL, cfg, events), path);
  }
}
