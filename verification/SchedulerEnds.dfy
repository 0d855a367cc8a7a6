// What is failed, withdrawn or dead-lettered stays so, and so nothing that depends on it ever runs.

module SchedulerEnds {
  import opened Wrappers
  import opened PhaseSpecs
  import opened Tasks
  import opened Scheduler
  import opened SchedulerSafety
  import opened SchedulerRuns

  /** The task has ended without success: failed, cancelled or given up. */
  ghost predicate Ended(s: State, id: Id) {
    id in s.failed || id in s.withdrawn || id in s.dlq
  }

  ghost predicate KeepsEnds(s: State, r: State) {
    s.failed <= r.failed && s.withdrawn <= r.withdrawn && forall id | id in s.dlq :: id in r.dlq
  }

  lemma FailureKeepsEnds(s: State, f: State, id: Id)
    requires s.failed <= f.failed && s.withdrawn <= f.withdrawn && f.dlq == s.dlq
    ensures KeepsEnds(s, OnDepFailed(f, id))
  {
    OnDepFailedMoves(f, id);
  }

  lemma SubmitKeepsEnds(s: State, sub: Submission)
    ensures KeepsEnds(s, Submit(s, sub))
  {
    if SomeFailed(s, sub.dependsOn) {
    } else if Unmet(s, sub.dependsOn) == [] {
    } else {
    }
  }

  lemma RequeueKeepsEnds(s: State, cfg: Config, task: Task)
    ensures KeepsEnds(s, Requeue(s, cfg, task))
  {
    if task.requeues + 1 >= cfg.dlqMaxRetries {
    } else {
    }
  }

  lemma RouteKeepsEnds(s: State, cfg: Config, task: Task, choice: Choice)
    ensures KeepsEnds(s, match choice
                         case Unroutable => DeadLetter(s, task.id)
                         case Nobody => Requeue(s, cfg, task)
                         case Chosen(agent) => Send(s, task, agent))
  {
    RequeueKeepsEnds(s, cfg, task);
  }

  lemma DispatchKeepsEnds(s: State, cfg: Config, e: Entry, now: real, registry: Registry)
    ensures KeepsEnds(s, Dispatch(s, cfg, e, now, registry))
  {
    var taken := s.(queue := s.queue - {e.task.id});
    if e.task.id in s.tombstones {
    } else if Expired(e.task, now) {
      FailureKeepsEnds(s, taken.(failed := s.failed + {e.task.id}), e.task.id);
    } else {
      RouteKeepsEnds(taken, cfg, e.task, Select(e.task, registry));
    }
  }

  lemma ResultKeepsEnds(s: State, cfg: Config, id: Id, agent: Agent, outcome: Outcome)
    requires Sound(s) && id in s.inFlight
    ensures KeepsEnds(s, HandleResult(s, cfg, id, agent, outcome))
  {
    if id !in s.tombstones && outcome.Success? {
      ResultSucceeds(s, cfg, id, agent);
      OnDepSatisfiedMoves(
        s.(inFlight := s.inFlight - {id}, active := s.active - {id}, completed := s.completed + {id}), id);
    } else if FinalFailure(s, cfg, id, outcome) {
      ResultFails(s, cfg, id, agent, outcome);
      FailureKeepsEnds(s, s.(inFlight := s.inFlight - {id}, active := s.active - {id}, failed := s.failed + {id}), id);
    } else if id in s.tombstones {
    } else {
      ReturnKeepsEnds(s, cfg, id, agent, outcome);
    }
  }

  /** A task that goes back to the queue ends nothing. */
  lemma ReturnKeepsEnds(s: State, cfg: Config, id: Id, agent: Agent, outcome: Outcome)
    requires id !in s.tombstones && !outcome.Success? && !FinalFailure(s, cfg, id, outcome)
    ensures KeepsEnds(s, HandleResult(s, cfg, id, agent, outcome))
  {
  }

  lemma CancelKeepsEnds(s: State, id: Id)
    ensures KeepsEnds(s, Cancel(s, id))
  {
    if id in s.active {
    } else if id in s.waiting {
      var unlinked := Unlink(s.dependents, s.waiting[id].dependsOn, id, None);
      assert Cancel(s, id)
          == s.(waiting := s.waiting - {id}, dependents := unlinked, withdrawn := s.withdrawn + {id});
    } else if id in s.queue {
    } else {
    }
  }

  lemma {:induction false} ReapKeepsEnds(s: State, ids: seq<Id>)
    ensures KeepsEnds(s, Reap(s, ids))
    decreases ids
  {
    if ids != [] {
      var id := ids[0];
      if id in s.waiting {
        var taken := s.(waiting := s.waiting - {id},
                        dependents := Unlink(s.dependents, s.waiting[id].dependsOn, id, None));
        FailureKeepsEnds(s, taken.(failed := taken.failed + {id}), id);
        ReapKeepsEnds(Expire(taken, id), ids[1..]);
      } else {
        ReapKeepsEnds(s, ids[1..]);
      }
    }
  }

  /** No step takes a failed, cancelled or dead-lettered task back. */
  lemma StepKeepsEnds(s: State, cfg: Config, e: Event)
    requires Sound(s) && Allowed(s, e)
    ensures KeepsEnds(s, Step(s, cfg, e))
  {
    match e
    case Submitting(sub) => SubmitKeepsEnds(s, sub);
    case Dispatching(entry, now, registry) => DispatchKeepsEnds(s, cfg, entry, now, registry);
    case Resulting(id, agent, outcome) => ResultKeepsEnds(s, cfg, id, agent, outcome);
    case Cancelling(id) => CancelKeepsEnds(s, id);
    case Reaping(_, ids) => ReapKeepsEnds(s, ids);
    case Reprioritising(_, _) =>
  }

  lemma {:induction false} RunKeepsEnds(s: State, cfg: Config, events: seq<Event>)
    requires Sound(s) && AllowedRun(s, cfg, events)
    ensures KeepsEnds(s, Run(s, cfg, events)) && Sound(Run(s, cfg, events))
    decreases events
  {
    if events != [] {
      StepKeepsEnds(s, cfg, events[0]);
      StepSound(s, cfg, events[0]);
      RunKeepsEnds(Step(s, cfg, events[0]), cfg, events[1..]);
    }
  }

  /**
    * Once a task has failed, was cancelled or was given up, then in every continuation of the run it
    * stays so, and whatever depends on it, however indirectly, is never queued, executing or completed.
    */
  lemma DependentsNeverRun(cfg: Config, before: seq<Event>, later: seq<Event>, path: seq<Id>)
    requires AllowedRun(INITIAL, cfg, before) && AllowedRun(Run(INITIAL, cfg, before), cfg, later)
    requires |path| >= 2 && Requires(Run(Run(INITIAL, cfg, before), cfg, later), path)
    requires Ended(Run(INITIAL, cfg, before), path[|path| - 1])
    ensures var r := Run(Run(INITIAL, cfg, before), cfg, later);
            Ended(r, path[|path| - 1]) && path[0] !in r.queue && path[0] !in r.active && path[0] !in r.completed
  {
    var s := Run(INITIAL, cfg, before);
    RunSound(INITIAL, cfg, before);
    RunKeepsEnds(s, cfg, later);
    var r := Run(s, cfg, later);
    var last := path[|path| - 1];
    assert TaskSound(r, last);
    assert last !in r.completed;
    if path[0] in r.queue || path[0] in r.active || path[0] in r.completed {
      PathCompleted(r, path);
    }
  }

  lemma {:induction false} RunInTwo(s: State, cfg: Config, before: seq<Event>, later: seq<Event>)
    ensures Run(s, cfg, before + later) == Run(Run(s, cfg, before), cfg, later)
    ensures AllowedRun(s, cfg, before + later) <==> AllowedRun(s, cfg, before) && AllowedRun(Run(s, cfg, before), cfg, later)
    decreases before
  {
    var all := before + later;
    if before == [] {
      assert all == later;
    } else {
      assert all[0] == before[0] && all[1..] == before[1..] + later;
      RunInTwo(Step(s, cfg, before[0]), cfg, before[1..], later);
    }
  }
}
