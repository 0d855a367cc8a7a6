// The orchestrator as it works: one object whose tables its loops update in place. Every operation
// is proved to take exactly the step that the transition system describes.

module Orchestrator {
  import opened Wrappers
  import opened Tasks
  import opened TaskQueue
  import opened Scheduler
  import opened SchedulerSafety

  /** Taking the entry off the queue first makes no difference to a dispatch turn. */
  lemma DispatchTaken(s: State, cfg: Config, e: Entry, now: real, registry: Registry)
    ensures Dispatch(s.(queue := s.queue - {e.task.id}), cfg, e, now, registry) == Dispatch(s, cfg, e, now, registry)
  {
    assert (s.queue - {e.task.id}) - {e.task.id} == s.queue - {e.task.id};
  }

  /** A task whose error is not escalated: retried while retries are left, otherwise failed for good. */
  ghost function RetriedOrFailed(s: State, id: Id): State
    requires id in s.active
  {
    var task := s.active[id];
    if task.retryCount < task.maxRetries then
      var again := task.(retryCount := task.retryCount + 1);
      Enqueue(s, again.priority, again).(active := s.active[id := again])
    else Scheduler.OnDepFailed(s.(active := s.active - {id}, failed := s.failed + {id}), id)
  }

  /** One step more urgent, for another agent than this one, and queued again. */
  ghost function Reassigned(s: State, task: Task, agent: Agent): State {
    var priority := if task.priority <= 0 then 0 else task.priority - 1;
    var again := task.(escalationCount := task.escalationCount + 1, excluded := task.excluded + [agent],
                       priority := priority);
    Enqueue(s, priority, again).(priorities := s.priorities[task.id := priority], active := s.active[task.id := again])
  }

  /** What an error does to an executing task: escalation where the watchdog asks for it, else retry or failure. */
  ghost function Errored(s: State, cfg: Config, id: Id, agent: Agent, outcome: Outcome): State
    requires id in s.active
  {
    var landed := s.(inFlight := s.inFlight - {id});
    if outcome.WatchdogTimeout? && Escalates(cfg, s.active[id]) then Reassigned(landed, s.active[id], agent)
    else RetriedOrFailed(landed, id)
  }

  lemma ErrorResult(s: State, cfg: Config, id: Id, agent: Agent, outcome: Outcome)
    requires id in s.active && s.active[id].id == id && id !in s.tombstones && !outcome.Success?
    ensures HandleResult(s, cfg, id, agent, outcome) == Errored(s, cfg, id, agent, outcome)
  {
    if outcome.WatchdogTimeout? && Escalates(cfg, s.active[id]) {
    } else if s.active[id].retryCount < s.active[id].maxRetries {
    } else {
    }
  }

  lemma FirstNext(
      agents: seq<AgentView>, i: nat, required: seq<string>, members: Option<set<Agent>>, excluded: seq<Agent>)
    requires i < |agents|
    ensures FirstEligible(agents[i..], required, members, excluded)
         == if Eligible(agents[i], required, members, excluded) then Some(agents[i].id)
            else FirstEligible(agents[i + 1..], required, members, excluded)
  {
    assert agents[i..][0] == agents[i] && agents[i..][1..] == agents[i + 1..];
  }

  class Orchestrator {
    const config: Config
    const taskQueue: AsyncPriorityTaskQueue

    var waitingTasks: map<Id, Task>
    var taskDependents: map<Id, seq<Id>>
    var completedTasks: set<Id>
    var failedTasks: set<Id>
    var activeTasks: map<Id, Task>
    var cancelledTaskIds: set<Id>
    var deadLetters: seq<Id>
    var taskSeq: nat
    var taskPriorities: map<Id, int>
    var taskDeps: map<Id, seq<Id>>

    ghost var inFlight: map<Id, Agent>
    ghost var submitted: map<Id, Task>
    ghost var sent: map<Id, nat>
    ghost var withdrawn: set<Id>

    ghost function Snapshot(): State
      reads this, taskQueue
    {
      State(waitingTasks, taskDependents, completedTasks, failedTasks, activeTasks, cancelledTaskIds, deadLetters,
            taskQueue.pending, taskSeq, taskQueue.lastUpdate, taskPriorities, taskDeps,
            inFlight, submitted, sent, withdrawn)
    }

    /** The queue's own invariant, and the numbers still to come are larger than those handed out. */
    ghost predicate QueueValid()
      reads this, taskQueue
    {
      taskQueue.Valid() && taskQueue.lastPut <= taskSeq
    }

    ghost predicate Valid()
      reads this, taskQueue
    {
      QueueValid() && Sound(Snapshot())
    }

    constructor (config: Config)
      ensures Valid() && Snapshot() == INITIAL && this.config == config && fresh(taskQueue)
    {
      this.config := config;
      waitingTasks, taskDependents, completedTasks, failedTasks := map[], map[], {}, {};
      activeTasks, cancelledTaskIds, deadLetters, taskSeq := map[], {}, [], 0;
      taskPriorities, taskDeps := map[], map[];
      inFlight, submitted, sent, withdrawn := map[], map[], map[], {};
      var queue := new AsyncPriorityTaskQueue();
      taskQueue := queue;
    }

    // ---- Elementary updates ----

    method Put(priority: int, task: Task)
      requires QueueValid() && task.id !in taskQueue.pending
      modifies `taskSeq, taskQueue
      ensures QueueValid() && Snapshot() == Enqueue(old(Snapshot()), priority, task)
    {
      taskSeq := taskSeq + 1;
      taskQueue.Put(Entry(priority, taskSeq, task));
    }

    method LinkTo(deps: seq<Id>, id: Id)
      modifies `taskDependents
      ensures taskDependents == Link(old(taskDependents), deps, id)
    {
      var i := 0;
      while i < |deps|
        invariant 0 <= i <= |deps|
        invariant Link(taskDependents, deps[i..], id) == Link(old(taskDependents), deps, id)
      {
        assert deps[i..][0] == deps[i] && deps[i..][1..] == deps[i + 1..];
        var listed := if deps[i] in taskDependents then taskDependents[deps[i]] else [];
        taskDependents := taskDependents[deps[i] := listed + [id]];
        i := i + 1;
      }
    }

    method UnlinkFrom(deps: seq<Id>, id: Id, skip: Option<Id>)
      modifies `taskDependents
      ensures taskDependents == Unlink(old(taskDependents), deps, id, skip)
    {
      var i := 0;
      while i < |deps|
        invariant 0 <= i <= |deps|
        invariant Unlink(taskDependents, deps[i..], id, skip) == Unlink(old(taskDependents), deps, id, skip)
      {
        assert deps[i..][0] == deps[i] && deps[i..][1..] == deps[i + 1..];
        if Some(deps[i]) != skip && deps[i] in taskDependents {
          taskDependents := taskDependents[deps[i] := RemoveFirst(taskDependents[deps[i]], id)];
        }
        i := i + 1;
      }
    }

    // ---- Releasing and failing dependents ----

    method OnDepSatisfied(id: Id)
      requires QueueValid() && WaitingApart(Snapshot())
      modifies this, taskQueue
      ensures QueueValid() && Snapshot() == Scheduler.OnDepSatisfied(old(Snapshot()), id)
    {
      var listed := Listed(taskDependents, id);
      taskDependents := Without(taskDependents, id);
      var i := 0;
      while i < |listed|
        invariant 0 <= i <= |listed|
        invariant QueueValid() && WaitingApart(Snapshot())
        invariant Release(Snapshot(), id, listed[i..]) == Scheduler.OnDepSatisfied(old(Snapshot()), id)
      {
        assert listed[i..][0] == listed[i] && listed[i..][1..] == listed[i + 1..];
        var waitingId := listed[i];
        i := i + 1;
        if waitingId in waitingTasks && forall d | d in waitingTasks[waitingId].dependsOn :: d in completedTasks {
          ReleaseWaiting(id, waitingId);
        }
      }
    }

    method ReleaseWaiting(cause: Id, id: Id)
      requires QueueValid() && WaitingApart(Snapshot()) && id in waitingTasks
      requires AllCompleted(Snapshot(), waitingTasks[id].dependsOn)
      modifies this, taskQueue
      ensures QueueValid() && Snapshot() == ReleaseOne(old(Snapshot()), cause, id) && WaitingApart(Snapshot())
    {
      ReleaseOneMoves(Snapshot(), cause, id);
      var task := waitingTasks[id];
      waitingTasks := waitingTasks - {id};
      Put(task.priority, task);
      UnlinkFrom(task.dependsOn, id, Some(cause));
    }

    method OnDepFailed(id: Id)
      modifies `waitingTasks, `failedTasks, `taskDependents
      ensures Snapshot() == Scheduler.OnDepFailed(old(Snapshot()), id)
      decreases waitingTasks.Keys
    {
      var listed := Listed(taskDependents, id);
      taskDependents := Without(taskDependents, id);
      var i := 0;
      while i < |listed|
        invariant 0 <= i <= |listed| && waitingTasks.Keys <= old(waitingTasks.Keys)
        invariant Cascade(Snapshot(), id, listed[i..]) == Scheduler.OnDepFailed(old(Snapshot()), id)
      {
        assert listed[i..][0] == listed[i] && listed[i..][1..] == listed[i + 1..];
        var waitingId := listed[i];
        i := i + 1;
        if waitingId in waitingTasks {
          FailOne(id, waitingId);
          OnDepFailed(waitingId);
        }
      }
    }

    method FailOne(cause: Id, id: Id)
      requires id in waitingTasks
      modifies `waitingTasks, `failedTasks, `taskDependents
      ensures Snapshot() == FailWaiting(old(Snapshot()), cause, id)
      ensures waitingTasks.Keys == old(waitingTasks.Keys) - {id}
    {
      var task := waitingTasks[id];
      waitingTasks := waitingTasks - {id};
      failedTasks := failedTasks + {id};
      UnlinkFrom(task.dependsOn, id, Some(cause));
    }

    method ExpireTask(id: Id)
      modifies `waitingTasks, `failedTasks, `taskDependents
      ensures Snapshot() == Expire(old(Snapshot()), id)
    {
      failedTasks := failedTasks + {id};
      OnDepFailed(id);
    }

    // ---- Submission ----

    /** The caller's priority, lowered to that of the most urgent dependency when inheriting. */
    method InheritedPriority(sub: Submission) returns (priority: int)
      ensures priority == EffectivePriority(Snapshot(), sub)
    {
      priority := sub.priority;
      if sub.inherit {
        var i := 0;
        while i < |sub.dependsOn|
          invariant 0 <= i <= |sub.dependsOn|
          invariant LeastPriority(taskPriorities, sub.dependsOn[i..], priority)
                 == LeastPriority(taskPriorities, sub.dependsOn, sub.priority)
        {
          assert sub.dependsOn[i..][0] == sub.dependsOn[i] && sub.dependsOn[i..][1..] == sub.dependsOn[i + 1..];
          var dep := sub.dependsOn[i];
          if dep in taskPriorities && taskPriorities[dep] < priority {
            priority := taskPriorities[dep];
          }
          i := i + 1;
        }
      }
    }

    method Record(sub: Submission, task: Task)
      requires task == NewTask(Snapshot(), sub)
      modifies `taskPriorities, `taskDeps, `submitted
      ensures Snapshot() == Known(old(Snapshot()), sub)
    {
      taskPriorities := taskPriorities[sub.id := task.priority];
      if sub.dependsOn != [] {
        taskDeps := taskDeps[sub.id := sub.dependsOn];
      }
      submitted := submitted[sub.id := task];
    }

    method SubmitTask(sub: Submission) returns (task: Task)
      requires Valid() && sub.id !in submitted
      modifies this, taskQueue
      ensures Valid() && Snapshot() == Step(old(Snapshot()), config, Submitting(sub))
      ensures task == Task(sub.id, task.priority, sub.dependsOn, sub.target, sub.group, sub.tags, sub.maxRetries, 0, 0,
                           [], 0, sub.expiresAt)
    {
      SubmitSound(Snapshot(), sub);
      NewId(Snapshot(), sub);
      var priority := InheritedPriority(sub);
      task := Task(sub.id, priority, sub.dependsOn, sub.target, sub.group, sub.tags, sub.maxRetries, 0, 0, [], 0,
                   sub.expiresAt);
      Place(sub, task);
    }

    method Place(sub: Submission, task: Task)
      requires QueueValid() && sub.id !in taskQueue.pending && task == NewTask(Snapshot(), sub)
      modifies this, taskQueue
      ensures QueueValid() && Snapshot() == Submit(old(Snapshot()), sub)
    {
      var unmet := UnmetOf(sub.dependsOn);
      var someFailed := exists d :: d in sub.dependsOn && d in failedTasks;
      Record(sub, task);
      if someFailed {
        failedTasks := failedTasks + {sub.id};
        assert Snapshot() == Known(old(Snapshot()), sub).(failed := old(failedTasks) + {sub.id});
      } else if unmet == [] {
        Put(sub.priority, task);
      } else {
        Hold(task, unmet);
      }
    }

    method Hold(task: Task, unmet: seq<Id>)
      modifies `waitingTasks, `taskDependents
      ensures Snapshot() == old(Snapshot()).(waiting := old(waitingTasks)[task.id := task],
                                             dependents := Link(old(taskDependents), unmet, task.id))
    {
      waitingTasks := waitingTasks[task.id := task];
      LinkTo(unmet, task.id);
    }

    method UnmetOf(deps: seq<Id>) returns (unmet: seq<Id>)
      ensures unmet == Unmet(Snapshot(), deps)
    {
      unmet := [];
      var i := 0;
      while i < |deps|
        invariant 0 <= i <= |deps|
        invariant unmet + Unmet(Snapshot(), deps[i..]) == Unmet(Snapshot(), deps)
      {
        assert deps[i..][0] == deps[i] && deps[i..][1..] == deps[i + 1..];
        if deps[i] !in completedTasks {
          unmet := unmet + [deps[i]];
        }
        i := i + 1;
      }
    }

    // ---- Dispatch ----

    method DispatchNext(now: real, registry: Registry) returns (taken: Option<Entry>)
      requires Valid()
      modifies this, taskQueue
      ensures Valid()
      ensures taken.None? ==> Snapshot() == old(Snapshot()) && old(taskQueue.pending) == map[]
      ensures taken.Some? ==> forall id | id in old(taskQueue.pending) ::
                                taken.value.priority <= old(taskQueue.pending)[id].priority
      ensures taken.Some? ==> Allowed(old(Snapshot()), Dispatching(taken.value, now, registry))
                              && Snapshot() == Step(old(Snapshot()), config, Dispatching(taken.value, now, registry))
    {
      taken := taskQueue.Get();
      if taken.None? {
        return;
      }
      var e := taken.value;
      DispatchSound(old(Snapshot()), config, e, now, registry);
      DispatchTaken(old(Snapshot()), config, e, now, registry);
      HandleEntry(e, now, registry);
    }

    method HandleEntry(e: Entry, now: real, registry: Registry)
      requires QueueValid() && e.task.id !in taskQueue.pending
      modifies this, taskQueue
      ensures QueueValid() && Snapshot() == Dispatch(old(Snapshot()), config, e, now, registry)
    {
      var task := e.task;
      assert taskQueue.pending - {task.id} == taskQueue.pending;
      if task.id in cancelledTaskIds {
        cancelledTaskIds := cancelledTaskIds - {task.id};
        withdrawn := withdrawn + {task.id};
      } else if task.expiresAt.Some? && now > task.expiresAt.value {
        ExpireTask(task.id);
      } else {
        Route(task, registry);
      }
    }

    method Route(task: Task, registry: Registry)
      requires QueueValid() && task.id !in taskQueue.pending
      modifies this, taskQueue
      ensures QueueValid()
      ensures Snapshot() == match Select(task, registry)
                            case Unroutable => DeadLetter(old(Snapshot()), task.id)
                            case Nobody => Requeue(old(Snapshot()), config, task)
                            case Chosen(agent) => Send(old(Snapshot()), task, agent)
    {
      var choice := ChooseAgent(task, registry);
      match choice
      case Unroutable => MoveToDeadLetters(task.id);
      case Nobody => PutBack(task);
      case Chosen(agent) => SendTo(task, agent);
    }

    method MoveToDeadLetters(id: Id)
      modifies `deadLetters
      ensures Snapshot() == DeadLetter(old(Snapshot()), id)
    {
      deadLetters := deadLetters + [id];
    }

    method PutBack(task: Task)
      requires QueueValid() && task.id !in taskQueue.pending
      modifies `deadLetters, `taskSeq, taskQueue
      ensures QueueValid() && Snapshot() == Requeue(old(Snapshot()), config, task)
      ensures if task.requeues + 1 < config.dlqMaxRetries then
                deadLetters == old(deadLetters)
                && taskQueue.pending == old(taskQueue.pending)[
                     task.id := Entry(task.priority, old(taskSeq) + 1, task.(requeues := task.requeues + 1))]
              else deadLetters == old(deadLetters) + [task.id] && taskQueue.pending == old(taskQueue.pending)
    {
      var counted := task.(requeues := task.requeues + 1);
      if counted.requeues >= config.dlqMaxRetries {
        MoveToDeadLetters(task.id);
      } else {
        Put(task.priority, counted);
      }
    }

    method SendTo(task: Task, agent: Agent)
      modifies `activeTasks, `inFlight, `sent
      ensures Snapshot() == Send(old(Snapshot()), task, agent)
    {
      activeTasks := activeTasks[task.id := task];
      inFlight := inFlight[task.id := agent];
      sent := sent[task.id := (if task.id in sent then sent[task.id] else 0) + 1];
    }

    method ChooseAgent(task: Task, registry: Registry) returns (choice: Choice)
      ensures choice == Select(task, registry)
    {
      if task.target.Some? {
        var target := Lookup(registry.agents, task.target.value);
        return if target.None? then Unroutable else if target.value.idle then Chosen(target.value.id) else Nobody;
      }
      var members: Option<set<Agent>> := None;
      if task.group.Some? {
        if task.group.value !in registry.groups {
          return Unroutable;
        }
        members := Some(registry.groups[task.group.value]);
      }
      var agent := FindIdleWorker(registry.agents, task.tags, members, task.excluded);
      choice := if agent.None? then Nobody else Chosen(agent.value);
    }

    /** The first agent, in registration order, that passes every filter. */
    method FindIdleWorker(agents: seq<AgentView>, required: seq<string>, members: Option<set<Agent>>, excluded: seq<Agent>)
      returns (found: Option<Agent>)
      ensures found == FirstEligible(agents, required, members, excluded)
    {
      var i := 0;
      while i < |agents|
        invariant 0 <= i <= |agents|
        invariant FirstEligible(agents[i..], required, members, excluded)
               == FirstEligible(agents, required, members, excluded)
      {
        FirstNext(agents, i, required, members, excluded);
        var agent := agents[i];
        i := i + 1;
        if !agent.idle || !agent.dispatchable || !agent.allowed {
          continue;
        }
        if !HasTags(agent, required) {
          continue;
        }
        if members.Some? && agent.id !in members.value {
          continue;
        }
        if agent.id in excluded {
          continue;
        }
        return Some(agent.id);
      }
      found := None;
    }

    // ---- Results ----

    /** Escalates a timed-out task, or reports that the caller must treat the timeout as a failure. */
    method HandleTaskTimeout(task: Task, agent: Agent) returns (escalated: bool)
      requires QueueValid() && task.id !in taskQueue.pending
      modifies this, taskQueue
      ensures QueueValid()
      ensures escalated <==> config.escalationEnabled && task.escalationCount < config.maxEscalations
      ensures !escalated ==> Snapshot() == old(Snapshot())
      ensures escalated ==> Snapshot() == Reassigned(old(Snapshot()), task, agent)
    {
      if !config.escalationEnabled || task.escalationCount >= config.maxEscalations {
        return false;
      }
      var newPriority := if task.priority - 1 < 0 then 0 else task.priority - 1;
      Reassign(task.(escalationCount := task.escalationCount + 1, excluded := task.excluded + [agent],
                     priority := newPriority));
      escalated := true;
    }

    /** Queues the task again as it now is, by its new priority. */
    method Reassign(again: Task)
      requires QueueValid() && again.id !in taskQueue.pending
      modifies `activeTasks, `taskPriorities, `taskSeq, taskQueue
      ensures QueueValid()
      ensures Snapshot() == Enqueue(old(Snapshot()), again.priority, again).(
                              priorities := old(taskPriorities)[again.id := again.priority],
                              active := old(activeTasks)[again.id := again])
    {
      Put(again.priority, again);
      taskPriorities := taskPriorities[again.id := again.priority];
      activeTasks := activeTasks[again.id := again];
    }

    method OnResult(id: Id, agent: Agent, outcome: Outcome)
      requires Valid() && id in inFlight && inFlight[id] == agent
      modifies this, taskQueue
      ensures Valid() && Snapshot() == Step(old(Snapshot()), config, Resulting(id, agent, outcome))
    {
      assert TaskSound(Snapshot(), id);
      ResultSound(Snapshot(), config, id, agent, outcome);
      WaitingIsApart(Snapshot());
      Land(id, agent, outcome);
    }

    method Land(id: Id, agent: Agent, outcome: Outcome)
      requires QueueValid() && WaitingApart(Snapshot()) && id in inFlight
      requires id in activeTasks && activeTasks[id].id == id && id !in taskQueue.pending
      modifies this, taskQueue
      ensures QueueValid() && Snapshot() == HandleResult(old(Snapshot()), config, id, agent, outcome)
    {
      if id in cancelledTaskIds {
        Discard(id);
      } else if outcome.Success? {
        Complete(id);
        OnDepSatisfied(id);
      } else {
        ErrorResult(Snapshot(), config, id, agent, outcome);
        OnError(id, agent, outcome);
      }
    }

    method Discard(id: Id)
      modifies `inFlight, `cancelledTaskIds, `activeTasks, `withdrawn
      ensures Snapshot() == old(Snapshot()).(
                inFlight := old(inFlight) - {id}, tombstones := old(cancelledTaskIds) - {id},
                active := old(activeTasks) - {id}, withdrawn := old(withdrawn) + {id})
    {
      inFlight := inFlight - {id};
      cancelledTaskIds := cancelledTaskIds - {id};
      activeTasks := activeTasks - {id};
      withdrawn := withdrawn + {id};
    }

    method Complete(id: Id)
      modifies `inFlight, `completedTasks, `activeTasks
      ensures Snapshot() == old(Snapshot()).(
                inFlight := old(inFlight) - {id}, completed := old(completedTasks) + {id},
                active := old(activeTasks) - {id})
    {
      inFlight := inFlight - {id};
      completedTasks := completedTasks + {id};
      activeTasks := activeTasks - {id};
    }

    method OnError(id: Id, agent: Agent, outcome: Outcome)
      requires QueueValid() && id in activeTasks && activeTasks[id].id == id && id !in taskQueue.pending
      requires !outcome.Success?
      modifies this, taskQueue
      ensures QueueValid() && Snapshot() == Errored(old(Snapshot()), config, id, agent, outcome)
    {
      inFlight := inFlight - {id};
      if outcome.WatchdogTimeout? {
        var escalated := HandleTaskTimeout(activeTasks[id], agent);
        if escalated {
          return;
        }
      }
      RetryOrFail(id);
    }

    method RetryOrFail(id: Id)
      requires QueueValid() && id in activeTasks && activeTasks[id].id == id && id !in taskQueue.pending
      modifies this, taskQueue
      ensures QueueValid() && Snapshot() == RetriedOrFailed(old(Snapshot()), id)
    {
      var task := activeTasks[id];
      if task.retryCount < task.maxRetries {
        Retry(task);
      } else {
        FailForGood(id);
      }
    }

    method Retry(task: Task)
      requires QueueValid() && task.id !in taskQueue.pending
      modifies `activeTasks, `taskSeq, taskQueue
      ensures QueueValid()
      ensures var again := task.(retryCount := task.retryCount + 1);
              Snapshot() == Enqueue(old(Snapshot()), again.priority, again).(active := old(activeTasks)[task.id := again])
    {
      var again := task.(retryCount := task.retryCount + 1);
      Put(again.priority, again);
      activeTasks := activeTasks[again.id := again];
    }

    method FailForGood(id: Id)
      modifies `activeTasks, `waitingTasks, `failedTasks, `taskDependents
      ensures Snapshot() == Scheduler.OnDepFailed(
                old(Snapshot()).(active := old(activeTasks) - {id}, failed := old(failedTasks) + {id}), id)
    {
      activeTasks := activeTasks - {id};
      failedTasks := failedTasks + {id};
      OnDepFailed(id);
    }

    // ---- Cancellation, expiry of waiting tasks, priority updates ----

    method CancelTask(id: Id) returns (found: bool)
      requires Valid()
      modifies this, taskQueue
      ensures Valid() && Snapshot() == Step(old(Snapshot()), config, Cancelling(id))
      ensures found <==> id in old(activeTasks) || id in old(waitingTasks)
                         || exists e :: e in old(taskQueue.heap) && e.task.id == id
      ensures if id in old(activeTasks) then
                && cancelledTaskIds == old(cancelledTaskIds) + {id}
                && waitingTasks == old(waitingTasks) && taskQueue.pending == old(taskQueue.pending)
              else
                && cancelledTaskIds == old(cancelledTaskIds)
                && waitingTasks == old(waitingTasks) - {id} && taskQueue.pending == old(taskQueue.pending) - {id}
                && (id in old(waitingTasks) || id in old(taskQueue.pending) ==> id in withdrawn)
    {
      CancelSound(Snapshot(), id);
      assert TaskSound(Snapshot(), id);
      found := Withdraw(id);
    }

    method Withdraw(id: Id) returns (found: bool)
      requires QueueValid() && (id in waitingTasks ==> id !in taskQueue.pending)
      modifies this, taskQueue
      ensures QueueValid() && Snapshot() == Cancel(old(Snapshot()), id)
      ensures found <==> id in old(activeTasks) || id in old(waitingTasks)
                         || exists e :: e in old(taskQueue.heap) && e.task.id == id
      ensures if id in old(activeTasks) then
                && cancelledTaskIds == old(cancelledTaskIds) + {id}
                && waitingTasks == old(waitingTasks) && taskQueue.pending == old(taskQueue.pending)
              else
                && cancelledTaskIds == old(cancelledTaskIds)
                && waitingTasks == old(waitingTasks) - {id} && taskQueue.pending == old(taskQueue.pending) - {id}
                && (id in old(waitingTasks) || id in old(taskQueue.pending) ==> id in withdrawn)
    {
      if id in activeTasks {
        cancelledTaskIds := cancelledTaskIds + {id};
        return true;
      }
      if id in waitingTasks {
        TakeWaiting(id);
        withdrawn := withdrawn + {id};
        return true;
      }
      found := RemoveQueued(id);
    }

    method TakeWaiting(id: Id)
      requires id in waitingTasks
      modifies `waitingTasks, `taskDependents
      ensures Snapshot() == old(Snapshot()).(
                waiting := old(waitingTasks) - {id},
                dependents := Unlink(old(taskDependents), old(waitingTasks)[id].dependsOn, id, None))
    {
      var task := waitingTasks[id];
      waitingTasks := waitingTasks - {id};
      UnlinkFrom(task.dependsOn, id, None);
    }

    method RemoveQueued(id: Id) returns (found: bool)
      requires QueueValid()
      modifies `withdrawn, taskQueue
      ensures QueueValid() && (found <==> exists e :: e in old(taskQueue.heap) && e.task.id == id)
      ensures Snapshot() == if id in old(taskQueue.pending)
                            then old(Snapshot()).(queue := old(taskQueue.pending) - {id}, withdrawn := old(withdrawn) + {id})
                            else old(Snapshot())
    {
      if id in taskQueue.pending {
        withdrawn := withdrawn + {id};
      } else {
        assert taskQueue.pending - {id} == taskQueue.pending;
      }
      found := taskQueue.Remove(id);
    }

    /** Expires every waiting task whose time is up. */
    method ReaperTick(now: real) returns (ghost expired: seq<Id>)
      requires Valid()
      modifies this
      ensures forall id :: id in expired <==>
                id in old(waitingTasks) && id !in cancelledTaskIds && old(waitingTasks)[id].expiresAt.Some?
                && now > old(waitingTasks)[id].expiresAt.value
      ensures Valid() && Allowed(old(Snapshot()), Reaping(now, expired))
      ensures Snapshot() == Step(old(Snapshot()), config, Reaping(now, expired))
    {
      var ids := ExpiredIds(now);
      expired := ids;
      ReapSound(Snapshot(), ids);
      ReapAll(ids);
    }

    method ReapAll(ids: seq<Id>)
      modifies `waitingTasks, `failedTasks, `taskDependents
      ensures Snapshot() == Reap(old(Snapshot()), ids)
    {
      var i := 0;
      while i < |ids|
        invariant 0 <= i <= |ids|
        invariant Reap(Snapshot(), ids[i..]) == Reap(old(Snapshot()), ids)
      {
        assert ids[i..][0] == ids[i] && ids[i..][1..] == ids[i + 1..];
        var id := ids[i];
        i := i + 1;
        if id in waitingTasks {
          TakeWaiting(id);
          ExpireTask(id);
        }
      }
    }

    method ExpiredIds(now: real) returns (ids: seq<Id>)
      ensures forall id :: id in ids <==> Reapable(Snapshot(), id, now)
    {
      ids := [];
      var rest := waitingTasks.Keys;
      while rest != {}
        invariant rest <= waitingTasks.Keys
        invariant forall id :: id in ids <==> Reapable(Snapshot(), id, now) && id !in rest
        decreases rest
      {
        var id :| id in rest;
        rest := rest - {id};
        if waitingTasks[id].expiresAt.Some? && now > waitingTasks[id].expiresAt.value && id !in cancelledTaskIds {
          ids := ids + [id];
        }
      }
    }

    method UpdateTaskPriority(id: Id, priority: int) returns (found: bool)
      requires Valid()
      modifies taskQueue
      ensures Valid() && Snapshot() == Step(old(Snapshot()), config, Reprioritising(id, priority))
      ensures found <==> id in old(taskQueue.pending)
    {
      ReprioritiseSound(Snapshot(), id, priority);
      found := taskQueue.UpdatePriority(id, priority);
    }
  }
}
