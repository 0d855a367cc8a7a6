// The dependency scheduler as a transition system: its state and what each step does to it.

module Scheduler {
  import opened Wrappers
  import opened Tasks

  datatype Config = Config(dlqMaxRetries: int, escalationEnabled: bool, maxEscalations: int)

  /**
    * The orchestrator's tables. The last four fields are history: which agent is executing which
    * task, every task ever submitted, how often each has been sent to an agent, and which ones were
    * withdrawn by a cancellation.
    */
  datatype State = State(
    waiting: map<Id, Task>,
    dependents: map<Id, seq<Id>>,
    completed: set<Id>,
    failed: set<Id>,
    active: map<Id, Task>,
    tombstones: set<Id>,
    dlq: seq<Id>,
    queue: map<Id, Entry>,
    lastNumber: nat,
    lastUpdate: int,
    priorities: map<Id, int>,
    taskDeps: map<Id, seq<Id>>,
    inFlight: map<Id, Agent>,
    submitted: map<Id, Task>,
    sent: map<Id, nat>,
    withdrawn: set<Id>)

  const INITIAL :=
    State(map[], map[], {}, {}, map[], {}, [], map[], 0, 0, map[], map[], map[], map[], map[], {})

  /** The dependencies of a task as recorded at submission; tasks without any are not recorded. */
  function Deps(s: State, id: Id): seq<Id> {
    if id in s.taskDeps then s.taskDeps[id] else []
  }

  // ---- The agents a dispatch can see ----

  /** `allowed` is the circuit breaker's answer; `dispatchable` says the role may receive tasks. */
  datatype AgentView = AgentView(id: Agent, idle: bool, dispatchable: bool, allowed: bool, tags: seq<string>)

  datatype Registry = Registry(agents: seq<AgentView>, groups: map<string, set<Agent>>)

  predicate HasTags(agent: AgentView, required: seq<string>) {
    forall t | t in required :: t in agent.tags
  }

  predicate Eligible(agent: AgentView, required: seq<string>, members: Option<set<Agent>>, excluded: seq<Agent>) {
    && agent.idle && agent.dispatchable && agent.allowed
    && HasTags(agent, required)
    && (members.Some? ==> agent.id in members.value)
    && agent.id !in excluded
  }

  function FirstEligible(agents: seq<AgentView>, required: seq<string>, members: Option<set<Agent>>, excluded: seq<Agent>): (r: Option<Agent>)
    ensures r.None? ==> forall a | a in agents :: !Eligible(a, required, members, excluded)
    ensures r.Some? ==> exists i: nat :: FirstAt(agents, i, r.value, required, members, excluded)
  {
    if agents == [] then None
    else if Eligible(agents[0], required, members, excluded) then
      assert FirstAt(agents, 0, agents[0].id, required, members, excluded);
      Some(agents[0].id)
    else
      var rest := FirstEligible(agents[1..], required, members, excluded);
      assert rest.Some? ==> exists i: nat :: FirstAt(agents, i, rest.value, required, members, excluded) by {
        if rest.Some? {
          FirstInTail(agents, rest.value, required, members, excluded);
        }
      }
      rest
  }

  /** The agent at position `i` is eligible and no agent before it is. */
  predicate FirstAt(agents: seq<AgentView>, i: nat, id: Agent, required: seq<string>, members: Option<set<Agent>>, excluded: seq<Agent>)
  {
    && i < |agents| && agents[i].id == id && Eligible(agents[i], required, members, excluded)
    && forall j | 0 <= j < i :: !Eligible(agents[j], required, members, excluded)
  }

  lemma FirstInTail(
      agents: seq<AgentView>, id: Agent, required: seq<string>, members: Option<set<Agent>>, excluded: seq<Agent>)
    requires agents != [] && !Eligible(agents[0], required, members, excluded)
    requires exists i: nat :: FirstAt(agents[1..], i, id, required, members, excluded)
    ensures exists i: nat :: FirstAt(agents, i, id, required, members, excluded)
  {
    var i: nat :| FirstAt(agents[1..], i, id, required, members, excluded);
    forall j | 0 <= j < i + 1
      ensures !Eligible(agents[j], required, members, excluded)
    {
      assert j > 0 ==> agents[1..][j - 1] == agents[j];
    }
    assert FirstAt(agents, i + 1, id, required, members, excluded);
  }

  function Lookup(agents: seq<AgentView>, id: Agent): (r: Option<AgentView>)
    ensures r.Some? ==> r.value in agents && r.value.id == id
    ensures r.None? ==> forall a | a in agents :: a.id != id
  {
    if agents == [] then None
    else if agents[0].id == id then Some(agents[0])
    else Lookup(agents[1..], id)
  }

  datatype Choice = Unroutable | Nobody | Chosen(agent: Agent)

  /** A named target wins over filtering; unknown targets and groups cannot be routed at all. */
  function Select(task: Task, registry: Registry): Choice {
    if task.target.Some? then
      match Lookup(registry.agents, task.target.value)
      case None => Unroutable
      case Some(view) => if view.idle then Chosen(view.id) else Nobody
    else if task.group.Some? && task.group.value !in registry.groups then Unroutable
    else
      var members := if task.group.Some? then Some(registry.groups[task.group.value]) else None;
      match FirstEligible(registry.agents, task.tags, members, task.excluded)
      case None => Nobody
      case Some(agent) => Chosen(agent)
  }

  /** An agent that an untargeted task may be given to. */
  ghost predicate Fits(agent: AgentView, task: Task, groups: map<string, set<Agent>>) {
    && agent.idle && agent.dispatchable && agent.allowed
    && (forall t | t in task.tags :: t in agent.tags)
    && (task.group.Some? ==> task.group.value in groups && agent.id in groups[task.group.value])
    && agent.id !in task.excluded
  }

  /** The first agent registered under the id. */
  ghost predicate NamedAt(agents: seq<AgentView>, i: nat, id: Agent) {
    i < |agents| && agents[i].id == id && forall j | 0 <= j < i :: agents[j].id != id
  }

  lemma {:induction false} LookupMeans(agents: seq<AgentView>, id: Agent)
    ensures Lookup(agents, id).Some? ==> exists i: nat :: NamedAt(agents, i, id) && agents[i] == Lookup(agents, id).value
  {
    if agents != [] {
      if agents[0].id == id {
        assert NamedAt(agents, 0, id);
      } else if Lookup(agents[1..], id).Some? {
        LookupMeans(agents[1..], id);
        var i: nat :| NamedAt(agents[1..], i, id) && agents[1..][i] == Lookup(agents[1..], id).value;
        forall j | 0 <= j < i + 1
          ensures agents[j].id != id
        {
          assert j > 0 ==> agents[1..][j - 1] == agents[j];
        }
        assert NamedAt(agents, i + 1, id);
      }
    }
  }

  /**
    * Whom a task is given to: a named target only while it is idle, otherwise the first registered
    * agent that fits and is not excluded; only an unknown target or group is beyond routing. The three
    * answers exclude each other, so each is given exactly when it is described.
    */
  lemma SelectMeans(task: Task, registry: Registry)
    ensures var routable := task.group.None? || task.group.value in registry.groups;
            match Select(task, registry)
            case Unroutable =>
              if task.target.Some? then forall a | a in registry.agents :: a.id != task.target.value else !routable
            case Nobody =>
              if task.target.Some? then
                exists i: nat :: NamedAt(registry.agents, i, task.target.value) && !registry.agents[i].idle
              else routable && forall a | a in registry.agents :: !Fits(a, task, registry.groups)
            case Chosen(agent) =>
              if task.target.Some? then
                agent == task.target.value
                && exists i: nat :: NamedAt(registry.agents, i, agent) && registry.agents[i].idle
              else
                routable
                && exists i :: 0 <= i < |registry.agents| && registry.agents[i].id == agent
                     && Fits(registry.agents[i], task, registry.groups)
                     && forall j | 0 <= j < i :: !Fits(registry.agents[j], task, registry.groups)
  {
    if task.target.Some? {
      LookupMeans(registry.agents, task.target.value);
    } else if task.group.Some? && task.group.value !in registry.groups {
    } else {
      var members := if task.group.Some? then Some(registry.groups[task.group.value]) else None;
      var found := FirstEligible(registry.agents, task.tags, members, task.excluded);
      assert forall a :: Eligible(a, task.tags, members, task.excluded) <==> Fits(a, task, registry.groups);
      if found.Some? {
        var i: nat :| FirstAt(registry.agents, i, found.value, task.tags, members, task.excluded);
        assert Fits(registry.agents[i], task, registry.groups);
      }
    }
  }

  // ---- The reverse index ----

  function RemoveFirst(s: seq<Id>, x: Id): (r: seq<Id>)
    ensures multiset(r) == multiset(s) - multiset{x}
  {
    if s == [] then []
    else
      assert s == [s[0]] + s[1..];
      if s[0] == x then s[1..] else [s[0]] + RemoveFirst(s[1..], x)
  }

  /** Registers `id` under each listed dependency, once per occurrence. */
  function Link(dependents: map<Id, seq<Id>>, deps: seq<Id>, id: Id): map<Id, seq<Id>>
    decreases deps
  {
    if deps == [] then dependents
    else
      var d := deps[0];
      var listed := if d in dependents then dependents[d] else [];
      Link(dependents[d := listed + [id]], deps[1..], id)
  }

  /** Removes one occurrence of `id` for each listed dependency that is still indexed, except `skip`. */
  function Unlink(dependents: map<Id, seq<Id>>, deps: seq<Id>, id: Id, skip: Option<Id>): map<Id, seq<Id>>
    decreases deps
  {
    if deps == [] then dependents
    else
      var d := deps[0];
      var rest := if Some(d) != skip && d in dependents
                  then dependents[d := RemoveFirst(dependents[d], id)] else dependents;
      Unlink(rest, deps[1..], id, skip)
  }

  function Without(dependents: map<Id, seq<Id>>, id: Id): map<Id, seq<Id>> {
    dependents - {id}
  }

  function Listed(dependents: map<Id, seq<Id>>, id: Id): seq<Id> {
    if id in dependents then dependents[id] else []
  }

  // ---- Elementary updates ----

  function Enqueue(s: State, priority: int, task: Task): State {
    s.(lastNumber := s.lastNumber + 1, queue := s.queue[task.id := Entry(priority, s.lastNumber + 1, task)])
  }

  predicate AllCompleted(s: State, deps: seq<Id>) {
    forall d | d in deps :: d in s.completed
  }

  // ---- Releasing and failing dependents ----

  function Release(s: State, completed: Id, listed: seq<Id>): State
    decreases listed
  {
    if listed == [] then s
    else
      var id := listed[0];
      var next :=
        if id in s.waiting && AllCompleted(s, s.waiting[id].dependsOn) then
          var task := s.waiting[id];
          Enqueue(s, task.priority, task).(
            waiting := s.waiting - {id},
            dependents := Unlink(s.dependents, task.dependsOn, id, Some(completed)))
        else s;
      Release(next, completed, listed[1..])
  }

  /** Called when a task succeeds: releases the waiting tasks for which it was the last dependency. */
  function OnDepSatisfied(s: State, id: Id): State {
    Release(s.(dependents := Without(s.dependents, id)), id, Listed(s.dependents, id))
  }

  /** Called when a task has finally failed: fails everything waiting on it, recursively. */
  function OnDepFailed(s: State, id: Id): (r: State)
    ensures r.waiting.Keys <= s.waiting.Keys
    decreases s.waiting.Keys, 1, 0
  {
    Cascade(s.(dependents := Without(s.dependents, id)), id, Listed(s.dependents, id))
  }

  function Cascade(s: State, cause: Id, listed: seq<Id>): (r: State)
    ensures r.waiting.Keys <= s.waiting.Keys
    decreases s.waiting.Keys, 0, |listed|
  {
    if listed == [] then s
    else
      var id := listed[0];
      if id !in s.waiting then Cascade(s, cause, listed[1..])
      else
        Cascade(OnDepFailed(FailWaiting(s, cause, id), id), cause, listed[1..])
  }

  function FailWaiting(s: State, cause: Id, id: Id): (r: State)
    requires id in s.waiting
    ensures r.waiting.Keys == s.waiting.Keys - {id}
  {
    s.(waiting := s.waiting - {id},
       failed := s.failed + {id},
       dependents := Unlink(s.dependents, s.waiting[id].dependsOn, id, Some(cause)))
  }

  // ---- The steps ----

  datatype Submission = Submission(
    id: Id, priority: int, dependsOn: seq<Id>, inherit: bool, target: Option<Agent>, group: Option<string>,
    tags: seq<string>, maxRetries: int, expiresAt: Option<real>)

  /** The least of the bound and the known priorities of the dependencies. */
  function LeastPriority(priorities: map<Id, int>, deps: seq<Id>, bound: int): (p: int)
    ensures p <= bound && forall d | d in deps && d in priorities :: p <= priorities[d]
    ensures p == bound || exists d :: d in deps && d in priorities && priorities[d] == p
    decreases deps
  {
    if deps == [] then bound
    else
      var p := if deps[0] in priorities && priorities[deps[0]] < bound then priorities[deps[0]] else bound;
      LeastPriority(priorities, deps[1..], p)
  }

  function EffectivePriority(s: State, sub: Submission): int {
    if sub.inherit then LeastPriority(s.priorities, sub.dependsOn, sub.priority) else sub.priority
  }

  function NewTask(s: State, sub: Submission): Task {
    Task(sub.id, EffectivePriority(s, sub), sub.dependsOn, sub.target, sub.group, sub.tags,
         sub.maxRetries, 0, 0, [], 0, sub.expiresAt)
  }

  function Unmet(s: State, deps: seq<Id>): seq<Id> {
    if deps == [] then []
    else (if deps[0] in s.completed then [] else [deps[0]]) + Unmet(s, deps[1..])
  }

  predicate SomeFailed(s: State, deps: seq<Id>) {
    exists d :: d in deps && d in s.failed
  }

  /** The queue is keyed by the caller's priority; the task itself carries the inherited one. */
  function Submit(s: State, sub: Submission): State {
    var task := NewTask(s, sub);
    var known := s.(
      priorities := s.priorities[sub.id := task.priority],
      taskDeps := if sub.dependsOn == [] then s.taskDeps else s.taskDeps[sub.id := sub.dependsOn],
      submitted := s.submitted[sub.id := task]);
    if SomeFailed(s, sub.dependsOn) then known.(failed := s.failed + {sub.id})
    else if Unmet(s, sub.dependsOn) == [] then Enqueue(known, sub.priority, task)
    else known.(waiting := s.waiting[sub.id := task],
                dependents := Link(s.dependents, Unmet(s, sub.dependsOn), sub.id))
  }

  predicate Expired(task: Task, now: real) {
    task.expiresAt.Some? && now > task.expiresAt.value
  }

  function Expire(s: State, id: Id): State {
    OnDepFailed(s.(failed := s.failed + {id}), id)
  }

  function DeadLetter(s: State, id: Id): State {
    s.(dlq := s.dlq + [id])
  }

  function SentCount(s: State, id: Id): nat {
    if id in s.sent then s.sent[id] else 0
  }

  function Send(s: State, task: Task, agent: Agent): State {
    s.(active := s.active[task.id := task],
       inFlight := s.inFlight[task.id := agent],
       sent := s.sent[task.id := SentCount(s, task.id) + 1])
  }

  function Requeue(s: State, cfg: Config, task: Task): State {
    var counted := task.(requeues := task.requeues + 1);
    if counted.requeues >= cfg.dlqMaxRetries then DeadLetter(s, task.id)
    else Enqueue(s, task.priority, counted)
  }

  /** One turn of the dispatch loop, for the entry the queue handed out. */
  function Dispatch(s: State, cfg: Config, e: Entry, now: real, registry: Registry): State {
    var task := e.task;
    var taken := s.(queue := s.queue - {task.id});
    if task.id in s.tombstones then
      taken.(tombstones := s.tombstones - {task.id}, withdrawn := s.withdrawn + {task.id})
    else if Expired(task, now) then Expire(taken, task.id)
    else match Select(task, registry)
      case Unroutable => DeadLetter(taken, task.id)
      case Nobody => Requeue(taken, cfg, task)
      case Chosen(agent) => Send(taken, task, agent)
  }

  datatype Outcome = Success | Failure | WatchdogTimeout

  predicate Escalates(cfg: Config, task: Task) {
    cfg.escalationEnabled && task.escalationCount < cfg.maxEscalations
  }

  function Escalated(task: Task, agent: Agent): Task {
    task.(escalationCount := task.escalationCount + 1,
          excluded := task.excluded + [agent],
          priority := if task.priority - 1 < 0 then 0 else task.priority - 1)
  }

  /** A final result, a retry or an escalation. A tombstoned result is dropped. */
  function HandleResult(s: State, cfg: Config, id: Id, agent: Agent, outcome: Outcome): State {
    var landed := s.(inFlight := s.inFlight - {id});
    if id in s.tombstones then
      landed.(tombstones := s.tombstones - {id}, active := s.active - {id}, withdrawn := s.withdrawn + {id})
    else if outcome.Success? then
      OnDepSatisfied(landed.(completed := s.completed + {id}, active := s.active - {id}), id)
    else if outcome.WatchdogTimeout? && id in s.active && Escalates(cfg, s.active[id]) then
      var task := Escalated(s.active[id], agent);
      Enqueue(landed, task.priority, task).(
        priorities := s.priorities[id := task.priority], active := s.active[id := task])
    else if id in s.active && s.active[id].retryCount < s.active[id].maxRetries then
      var task := s.active[id].(retryCount := s.active[id].retryCount + 1);
      Enqueue(landed, task.priority, task).(active := s.active[id := task])
    else
      OnDepFailed(landed.(active := s.active - {id}, failed := s.failed + {id}), id)
  }

  /** A running task is tombstoned; a waiting or queued one is removed without failing its dependents. */
  function Cancel(s: State, id: Id): State {
    if id in s.active then s.(tombstones := s.tombstones + {id})
    else if id in s.waiting then
      s.(waiting := s.waiting - {id},
         dependents := Unlink(s.dependents, s.waiting[id].dependsOn, id, None),
         withdrawn := s.withdrawn + {id})
    else if id in s.queue then s.(queue := s.queue - {id}, withdrawn := s.withdrawn + {id})
    else s
  }

  predicate Reapable(s: State, id: Id, now: real) {
    id in s.waiting && Expired(s.waiting[id], now) && id !in s.tombstones
  }

  function Reap(s: State, ids: seq<Id>): State
    decreases ids
  {
    if ids == [] then s
    else
      var id := ids[0];
      var next :=
        if id !in s.waiting then s
        else Expire(s.(waiting := s.waiting - {id},
                       dependents := Unlink(s.dependents, s.waiting[id].dependsOn, id, None)), id);
      Reap(next, ids[1..])
  }

  function Reprioritise(s: State, id: Id, priority: int): State {
    if id !in s.queue then s
    else
      var task := s.queue[id].task.(priority := priority);
      s.(lastUpdate := s.lastUpdate - 1, queue := s.queue[id := Entry(priority, s.lastUpdate - 1, task)])
  }

  // ---- Runs ----

  datatype Event =
    | Submitting(sub: Submission)
    | Dispatching(entry: Entry, now: real, registry: Registry)
    | Resulting(id: Id, agent: Agent, outcome: Outcome)
    | Cancelling(id: Id)
    | Reaping(at: real, ids: seq<Id>)
    | Reprioritising(id: Id, priority: int)

  /**
    * The environment's side: submitted ids are new; the queue hands out its least entry; a result
    * comes only from the agent the task was sent to, once per dispatch; the reaper lists each
    * expired waiting task.
    */
  ghost predicate Allowed(s: State, e: Event) {
    match e
    case Submitting(sub) => sub.id !in s.submitted
    case Dispatching(entry, _, _) => IsLeast(s.queue, entry)
    case Resulting(id, agent, _) => id in s.inFlight && s.inFlight[id] == agent
    case Cancelling(_) => true
    case Reaping(now, ids) => forall id :: id in ids <==> Reapable(s, id, now)
    case Reprioritising(_, _) => true
  }

  function Step(s: State, cfg: Config, e: Event): State {
    match e
    case Submitting(sub) => Submit(s, sub)
    case Dispatching(entry, now, registry) => Dispatch(s, cfg, entry, now, registry)
    case Resulting(id, agent, outcome) => HandleResult(s, cfg, id, agent, outcome)
    case Cancelling(id) => Cancel(s, id)
    case Reaping(_, ids) => Reap(s, ids)
    case Reprioritising(id, priority) => Reprioritise(s, id, priority)
  }

  function Run(s: State, cfg: Config, events: seq<Event>): State
    decreases events
  {
    if events == [] then s else Run(Step(s, cfg, events[0]), cfg, events[1..])
  }

  ghost predicate AllowedRun(s: State, cfg: Config, events: seq<Event>)
    decreases events
  {
    events == [] || (Allowed(s, events[0]) && AllowedRun(Step(s, cfg, events[0]), cfg, events[1..]))
  }
}
