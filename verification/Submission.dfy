// From a workflow of phases to a run of the scheduler: expansion, DAG check and submission under
// fresh global ids, and what the block structure guarantees about every later run.

module Submission {
  import opened Wrappers
  import opened PhaseSpecs
  import opened PhaseStrategies
  import opened PhaseExecutor
  import opened BlockPlan
  import opened BlockNames
  import opened PostedMeaning
  import opened BlockNaming
  import opened BlockMeaning
  import opened BlockTheorems
  import opened BlockReading
  import opened BlockCapture
  import opened TaskNaming
  import Dag
  import Tasks
  import Scheduler
  import SchedulerSafety
  import SchedulerRuns
  import SchedulerEnds
  import O = Orchestrator

  /** What a task spec says besides its id and dependencies. */
  datatype Settings = Settings(
    priority: int, inherit: bool, target: Option<Tasks.Agent>, group: Option<string>, tags: seq<string>,
    maxRetries: int, expiresAt: Option<real>)

  /** Local id strings mapped to the global ids under which the tasks were submitted. */
  type GlobalIds = map<string, Tasks.Id>

  ghost predicate Injective(global: GlobalIds) {
    forall a, b | a in global && b in global && global[a] == global[b] :: a == b
  }

  function Globals(global: GlobalIds, deps: seq<string>): (ids: seq<Tasks.Id>)
    requires forall d | d in deps :: d in global
    ensures |ids| == |deps| && forall k | 0 <= k < |deps| :: ids[k] == global[deps[k]]
  {
    seq(|deps|, k requires 0 <= k < |deps| => global[deps[k]])
  }

  function SubmissionOf(spec: LocalSpec, global: GlobalIds, id: Tasks.Id, s: Settings): Scheduler.Submission
    requires forall d | d in spec.dependsOn :: d in global
  {
    Scheduler.Submission(id, s.priority, Globals(global, spec.dependsOn), s.inherit, s.target, s.group, s.tags,
                         s.maxRetries, s.expiresAt)
  }

  /** The submission is made with the task's own priority, target, group, tags, retries and expiry. */
  ghost predicate Carries(sub: Scheduler.Submission, s: Settings) {
    && sub.priority == s.priority && sub.inherit == s.inherit && sub.target == s.target && sub.group == s.group
    && sub.tags == s.tags && sub.maxRetries == s.maxRetries && sub.expiresAt == s.expiresAt
  }

  /** The events submit the task under its global id, with its settings. */
  ghost predicate SubmittedWith(events: seq<Scheduler.Event>, global: GlobalIds, id: string, s: Settings) {
    && id in global
    && exists k :: 0 <= k < |events| && events[k].Submitting? && events[k].sub.id == global[id] && Carries(events[k].sub, s)
  }

  /** Every task is submitted with the settings given for its id string. */
  ghost predicate AllWithSettings(
      tasks: seq<LocalSpec>, events: seq<Scheduler.Event>, global: GlobalIds, settings: string -> Settings)
  {
    forall t | t in tasks :: SubmittedWith(events, global, t.id, settings(t.id))
  }

  /** The first `n` events submit the first `n` tasks with their settings. */
  ghost predicate CarriedSoFar(order: seq<LocalSpec>, n: nat, events: seq<Scheduler.Event>, settings: string -> Settings) {
    && n <= |order| && n <= |events|
    && forall k | 0 <= k < n :: events[k].Submitting? && Carries(events[k].sub, settings(order[k].id))
  }

  // ---- The compiler's output always passes the DAG check ----

  /** Whatever well-named items expand to passes, and is what is posted unless a block is named like a task. */
  lemma ExpansionPassesCheck(items: seq<PhaseItem>, pad: Scratchpad)
    requires WellNamed(items, pad)
    ensures var tasks := ExpandSequence(items, pad, []).tasks;
            PassesCheck(tasks) && (PlainBlocks(items) ==> Posted(items, pad) == tasks)
  {
    WellNamedIsAccepted(items, pad);
    AcceptedExactly(items, pad);
    if PlainBlocks(items) {
      ResolvingChangesNothing(items, pad);
    }
  }

  // ---- A run in which a workflow has been submitted ----

  /** The run submits the spec, under its global id and with its dependencies' global ids. */
  ghost predicate Submits(events: seq<Scheduler.Event>, global: GlobalIds, spec: LocalSpec) {
    && spec.id in global
    && (forall d | d in spec.dependsOn :: d in global)
    && exists k | 0 <= k < |events| ::
         events[k].Submitting? && events[k].sub.id == global[spec.id]
         && events[k].sub.dependsOn == Globals(global, spec.dependsOn)
  }

  /** Every task of the workflow is submitted somewhere in the run, whatever else happens in between. */
  ghost predicate SubmitsAll(events: seq<Scheduler.Event>, global: GlobalIds, tasks: seq<LocalSpec>) {
    forall i | 0 <= i < |tasks| :: Submits(events, global, tasks[i])
  }

  lemma StepKeepsDeps(s: Scheduler.State, cfg: Scheduler.Config, e: Scheduler.Event, id: Tasks.Id)
    requires SchedulerSafety.Sound(s) && Scheduler.Allowed(s, e) && id in s.submitted
    ensures var r := Scheduler.Step(s, cfg, e);
            id in r.submitted && Scheduler.Deps(r, id) == Scheduler.Deps(s, id)
  {
    if e.Submitting? {
      SubmitRecords(s, e.sub);
    } else {
      SchedulerRuns.StepRemembers(s, cfg, e);
    }
  }

  lemma SubmitRemembers(s: Scheduler.State, sub: Scheduler.Submission)
    ensures var r, known := Scheduler.Submit(s, sub), SchedulerSafety.Known(s, sub);
            r.submitted == known.submitted && r.taskDeps == known.taskDeps
  {
    if Scheduler.SomeFailed(s, sub.dependsOn) {
    } else if Scheduler.Unmet(s, sub.dependsOn) == [] {
    } else {
    }
  }

  lemma SubmitRecords(s: Scheduler.State, sub: Scheduler.Submission)
    requires SchedulerSafety.Sound(s) && sub.id !in s.submitted
    ensures var r := Scheduler.Submit(s, sub);
            && r.submitted.Keys == s.submitted.Keys + {sub.id}
            && Scheduler.Deps(r, sub.id) == sub.dependsOn
            && forall id | id != sub.id :: Scheduler.Deps(r, id) == Scheduler.Deps(s, id)
  {
    SchedulerSafety.NewId(s, sub);
    var known := SchedulerSafety.Known(s, sub);
    var r := Scheduler.Submit(s, sub);
    SubmitRemembers(s, sub);
    forall id | id != sub.id
      ensures Scheduler.Deps(r, id) == Scheduler.Deps(s, id)
    {
      assert SchedulerSafety.SameFor(s, known, id);
    }
  }

  lemma {:induction false} RunKeepsDeps(
      s: Scheduler.State, cfg: Scheduler.Config, events: seq<Scheduler.Event>, id: Tasks.Id)
    requires SchedulerSafety.Sound(s) && Scheduler.AllowedRun(s, cfg, events) && id in s.submitted
    ensures Scheduler.Deps(Scheduler.Run(s, cfg, events), id) == Scheduler.Deps(s, id)
    decreases events
  {
    if events != [] {
      StepKeepsDeps(s, cfg, events[0], id);
      SchedulerSafety.StepSound(s, cfg, events[0]);
      RunKeepsDeps(Scheduler.Step(s, cfg, events[0]), cfg, events[1..], id);
    }
  }

  lemma {:induction false} SubmittedDeps(
      s: Scheduler.State, cfg: Scheduler.Config, events: seq<Scheduler.Event>, k: nat)
    requires SchedulerSafety.Sound(s) && Scheduler.AllowedRun(s, cfg, events)
    requires k < |events| && events[k].Submitting?
    ensures Scheduler.Deps(Scheduler.Run(s, cfg, events), events[k].sub.id) == events[k].sub.dependsOn
    decreases events
  {
    var next := Scheduler.Step(s, cfg, events[0]);
    SchedulerSafety.StepSound(s, cfg, events[0]);
    if k == 0 {
      SubmitRecords(s, events[0].sub);
      RunKeepsDeps(next, cfg, events[1..], events[0].sub.id);
    } else {
      assert events[k] == events[1..][k - 1];
      SubmittedDeps(next, cfg, events[1..], k - 1);
    }
  }

  // ---- The block structure orders execution ----

  /** One local dependency is one recorded global dependency. */
  lemma DependencyTranslates(
      cfg: Scheduler.Config, events: seq<Scheduler.Event>, global: GlobalIds, tasks: seq<LocalSpec>, u: string, v: string)
    requires Scheduler.AllowedRun(Scheduler.INITIAL, cfg, events) && SubmitsAll(events, global, tasks)
    requires DirectDep(tasks, u, v)
    ensures u in global && v in global
    ensures global[v] in Scheduler.Deps(Scheduler.Run(Scheduler.INITIAL, cfg, events), global[u])
  {
    var i :| 0 <= i < |tasks| && tasks[i].id == u && v in tasks[i].dependsOn;
    assert Submits(events, global, tasks[i]);
    var m :| 0 <= m < |events| && events[m].Submitting? && events[m].sub.id == global[u]
             && events[m].sub.dependsOn == Globals(global, tasks[i].dependsOn);
    SubmittedDeps(Scheduler.INITIAL, cfg, events, m);
    var j :| 0 <= j < |tasks[i].dependsOn| && tasks[i].dependsOn[j] == v;
    assert Globals(global, tasks[i].dependsOn)[j] == global[v];
  }

  /** A path of local dependencies is a path of recorded global ones. */
  lemma PathTranslates(
      cfg: Scheduler.Config, events: seq<Scheduler.Event>, global: GlobalIds, tasks: seq<LocalSpec>, path: seq<string>)
    requires Scheduler.AllowedRun(Scheduler.INITIAL, cfg, events) && SubmitsAll(events, global, tasks)
    requires DepPath(tasks, path)
    ensures (forall d | d in path :: d in global)
    ensures SchedulerSafety.Requires(Scheduler.Run(Scheduler.INITIAL, cfg, events), Globals(global, path))
  {
    forall k | 0 <= k < |path|
      ensures path[k] in global
    {
      var h := if k == 0 then 0 else k - 1;
      assert DirectDep(tasks, path[h], path[h + 1]);
      DependencyTranslates(cfg, events, global, tasks, path[h], path[h + 1]);
    }
    var s := Scheduler.Run(Scheduler.INITIAL, cfg, events);
    var ids := Globals(global, path);
    forall k | 0 <= k < |ids| - 1
      ensures ids[k + 1] in Scheduler.Deps(s, ids[k])
    {
      assert DirectDep(tasks, path[k], path[k + 1]);
      DependencyTranslates(cfg, events, global, tasks, path[k], path[k + 1]);
    }
  }

  /** Whatever task list was submitted: a released task has all its transitive dependencies completed. */
  lemma DependencyIsRespected(
      cfg: Scheduler.Config, events: seq<Scheduler.Event>, global: GlobalIds, tasks: seq<LocalSpec>, x: string, y: string)
    requires Scheduler.AllowedRun(Scheduler.INITIAL, cfg, events) && SubmitsAll(events, global, tasks)
    requires DependsTransitively(tasks, x, y)
    ensures x in global && y in global
    ensures var s := Scheduler.Run(Scheduler.INITIAL, cfg, events);
            global[x] in s.queue || global[x] in s.active || global[x] in s.completed ==> global[y] in s.completed
  {
    var path :| DepPath(tasks, path) && path[0] == x && path[|path| - 1] == y;
    PathTranslates(cfg, events, global, tasks, path);
    var s := Scheduler.Run(Scheduler.INITIAL, cfg, events);
    if global[x] in s.queue || global[x] in s.active || global[x] in s.completed {
      SchedulerSafety.EveryRunIsSafe(cfg, events, Globals(global, path));
    }
  }

  /**
    * End to end: in every run of the scheduler in which the posted tasks of a workflow were submitted,
    * a task that is queued, executing or completed has everything the block structure puts before it
    * already completed. Asked for: no hollow part before a task, and every dependency of the plan still
    * reached after block names are replaced, which `OrderKeptExactly` shows to be exactly what it takes.
    */
  lemma BlockOrderIsRespected(
      items: seq<PhaseItem>, pad: Scratchpad, cfg: Scheduler.Config, events: seq<Scheduler.Event>,
      global: GlobalIds, u: TaskId, v: TaskId)
    requires PassesCheck(Posted(items, pad))
    requires FaithfulSeries(ElaborateAll(items, pad), false, true) && KeepsDependencies(items, pad)
    requires Scheduler.AllowedRun(Scheduler.INITIAL, cfg, events)
    requires SubmitsAll(events, global, Posted(items, pad))
    requires (v, u) in BlockOrder(items, pad)
    ensures LocalId(u) in global && LocalId(v) in global
    ensures var s := Scheduler.Run(Scheduler.INITIAL, cfg, events);
            var later, earlier := global[LocalId(u)], global[LocalId(v)];
            later in s.queue || later in s.active || later in s.completed ==> earlier in s.completed
  {
    KeptDependenciesKeepOrder(items, pad);
    assert Reached(Posted(items, pad), u, v);
    DependencyIsRespected(cfg, events, global, Posted(items, pad), LocalId(u), LocalId(v));
  }

  /**
    * The other side of that order: once a task has failed, was cancelled or was given up, nothing that
    * the block structure puts after it runs in any continuation. So when a loop ends early and the tasks
    * of its later iterations are cancelled, the phases behind the loop never run.
    */
  lemma NothingAfterEnded(
      items: seq<PhaseItem>, pad: Scratchpad, cfg: Scheduler.Config, before: seq<Scheduler.Event>,
      later: seq<Scheduler.Event>, global: GlobalIds, u: TaskId, v: TaskId)
    requires PassesCheck(Posted(items, pad))
    requires FaithfulSeries(ElaborateAll(items, pad), false, true) && KeepsDependencies(items, pad)
    requires Scheduler.AllowedRun(Scheduler.INITIAL, cfg, before + later)
    requires SubmitsAll(before + later, global, Posted(items, pad))
    requires (v, u) in BlockOrder(items, pad)
    ensures LocalId(u) in global && LocalId(v) in global
    ensures SchedulerEnds.Ended(Scheduler.Run(Scheduler.INITIAL, cfg, before), global[LocalId(v)]) ==>
              var r := Scheduler.Run(Scheduler.INITIAL, cfg, before + later);
              global[LocalId(u)] !in r.queue && global[LocalId(u)] !in r.active && global[LocalId(u)] !in r.completed
  {
    BlockOrderIsRespected(items, pad, cfg, before + later, global, u, v);
    var s := Scheduler.Run(Scheduler.INITIAL, cfg, before);
    if SchedulerEnds.Ended(s, global[LocalId(v)]) {
      SchedulerEnds.RunInTwo(Scheduler.INITIAL, cfg, before, later);
      SchedulerSafety.RunSound(Scheduler.INITIAL, cfg, before);
      SchedulerEnds.RunKeepsEnds(s, cfg, later);
      assert SchedulerSafety.TaskSound(Scheduler.Run(s, cfg, later), global[LocalId(v)]);
    }
  }

  /**
    * In particular: once a task of some item, say the last iteration of a loop that was left early, has
    * been cancelled, no task of any later item runs in any continuation.
    */
  lemma NothingBehindEnded(
      items: seq<PhaseItem>, pad: Scratchpad, cfg: Scheduler.Config, before: seq<Scheduler.Event>,
      later: seq<Scheduler.Event>, global: GlobalIds, i: nat, j: nat, u: TaskId, v: TaskId)
    requires PassesCheck(Posted(items, pad))
    requires FaithfulSeries(ElaborateAll(items, pad), false, true) && KeepsDependencies(items, pad)
    requires Scheduler.AllowedRun(Scheduler.INITIAL, cfg, before + later)
    requires SubmitsAll(before + later, global, Posted(items, pad))
    requires i < j < |items| && v in Members(Elaborate(items[i], pad)) && u in Members(Elaborate(items[j], pad))
    ensures LocalId(u) in global && LocalId(v) in global
    ensures SchedulerEnds.Ended(Scheduler.Run(Scheduler.INITIAL, cfg, before), global[LocalId(v)]) ==>
              var r := Scheduler.Run(Scheduler.INITIAL, cfg, before + later);
              global[LocalId(u)] !in r.queue && global[LocalId(u)] !in r.active && global[LocalId(u)] !in r.completed
  {
    PlanFacts(items, pad);
    ElaborateAt(items, pad, i);
    ElaborateAt(items, pad, j);
    SeriesOrders(ElaborateAll(items, pad), {}, i, j, v, u);
    NothingAfterEnded(items, pad, cfg, before, later, global, u, v);
  }

  /** Conversely, if nothing is added, a task that is still held waits for something the blocks put before it. */
  lemma HeldForAReason(
      items: seq<PhaseItem>, pad: Scratchpad, cfg: Scheduler.Config, events: seq<Scheduler.Event>,
      global: GlobalIds, u: TaskId)
    requires PassesCheck(Posted(items, pad)) && AddsNothing(items, pad)
    requires Scheduler.AllowedRun(Scheduler.INITIAL, cfg, events)
    requires SubmitsAll(events, global, Posted(items, pad))
    requires u in PlanIdsOf(ElaborateAll(items, pad))
    ensures LocalId(u) in global
    ensures global[LocalId(u)] in Scheduler.Run(Scheduler.INITIAL, cfg, events).waiting ==>
              exists v :: (v, u) in BlockOrder(items, pad) && LocalId(v) in global
                && global[LocalId(v)] !in Scheduler.Run(Scheduler.INITIAL, cfg, events).completed
  {
    var tasks := Posted(items, pad);
    var s := Scheduler.Run(Scheduler.INITIAL, cfg, events);
    PostedIds(items, pad);
    var ids := PlanIdsOf(ElaborateAll(items, pad));
    var i :| 0 <= i < |ids| && ids[i] == u;
    assert Ids(tasks)[i] == LocalId(u);
    assert Submits(events, global, tasks[i]);
    if global[LocalId(u)] in s.waiting {
      var dep := HeldForDependency(cfg, events, global, tasks[i]);
      assert DirectDep(tasks, LocalId(u), dep);
      PlanFacts(items, pad);
      OrderWithin(items, pad);
      MembersOfListed(ElaborateAll(items, pad));
      var p :| p in BlockOrder(items, pad) && (LocalId(p.0), LocalId(p.1)) == (dep, LocalId(u));
      assert p.1 == u;
    }
  }

  /** A submitted task that is held has a dependency that is not completed. */
  lemma HeldForDependency(
      cfg: Scheduler.Config, events: seq<Scheduler.Event>, global: GlobalIds, spec: LocalSpec) returns (dep: string)
    requires Scheduler.AllowedRun(Scheduler.INITIAL, cfg, events) && Submits(events, global, spec)
    requires global[spec.id] in Scheduler.Run(Scheduler.INITIAL, cfg, events).waiting
    ensures dep in spec.dependsOn && dep in global
    ensures global[dep] !in Scheduler.Run(Scheduler.INITIAL, cfg, events).completed
  {
    var s := Scheduler.Run(Scheduler.INITIAL, cfg, events);
    var k :| 0 <= k < |events| && events[k].Submitting? && events[k].sub.id == global[spec.id]
             && events[k].sub.dependsOn == Globals(global, spec.dependsOn);
    SubmittedDeps(Scheduler.INITIAL, cfg, events, k);
    SchedulerSafety.RunSound(Scheduler.INITIAL, cfg, events);
    assert SchedulerSafety.TaskSound(s, global[spec.id]);
    SchedulerRuns.EveryRunIsIndexed(cfg, events, global[spec.id], global[spec.id]);
    var d :| d in Globals(global, spec.dependsOn) && d !in s.completed;
    var j :| 0 <= j < |spec.dependsOn| && Globals(global, spec.dependsOn)[j] == d;
    dep := spec.dependsOn[j];
  }

  // ---- Submitting a workflow ----

  lemma {:induction false} RunExtends(
      s: Scheduler.State, cfg: Scheduler.Config, events: seq<Scheduler.Event>, e: Scheduler.Event)
    requires Scheduler.AllowedRun(s, cfg, events) && Scheduler.Allowed(Scheduler.Run(s, cfg, events), e)
    ensures Scheduler.AllowedRun(s, cfg, events + [e])
    ensures Scheduler.Run(s, cfg, events + [e]) == Scheduler.Step(Scheduler.Run(s, cfg, events), cfg, e)
    decreases events
  {
    var all := events + [e];
    if events == [] {
      assert all[0] == e && all[1..] == [];
    } else {
      assert all[0] == events[0] && all[1..] == events[1..] + [e];
      RunExtends(Scheduler.Step(s, cfg, events[0]), cfg, events[1..], e);
    }
  }

  /** The first `n` tasks of the list were submitted, in order, each under its own new name. */
  ghost predicate SubmittedSoFar(
      order: seq<LocalSpec>, names: seq<Tasks.Id>, n: nat, global: GlobalIds, events: seq<Scheduler.Event>)
  {
    && n <= |order| == |names| && |events| == n
    && global.Keys == IdSet(Ids(order[..n]))
    && (forall k | 0 <= k < n :: order[k].id in global && global[order[k].id] == names[k])
    && (forall k | 0 <= k < n :: SubmittedAs(order[k], names[k], global, events[k]))
  }

  ghost predicate SubmittedAs(spec: LocalSpec, name: Tasks.Id, global: GlobalIds, e: Scheduler.Event) {
    && (forall d | d in spec.dependsOn :: d in global)
    && e.Submitting? && e.sub.id == name && e.sub.dependsOn == Globals(global, spec.dependsOn)
  }

  lemma SubmitsOneMore(
      order: seq<LocalSpec>, names: seq<Tasks.Id>, n: nat, global: GlobalIds, events: seq<Scheduler.Event>,
      e: Scheduler.Event)
    requires SubmittedSoFar(order, names, n, global, events) && n < |order| && NoDuplicates(Ids(order))
    requires SubmittedAs(order[n], names[n], global, e)
    ensures SubmittedSoFar(order, names, n + 1, global[order[n].id := names[n]], events + [e])
  {
    var more := global[order[n].id := names[n]];
    var all := events + [e];
    assert Ids(order[..n + 1]) == Ids(order[..n]) + [order[n].id];
    forall k | 0 <= k < n
      ensures order[k].id != order[n].id
    {
      assert Ids(order)[k] != Ids(order)[n];
    }
    assert order[n].id !in global;
    forall k | 0 <= k < n + 1
      ensures SubmittedAs(order[k], names[k], more, all[k])
    {
      assert k < n ==> SubmittedAs(order[k], names[k], global, events[k]);
      assert Globals(more, order[k].dependsOn) == Globals(global, order[k].dependsOn);
    }
  }

  lemma AllSubmitted(
      tasks: seq<LocalSpec>, order: seq<LocalSpec>, names: seq<Tasks.Id>, global: GlobalIds, events: seq<Scheduler.Event>)
    requires SubmittedSoFar(order, names, |order|, global, events) && multiset(order) == multiset(tasks)
    ensures SubmitsAll(events, global, tasks)
  {
    forall i | 0 <= i < |tasks|
      ensures Submits(events, global, tasks[i])
    {
      assert tasks[i] in multiset(order);
      var k :| 0 <= k < |order| && order[k] == tasks[i];
      assert SubmittedAs(order[k], names[k], global, events[k]);
    }
  }

  lemma AllCarry(
      tasks: seq<LocalSpec>, order: seq<LocalSpec>, names: seq<Tasks.Id>, global: GlobalIds,
      events: seq<Scheduler.Event>, settings: string -> Settings)
    requires SubmittedSoFar(order, names, |order|, global, events) && multiset(order) == multiset(tasks)
    requires CarriedSoFar(order, |order|, events, settings)
    ensures AllWithSettings(tasks, events, global, settings)
  {
    forall t | t in tasks
      ensures SubmittedWith(events, global, t.id, settings(t.id))
    {
      assert t in multiset(order);
      var k :| 0 <= k < |order| && order[k] == t;
      assert SubmittedAs(order[k], names[k], global, events[k]);
    }
  }

  lemma NamesInjective(
      order: seq<LocalSpec>, names: seq<Tasks.Id>, global: GlobalIds, events: seq<Scheduler.Event>)
    requires SubmittedSoFar(order, names, |order|, global, events) && NoDuplicates(names)
    ensures Injective(global)
  {
    assert order[..|order|] == order;
    forall a, b | a in global && b in global && global[a] == global[b]
      ensures a == b
    {
      var i, j := PlaceOf(order, a), PlaceOf(order, b);
      assert names[i] == names[j];
    }
  }

  ghost function PlaceOf(order: seq<LocalSpec>, id: string): (i: nat)
    requires id in IdSet(Ids(order))
    ensures i < |order| && order[i].id == id
  {
    Dag.Position(Ids(order), id)
  }

  lemma IdsWithin(a: seq<LocalSpec>, b: seq<LocalSpec>)
    requires multiset(a) == multiset(b)
    ensures IdSet(Ids(a)) <= IdSet(Ids(b))
  {
    forall u | u in IdSet(Ids(a))
      ensures u in IdSet(Ids(b))
    {
      var i :| 0 <= i < |a| && Ids(a)[i] == u;
      assert a[i] in multiset(b);
      var k :| 0 <= k < |b| && b[k] == a[i];
      assert Ids(b)[k] == u;
    }
  }

  /**
    * Expands the workflow, resolves block names, checks the result and submits its tasks in
    * dependency order under the given fresh names. Rejected workflows submit nothing. As long as no
    * block is named like a task, exactly the accepted workflows pass, and well-named ones always do.
    */
  method PostWorkflow(
      o: O.Orchestrator, items: seq<PhaseItem>, pad: Scratchpad, names: seq<Tasks.Id>, settings: string -> Settings)
    returns (r: Result<GlobalIds, Dag.DagError>, ghost events: seq<Scheduler.Event>)
    requires o.Valid() && NoDuplicates(names) && forall n | n in names :: n !in o.submitted
    requires |names| == |ExpandSequence(items, pad, []).tasks|
    modifies o, o.taskQueue
    ensures o.Valid()
    ensures Scheduler.AllowedRun(old(o.Snapshot()), o.config, events)
    ensures o.Snapshot() == Scheduler.Run(old(o.Snapshot()), o.config, events)
    ensures var tasks := Posted(items, pad);
            && (r.Ok? <==> PassesCheck(tasks))
            && (r.Ok? ==> SubmitsAll(events, r.value, tasks) && Injective(r.value) && r.value.Keys == IdSet(Ids(tasks)))
    ensures r.Ok? ==> AllWithSettings(Posted(items, pad), events, r.value, settings)
    ensures r.Err? ==> events == []
    ensures PlainBlocks(items) ==>
              && Posted(items, pad) == ExpandSequence(items, pad, []).tasks
              && (r.Ok? <==> Accepted(items, pad)) && (WellNamed(items, pad) ==> r.Ok?)
  {
    events := [];
    var tasks, statuses, terminals := ExpandPhaseItemsWithStatus(items, pad);
    tasks := ResolveBlockNames(tasks, terminals);
    if PlainBlocks(items) {
      ResolvingChangesNothing(items, pad);
      AcceptedExactly(items, pad);
      if WellNamed(items, pad) {
        WellNamedIsAccepted(items, pad);
      }
    }
    var checked := Dag.ValidateDag(tasks);
    if checked.Err? {
      return Err(checked.error), [];
    }
    var order := checked.value;
    assert |order| == |multiset(order)| == |tasks|;
    PermutedIds(order, tasks);
    var global: GlobalIds;
    global, events := SubmitInOrder(o, order, names, settings);
    WorkflowSubmitted(tasks, order, names, global, events, settings);
    r := Ok(global);
  }

  lemma WorkflowSubmitted(
      tasks: seq<LocalSpec>, order: seq<LocalSpec>, names: seq<Tasks.Id>, global: GlobalIds,
      events: seq<Scheduler.Event>, settings: string -> Settings)
    requires SubmittedSoFar(order, names, |order|, global, events) && multiset(order) == multiset(tasks)
    requires NoDuplicates(names) && CarriedSoFar(order, |order|, events, settings)
    ensures SubmitsAll(events, global, tasks) && Injective(global) && global.Keys == IdSet(Ids(tasks))
    ensures AllWithSettings(tasks, events, global, settings)
  {
    AllSubmitted(tasks, order, names, global, events);
    AllCarry(tasks, order, names, global, events, settings);
    NamesInjective(order, names, global, events);
    IdsWithin(order, tasks);
    IdsWithin(tasks, order);
    assert order[..|order|] == order;
  }

  lemma PermutedIds(order: seq<LocalSpec>, tasks: seq<LocalSpec>)
    requires multiset(order) == multiset(tasks) && NoDuplicates(Ids(tasks))
    ensures NoDuplicates(Ids(order)) && |order| == |tasks|
  {
    assert |order| == |multiset(order)| && |tasks| == |multiset(tasks)|;
    Dag.DistinctIdsDistinctTasks(tasks);
    forall i, j | 0 <= i < j < |order|
      ensures Ids(order)[i] != Ids(order)[j]
    {
      assert order[i] in multiset(tasks) && order[j] in multiset(tasks);
      var a :| 0 <= a < |tasks| && tasks[a] == order[i];
      var b :| 0 <= b < |tasks| && tasks[b] == order[j];
      if a == b {
        assert order == order[..j] + order[j..];
        Dag.DistinctCount(tasks, order[i]);
        TwiceCounted(order, i, j);
      } else if a < b {
        assert Ids(tasks)[a] != Ids(tasks)[b];
      } else {
        assert Ids(tasks)[b] != Ids(tasks)[a];
      }
    }
  }

  lemma TwiceCounted<T>(s: seq<T>, i: nat, j: nat)
    requires i < j < |s| && s[i] == s[j]
    ensures multiset(s)[s[i]] >= 2
  {
    assert s == s[..i] + [s[i]] + s[i + 1..j] + [s[j]] + s[j + 1..];
  }

  lemma DependenciesSubmitted(
      order: seq<LocalSpec>, names: seq<Tasks.Id>, i: nat, global: GlobalIds, events: seq<Scheduler.Event>)
    requires SubmittedSoFar(order, names, i, global, events) && i < |order| && Dag.DependenciesFirst(order)
    ensures forall d | d in order[i].dependsOn :: d in global
  {
    forall d | d in order[i].dependsOn
      ensures d in global
    {
      assert d in Ids(order[..i]);
    }
  }

  lemma CarriesOneMore(
      order: seq<LocalSpec>, n: nat, global: GlobalIds, name: Tasks.Id, events: seq<Scheduler.Event>,
      settings: string -> Settings)
    requires CarriedSoFar(order, n, events, settings) && |events| == n < |order|
    requires forall d | d in order[n].dependsOn :: d in global
    ensures var sub := SubmissionOf(order[n], global, name, settings(order[n].id));
            CarriedSoFar(order, n + 1, events + [Scheduler.Submitting(sub)], settings)
  {
  }

  method SubmitInOrder(o: O.Orchestrator, order: seq<LocalSpec>, names: seq<Tasks.Id>, settings: string -> Settings)
    returns (global: GlobalIds, ghost events: seq<Scheduler.Event>)
    requires o.Valid() && NoDuplicates(names) && forall n | n in names :: n !in o.submitted
    requires |names| == |order| && NoDuplicates(Ids(order)) && Dag.DependenciesFirst(order)
    modifies o, o.taskQueue
    ensures o.Valid() && Scheduler.AllowedRun(old(o.Snapshot()), o.config, events)
    ensures o.Snapshot() == Scheduler.Run(old(o.Snapshot()), o.config, events)
    ensures SubmittedSoFar(order, names, |order|, global, events)
    ensures CarriedSoFar(order, |order|, events, settings)
  {
    global, events := map[], [];
    assert order[..0] == [];
    var i := 0;
    while i < |order|
      invariant 0 <= i <= |order| && o.Valid()
      invariant Scheduler.AllowedRun(old(o.Snapshot()), o.config, events)
      invariant o.Snapshot() == Scheduler.Run(old(o.Snapshot()), o.config, events)
      invariant SubmittedSoFar(order, names, i, global, events)
      invariant CarriedSoFar(order, i, events, settings)
      invariant forall k | i <= k < |names| :: names[k] !in o.submitted
    {
      var spec := order[i];
      DependenciesSubmitted(order, names, i, global, events);
      var sub := SubmissionOf(spec, global, names[i], settings(spec.id));
      ghost var e := Scheduler.Submitting(sub);
      ghost var before := o.Snapshot();
      RunExtends(old(o.Snapshot()), o.config, events, e);
      SubmitRecords(before, sub);
      SubmitsOneMore(order, names, i, global, events, e);
      CarriesOneMore(order, i, global, names[i], events, settings);
      var task := o.SubmitTask(sub);
      assert o.submitted == Scheduler.Submit(before, sub).submitted;
      global := global[spec.id := names[i]];
      events := events + [e];
      i := i + 1;
    }
  }
}
