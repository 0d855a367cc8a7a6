// What every expansion has in common with the emission of its plan, accepted or not: the same ids, the
// same terminals, and dependencies that differ only where renaming has hit a phase's own ids.

module BlockEmission {
  import opened PhaseSpecs
  import opened PhaseStrategies
  import opened PhaseExecutor
  import opened BlockPlan
  import opened BlockMeaning
  import opened TaskNaming
  import opened Text

  ghost predicate SelfDep(tasks: seq<LocalSpec>, d: string) {
    exists k :: 0 <= k < |tasks| && tasks[k].id == d && d in tasks[k].dependsOn
  }

  /**
    * The listed dependency is the plan's, or it names a task that must come after the task itself, or
    * one that depends on itself.
    */
  ghost predicate KinDep(tasks: seq<LocalSpec>, d: string, id: TaskId, x: TaskId, order: Order) {
    d == LocalId(x) || SelfDep(tasks, d) || exists c :: d == LocalId(c) && (id, c) in order
  }

  ghost predicate KinTask(tasks: seq<LocalSpec>, t: LocalSpec, e: TaskSpec, order: Order) {
    && t.id == LocalId(e.id) && |t.dependsOn| == |e.dependsOn|
    && forall j | 0 <= j < |t.dependsOn| :: KinDep(tasks, t.dependsOn[j], e.id, e.dependsOn[j], order)
  }

  ghost predicate Kin(tasks: seq<LocalSpec>, specs: seq<TaskSpec>, order: Order) {
    |tasks| == |specs| && forall i | 0 <= i < |tasks| :: KinTask(tasks, tasks[i], specs[i], order)
  }

  lemma KinMore(few: seq<LocalSpec>, all: seq<LocalSpec>, t: LocalSpec, e: TaskSpec, o: Order, order: Order)
    requires KinTask(few, t, e, o) && o <= order && forall x | x in few :: x in all
    ensures KinTask(all, t, e, order)
  {
    forall j | 0 <= j < |t.dependsOn|
      ensures KinDep(all, t.dependsOn[j], e.id, e.dependsOn[j], order)
    {
      var d := t.dependsOn[j];
      assert KinDep(few, d, e.id, e.dependsOn[j], o);
      if SelfDep(few, d) {
        var k :| 0 <= k < |few| && few[k].id == d && d in few[k].dependsOn;
        assert few[k] in few;
        var i :| 0 <= i < |all| && all[i] == few[k];
        assert SelfDep(all, d);
      }
    }
  }

  lemma KinWithin(few: seq<LocalSpec>, all: seq<LocalSpec>, x: seq<TaskSpec>, o: Order, order: Order, i: nat)
    requires Kin(few, x, o) && o <= order && i < |few| && forall t | t in few :: t in all
    ensures KinTask(all, few[i], x[i], order)
  {
    assert KinTask(few, few[i], x[i], o);
    KinMore(few, all, few[i], x[i], o, order);
  }

  lemma KinConcat(a: seq<LocalSpec>, b: seq<LocalSpec>, x: seq<TaskSpec>, y: seq<TaskSpec>, o: Order, q: Order, order: Order)
    requires Kin(a, x, o) && Kin(b, y, q) && o <= order && q <= order
    ensures Kin(a + b, x + y, order)
  {
    forall i | 0 <= i < |a + b|
      ensures KinTask(a + b, (a + b)[i], (x + y)[i], order)
    {
      if i < |a| {
        KinWithin(a, a + b, x, o, order, i);
      } else {
        KinWithin(b, a + b, y, q, order, i - |a|);
      }
    }
  }

  lemma WrittenKin(specs: seq<TaskSpec>, order: Order)
    ensures Kin(Written(specs), specs, order)
  {
    forall i | 0 <= i < |specs|
      ensures KinTask(Written(specs), Written(specs)[i], specs[i], order)
    {
      var t := Written(specs)[i];
      assert forall j | 0 <= j < |t.dependsOn| ::
               KinDep(Written(specs), t.dependsOn[j], specs[i].id, specs[i].dependsOn[j], order);
    }
  }

  // ---- One phase after ids that renaming may have turned into its own ----

  /** Each string is the given id's or one of the phase's own. */
  ghost predicate OwnOrSame(deps: seq<string>, prior: seq<TaskId>, own: seq<TaskId>) {
    |deps| == |prior| && forall j | 0 <= j < |deps| :: deps[j] == LocalId(prior[j]) || deps[j] in LocalIds(own)
  }

  /** A task that waits for what precedes the phase, among tasks that hold all others that do. */
  lemma RootKin(tasks: seq<LocalSpec>, id: TaskId, deps: seq<string>, prior: seq<TaskId>, own: seq<TaskId>, order: Order)
    requires OwnOrSame(deps, prior, own)
    requires forall c | c in own :: (id, c) in order || TaskSpec(LocalId(c), deps) in tasks
    ensures KinTask(tasks, TaskSpec(LocalId(id), deps), TaskSpec(id, prior), order)
  {
    forall j | 0 <= j < |deps|
      ensures KinDep(tasks, deps[j], id, prior[j], order)
    {
      if deps[j] != LocalId(prior[j]) {
        var k :| 0 <= k < |own| && LocalIds(own)[k] == deps[j];
        assert own[k] in own && deps[j] == LocalId(own[k]);
        if (id, own[k]) !in order {
          var i :| 0 <= i < |tasks| && tasks[i] == TaskSpec(deps[j], deps);
          assert tasks[i].id == deps[j] && deps[j] in tasks[i].dependsOn;
        }
      }
    }
  }

  lemma FanKin(ids: seq<TaskId>, deps: seq<string>, prior: seq<TaskId>, order: Order)
    requires OwnOrSame(deps, prior, ids)
    ensures Kin(Fan(LocalIds(ids), deps), Fan(ids, prior), order)
  {
    var tasks := Fan(LocalIds(ids), deps);
    forall c | c in ids
      ensures TaskSpec(LocalId(c), deps) in tasks
    {
      var i :| 0 <= i < |ids| && ids[i] == c;
      assert tasks[i] == TaskSpec(LocalId(c), deps);
    }
    forall i | 0 <= i < |ids|
      ensures KinTask(tasks, tasks[i], Fan(ids, prior)[i], order)
    {
      RootKin(tasks, ids[i], deps, prior, ids, order);
    }
  }

  lemma JudgedKin(scope: Scope, phase: string, n: int, deps: seq<string>, prior: seq<TaskId>)
    requires OwnOrSame(deps, prior, LeafIds(scope, phase, Competitive(n, true)))
    ensures var pattern := Competitive(n, true);
            Kin(LocalTasks(scope, phase, pattern, deps), LeafTasks(scope, phase, pattern, prior),
                LeafOrder(LeafSet(scope, phase, pattern), pattern))
  {
    var pattern := Competitive(n, true);
    var own, order := LeafIds(scope, phase, pattern), LeafOrder(LeafSet(scope, phase, pattern), pattern);
    var workers, judge := Workers(scope, phase, AtLeastOne(n)), TaskId(scope, phase, Judge);
    var tasks, specs := LocalTasks(scope, phase, pattern, deps), LeafTasks(scope, phase, pattern, prior);
    assert own == workers + [judge];
    forall i | 0 <= i < |tasks|
      ensures KinTask(tasks, tasks[i], specs[i], order)
    {
      if i < |workers| {
        forall c | c in own
          ensures (workers[i], c) in order || TaskSpec(LocalId(c), deps) in tasks
        {
          assert workers[i] in own;
          if c != judge {
            var k :| 0 <= k < |workers| && workers[k] == c;
            assert tasks[k] == TaskSpec(LocalId(c), deps);
          }
        }
        RootKin(tasks, workers[i], deps, prior, own, order);
      } else {
        assert forall j | 0 <= j < |workers| :: KinDep(tasks, LocalIds(workers)[j], judge, workers[j], order);
      }
    }
  }

  lemma NamedReply<A, B>(name: A -> B, adv: A, crit: A, rest: seq<Spec<A>>)
    ensures MapTasks(name, [TaskSpec(crit, [adv])] + rest) == [TaskSpec(name(crit), [name(adv)])] + MapTasks(name, rest)
  {
    assert MapIds(name, [adv]) == [name(adv)];
  }

  lemma TurnByTurn<A>(first: Spec<A>, second: Spec<A>, rest: seq<Spec<A>>)
    ensures [first, second] + rest == [first] + ([second] + rest)
  {
  }

  /** A debate is its first advocate, and then everything that follows from it. */
  lemma DebateOpens(scope: Scope, phase: string, n: int, deps: seq<string>, prior: seq<TaskId>) returns (others: seq<TaskSpec>)
    ensures var adv := TaskId(scope, phase, Advocate(1));
            && LocalTasks(scope, phase, Debate(n), deps) == [TaskSpec(LocalId(adv), deps)] + Written(others)
            && LeafTasks(scope, phase, Debate(n), prior) == [TaskSpec(adv, prior)] + others
  {
    var rounds := AtLeastOne(n);
    var adv, crit := TaskId(scope, phase, Advocate(1)), TaskId(scope, phase, Critic(1));
    var rest := DebateTasks(scope, phase, 2, rounds, [crit]);
    others := [TaskSpec(crit, [adv])] + rest;
    LocalIdsNamed([crit]);
    assert MapIds(LocalId, [crit]) == [LocalId(crit)];
    WrittenDebate(scope, phase, 2, rounds, [crit]);
    WrittenIsNamed(rest);
    WrittenIsNamed(others);
    NamedReply(LocalId, adv, crit, rest);
    TurnByTurn(TaskSpec(LocalId(adv), deps), TaskSpec(LocalId(crit), [LocalId(adv)]), Written(rest));
    TurnByTurn(TaskSpec(adv, prior), TaskSpec(crit, [adv]), rest);
  }

  lemma DebateKin(scope: Scope, phase: string, n: int, deps: seq<string>, prior: seq<TaskId>)
    requires OwnOrSame(deps, prior, LeafIds(scope, phase, Debate(n)))
    ensures Kin(LocalTasks(scope, phase, Debate(n), deps), LeafTasks(scope, phase, Debate(n), prior),
                LeafOrder(LeafSet(scope, phase, Debate(n)), Debate(n)))
  {
    var own, order := LeafIds(scope, phase, Debate(n)), LeafOrder(LeafSet(scope, phase, Debate(n)), Debate(n));
    var adv := TaskId(scope, phase, Advocate(1));
    var others := DebateOpens(scope, phase, n, deps, prior);
    var first := [TaskSpec(LocalId(adv), deps)];
    AdvocateOpens(scope, phase, n);
    RootKin(first, adv, deps, prior, own, order);
    WrittenKin(others, order);
    KinConcat(first, Written(others), [TaskSpec(adv, prior)], others, order, order, order);
  }

  lemma AdvocateOpens(scope: Scope, phase: string, n: int)
    ensures var adv := TaskId(scope, phase, Advocate(1));
            forall c | c in LeafIds(scope, phase, Debate(n)) ::
              c == adv || (adv, c) in LeafOrder(LeafSet(scope, phase, Debate(n)), Debate(n))
  {
    DebateIdsRange(scope, phase, 1, AtLeastOne(n));
    assert TaskId(scope, phase, Advocate(1)) in LeafSet(scope, phase, Debate(n));
  }

  lemma LeafKin(scope: Scope, phase: string, pattern: Pattern, deps: seq<string>, prior: seq<TaskId>)
    requires OwnOrSame(deps, prior, LeafIds(scope, phase, pattern))
    ensures Kin(LocalTasks(scope, phase, pattern, deps), LeafTasks(scope, phase, pattern, prior),
                LeafOrder(LeafSet(scope, phase, pattern), pattern))
  {
    var ids, order := LeafIds(scope, phase, pattern), LeafOrder(LeafSet(scope, phase, pattern), pattern);
    match pattern
    case Single =>
      assert LocalIds(ids) == [LocalId(TaskId(scope, phase, Worker(0)))];
      FanKin(ids, deps, prior, order);
    case Parallel(_) => FanKin(ids, deps, prior, order);
    case Competitive(n, judged) =>
      if judged {
        JudgedKin(scope, phase, n, deps, prior);
      } else {
        var workers := Workers(scope, phase, AtLeastOne(n));
        assert ids == workers;
        FanKin(workers, deps, prior, order);
        assert Fan(LocalIds(workers), deps) + [] == Fan(LocalIds(workers), deps);
        assert Fan(workers, prior) + [] == Fan(workers, prior);
      }
    case Debate(n) => DebateKin(scope, phase, n, deps, prior);
  }

  lemma BodyPhaseKin(loop: string, n: nat, phase: PhaseSpec, prior: seq<TaskId>)
    ensures var scope, name := Iteration(loop, n), SubstituteIter(phase.name, n);
            Matches(ExpandBodyPhase(loop, n, phase, LocalIds(prior)),
                    Emission(LeafTasks(scope, name, phase.pattern, prior), LeafTerminals(scope, name, phase.pattern)),
                    LeafOrder(LeafSet(scope, name, phase.pattern), phase.pattern))
  {
    var scope, name := Iteration(loop, n), SubstituteIter(phase.name, n);
    var own := LocalIds(LeafIds(Outer, name, phase.pattern));
    var deps := RenameIds(own, Prefix(scope), LocalIds(prior));
    RenamedAnyway(name, phase.pattern, LocalIds(prior), scope);
    MovedIds(name, phase.pattern, scope);
    forall j | 0 <= j < |deps|
      ensures deps[j] == LocalId(prior[j]) || deps[j] in LocalIds(LeafIds(scope, name, phase.pattern))
    {
      if LocalId(prior[j]) in own {
        var k :| 0 <= k < |own| && own[k] == LocalId(prior[j]);
        assert RenameIds(own, Prefix(scope), own)[k] == deps[j];
      }
    }
    LeafKin(scope, name, phase.pattern, deps, prior);
  }

  // ---- Whole expansions ----

  ghost predicate Matches(e: Expansion, m: Emission, order: Order) {
    Kin(e.tasks, m.tasks, order) && e.terminals == LocalIds(m.terminals)
  }

  lemma MatchesThen(a: Expansion, b: Expansion, x: Emission, y: Emission, o: Order, q: Order, order: Order)
    requires Matches(a, x, o) && Matches(b, y, q) && o <= order && q <= order
    ensures Matches(Then(a, b), Emission(x.tasks + y.tasks, y.terminals), order)
    ensures Matches(Beside(a, b), Emission(x.tasks + y.tasks, x.terminals + y.terminals), order)
  {
    KinConcat(a.tasks, b.tasks, x.tasks, y.tasks, o, q, order);
    LocalIdsConcat(x.terminals, y.terminals);
  }

  lemma {:induction false} IntendedMore(plan: Plan, pre: set<TaskId>, more: set<TaskId>)
    requires pre <= more
    ensures Intended(plan, pre) <= Intended(plan, more)
    decreases plan, 1
  {
    match plan
    case Leaf(_, _, _) =>
    case Series(parts) => IntendedSeriesMore(parts, pre, more);
    case Fork(branches) => IntendedForkMore(branches, pre, more);
  }

  lemma {:induction false} IntendedSeriesMore(parts: seq<Plan>, pre: set<TaskId>, more: set<TaskId>)
    requires pre <= more
    ensures IntendedSeries(parts, pre) <= IntendedSeries(parts, more)
    decreases parts, 0
  {
    if parts != [] {
      IntendedMore(parts[0], pre, more);
      IntendedSeriesMore(parts[1..], pre + Members(parts[0]), more + Members(parts[0]));
    }
  }

  lemma {:induction false} IntendedForkMore(branches: seq<Plan>, pre: set<TaskId>, more: set<TaskId>)
    requires pre <= more
    ensures IntendedFork(branches, pre) <= IntendedFork(branches, more)
    decreases branches, 0
  {
    if branches != [] {
      IntendedMore(branches[0], pre, more);
      IntendedForkMore(branches[1..], pre, more);
    }
  }

  /** The first part of a series followed by the rest. */
  lemma SeriesMatches(parts: seq<Plan>, prior: seq<TaskId>, a: Expansion, b: Expansion)
    requires parts != [] && Matches(a, Emit(parts[0], prior), Intended(parts[0], {}))
    requires Matches(b, EmitSeries(parts[1..], Emit(parts[0], prior).terminals), IntendedSeries(parts[1..], {}))
    ensures Matches(Then(a, b), EmitSeries(parts, prior), IntendedSeries(parts, {}))
  {
    var first := Emit(parts[0], prior);
    IntendedSeriesMore(parts[1..], {}, {} + Members(parts[0]));
    MatchesThen(a, b, first, EmitSeries(parts[1..], first.terminals), Intended(parts[0], {}), IntendedSeries(parts[1..], {}),
                IntendedSeries(parts, {}));
  }

  lemma {:induction false} BodyItemMatches(loop: string, item: BodyItem, n: nat, prior: seq<TaskId>)
    ensures var plan := ElaborateBodyItem(loop, item, n);
            Matches(ExpandBodyItem(loop, item, n, LocalIds(prior)), Emit(plan, prior), Intended(plan, {}))
    decreases item, 1
  {
    match item
    case BodyPhase(phase) =>
      BodyPhaseKin(loop, n, phase, prior);
      var ids := LeafSet(Iteration(loop, n), SubstituteIter(phase.name, n), phase.pattern);
      assert Cross({}, ids) + LeafOrder(ids, phase.pattern) == LeafOrder(ids, phase.pattern);
    case BodyLoop(inner) => BodyMatches(inner.name, inner.body, n, prior);
  }

  lemma {:induction false} BodyMatches(loop: string, body: seq<BodyItem>, n: nat, prior: seq<TaskId>)
    ensures var plans := ElaborateBody(loop, body, n);
            Matches(ExpandBody(loop, body, n, LocalIds(prior)), EmitSeries(plans, prior), IntendedSeries(plans, {}))
    decreases body, 0
  {
    if body != [] {
      var plans := ElaborateBody(loop, body, n);
      assert plans[1..] == ElaborateBody(loop, body[1..], n);
      var first := Emit(plans[0], prior);
      BodyItemMatches(loop, body[0], n, prior);
      BodyMatches(loop, body[1..], n, first.terminals);
      SeriesMatches(plans, prior, ExpandBodyItem(loop, body[0], n, LocalIds(prior)),
                    ExpandBody(loop, body[1..], n, LocalIds(first.terminals)));
    }
  }

  lemma {:induction false} IterationsMatch(loop: LoopBlock, n: nat, prior: seq<TaskId>)
    ensures var plans := ElaborateIterations(loop, n);
            Matches(ExpandIterations(loop, n, LocalIds(prior)), EmitSeries(plans, prior), IntendedSeries(plans, {}))
    decreases loop.max + 1 - n
  {
    if n <= loop.max {
      var plans := ElaborateIterations(loop, n);
      assert plans[1..] == ElaborateIterations(loop, n + 1);
      var first := Emit(plans[0], prior);
      BodyMatches(loop.name, loop.body, n, prior);
      IterationsMatch(loop, n + 1, first.terminals);
      SeriesMatches(plans, prior, ExpandBody(loop.name, loop.body, n, LocalIds(prior)),
                    ExpandIterations(loop, n + 1, LocalIds(first.terminals)));
    }
  }

  lemma {:induction false} ItemMatches(item: PhaseItem, pad: Scratchpad, prior: seq<TaskId>)
    ensures var plan := Elaborate(item, pad);
            Matches(ExpandItem(item, pad, LocalIds(prior)), Emit(plan, prior), Intended(plan, {}))
    decreases item, 1
  {
    match item
    case PhaseOf(phase) =>
      WrittenLeaf(Outer, phase.name, phase.pattern, prior);
      WrittenKin(Emit(Elaborate(item, pad), prior).tasks, Intended(Elaborate(item, pad), {}));
    case SequenceBlock(_, items) => SequenceMatches(items, pad, prior);
    case ParallelBlock(_, items) => BranchesMatch(items, pad, prior);
    case LoopOf(loop) => IterationsMatch(loop, 1, prior);
  }

  /** For every workflow, whatever its names, the expansion matches the emission of its plan. */
  lemma {:induction false} SequenceMatches(items: seq<PhaseItem>, pad: Scratchpad, prior: seq<TaskId>)
    ensures var plans := ElaborateAll(items, pad);
            Matches(ExpandSequence(items, pad, LocalIds(prior)), EmitSeries(plans, prior), IntendedSeries(plans, {}))
    decreases items, 0
  {
    if items != [] {
      var plans := ElaborateAll(items, pad);
      assert plans[1..] == ElaborateAll(items[1..], pad);
      var first := Emit(plans[0], prior);
      ItemMatches(items[0], pad, prior);
      SequenceMatches(items[1..], pad, first.terminals);
      SeriesMatches(plans, prior, ExpandItem(items[0], pad, LocalIds(prior)),
                    ExpandSequence(items[1..], pad, LocalIds(first.terminals)));
    }
  }

  lemma {:induction false} BranchesMatch(items: seq<PhaseItem>, pad: Scratchpad, prior: seq<TaskId>)
    ensures var plans := ElaborateAll(items, pad);
            Matches(ExpandBranches(items, pad, LocalIds(prior)), EmitFork(plans, prior), IntendedFork(plans, {}))
    decreases items, 0
  {
    if items != [] {
      var plans := ElaborateAll(items, pad);
      assert plans[1..] == ElaborateAll(items[1..], pad);
      ItemMatches(items[0], pad, prior);
      BranchesMatch(items[1..], pad, prior);
      MatchesThen(ExpandItem(items[0], pad, LocalIds(prior)), ExpandBranches(items[1..], pad, LocalIds(prior)),
                  Emit(plans[0], prior), EmitFork(plans[1..], prior), Intended(plans[0], {}), IntendedFork(plans[1..], {}),
                  IntendedFork(plans, {}));
    }
  }

  // ---- The terminals recorded under a block's name ----

  /** The terminals after the first `m` items. */
  function TerminalsAfter(plans: seq<Plan>, prior: seq<TaskId>, m: nat): seq<TaskId>
    requires m <= |plans|
  {
    EmitSeries(plans[..m], prior).terminals
  }

  /** What is recorded for a block are the terminals of the plan up to and including it. */
  lemma {:induction false} RecordedTerminals(items: seq<PhaseItem>, pad: Scratchpad, prior: seq<TaskId>, name: string)
    returns (m: nat)
    requires name in BlockTerminals(items, pad, LocalIds(prior))
    ensures m <= |ElaborateAll(items, pad)|
    ensures BlockTerminals(items, pad, LocalIds(prior))[name] == LocalIds(TerminalsAfter(ElaborateAll(items, pad), prior, m))
    decreases items
  {
    var plans := ElaborateAll(items, pad);
    assert plans[1..] == ElaborateAll(items[1..], pad);
    var first := Emit(plans[0], prior);
    ItemMatches(items[0], pad, prior);
    if name in BlockTerminals(items[1..], pad, LocalIds(first.terminals)) {
      var k := RecordedTerminals(items[1..], pad, first.terminals, name);
      m := k + 1;
      assert plans[..m][0] == plans[0] && plans[..m][1..] == plans[1..][..k];
    } else {
      m := 1;
      assert plans[..1] == [plans[0]] && [plans[0]][1..] == [];
      assert EmitSeries([plans[0]], prior).terminals == EmitSeries([], first.terminals).terminals;
    }
  }
}
