// The series-parallel plan a block structure describes, and the expanders as a translation of it.

module BlockPlan {
  import opened PhaseSpecs
  import opened PhaseStrategies
  import opened PhaseExecutor
  import opened TaskNaming
  import opened Text

  /** One phase instance is a leaf; everything else is series or parallel composition. */
  datatype Plan =
    | Leaf(scope: Scope, phase: string, pattern: Pattern)
    | Series(parts: seq<Plan>)
    | Fork(branches: seq<Plan>)

  // ---- What the block structure means ----

  function ElaboratePhase(phase: PhaseSpec, pad: Scratchpad): Plan {
    if EvaluateSkip(phase, pad) then Series([]) else Leaf(Outer, phase.name, phase.pattern)
  }

  function ElaborateBodyItem(loop: string, item: BodyItem, n: nat): Plan
    decreases item, 1
  {
    match item
    case BodyPhase(phase) => Leaf(Iteration(loop, n), SubstituteIter(phase.name, n), phase.pattern)
    case BodyLoop(inner) => Series(ElaborateBody(inner.name, inner.body, n))
  }

  function ElaborateBody(loop: string, body: seq<BodyItem>, n: nat): seq<Plan>
    decreases body, 0
  {
    if body == [] then [] else [ElaborateBodyItem(loop, body[0], n)] + ElaborateBody(loop, body[1..], n)
  }

  function ElaborateIterations(loop: LoopBlock, n: nat): seq<Plan>
    decreases loop.max + 1 - n
  {
    if n > loop.max then []
    else [Series(ElaborateBody(loop.name, loop.body, n))] + ElaborateIterations(loop, n + 1)
  }

  function Elaborate(item: PhaseItem, pad: Scratchpad): Plan
    decreases item, 1
  {
    match item
    case PhaseOf(phase) => ElaboratePhase(phase, pad)
    case SequenceBlock(_, items) => Series(ElaborateAll(items, pad))
    case ParallelBlock(_, items) => Fork(ElaborateAll(items, pad))
    case LoopOf(loop) => Series(ElaborateIterations(loop, 1))
  }

  function ElaborateAll(items: seq<PhaseItem>, pad: Scratchpad): seq<Plan>
    decreases items, 0
  {
    if items == [] then [] else [Elaborate(items[0], pad)] + ElaborateAll(items[1..], pad)
  }

  // ---- Translating a plan ----

  datatype Emission = Emission(tasks: seq<TaskSpec>, terminals: seq<TaskId>)

  function Emit(plan: Plan, prior: seq<TaskId>): Emission
    decreases plan, 1
  {
    match plan
    case Leaf(scope, phase, pattern) =>
      Emission(LeafTasks(scope, phase, pattern, prior), LeafTerminals(scope, phase, pattern))
    case Series(parts) => EmitSeries(parts, prior)
    case Fork(branches) => EmitFork(branches, prior)
  }

  function EmitSeries(parts: seq<Plan>, prior: seq<TaskId>): Emission
    decreases parts, 0
  {
    if parts == [] then Emission([], prior)
    else
      var first := Emit(parts[0], prior);
      var rest := EmitSeries(parts[1..], first.terminals);
      Emission(first.tasks + rest.tasks, rest.terminals)
  }

  function EmitFork(branches: seq<Plan>, prior: seq<TaskId>): Emission
    decreases branches, 0
  {
    if branches == [] then Emission([], [])
    else
      var first := Emit(branches[0], prior);
      var rest := EmitFork(branches[1..], prior);
      Emission(first.tasks + rest.tasks, first.terminals + rest.terminals)
  }

  /** The ids of a plan's tasks, in the order in which they are emitted. */
  function PlanIds(plan: Plan): seq<TaskId>
    decreases plan, 1
  {
    match plan
    case Leaf(scope, phase, pattern) => LeafIds(scope, phase, pattern)
    case Series(parts) => PlanIdsOf(parts)
    case Fork(branches) => PlanIdsOf(branches)
  }

  function PlanIdsOf(plans: seq<Plan>): seq<TaskId>
    decreases plans, 0
  {
    if plans == [] then [] else PlanIds(plans[0]) + PlanIdsOf(plans[1..])
  }

  lemma {:induction false} EmitIds(plan: Plan, prior: seq<TaskId>)
    ensures Ids(Emit(plan, prior).tasks) == PlanIds(plan)
    decreases plan, 1
  {
    match plan
    case Leaf(scope, phase, pattern) => LeafTaskIds(scope, phase, pattern, prior);
    case Series(parts) => EmitSeriesIds(parts, prior);
    case Fork(branches) => EmitForkIds(branches, prior);
  }

  lemma {:induction false} EmitSeriesIds(parts: seq<Plan>, prior: seq<TaskId>)
    ensures Ids(EmitSeries(parts, prior).tasks) == PlanIdsOf(parts)
    decreases parts, 0
  {
    if parts != [] {
      var first := Emit(parts[0], prior);
      EmitIds(parts[0], prior);
      EmitSeriesIds(parts[1..], first.terminals);
      assert Ids(first.tasks + EmitSeries(parts[1..], first.terminals).tasks)
          == Ids(first.tasks) + Ids(EmitSeries(parts[1..], first.terminals).tasks);
    }
  }

  lemma {:induction false} EmitForkIds(branches: seq<Plan>, prior: seq<TaskId>)
    ensures Ids(EmitFork(branches, prior).tasks) == PlanIdsOf(branches)
    decreases branches, 0
  {
    if branches != [] {
      EmitIds(branches[0], prior);
      EmitForkIds(branches[1..], prior);
      assert Ids(Emit(branches[0], prior).tasks + EmitFork(branches[1..], prior).tasks)
          == Ids(Emit(branches[0], prior).tasks) + Ids(EmitFork(branches[1..], prior).tasks);
    }
  }

  // ---- Loop phases that clash with what they follow ----

  /**
    * The loop phase follows a task that bears one of its own id strings, with or without the
    * iteration's prefix: renaming turns the dependency on that task into one on the phase itself.
    */
  predicate Clashes(loop: string, n: nat, phase: PhaseSpec, prior: seq<string>) {
    var name := SubstituteIter(phase.name, n);
    exists c :: c in prior
      && (c in LocalIds(LeafIds(Outer, name, phase.pattern))
          || c in LocalIds(LeafIds(Iteration(loop, n), name, phase.pattern)))
  }

  // ---- No phase of an expansion clashes with what it follows ----

  predicate CleanBody(loop: string, body: seq<BodyItem>, n: nat, prior: seq<string>)
    decreases body, 0
  {
    body == [] ||
    (CleanBodyItem(loop, body[0], n, prior)
     && CleanBody(loop, body[1..], n, ExpandBodyItem(loop, body[0], n, prior).terminals))
  }

  predicate CleanBodyItem(loop: string, item: BodyItem, n: nat, prior: seq<string>)
    decreases item, 1
  {
    match item
    case BodyPhase(phase) => !Clashes(loop, n, phase, prior)
    case BodyLoop(inner) => CleanBody(inner.name, inner.body, n, prior)
  }

  predicate CleanIterations(loop: LoopBlock, n: nat, prior: seq<string>)
    decreases loop.max + 1 - n
  {
    n > loop.max ||
    (CleanBody(loop.name, loop.body, n, prior)
     && CleanIterations(loop, n + 1, ExpandBody(loop.name, loop.body, n, prior).terminals))
  }

  predicate CleanItem(item: PhaseItem, pad: Scratchpad, prior: seq<string>)
    decreases item, 1
  {
    match item
    case PhaseOf(_) => true
    case SequenceBlock(_, items) => CleanSequence(items, pad, prior)
    case ParallelBlock(_, items) => CleanBranches(items, pad, prior)
    case LoopOf(loop) => CleanIterations(loop, 1, prior)
  }

  predicate CleanSequence(items: seq<PhaseItem>, pad: Scratchpad, prior: seq<string>)
    decreases items, 0
  {
    items == [] ||
    (CleanItem(items[0], pad, prior) && CleanSequence(items[1..], pad, ExpandItem(items[0], pad, prior).terminals))
  }

  predicate CleanBranches(items: seq<PhaseItem>, pad: Scratchpad, prior: seq<string>)
    decreases items, 0
  {
    items == [] || (CleanItem(items[0], pad, prior) && CleanBranches(items[1..], pad, prior))
  }

  // ---- The expanders translate the plan ----

  /** The expansion is the emission with its ids written out. */
  ghost predicate Translates(e: Expansion, m: Emission) {
    e.tasks == Written(m.tasks) && e.terminals == LocalIds(m.terminals)
  }

  /** An id inside an iteration is the plain id behind the iteration's prefix. */
  lemma PrefixedId(scope: Scope, phase: string, slot: Slot)
    ensures Prefix(scope) + LocalId(TaskId(Outer, phase, slot)) == LocalId(TaskId(scope, phase, slot))
  {
    var raw := LocalId(TaskId(Outer, phase, slot));
    assert Label(TaskId(Outer, phase, slot)) == MARK + phase;
    assert Prefix(scope) + ((MARK + phase) + "_" + SlotText(slot)) == (Prefix(scope) + MARK + phase) + "_" + SlotText(slot);
  }

  /** Whatever the list of own ids holds besides, the written ids of the phase get the prefix. */
  lemma RenameOwn(scope: Scope, ids: seq<TaskId>, own: seq<string>)
    requires forall x | x in ids :: x.scope == Outer && LocalId(x) in own
    ensures RenameIds(own, Prefix(scope), LocalIds(ids)) == LocalIds(Rescoped(ids, scope))
  {
    forall i | 0 <= i < |ids|
      ensures RenameIds(own, Prefix(scope), LocalIds(ids))[i] == LocalIds(Rescoped(ids, scope))[i]
    {
      assert ids[i] in ids;
      PrefixedId(scope, ids[i].phase, ids[i].slot);
    }
  }

  function Rescoped(ids: seq<TaskId>, scope: Scope): (r: seq<TaskId>)
    ensures |r| == |ids| && forall i | 0 <= i < |ids| :: r[i] == ids[i].(scope := scope)
  {
    seq(|ids|, i requires 0 <= i < |ids| => ids[i].(scope := scope))
  }

  lemma {:induction false} RescopedDebate(phase: string, r: nat, rounds: nat, scope: Scope)
    ensures Rescoped(DebateIds(Outer, phase, r, rounds), scope) == DebateIds(scope, phase, r, rounds)
    decreases rounds + 1 - r
  {
    if r <= rounds {
      RescopedDebate(phase, r + 1, rounds, scope);
    }
  }

  lemma RescopedLeaf(phase: string, pattern: Pattern, scope: Scope)
    ensures Rescoped(LeafIds(Outer, phase, pattern), scope) == LeafIds(scope, phase, pattern)
    ensures Rescoped(LeafTerminals(Outer, phase, pattern), scope) == LeafTerminals(scope, phase, pattern)
    ensures forall x | x in LeafTerminals(Outer, phase, pattern) :: x in LeafIds(Outer, phase, pattern)
  {
    if pattern.Debate? {
      RescopedDebate(phase, 1, AtLeastOne(pattern.rounds), scope);
      DebateIdsRange(Outer, phase, 1, AtLeastOne(pattern.rounds));
    }
  }

  lemma RenameTurn(
      own: seq<string>, prefix: string, adv: string, crit: string, deps: seq<string>, rest: seq<LocalSpec>)
    requires adv in own && crit in own
    ensures RenameTasks(own, prefix, [TaskSpec(adv, deps), TaskSpec(crit, [adv])] + rest)
         == [TaskSpec(prefix + adv, RenameIds(own, prefix, deps)), TaskSpec(prefix + crit, [prefix + adv])]
            + RenameTasks(own, prefix, rest)
    ensures RenameIds(own, prefix, [crit]) == [prefix + crit]
  {
    assert RenameIds(own, prefix, [adv]) == [prefix + adv];
  }

  lemma RenameLast(own: seq<string>, prefix: string, last: string, deps: seq<string>)
    requires last in own
    ensures RenameTasks(own, prefix, [TaskSpec(last, deps)]) == [TaskSpec(prefix + last, RenameIds(own, prefix, deps))]
  {
  }

  lemma {:induction false} RenameDebate(
      phase: string, r: nat, rounds: nat, deps: seq<string>, scope: Scope, own: seq<string>)
    requires forall x | x in DebateIds(Outer, phase, r, rounds) :: LocalId(x) in own
    ensures RenameTasks(own, Prefix(scope), LocalDebate(Outer, phase, r, rounds, deps))
         == LocalDebate(scope, phase, r, rounds, RenameIds(own, Prefix(scope), deps))
    decreases rounds + 1 - r
  {
    var ids := DebateIds(Outer, phase, r, rounds);
    if r > rounds {
      assert ids[0] in ids;
      PrefixedId(scope, phase, Judge);
      RenameLast(own, Prefix(scope), LocalId(ids[0]), deps);
    } else {
      assert ids[0] in ids && ids[1] in ids;
      var adv, crit := LocalId(ids[0]), LocalId(ids[1]);
      PrefixedId(scope, phase, Advocate(r));
      PrefixedId(scope, phase, Critic(r));
      RenameDebate(phase, r + 1, rounds, [crit], scope, own);
      RenameTurn(own, Prefix(scope), adv, crit, deps, LocalDebate(Outer, phase, r + 1, rounds, [crit]));
    }
  }

  lemma RenameFan(ids: seq<TaskId>, prior: seq<string>, scope: Scope, own: seq<string>)
    requires forall x | x in ids :: x.scope == Outer && LocalId(x) in own
    ensures RenameTasks(own, Prefix(scope), Fan(LocalIds(ids), prior))
         == Fan(LocalIds(Rescoped(ids, scope)), RenameIds(own, Prefix(scope), prior))
  {
    RenameOwn(scope, ids, own);
    forall i | 0 <= i < |ids|
      ensures RenameTasks(own, Prefix(scope), Fan(LocalIds(ids), prior))[i]
           == Fan(LocalIds(Rescoped(ids, scope)), RenameIds(own, Prefix(scope), prior))[i]
    {
      assert RenameIds(own, Prefix(scope), LocalIds(ids))[i] == LocalIds(Rescoped(ids, scope))[i];
    }
  }

  lemma RenamedCompetitive(phase: string, n: int, judged: bool, prior: seq<string>, scope: Scope, own: seq<string>)
    requires own == LocalIds(LeafIds(Outer, phase, Competitive(n, judged)))
    ensures RenameTasks(own, Prefix(scope), LocalTasks(Outer, phase, Competitive(n, judged), prior))
         == LocalTasks(scope, phase, Competitive(n, judged), RenameIds(own, Prefix(scope), prior))
  {
    var workers := Workers(Outer, phase, AtLeastOne(n));
    OwnWritten(LeafIds(Outer, phase, Competitive(n, judged)));
    assert forall x | x in workers :: x in LeafIds(Outer, phase, Competitive(n, judged));
    RenameFan(workers, prior, scope, own);
    RenameOwn(scope, workers, own);
    assert Rescoped(workers, scope) == Workers(scope, phase, AtLeastOne(n));
    if judged {
      var judge := TaskId(Outer, phase, Judge);
      assert judge in LeafIds(Outer, phase, Competitive(n, judged));
      PrefixedId(scope, phase, Judge);
      var last := [TaskSpec(LocalId(judge), LocalIds(workers))];
      assert RenameTasks(own, Prefix(scope), last)
          == [TaskSpec(LocalId(TaskId(scope, phase, Judge)), LocalIds(Workers(scope, phase, AtLeastOne(n))))];
      RenameConcat(own, Prefix(scope), Fan(LocalIds(workers), prior), last);
    } else {
      RenameConcat(own, Prefix(scope), Fan(LocalIds(workers), prior), []);
    }
  }

  lemma RenameConcat(own: seq<string>, prefix: string, a: seq<LocalSpec>, b: seq<LocalSpec>)
    ensures RenameTasks(own, prefix, a + b) == RenameTasks(own, prefix, a) + RenameTasks(own, prefix, b)
  {
  }

  lemma OwnWritten(ids: seq<TaskId>)
    ensures forall x | x in ids :: LocalId(x) in LocalIds(ids)
  {
    forall x | x in ids
      ensures LocalId(x) in LocalIds(ids)
    {
      var i :| 0 <= i < |ids| && ids[i] == x;
      assert LocalIds(ids)[i] == LocalId(x);
    }
  }

  lemma MovedIds(phase: string, pattern: Pattern, scope: Scope)
    ensures var own := LocalIds(LeafIds(Outer, phase, pattern));
            RenameIds(own, Prefix(scope), own) == LocalIds(LeafIds(scope, phase, pattern))
  {
    var ids := LeafIds(Outer, phase, pattern);
    LeafIdsDistinct(Outer, phase, pattern);
    OwnWritten(ids);
    RescopedLeaf(phase, pattern, scope);
    RenameOwn(scope, ids, LocalIds(ids));
  }

  /** Renaming a freshly expanded phase is expanding it, in the iteration's namespace, after renamed ids. */
  lemma RenamedAnyway(phase: string, pattern: Pattern, prior: seq<string>, scope: Scope)
    ensures var raw := LocalTasks(Outer, phase, pattern, prior);
            var own := Ids(raw);
            && own == LocalIds(LeafIds(Outer, phase, pattern))
            && RenameTasks(own, Prefix(scope), raw)
               == LocalTasks(scope, phase, pattern, RenameIds(own, Prefix(scope), prior))
            && RenameIds(own, Prefix(scope), LocalTerminals(Outer, phase, pattern)) == LocalTerminals(scope, phase, pattern)
  {
    var ids := LeafIds(Outer, phase, pattern);
    var own := LocalIds(ids);
    LocalTaskIds(Outer, phase, pattern, prior);
    LeafIdsDistinct(Outer, phase, pattern);
    OwnWritten(ids);
    RescopedLeaf(phase, pattern, scope);
    RenameOwn(scope, LeafTerminals(Outer, phase, pattern), own);
    match pattern
    case Single =>
      assert [LocalId(ids[0])] == own;
      RenameFan(ids, prior, scope, own);
      assert LeafIds(scope, phase, pattern) == [TaskId(scope, phase, Worker(0))];
      assert LocalIds(LeafIds(scope, phase, pattern)) == [LocalId(TaskId(scope, phase, Worker(0)))];
    case Parallel(n) => RenameFan(ids, prior, scope, own);
    case Competitive(n, judged) => RenamedCompetitive(phase, n, judged, prior, scope, own);
    case Debate(r) => RenameDebate(phase, 1, AtLeastOne(r), prior, scope, own);
  }

  /** Unless it follows one of its own ids, a renamed phase is the phase in the iteration's namespace. */
  lemma RenamedLeaf(phase: string, pattern: Pattern, prior: seq<string>, scope: Scope)
    requires forall d | d in prior :: d !in LocalIds(LeafIds(Outer, phase, pattern))
    ensures var raw := LocalTasks(Outer, phase, pattern, prior);
            var own := Ids(raw);
            && RenameTasks(own, Prefix(scope), raw) == LocalTasks(scope, phase, pattern, prior)
            && RenameIds(own, Prefix(scope), LocalTerminals(Outer, phase, pattern)) == LocalTerminals(scope, phase, pattern)
  {
    RenamedAnyway(phase, pattern, prior, scope);
    assert RenameIds(LocalIds(LeafIds(Outer, phase, pattern)), Prefix(scope), prior) == prior;
  }

  lemma WrittenConcat(a: seq<TaskSpec>, b: seq<TaskSpec>)
    ensures Written(a + b) == Written(a) + Written(b)
  {
  }

  lemma LocalIdsConcat(a: seq<TaskId>, b: seq<TaskId>)
    ensures LocalIds(a + b) == LocalIds(a) + LocalIds(b)
  {
  }

  lemma {:induction false} BodyItemTranslates(loop: string, item: BodyItem, n: nat, prior: seq<TaskId>)
    requires CleanBodyItem(loop, item, n, LocalIds(prior))
    ensures Translates(ExpandBodyItem(loop, item, n, LocalIds(prior)), Emit(ElaborateBodyItem(loop, item, n), prior))
    decreases item, 1
  {
    match item
    case BodyPhase(phase) =>
      var name, scope := SubstituteIter(phase.name, n), Iteration(loop, n);
      RenamedLeaf(name, phase.pattern, LocalIds(prior), scope);
      WrittenLeaf(scope, name, phase.pattern, prior);
    case BodyLoop(inner) => BodyTranslates(inner.name, inner.body, n, prior);
  }

  lemma {:induction false} BodyTranslates(loop: string, body: seq<BodyItem>, n: nat, prior: seq<TaskId>)
    requires CleanBody(loop, body, n, LocalIds(prior))
    ensures Translates(ExpandBody(loop, body, n, LocalIds(prior)), EmitSeries(ElaborateBody(loop, body, n), prior))
    decreases body, 0
  {
    if body != [] {
      assert ElaborateBody(loop, body, n)[1..] == ElaborateBody(loop, body[1..], n);
      BodyItemTranslates(loop, body[0], n, prior);
      var first := Emit(ElaborateBodyItem(loop, body[0], n), prior);
      BodyTranslates(loop, body[1..], n, first.terminals);
      WrittenConcat(first.tasks, EmitSeries(ElaborateBody(loop, body[1..], n), first.terminals).tasks);
    }
  }

  lemma {:induction false} IterationsTranslate(loop: LoopBlock, n: nat, prior: seq<TaskId>)
    requires CleanIterations(loop, n, LocalIds(prior))
    ensures Translates(ExpandIterations(loop, n, LocalIds(prior)), EmitSeries(ElaborateIterations(loop, n), prior))
    decreases loop.max + 1 - n
  {
    if n <= loop.max {
      assert ElaborateIterations(loop, n)[1..] == ElaborateIterations(loop, n + 1);
      BodyTranslates(loop.name, loop.body, n, prior);
      var first := EmitSeries(ElaborateBody(loop.name, loop.body, n), prior);
      IterationsTranslate(loop, n + 1, first.terminals);
      WrittenConcat(first.tasks, EmitSeries(ElaborateIterations(loop, n + 1), first.terminals).tasks);
    }
  }

  lemma {:induction false} ItemTranslates(item: PhaseItem, pad: Scratchpad, prior: seq<TaskId>)
    requires CleanItem(item, pad, LocalIds(prior))
    ensures Translates(ExpandItem(item, pad, LocalIds(prior)), Emit(Elaborate(item, pad), prior))
    decreases item, 1
  {
    match item
    case PhaseOf(phase) => WrittenLeaf(Outer, phase.name, phase.pattern, prior);
    case SequenceBlock(_, items) => SequenceTranslates(items, pad, prior);
    case ParallelBlock(_, items) => BranchesTranslate(items, pad, prior);
    case LoopOf(loop) => IterationsTranslate(loop, 1, prior);
  }

  /** Whatever clashes nowhere expands to the direct emission of the plan it denotes. */
  lemma {:induction false} SequenceTranslates(items: seq<PhaseItem>, pad: Scratchpad, prior: seq<TaskId>)
    requires CleanSequence(items, pad, LocalIds(prior))
    ensures Translates(ExpandSequence(items, pad, LocalIds(prior)), EmitSeries(ElaborateAll(items, pad), prior))
    decreases items, 0
  {
    if items != [] {
      assert ElaborateAll(items, pad)[1..] == ElaborateAll(items[1..], pad);
      ItemTranslates(items[0], pad, prior);
      var first := Emit(Elaborate(items[0], pad), prior);
      SequenceTranslates(items[1..], pad, first.terminals);
      WrittenConcat(first.tasks, EmitSeries(ElaborateAll(items[1..], pad), first.terminals).tasks);
    }
  }

  lemma {:induction false} BranchesTranslate(items: seq<PhaseItem>, pad: Scratchpad, prior: seq<TaskId>)
    requires CleanBranches(items, pad, LocalIds(prior))
    ensures Translates(ExpandBranches(items, pad, LocalIds(prior)), EmitFork(ElaborateAll(items, pad), prior))
    decreases items, 0
  {
    if items != [] {
      assert ElaborateAll(items, pad)[1..] == ElaborateAll(items[1..], pad);
      ItemTranslates(items[0], pad, prior);
      BranchesTranslate(items[1..], pad, prior);
      var first, rest := Emit(Elaborate(items[0], pad), prior), EmitFork(ElaborateAll(items[1..], pad), prior);
      WrittenConcat(first.tasks, rest.tasks);
      LocalIdsConcat(first.terminals, rest.terminals);
    }
  }

  /** All id strings are distinct and no loop phase follows one of its own. */
  ghost predicate Accepted(items: seq<PhaseItem>, pad: Scratchpad) {
    CleanSequence(items, pad, []) && NoDuplicates(Ids(ExpandSequence(items, pad, []).tasks))
  }

  /**
    * An accepted workflow expands to the direct emission of its plan, written out; its id strings are
    * distinct, so they identify the tasks of the plan.
    */
  lemma ExpansionTranslates(items: seq<PhaseItem>, pad: Scratchpad)
    requires Accepted(items, pad)
    ensures Translates(ExpandSequence(items, pad, []), EmitSeries(ElaborateAll(items, pad), []))
    ensures NoDuplicates(PlanIdsOf(ElaborateAll(items, pad)))
    ensures NoDuplicates(LocalIds(PlanIdsOf(ElaborateAll(items, pad))))
  {
    var m := EmitSeries(ElaborateAll(items, pad), []);
    assert LocalIds([]) == [];
    SequenceTranslates(items, pad, []);
    EmitSeriesIds(ElaborateAll(items, pad), []);
    assert Ids(Written(m.tasks)) == LocalIds(Ids(m.tasks));
    DistinctWhenWritten(Ids(m.tasks));
  }

  lemma DistinctWhenWritten(ids: seq<TaskId>)
    requires NoDuplicates(LocalIds(ids))
    ensures NoDuplicates(ids)
  {
    forall i, j | 0 <= i < j < |ids|
      ensures ids[i] != ids[j]
    {
      assert LocalIds(ids)[i] != LocalIds(ids)[j];
    }
  }

  /**
    * Why capture must be ruled out: a phase named like the phase just before the loop is rewritten
    * to depend on itself.
    */
  lemma CapturedPhaseDependsOnItself(n: nat)
    requires n >= 1
    ensures var phase := PhaseSpec("a", Single, Wrappers.None);
            var items := [PhaseOf(phase), LoopOf(LoopBlock("l", n, [BodyPhase(phase)]))];
            var tasks := ExpandSequence(items, Wrappers.None, []).tasks;
            |tasks| >= 2 && tasks[1].id in tasks[1].dependsOn
  {
    var phase := PhaseSpec("a", Single, Wrappers.None);
    var loop := LoopBlock("l", n, [BodyPhase(phase)]);
    var items := [PhaseOf(phase), LoopOf(loop)];
    var raw := LocalId(TaskId(Outer, "a", Worker(0)));
    var first := ExpandItem(items[0], Wrappers.None, []);
    SinglePhase("a", []);
    assert first.tasks == [TaskSpec(raw, [])] && first.terminals == [raw];
    assert items[1..] == [LoopOf(loop)];
    var only := ExpandBodyPhase("l", 1, phase, [raw]);
    SinglePhase("a", [raw]);
    assert SubstituteIter("a", 1) == "a";
    assert Ids([TaskSpec(raw, [raw])]) == [raw];
    var prefix := Prefix(Iteration("l", 1));
    assert RenameIds([raw], prefix, [raw]) == [prefix + raw];
    assert only.tasks[0] == TaskSpec(prefix + raw, [prefix + raw]);
    assert loop.body[0] == BodyPhase(phase) && loop.body[1..] == [];
    assert ExpandBodyItem("l", loop.body[0], 1, [raw]) == only;
    var body := ExpandBody("l", loop.body, 1, [raw]);
    assert body.tasks[0] == only.tasks[0];
    var iterations := ExpandIterations(loop, 1, [raw]);
    assert iterations.tasks[0] == body.tasks[0];
    var rest := ExpandSequence([LoopOf(loop)], Wrappers.None, [raw]);
    assert ExpandItem([LoopOf(loop)][0], Wrappers.None, [raw]) == iterations;
    assert rest.tasks[0] == iterations.tasks[0];
    assert ExpandSequence(items, Wrappers.None, []).tasks == first.tasks + rest.tasks;
  }

  lemma SinglePhase(phase: string, prior: seq<string>)
    ensures LocalTasks(Outer, phase, Single, prior) == [TaskSpec(LocalId(TaskId(Outer, phase, Worker(0))), prior)]
    ensures LocalTerminals(Outer, phase, Single) == [LocalId(TaskId(Outer, phase, Worker(0)))]
  {
  }
}
