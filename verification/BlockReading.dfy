// What an author reads off the blocks: which tasks they call for, and which of them must precede which.
// The expansion lists exactly these tasks, and the order of the plan is exactly this order.

module BlockReading {
  import opened Wrappers
  import opened PhaseSpecs
  import opened PhaseStrategies
  import opened PhaseExecutor
  import opened BlockPlan
  import opened BlockMeaning
  import opened BlockTheorems
  import opened PostedMeaning
  import opened TaskNaming
  import opened Text

  // ---- The tasks ----

  /** The phase has a skip condition, there is a scratchpad, and the condition holds on it. */
  ghost predicate IsSkipped(phase: PhaseSpec, pad: Scratchpad) {
    && phase.skip.Some? && pad.Some?
    && var c := phase.skip.value; (c.key in pad.value && (c.value == "" || pad.value[c.key] == c.value)) <==> !c.negate
  }

  ghost predicate InPhase(scope: Scope, phase: string, pattern: Pattern, x: TaskId) {
    x.scope == scope && x.phase == phase && HasSlot(pattern, x.slot)
  }

  /** Loop phases bear the iteration number in their names; a nested loop runs once, with the outer number. */
  ghost predicate InBody(loop: string, item: BodyItem, n: nat, x: TaskId)
    decreases item
  {
    match item
    case BodyPhase(phase) => InPhase(Iteration(loop, n), SubstituteIter(phase.name, n), phase.pattern, x)
    case BodyLoop(inner) => exists i :: 0 <= i < |inner.body| && InBody(inner.name, inner.body[i], n, x)
  }

  /** The n-th iteration of the loop, from one up to its maximum. */
  ghost predicate InIteration(loop: LoopBlock, n: nat, x: TaskId) {
    1 <= n <= loop.max && exists i :: 0 <= i < |loop.body| && InBody(loop.name, loop.body[i], n, x)
  }

  ghost predicate InItem(item: PhaseItem, pad: Scratchpad, x: TaskId)
    decreases item
  {
    match item
    case PhaseOf(phase) => !IsSkipped(phase, pad) && InPhase(Outer, phase.name, phase.pattern, x)
    case SequenceBlock(_, items) => exists i :: 0 <= i < |items| && InItem(items[i], pad, x)
    case ParallelBlock(_, items) => exists i :: 0 <= i < |items| && InItem(items[i], pad, x)
    case LoopOf(loop) => exists n: nat :: InIteration(loop, n, x)
  }

  // ---- The order ----

  ghost predicate PhaseBefore(scope: Scope, phase: string, pattern: Pattern, x: TaskId, y: TaskId) {
    InPhase(scope, phase, pattern, x) && InPhase(scope, phase, pattern, y) && SlotBefore(pattern, x.slot, y.slot)
  }

  /** Within one item of a loop body, or in an earlier and a later one. */
  ghost predicate BodyBefore(loop: string, item: BodyItem, n: nat, x: TaskId, y: TaskId)
    decreases item
  {
    match item
    case BodyPhase(phase) => PhaseBefore(Iteration(loop, n), SubstituteIter(phase.name, n), phase.pattern, x, y)
    case BodyLoop(inner) =>
      || (exists i :: 0 <= i < |inner.body| && BodyBefore(inner.name, inner.body[i], n, x, y))
      || (exists i, j :: 0 <= i < j < |inner.body| && InBody(inner.name, inner.body[i], n, x)
                         && InBody(inner.name, inner.body[j], n, y))
  }

  ghost predicate IterationBefore(loop: LoopBlock, n: nat, x: TaskId, y: TaskId) {
    && 1 <= n <= loop.max
    && (|| (exists i :: 0 <= i < |loop.body| && BodyBefore(loop.name, loop.body[i], n, x, y))
        || (exists i, j :: 0 <= i < j < |loop.body| && InBody(loop.name, loop.body[i], n, x)
                           && InBody(loop.name, loop.body[j], n, y)))
  }

  /** Sequences and loops put each part before the later ones, parallel blocks do not. */
  ghost predicate ItemBefore(item: PhaseItem, pad: Scratchpad, x: TaskId, y: TaskId)
    decreases item
  {
    match item
    case PhaseOf(phase) => !IsSkipped(phase, pad) && PhaseBefore(Outer, phase.name, phase.pattern, x, y)
    case SequenceBlock(_, items) =>
      || (exists i :: 0 <= i < |items| && ItemBefore(items[i], pad, x, y))
      || (exists i, j :: 0 <= i < j < |items| && InItem(items[i], pad, x) && InItem(items[j], pad, y))
    case ParallelBlock(_, items) => exists i :: 0 <= i < |items| && ItemBefore(items[i], pad, x, y)
    case LoopOf(loop) =>
      || (exists n: nat :: IterationBefore(loop, n, x, y))
      || (exists n: nat, m: nat :: n < m && InIteration(loop, n, x) && InIteration(loop, m, y))
  }

  /** A workflow is read like a sequence of its items. */
  ghost predicate CalledFor(items: seq<PhaseItem>, pad: Scratchpad, x: TaskId) {
    exists i :: 0 <= i < |items| && InItem(items[i], pad, x)
  }

  ghost predicate ComesBefore(items: seq<PhaseItem>, pad: Scratchpad, x: TaskId, y: TaskId) {
    || (exists i :: 0 <= i < |items| && ItemBefore(items[i], pad, x, y))
    || (exists i, j :: 0 <= i < j < |items| && InItem(items[i], pad, x) && InItem(items[j], pad, y))
  }

  // ---- Members and order of a plan, part by part ----

  lemma {:induction false} MembersAt(plans: seq<Plan>, x: TaskId)
    ensures x in MembersOf(plans) <==> exists i :: 0 <= i < |plans| && x in Members(plans[i])
    decreases plans
  {
    if plans != [] {
      var rest := plans[1..];
      MembersAt(rest, x);
      if i :| 0 <= i < |rest| && x in Members(rest[i]) {
        assert plans[i + 1] == rest[i];
      }
      if i :| 0 <= i < |plans| && x in Members(plans[i]) {
        assert i > 0 ==> rest[i - 1] == plans[i];
      }
    }
  }

  /** Within one part, or in an earlier and a later one. */
  ghost predicate InSeries(parts: seq<Plan>, p: (TaskId, TaskId)) {
    InSomePart(parts, p) || AcrossParts(parts, p)
  }

  ghost predicate InSomePart(parts: seq<Plan>, p: (TaskId, TaskId)) {
    exists i :: 0 <= i < |parts| && p in Intended(parts[i], {})
  }

  ghost predicate AcrossParts(parts: seq<Plan>, p: (TaskId, TaskId)) {
    exists i, j :: 0 <= i < j < |parts| && p.0 in Members(parts[i]) && p.1 in Members(parts[j])
  }

  lemma SomePartNext(parts: seq<Plan>, p: (TaskId, TaskId))
    requires parts != []
    ensures InSomePart(parts, p) <==> p in Intended(parts[0], {}) || InSomePart(parts[1..], p)
  {
    var rest := parts[1..];
    if i :| 0 <= i < |rest| && p in Intended(rest[i], {}) {
      assert parts[i + 1] == rest[i];
    }
    if i :| 0 <= i < |parts| && p in Intended(parts[i], {}) {
      assert i > 0 ==> rest[i - 1] == parts[i];
    }
  }

  lemma AcrossNext(parts: seq<Plan>, p: (TaskId, TaskId))
    requires parts != []
    ensures AcrossParts(parts, p) <==>
              (p.0 in Members(parts[0]) && p.1 in MembersOf(parts[1..])) || AcrossParts(parts[1..], p)
  {
    var rest := parts[1..];
    MembersAt(rest, p.1);
    if i, j :| 0 <= i < j < |rest| && p.0 in Members(rest[i]) && p.1 in Members(rest[j]) {
      assert parts[i + 1] == rest[i] && parts[j + 1] == rest[j];
    }
    if p.0 in Members(parts[0]) && p.1 in MembersOf(rest) {
      var j :| 0 <= j < |rest| && p.1 in Members(rest[j]);
      assert parts[j + 1] == rest[j];
    }
    if i, j :| 0 <= i < j < |parts| && p.0 in Members(parts[i]) && p.1 in Members(parts[j]) {
      assert rest[j - 1] == parts[j];
      assert i > 0 ==> rest[i - 1] == parts[i];
    }
  }

  lemma {:induction false} SeriesRead(parts: seq<Plan>, pre: set<TaskId>, p: (TaskId, TaskId))
    ensures p in IntendedSeries(parts, pre) <==> (p.0 in pre && p.1 in MembersOf(parts)) || InSeries(parts, p)
    decreases parts, 0
  {
    if parts != [] {
      PreSplit(parts[0], pre, p);
      SeriesRead(parts[1..], pre + Members(parts[0]), p);
      SomePartNext(parts, p);
      AcrossNext(parts, p);
    }
  }

  lemma {:induction false} ForkRead(branches: seq<Plan>, pre: set<TaskId>, p: (TaskId, TaskId))
    ensures p in IntendedFork(branches, pre) <==>
              (p.0 in pre && p.1 in MembersOf(branches)) || InSomePart(branches, p)
    decreases branches, 0
  {
    if branches != [] {
      PreSplit(branches[0], pre, p);
      ForkRead(branches[1..], pre, p);
      SomePartNext(branches, p);
    }
  }

  /** What comes before a plan comes before all of its tasks; apart from that the order is the plan's own. */
  lemma {:induction false} PreSplit(plan: Plan, pre: set<TaskId>, p: (TaskId, TaskId))
    ensures p in Intended(plan, pre) <==> (p.0 in pre && p.1 in Members(plan)) || p in Intended(plan, {})
    decreases plan, 1
  {
    match plan
    case Leaf(_, _, _) =>
    case Series(parts) =>
      SeriesRead(parts, pre, p);
      SeriesRead(parts, {}, p);
    case Fork(branches) =>
      ForkRead(branches, pre, p);
      ForkRead(branches, {}, p);
  }

  // ---- The parts of an elaborated block ----

  lemma {:induction false} ElaborateAt(items: seq<PhaseItem>, pad: Scratchpad, k: nat)
    requires k < |items|
    ensures |ElaborateAll(items, pad)| == |items| && ElaborateAll(items, pad)[k] == Elaborate(items[k], pad)
    decreases items
  {
    if |items| > 1 {
      ElaborateAt(items[1..], pad, if k > 0 then k - 1 else 0);
    }
  }

  lemma AllElaborated(items: seq<PhaseItem>, pad: Scratchpad)
    ensures var plans := ElaborateAll(items, pad);
            |plans| == |items| && forall k | 0 <= k < |items| :: plans[k] == Elaborate(items[k], pad)
  {
    if items != [] {
      ElaborateAt(items, pad, 0);
      forall k | 0 <= k < |items|
        ensures ElaborateAll(items, pad)[k] == Elaborate(items[k], pad)
      {
        ElaborateAt(items, pad, k);
      }
    }
  }

  lemma {:induction false} BodyElaborated(loop: string, body: seq<BodyItem>, n: nat)
    ensures var plans := ElaborateBody(loop, body, n);
            |plans| == |body| && forall k | 0 <= k < |body| :: plans[k] == ElaborateBodyItem(loop, body[k], n)
    decreases body
  {
    if body != [] {
      BodyElaborated(loop, body[1..], n);
    }
  }

  lemma {:induction false} IterationsElaborated(loop: LoopBlock, n: nat)
    requires 1 <= n <= loop.max + 1
    ensures var plans := ElaborateIterations(loop, n);
            && |plans| == loop.max + 1 - n
            && forall k | 0 <= k < |plans| :: plans[k] == Series(ElaborateBody(loop.name, loop.body, n + k))
    decreases loop.max + 1 - n
  {
    if n <= loop.max {
      IterationsElaborated(loop, n + 1);
    }
  }

  // ---- The plan has exactly the tasks that the blocks call for ----

  lemma SkippedExactly(phase: PhaseSpec, pad: Scratchpad)
    ensures EvaluateSkip(phase, pad) <==> IsSkipped(phase, pad)
  {
  }

  lemma LeafTasksRead(scope: Scope, phase: string, pattern: Pattern, x: TaskId)
    ensures x in LeafSet(scope, phase, pattern) <==> InPhase(scope, phase, pattern, x)
  {
    LeafIdsExactly(scope, phase, pattern);
  }

  lemma {:induction false} BodyItemTasks(loop: string, item: BodyItem, n: nat, x: TaskId)
    ensures x in Members(ElaborateBodyItem(loop, item, n)) <==> InBody(loop, item, n, x)
    decreases item, 1
  {
    match item
    case BodyPhase(phase) => LeafTasksRead(Iteration(loop, n), SubstituteIter(phase.name, n), phase.pattern, x);
    case BodyLoop(inner) => BodyTasks(inner.name, inner.body, n, x);
  }

  lemma {:induction false} BodyTasks(loop: string, body: seq<BodyItem>, n: nat, x: TaskId)
    ensures x in MembersOf(ElaborateBody(loop, body, n)) <==> exists i :: 0 <= i < |body| && InBody(loop, body[i], n, x)
    decreases body, 0
  {
    var plans := ElaborateBody(loop, body, n);
    BodyElaborated(loop, body, n);
    MembersAt(plans, x);
    forall i | 0 <= i < |body|
      ensures x in Members(plans[i]) <==> InBody(loop, body[i], n, x)
    {
      BodyItemTasks(loop, body[i], n, x);
    }
  }

  lemma IterationTasks(loop: LoopBlock, x: TaskId)
    ensures var plans := ElaborateIterations(loop, 1);
            && |plans| == loop.max
            && forall k | 0 <= k < |plans| :: x in Members(plans[k]) <==> InIteration(loop, k + 1, x)
  {
    var plans := ElaborateIterations(loop, 1);
    IterationsElaborated(loop, 1);
    forall k | 0 <= k < |plans|
      ensures x in Members(plans[k]) <==> InIteration(loop, k + 1, x)
    {
      BodyTasks(loop.name, loop.body, k + 1, x);
    }
  }

  lemma LoopTasksRead(loop: LoopBlock, x: TaskId)
    ensures x in MembersOf(ElaborateIterations(loop, 1)) <==> exists n: nat :: InIteration(loop, n, x)
  {
    var plans := ElaborateIterations(loop, 1);
    IterationTasks(loop, x);
    MembersAt(plans, x);
    if n: nat :| InIteration(loop, n, x) {
      assert x in Members(plans[n - 1]);
    }
  }

  lemma {:induction false} ItemTasks(item: PhaseItem, pad: Scratchpad, x: TaskId)
    ensures x in Members(Elaborate(item, pad)) <==> InItem(item, pad, x)
    decreases item, 1
  {
    match item
    case PhaseOf(phase) =>
      SkippedExactly(phase, pad);
      LeafTasksRead(Outer, phase.name, phase.pattern, x);
    case SequenceBlock(_, items) => ItemsTasks(items, pad, x);
    case ParallelBlock(_, items) => ItemsTasks(items, pad, x);
    case LoopOf(loop) => LoopTasksRead(loop, x);
  }

  lemma {:induction false} ItemsTasks(items: seq<PhaseItem>, pad: Scratchpad, x: TaskId)
    ensures x in MembersOf(ElaborateAll(items, pad)) <==> CalledFor(items, pad, x)
    decreases items, 0
  {
    var plans := ElaborateAll(items, pad);
    AllElaborated(items, pad);
    MembersAt(plans, x);
    forall i | 0 <= i < |items|
      ensures x in Members(plans[i]) <==> InItem(items[i], pad, x)
    {
      ItemTasks(items[i], pad, x);
    }
  }

  /**
    * For every workflow: the ids of the expanded tasks are exactly those of the tasks that the blocks call
    * for, each loop unrolled from iteration one to its maximum, skipped phases left out.
    */
  lemma TasksExactly(items: seq<PhaseItem>, pad: Scratchpad)
    ensures forall d :: d in Ids(ExpandSequence(items, pad, []).tasks) <==>
                          exists x :: CalledFor(items, pad, x) && LocalId(x) == d
  {
    var ids := PlanIdsOf(ElaborateAll(items, pad));
    PostedIds(items, pad);
    assert Ids(ExpandSequence(items, pad, []).tasks) == Ids(Posted(items, pad)) == LocalIds(ids);
    MembersOfListed(ElaborateAll(items, pad));
    forall x
      ensures x in ids <==> CalledFor(items, pad, x)
    {
      ItemsTasks(items, pad, x);
    }
    ListedAs(ids);
  }

  lemma ListedAs(ids: seq<TaskId>)
    ensures forall d :: d in LocalIds(ids) <==> exists x :: x in ids && LocalId(x) == d
  {
    forall d
      ensures d in LocalIds(ids) <==> exists x :: x in ids && LocalId(x) == d
    {
      if i :| 0 <= i < |ids| && LocalIds(ids)[i] == d {
        assert ids[i] in ids && LocalId(ids[i]) == d;
      }
      if x :| x in ids && LocalId(x) == d {
        var i :| 0 <= i < |ids| && ids[i] == x;
        assert LocalIds(ids)[i] == d;
      }
    }
  }

  // ---- The order of the plan is the order read off the blocks ----

  lemma LeafOrderRead(scope: Scope, phase: string, pattern: Pattern, x: TaskId, y: TaskId)
    ensures (x, y) in Intended(Leaf(scope, phase, pattern), {}) <==> PhaseBefore(scope, phase, pattern, x, y)
  {
    LeafTasksRead(scope, phase, pattern, x);
    LeafTasksRead(scope, phase, pattern, y);
  }

  lemma {:induction false} BodyItemOrder(loop: string, item: BodyItem, n: nat, x: TaskId, y: TaskId)
    ensures (x, y) in Intended(ElaborateBodyItem(loop, item, n), {}) <==> BodyBefore(loop, item, n, x, y)
    decreases item, 1
  {
    match item
    case BodyPhase(phase) => LeafOrderRead(Iteration(loop, n), SubstituteIter(phase.name, n), phase.pattern, x, y);
    case BodyLoop(inner) => BodyOrder(inner.name, inner.body, n, x, y);
  }

  lemma {:induction false} BodyOrder(loop: string, body: seq<BodyItem>, n: nat, x: TaskId, y: TaskId)
    ensures (x, y) in IntendedSeries(ElaborateBody(loop, body, n), {}) <==>
              || (exists i :: 0 <= i < |body| && BodyBefore(loop, body[i], n, x, y))
              || (exists i, j :: 0 <= i < j < |body| && InBody(loop, body[i], n, x) && InBody(loop, body[j], n, y))
    decreases body, 0
  {
    var plans := ElaborateBody(loop, body, n);
    BodyElaborated(loop, body, n);
    SeriesRead(plans, {}, (x, y));
    forall i | 0 <= i < |body|
      ensures (x, y) in Intended(plans[i], {}) <==> BodyBefore(loop, body[i], n, x, y)
      ensures x in Members(plans[i]) <==> InBody(loop, body[i], n, x)
      ensures y in Members(plans[i]) <==> InBody(loop, body[i], n, y)
    {
      BodyItemOrder(loop, body[i], n, x, y);
      BodyItemTasks(loop, body[i], n, x);
      BodyItemTasks(loop, body[i], n, y);
    }
  }

  lemma IterationOrder(loop: LoopBlock, x: TaskId, y: TaskId)
    ensures var plans := ElaborateIterations(loop, 1);
            && |plans| == loop.max
            && forall k | 0 <= k < |plans| :: (x, y) in Intended(plans[k], {}) <==> IterationBefore(loop, k + 1, x, y)
  {
    var plans := ElaborateIterations(loop, 1);
    IterationsElaborated(loop, 1);
    forall k | 0 <= k < |plans|
      ensures (x, y) in Intended(plans[k], {}) <==> IterationBefore(loop, k + 1, x, y)
    {
      BodyOrder(loop.name, loop.body, k + 1, x, y);
    }
  }

  lemma LoopOrderRead(loop: LoopBlock, x: TaskId, y: TaskId)
    ensures (x, y) in IntendedSeries(ElaborateIterations(loop, 1), {}) <==>
              || (exists n: nat :: IterationBefore(loop, n, x, y))
              || (exists n: nat, m: nat :: n < m && InIteration(loop, n, x) && InIteration(loop, m, y))
  {
    var plans := ElaborateIterations(loop, 1);
    SeriesRead(plans, {}, (x, y));
    IterationOrder(loop, x, y);
    IterationTasks(loop, x);
    IterationTasks(loop, y);
    if n: nat :| IterationBefore(loop, n, x, y) {
      assert (x, y) in Intended(plans[n - 1], {});
    }
    if n: nat, m: nat :| n < m && InIteration(loop, n, x) && InIteration(loop, m, y) {
      assert x in Members(plans[n - 1]) && y in Members(plans[m - 1]);
    }
  }

  lemma {:induction false} ItemOrder(item: PhaseItem, pad: Scratchpad, x: TaskId, y: TaskId)
    ensures (x, y) in Intended(Elaborate(item, pad), {}) <==> ItemBefore(item, pad, x, y)
    decreases item, 2
  {
    match item
    case PhaseOf(phase) =>
      SkippedExactly(phase, pad);
      LeafOrderRead(Outer, phase.name, phase.pattern, x, y);
    case SequenceBlock(_, items) => ItemsOrder(items, pad, x, y);
    case ParallelBlock(_, items) => BranchesOrder(items, pad, x, y);
    case LoopOf(loop) => LoopOrderRead(loop, x, y);
  }

  lemma {:induction false} PartsOrder(items: seq<PhaseItem>, pad: Scratchpad, x: TaskId, y: TaskId)
    ensures var plans := ElaborateAll(items, pad);
            && |plans| == |items|
            && (forall i | 0 <= i < |items| :: (x, y) in Intended(plans[i], {}) <==> ItemBefore(items[i], pad, x, y))
            && (forall i | 0 <= i < |items| :: x in Members(plans[i]) <==> InItem(items[i], pad, x))
            && (forall i | 0 <= i < |items| :: y in Members(plans[i]) <==> InItem(items[i], pad, y))
    decreases items, 0
  {
    var plans := ElaborateAll(items, pad);
    AllElaborated(items, pad);
    forall i | 0 <= i < |items|
      ensures (x, y) in Intended(plans[i], {}) <==> ItemBefore(items[i], pad, x, y)
      ensures x in Members(plans[i]) <==> InItem(items[i], pad, x)
      ensures y in Members(plans[i]) <==> InItem(items[i], pad, y)
    {
      ItemOrder(items[i], pad, x, y);
      ItemTasks(items[i], pad, x);
      ItemTasks(items[i], pad, y);
    }
  }

  lemma {:induction false} ItemsOrder(items: seq<PhaseItem>, pad: Scratchpad, x: TaskId, y: TaskId)
    ensures (x, y) in IntendedSeries(ElaborateAll(items, pad), {}) <==> ComesBefore(items, pad, x, y)
    decreases items, 1
  {
    SeriesRead(ElaborateAll(items, pad), {}, (x, y));
    PartsOrder(items, pad, x, y);
  }

  lemma {:induction false} BranchesOrder(items: seq<PhaseItem>, pad: Scratchpad, x: TaskId, y: TaskId)
    ensures (x, y) in IntendedFork(ElaborateAll(items, pad), {}) <==>
              exists i :: 0 <= i < |items| && ItemBefore(items[i], pad, x, y)
    decreases items, 1
  {
    ForkRead(ElaborateAll(items, pad), {}, (x, y));
    PartsOrder(items, pad, x, y);
  }

  /** The block order, with which the emitted dependencies are compared, is the order read off the blocks. */
  lemma OrderExactly(items: seq<PhaseItem>, pad: Scratchpad)
    ensures forall x, y :: (x, y) in BlockOrder(items, pad) <==> ComesBefore(items, pad, x, y)
  {
    forall x, y
      ensures (x, y) in BlockOrder(items, pad) <==> ComesBefore(items, pad, x, y)
    {
      ItemsOrder(items, pad, x, y);
    }
  }

  /**
    * For every accepted workflow whose plan is faithful, in particular whenever no parallel block is
    * empty: of any two tasks that the blocks call for, one depends on the other, directly or through
    * others, exactly if the blocks put the other first.
    */
  lemma MeansWhatItSays(items: seq<PhaseItem>, pad: Scratchpad, x: TaskId, y: TaskId)
    requires Accepted(items, pad) && (Filled(items) || FaithfulSeries(ElaborateAll(items, pad), false, true))
    requires CalledFor(items, pad, x) && CalledFor(items, pad, y)
    ensures DependsTransitively(ExpandSequence(items, pad, []).tasks, LocalId(y), LocalId(x)) <==>
              ComesBefore(items, pad, x, y)
  {
    if Filled(items) {
      FilledMeaningPreserved(items, pad);
    } else {
      MeaningPreserved(items, pad);
    }
    OrderExactly(items, pad);
    ItemsTasks(items, pad, x);
    ItemsTasks(items, pad, y);
    var plans := ElaborateAll(items, pad);
    ExpansionTranslates(items, pad);
    LocalIdsNamed(PlanIdsOf(plans));
    DistinctNames(LocalId, PlanIdsOf(plans));
    MembersOfListed(plans);
    IntendedSeriesWithin(plans, {});
    if (LocalId(x), LocalId(y)) in WrittenOrder(BlockOrder(items, pad)) {
      var p :| p in BlockOrder(items, pad) && (LocalId(p.0), LocalId(p.1)) == (LocalId(x), LocalId(y));
      assert p == (x, y);
    }
  }
}
