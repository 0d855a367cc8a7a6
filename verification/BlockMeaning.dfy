// Meaning preservation: the transitive dependencies of the emitted tasks are the block order,
// exactly when no part of a series that drops its predecessors is followed by further tasks.

module BlockMeaning {
  import opened PhaseSpecs
  import opened PhaseStrategies
  import opened PhaseExecutor
  import opened BlockPlan

  /** A set of pairs (a, b): a must be complete before b may run. */
  type Order = set<(TaskId, TaskId)>

  ghost function Cross(a: set<TaskId>, b: set<TaskId>): Order {
    set x, y | x in a && y in b :: (x, y)
  }

  // ---- Transitive dependencies of a task list, computed front to back ----

  /** The given ids together with everything known to precede them. */
  ghost function Down(deps: seq<TaskId>, before: Order): set<TaskId> {
    IdSet(deps) + set p | p in before && p.1 in deps :: p.0
  }

  ghost function Ancestors(tasks: seq<TaskSpec>, before: Order): Order {
    if tasks == [] then before
    else Ancestors(tasks[1..], before + Cross(Down(tasks[0].dependsOn, before), {tasks[0].id}))
  }

  lemma {:induction false} AncestorsConcat(a: seq<TaskSpec>, b: seq<TaskSpec>, before: Order)
    ensures Ancestors(a + b, before) == Ancestors(b, Ancestors(a, before))
  {
    if a == [] {
      assert a + b == b;
    } else {
      assert (a + b)[0] == a[0] && (a + b)[1..] == a[1..] + b;
      AncestorsConcat(a[1..], b, before + Cross(Down(a[0].dependsOn, before), {a[0].id}));
    }
  }

  /** Nothing is known yet about what precedes the given ids. */
  ghost predicate Unplaced(ids: set<TaskId>, before: Order) {
    forall p | p in before :: p.1 !in ids
  }

  lemma DownFrame(deps: seq<TaskId>, before: Order, more: Order)
    requires Unplaced(IdSet(deps), more)
    ensures Down(deps, before + more) == Down(deps, before)
  {
    forall p | p in more
      ensures p.1 !in deps
    {
      assert p.1 !in IdSet(deps);
    }
  }

  lemma DownConcat(a: seq<TaskId>, b: seq<TaskId>, before: Order)
    ensures Down(a + b, before) == Down(a, before) + Down(b, before)
  {
  }

  // ---- The order a plan is meant to impose ----

  ghost function Members(plan: Plan): set<TaskId>
    decreases plan, 1
  {
    match plan
    case Leaf(scope, phase, pattern) => LeafSet(scope, phase, pattern)
    case Series(parts) => MembersOf(parts)
    case Fork(branches) => MembersOf(branches)
  }

  ghost function MembersOf(plans: seq<Plan>): set<TaskId>
    decreases plans, 0
  {
    if plans == [] then {} else Members(plans[0]) + MembersOf(plans[1..])
  }

  ghost function LeafOrder(ids: set<TaskId>, pattern: Pattern): Order {
    set x, y | x in ids && y in ids && SlotBefore(pattern, x.slot, y.slot) :: (x, y)
  }

  /** Who must precede whom when all of `pre` comes before the plan. */
  ghost function Intended(plan: Plan, pre: set<TaskId>): Order
    decreases plan, 1
  {
    match plan
    case Leaf(scope, phase, pattern) =>
      var ids := LeafSet(scope, phase, pattern); Cross(pre, ids) + LeafOrder(ids, pattern)
    case Series(parts) => IntendedSeries(parts, pre)
    case Fork(branches) => IntendedFork(branches, pre)
  }

  ghost function IntendedSeries(parts: seq<Plan>, pre: set<TaskId>): Order
    decreases parts, 0
  {
    if parts == [] then {}
    else Intended(parts[0], pre) + IntendedSeries(parts[1..], pre + Members(parts[0]))
  }

  ghost function IntendedFork(branches: seq<Plan>, pre: set<TaskId>): Order
    decreases branches, 0
  {
    if branches == [] then {}
    else Intended(branches[0], pre) + IntendedFork(branches[1..], pre)
  }

  // ---- The order the emitted tasks impose, and what their terminals stand for ----

  /** An empty fork has no terminals, so whatever came before it is no longer carried on. */
  ghost function Carry(plan: Plan, car: set<TaskId>): set<TaskId>
    decreases plan, 1
  {
    match plan
    case Leaf(scope, phase, pattern) => car + LeafSet(scope, phase, pattern)
    case Series(parts) => CarrySeries(parts, car)
    case Fork(branches) => CarryFork(branches, car)
  }

  ghost function CarrySeries(parts: seq<Plan>, car: set<TaskId>): set<TaskId>
    decreases parts, 0
  {
    if parts == [] then car else CarrySeries(parts[1..], Carry(parts[0], car))
  }

  ghost function CarryFork(branches: seq<Plan>, car: set<TaskId>): set<TaskId>
    decreases branches, 0
  {
    if branches == [] then {} else Carry(branches[0], car) + CarryFork(branches[1..], car)
  }

  ghost function Imposed(plan: Plan, car: set<TaskId>): Order
    decreases plan, 1
  {
    match plan
    case Leaf(scope, phase, pattern) =>
      var ids := LeafSet(scope, phase, pattern); Cross(car, ids) + LeafOrder(ids, pattern)
    case Series(parts) => ImposedSeries(parts, car)
    case Fork(branches) => ImposedFork(branches, car)
  }

  ghost function ImposedSeries(parts: seq<Plan>, car: set<TaskId>): Order
    decreases parts, 0
  {
    if parts == [] then {}
    else Imposed(parts[0], car) + ImposedSeries(parts[1..], Carry(parts[0], car))
  }

  ghost function ImposedFork(branches: seq<Plan>, car: set<TaskId>): Order
    decreases branches, 0
  {
    if branches == [] then {}
    else Imposed(branches[0], car) + ImposedFork(branches[1..], car)
  }

  // ---- Distinct ids keep the parts of a plan apart ----

  lemma {:induction false} MembersListed(plan: Plan)
    ensures Members(plan) == IdSet(PlanIds(plan))
    decreases plan, 1
  {
    match plan
    case Leaf(_, _, _) =>
    case Series(parts) => MembersOfListed(parts);
    case Fork(branches) => MembersOfListed(branches);
  }

  lemma {:induction false} MembersOfListed(plans: seq<Plan>)
    ensures MembersOf(plans) == IdSet(PlanIdsOf(plans))
    decreases plans, 0
  {
    if plans != [] {
      MembersListed(plans[0]);
      MembersOfListed(plans[1..]);
    }
  }

  lemma SplitDistinct<T>(a: seq<T>, b: seq<T>)
    requires NoDuplicates(a + b)
    ensures NoDuplicates(a) && NoDuplicates(b) && forall k | k in a :: k !in b
  {
    var s := a + b;
    forall i, j | 0 <= i < j < |a|
      ensures a[i] != a[j]
    {
      assert s[i] != s[j];
    }
    forall i, j | 0 <= i < j < |b|
      ensures b[i] != b[j]
    {
      assert s[|a| + i] != s[|a| + j];
    }
    forall i, j | 0 <= i < |a| && 0 <= j < |b|
      ensures a[i] != b[j]
    {
      assert s[i] != s[|a| + j];
    }
  }

  lemma Disjoint(plans: seq<Plan>)
    requires plans != [] && NoDuplicates(PlanIdsOf(plans))
    ensures NoDuplicates(PlanIds(plans[0])) && NoDuplicates(PlanIdsOf(plans[1..]))
    ensures Members(plans[0]) !! MembersOf(plans[1..])
  {
    SplitDistinct(PlanIds(plans[0]), PlanIdsOf(plans[1..]));
    MembersListed(plans[0]);
    MembersOfListed(plans[1..]);
  }

  // ---- Orders only ever place the plan's own tasks ----

  /** Every pair puts something from `from` or from `ids` before something in `ids`. */
  ghost predicate Within(o: Order, from: set<TaskId>, ids: set<TaskId>) {
    forall p | p in o :: p.1 in ids && (p.0 in from || p.0 in ids)
  }

  lemma {:induction false} ImposedWithin(plan: Plan, car: set<TaskId>)
    ensures Within(Imposed(plan, car), car, Members(plan)) && Carry(plan, car) <= car + Members(plan)
    decreases plan, 1
  {
    match plan
    case Leaf(_, _, _) =>
    case Series(parts) => ImposedSeriesWithin(parts, car);
    case Fork(branches) => ImposedForkWithin(branches, car);
  }

  lemma {:induction false} ImposedSeriesWithin(parts: seq<Plan>, car: set<TaskId>)
    ensures Within(ImposedSeries(parts, car), car, MembersOf(parts))
    ensures CarrySeries(parts, car) <= car + MembersOf(parts)
    decreases parts, 0
  {
    if parts != [] {
      ImposedWithin(parts[0], car);
      ImposedSeriesWithin(parts[1..], Carry(parts[0], car));
    }
  }

  lemma {:induction false} ImposedForkWithin(branches: seq<Plan>, car: set<TaskId>)
    ensures Within(ImposedFork(branches, car), car, MembersOf(branches))
    ensures CarryFork(branches, car) <= car + MembersOf(branches)
    decreases branches, 0
  {
    if branches != [] {
      ImposedWithin(branches[0], car);
      ImposedForkWithin(branches[1..], car);
    }
  }

  // ---- The emitted tasks impose exactly `Imposed`, whatever the plan ----

  ghost predicate Emits(m: Emission, prior: seq<TaskId>, before: Order, ids: set<TaskId>, imposed: Order, carry: set<TaskId>) {
    && Ancestors(m.tasks, before) == before + imposed
    && IdSet(m.terminals) <= IdSet(prior) + ids
    && Down(m.terminals, before + imposed) == carry
  }

  lemma {:induction false} FanAncestors(ids: seq<TaskId>, prior: seq<TaskId>, before: Order)
    requires IdSet(prior) !! IdSet(ids)
    ensures Ancestors(Fan(ids, prior), before) == before + Cross(Down(prior, before), IdSet(ids))
  {
    if ids != [] {
      var car := Down(prior, before);
      var first := Cross(car, {ids[0]});
      assert IdSet(ids) == {ids[0]} + IdSet(ids[1..]);
      DownFrame(prior, before, first);
      FanAncestors(ids[1..], prior, before + first);
      assert Fan(ids, prior)[1..] == Fan(ids[1..], prior);
      assert Cross(car, IdSet(ids)) == first + Cross(car, IdSet(ids[1..]));
    }
  }

  /** The tasks of a chain: the first waits for `deps`, every other one for its predecessor. */
  ghost function Chain(ids: seq<TaskId>, deps: seq<TaskId>): seq<TaskSpec> {
    if ids == [] then [] else [TaskSpec(ids[0], deps)] + Chain(ids[1..], [ids[0]])
  }

  ghost function ChainOrder(ids: seq<TaskId>): Order {
    if ids == [] then {} else Cross({ids[0]}, IdSet(ids[1..])) + ChainOrder(ids[1..])
  }

  lemma {:induction false} ChainAncestors(ids: seq<TaskId>, deps: seq<TaskId>, before: Order)
    requires NoDuplicates(ids) && Unplaced(IdSet(ids), before)
    ensures Ancestors(Chain(ids, deps), before) == before + Cross(Down(deps, before), IdSet(ids)) + ChainOrder(ids)
  {
    if ids != [] {
      var car, x, rest := Down(deps, before), ids[0], ids[1..];
      var first := Cross(car, {x});
      assert IdSet(ids) == {x} + IdSet(rest);
      assert Chain(ids, deps)[1..] == Chain(rest, [x]);
      forall i | 0 <= i < |rest|
        ensures rest[i] != x
      {
      }
      forall i, j | 0 <= i < j < |rest|
        ensures rest[i] != rest[j]
      {
        assert ids[i + 1] != ids[j + 1];
      }
      DownOnly(x, car, before);
      ChainAncestors(rest, [x], before + first);
      assert Cross(car + {x}, IdSet(rest)) == Cross(car, IdSet(rest)) + Cross({x}, IdSet(rest));
      assert Cross(car, IdSet(ids)) == first + Cross(car, IdSet(rest));
    }
  }

  lemma DownOnly(x: TaskId, car: set<TaskId>, before: Order)
    requires Unplaced({x}, before)
    ensures Down([x], before + Cross(car, {x})) == car + {x}
  {
    forall a | a in car
      ensures a in Down([x], before + Cross(car, {x}))
    {
      assert (a, x) in before + Cross(car, {x});
    }
  }

  lemma {:induction false} ChainOrderHas(ids: seq<TaskId>, i: nat, j: nat)
    requires i < j < |ids|
    ensures (ids[i], ids[j]) in ChainOrder(ids)
    decreases ids
  {
    var rest := ids[1..];
    assert ids[j] == rest[j - 1];
    if i > 0 {
      ChainOrderHas(rest, i - 1, j - 1);
    }
  }

  lemma {:induction false} ChainOrderOnly(ids: seq<TaskId>, p: (TaskId, TaskId)) returns (i: nat, j: nat)
    requires p in ChainOrder(ids)
    ensures i < j < |ids| && p == (ids[i], ids[j])
    decreases ids
  {
    var rest := ids[1..];
    if p in ChainOrder(rest) {
      i, j := ChainOrderOnly(rest, p);
      i, j := i + 1, j + 1;
    } else {
      var k :| 0 <= k < |rest| && rest[k] == p.1;
      i, j := 0, k + 1;
    }
  }

  lemma {:induction false} DebateIsChain(scope: Scope, phase: string, r: nat, rounds: nat, deps: seq<TaskId>)
    ensures DebateTasks(scope, phase, r, rounds, deps) == Chain(DebateIds(scope, phase, r, rounds), deps)
    decreases rounds + 1 - r
  {
    var ids := DebateIds(scope, phase, r, rounds);
    if r > rounds {
      assert ids[1..] == [];
    } else {
      var adv, crit, later := ids[0], ids[1], DebateIds(scope, phase, r + 1, rounds);
      assert ids[1..] == [crit] + later && ids[1..][1..] == later;
      DebateIsChain(scope, phase, r + 1, rounds, [crit]);
      assert DebateTasks(scope, phase, r, rounds, deps)
          == [TaskSpec(adv, deps)] + ([TaskSpec(crit, [adv])] + DebateTasks(scope, phase, r + 1, rounds, [crit]));
    }
  }

  lemma TurnOrder(n: int, r: nat, rounds: nat, i: nat, j: nat)
    requires i <= 2 * (rounds + 1 - r) && j <= 2 * (rounds + 1 - r) && r <= rounds + 1
    ensures SlotBefore(Debate(n), Turn(r, rounds, i), Turn(r, rounds, j)) <==> i < j
  {
  }

  ghost predicate Ranked(ids: seq<TaskId>, pattern: Pattern) {
    forall i, j | 0 <= i < |ids| && 0 <= j < |ids| :: SlotBefore(pattern, ids[i].slot, ids[j].slot) <==> i < j
  }

  lemma RankedChainOrder(ids: seq<TaskId>, pattern: Pattern)
    requires Ranked(ids, pattern)
    ensures ChainOrder(ids) == LeafOrder(IdSet(ids), pattern)
  {
    forall p | p in ChainOrder(ids)
      ensures p in LeafOrder(IdSet(ids), pattern)
    {
      var i, j := ChainOrderOnly(ids, p);
      assert ids[i] in IdSet(ids) && ids[j] in IdSet(ids);
    }
    forall p | p in LeafOrder(IdSet(ids), pattern)
      ensures p in ChainOrder(ids)
    {
      var i :| 0 <= i < |ids| && ids[i] == p.0;
      var j :| 0 <= j < |ids| && ids[j] == p.1;
      ChainOrderHas(ids, i, j);
    }
  }

  lemma DebateChainOrder(scope: Scope, phase: string, n: int)
    ensures var ids := LeafIds(scope, phase, Debate(n)); ChainOrder(ids) == LeafOrder(IdSet(ids), Debate(n))
  {
    var ids := LeafIds(scope, phase, Debate(n));
    var rounds := AtLeastOne(n);
    DebateTurns(scope, phase, 1, rounds);
    forall i, j | 0 <= i < |ids| && 0 <= j < |ids|
      ensures SlotBefore(Debate(n), ids[i].slot, ids[j].slot) <==> i < j
    {
      TurnOrder(n, 1, rounds, i, j);
    }
    RankedChainOrder(ids, Debate(n));
  }

  lemma LeafEmits(scope: Scope, phase: string, pattern: Pattern, prior: seq<TaskId>, before: Order)
    requires Unplaced(LeafSet(scope, phase, pattern), before) && IdSet(prior) !! LeafSet(scope, phase, pattern)
    ensures var plan := Leaf(scope, phase, pattern);
            var car := Down(prior, before);
            Emits(Emit(plan, prior), prior, before, Members(plan), Imposed(plan, car), Carry(plan, car))
  {
    match pattern
    case Single => FanEmits(scope, phase, pattern, prior, before);
    case Parallel(_) => FanEmits(scope, phase, pattern, prior, before);
    case Competitive(n, judged) =>
      if judged {
        JudgedEmits(scope, phase, n, prior, before);
      } else {
        FanEmits(scope, phase, pattern, prior, before);
      }
    case Debate(n) => DebateEmits(scope, phase, n, prior, before);
  }

  lemma DownAll(ids: seq<TaskId>, car: set<TaskId>, before: Order, order: Order)
    requires ids != [] && Unplaced(IdSet(ids), before) && Within(order, {}, IdSet(ids))
    ensures Down(ids, before + (Cross(car, IdSet(ids)) + order)) == car + IdSet(ids)
  {
    var all := before + (Cross(car, IdSet(ids)) + order);
    forall a | a in car
      ensures a in Down(ids, all)
    {
      assert ids[0] in IdSet(ids);
      assert (a, ids[0]) in all;
    }
    forall p | p in all && p.1 in ids
      ensures p.0 in car + IdSet(ids)
    {
      assert p.1 in IdSet(ids);
    }
  }

  lemma FanEmits(scope: Scope, phase: string, pattern: Pattern, prior: seq<TaskId>, before: Order)
    requires pattern.Single? || pattern.Parallel? || (pattern.Competitive? && !pattern.judged)
    requires Unplaced(LeafSet(scope, phase, pattern), before) && IdSet(prior) !! LeafSet(scope, phase, pattern)
    ensures var plan := Leaf(scope, phase, pattern);
            var car := Down(prior, before);
            Emits(Emit(plan, prior), prior, before, Members(plan), Imposed(plan, car), Carry(plan, car))
  {
    var car, ids := Down(prior, before), LeafIds(scope, phase, pattern);
    FanAncestors(ids, prior, before);
    assert LeafTasks(scope, phase, pattern, prior) == Fan(ids, prior);
    assert LeafOrder(IdSet(ids), pattern) == {};
    DownAll(ids, car, before, {});
  }

  lemma JudgedEmits(scope: Scope, phase: string, n: int, prior: seq<TaskId>, before: Order)
    requires var ids := LeafSet(scope, phase, Competitive(n, true));
             Unplaced(ids, before) && IdSet(prior) !! ids
    ensures var plan := Leaf(scope, phase, Competitive(n, true));
            var car := Down(prior, before);
            Emits(Emit(plan, prior), prior, before, Members(plan), Imposed(plan, car), Carry(plan, car))
  {
    var pattern := Competitive(n, true);
    var car := Down(prior, before);
    var solvers, judge := Workers(scope, phase, AtLeastOne(n)), TaskId(scope, phase, Judge);
    var ids := LeafIds(scope, phase, pattern);
    var fan := Cross(car, IdSet(solvers));
    assert IdSet(ids) == IdSet(solvers) + {judge};
    FanAncestors(solvers, prior, before);
    var last := [TaskSpec(judge, solvers)];
    AncestorsConcat(Fan(solvers, prior), last, before);
    assert last[1..] == [];
    assert fan + {} == fan;
    DownAll(solvers, car, before, {});
    assert LeafOrder(IdSet(ids), pattern) == Cross(IdSet(solvers), {judge});
    assert Cross(car + IdSet(solvers), {judge}) == Cross(car, {judge}) + Cross(IdSet(solvers), {judge});
    assert Cross(car, IdSet(ids)) == fan + Cross(car, {judge});
    DownAll(ids, car, before, LeafOrder(IdSet(ids), pattern));
  }

  lemma DebateEmits(scope: Scope, phase: string, n: int, prior: seq<TaskId>, before: Order)
    requires var ids := LeafSet(scope, phase, Debate(n));
             Unplaced(ids, before) && IdSet(prior) !! ids
    ensures var plan := Leaf(scope, phase, Debate(n));
            var car := Down(prior, before);
            Emits(Emit(plan, prior), prior, before, Members(plan), Imposed(plan, car), Carry(plan, car))
  {
    var car, ids := Down(prior, before), LeafIds(scope, phase, Debate(n));
    var judge := TaskId(scope, phase, Judge);
    LeafIdsDistinct(scope, phase, Debate(n));
    DebateIsChain(scope, phase, 1, AtLeastOne(n), prior);
    ChainAncestors(ids, prior, before);
    DebateChainOrder(scope, phase, n);
    var order := ChainOrder(ids);
    assert before + Cross(car, IdSet(ids)) + order == before + (Cross(car, IdSet(ids)) + order);
    DownLast(ids, car, before);
    DebateTurns(scope, phase, 1, AtLeastOne(n));
    assert ids[|ids| - 1] == judge;
    assert judge in IdSet(ids);
  }

  lemma {:induction false} DownLast(ids: seq<TaskId>, car: set<TaskId>, before: Order)
    requires ids != [] && NoDuplicates(ids) && Unplaced(IdSet(ids), before)
    ensures var x := ids[|ids| - 1];
            Down([x], before + (Cross(car, IdSet(ids)) + ChainOrder(ids))) == car + IdSet(ids)
  {
    var x := ids[|ids| - 1];
    var own := Cross(car, IdSet(ids)) + ChainOrder(ids);
    assert x in IdSet(ids);
    forall p | p in before + own && p.1 == x
      ensures p.0 in car + IdSet(ids)
    {
      if p in ChainOrder(ids) {
        var i, j := ChainOrderOnly(ids, p);
        assert ids[i] in IdSet(ids);
      }
    }
    forall a | a in car + IdSet(ids) && a != x
      ensures (a, x) in own
    {
      if a !in car {
        var i :| 0 <= i < |ids| && ids[i] == a;
        ChainOrderHas(ids, i, |ids| - 1);
      }
    }
    DownPairs(x, before + own, car + IdSet(ids));
  }

  /** A task together with exactly what is placed before it. */
  lemma DownPairs(x: TaskId, before: Order, all: set<TaskId>)
    requires x in all
    requires forall p | p in before && p.1 == x :: p.0 in all
    requires forall a | a in all && a != x :: (a, x) in before
    ensures Down([x], before) == all
  {
    forall a | a in all
      ensures a in Down([x], before)
    {
      assert a != x ==> (a, x) in before;
    }
  }

  lemma {:induction false} EmitImposes(plan: Plan, prior: seq<TaskId>, before: Order)
    requires NoDuplicates(PlanIds(plan)) && Unplaced(Members(plan), before) && IdSet(prior) !! Members(plan)
    ensures var car := Down(prior, before);
            Emits(Emit(plan, prior), prior, before, Members(plan), Imposed(plan, car), Carry(plan, car))
    decreases plan, 1
  {
    match plan
    case Leaf(scope, phase, pattern) => LeafEmits(scope, phase, pattern, prior, before);
    case Series(parts) => SeriesImposes(parts, prior, before);
    case Fork(branches) => ForkImposes(branches, prior, before);
  }

  lemma {:induction false} SeriesImposes(parts: seq<Plan>, prior: seq<TaskId>, before: Order)
    requires NoDuplicates(PlanIdsOf(parts)) && Unplaced(MembersOf(parts), before) && IdSet(prior) !! MembersOf(parts)
    ensures var car := Down(prior, before);
            Emits(EmitSeries(parts, prior), prior, before, MembersOf(parts), ImposedSeries(parts, car), CarrySeries(parts, car))
    decreases parts, 0
  {
    if parts != [] {
      var car := Down(prior, before);
      Disjoint(parts);
      EmitImposes(parts[0], prior, before);
      ImposedWithin(parts[0], car);
      var first, order := Emit(parts[0], prior), Imposed(parts[0], car);
      SeriesImposes(parts[1..], first.terminals, before + order);
      var rest, later := EmitSeries(parts[1..], first.terminals), ImposedSeries(parts[1..], Carry(parts[0], car));
      AncestorsConcat(first.tasks, rest.tasks, before);
      assert (before + order) + later == before + (order + later);
    }
  }

  lemma {:induction false} ForkImposes(branches: seq<Plan>, prior: seq<TaskId>, before: Order)
    requires NoDuplicates(PlanIdsOf(branches)) && Unplaced(MembersOf(branches), before)
    requires IdSet(prior) !! MembersOf(branches)
    ensures var car := Down(prior, before);
            Emits(EmitFork(branches, prior), prior, before, MembersOf(branches), ImposedFork(branches, car), CarryFork(branches, car))
    decreases branches, 0
  {
    if branches != [] {
      var car := Down(prior, before);
      Disjoint(branches);
      EmitImposes(branches[0], prior, before);
      ImposedWithin(branches[0], car);
      var first, order := Emit(branches[0], prior), Imposed(branches[0], car);
      DownFrame(prior, before, order);
      ForkImposes(branches[1..], prior, before + order);
      ImposedForkWithin(branches[1..], car);
      var rest, later := EmitFork(branches[1..], prior), ImposedFork(branches[1..], car);
      AncestorsConcat(first.tasks, rest.tasks, before);
      assert (before + order) + later == before + (order + later);
      DownFrame(first.terminals, before + order, later);
      DownConcat(first.terminals, rest.terminals, before + (order + later));
    }
  }
}
