// The exact condition under which the emitted graph means the block structure, and the form of
// the emitted list: each task of the plan once, every dependency naming an earlier task.

module BlockTheorems {
  import opened PhaseSpecs
  import opened PhaseStrategies
  import opened PhaseExecutor
  import opened BlockPlan
  import opened BlockMeaning
  import opened TaskNaming

  // ---- Which plans drop what came before them ----

  predicate HasTasks(plan: Plan)
    decreases plan, 1
  {
    match plan
    case Leaf(_, _, _) => true
    case Series(parts) => AnyTasks(parts)
    case Fork(branches) => AnyTasks(branches)
  }

  predicate AnyTasks(plans: seq<Plan>)
    decreases plans, 0
  {
    plans != [] && (HasTasks(plans[0]) || AnyTasks(plans[1..]))
  }

  /** What comes before the plan still stands behind its terminals. */
  predicate Passes(plan: Plan)
    decreases plan, 1
  {
    match plan
    case Leaf(_, _, _) => true
    case Series(parts) => PassesAll(parts)
    case Fork(branches) => PassesSome(branches)
  }

  predicate PassesAll(parts: seq<Plan>)
    decreases parts, 0
  {
    parts == [] || (Passes(parts[0]) && PassesAll(parts[1..]))
  }

  predicate PassesSome(branches: seq<Plan>)
    decreases branches, 0
  {
    branches != [] && (Passes(branches[0]) || PassesSome(branches[1..]))
  }

  /** Every task of the plan stands behind its terminals. */
  predicate Exposes(plan: Plan)
    decreases plan, 1
  {
    match plan
    case Leaf(_, _, _) => true
    case Series(parts) => ExposesSeries(parts)
    case Fork(branches) => ExposesFork(branches)
  }

  predicate ExposesSeries(parts: seq<Plan>)
    decreases parts, 0
  {
    parts == [] ||
    ((if PassesAll(parts[1..]) then Exposes(parts[0]) else !HasTasks(parts[0])) && ExposesSeries(parts[1..]))
  }

  predicate ExposesFork(branches: seq<Plan>)
    decreases branches, 0
  {
    branches == [] || (Exposes(branches[0]) && ExposesFork(branches[1..]))
  }

  /**
    * No part that drops its predecessors is followed, in series, by a part with tasks.
    * `preceded` says whether any task comes before the plan.
    */
  predicate Faithful(plan: Plan, preceded: bool)
    decreases plan, 1
  {
    match plan
    case Leaf(_, _, _) => true
    case Series(parts) => FaithfulSeries(parts, preceded, true)
    case Fork(branches) => FaithfulFork(branches, preceded)
  }

  /** `intact` says whether everything before the parts still stands behind what they wait for. */
  predicate FaithfulSeries(parts: seq<Plan>, preceded: bool, intact: bool)
    decreases parts, 0
  {
    parts == [] ||
    var p := parts[0];
    && (if intact then Faithful(p, preceded) else !HasTasks(p))
    && FaithfulSeries(parts[1..], preceded || HasTasks(p), intact && (!preceded || Passes(p)) && Exposes(p))
  }

  predicate FaithfulFork(branches: seq<Plan>, preceded: bool)
    decreases branches, 0
  {
    branches == [] || (Faithful(branches[0], preceded) && FaithfulFork(branches[1..], preceded))
  }

  // ---- What a plan carries on, split into what came before and its own tasks ----

  ghost function Own(plan: Plan): set<TaskId>
    decreases plan, 1
  {
    match plan
    case Leaf(scope, phase, pattern) => LeafSet(scope, phase, pattern)
    case Series(parts) => OwnSeries(parts)
    case Fork(branches) => OwnFork(branches)
  }

  ghost function OwnSeries(parts: seq<Plan>): set<TaskId>
    decreases parts, 0
  {
    if parts == [] then {}
    else (if PassesAll(parts[1..]) then Own(parts[0]) else {}) + OwnSeries(parts[1..])
  }

  ghost function OwnFork(branches: seq<Plan>): set<TaskId>
    decreases branches, 0
  {
    if branches == [] then {} else Own(branches[0]) + OwnFork(branches[1..])
  }

  ghost function Kept(passes: bool, car: set<TaskId>): set<TaskId> {
    if passes then car else {}
  }

  lemma {:induction false} CarrySplit(plan: Plan, car: set<TaskId>)
    ensures Carry(plan, car) == Kept(Passes(plan), car) + Own(plan) && Own(plan) <= Members(plan)
    ensures HasTasks(plan) <==> Members(plan) != {}
    decreases plan, 1
  {
    match plan
    case Leaf(scope, phase, pattern) =>
      LeafTaskIds(scope, phase, pattern, []);
      assert LeafIds(scope, phase, pattern)[0] in LeafSet(scope, phase, pattern);
    case Series(parts) => CarrySeriesSplit(parts, car);
    case Fork(branches) => CarryForkSplit(branches, car);
  }

  lemma {:induction false} CarrySeriesSplit(parts: seq<Plan>, car: set<TaskId>)
    ensures CarrySeries(parts, car) == Kept(PassesAll(parts), car) + OwnSeries(parts)
    ensures OwnSeries(parts) <= MembersOf(parts)
    ensures AnyTasks(parts) <==> MembersOf(parts) != {}
    decreases parts, 0
  {
    if parts != [] {
      CarrySplit(parts[0], car);
      CarrySeriesSplit(parts[1..], Carry(parts[0], car));
    }
  }

  lemma {:induction false} CarryForkSplit(branches: seq<Plan>, car: set<TaskId>)
    ensures CarryFork(branches, car) == Kept(PassesSome(branches), car) + OwnFork(branches)
    ensures OwnFork(branches) <= MembersOf(branches)
    ensures AnyTasks(branches) <==> MembersOf(branches) != {}
    decreases branches, 0
  {
    if branches != [] {
      CarrySplit(branches[0], car);
      CarryForkSplit(branches[1..], car);
    }
  }

  lemma {:induction false} ExposesExact(plan: Plan)
    requires NoDuplicates(PlanIds(plan))
    ensures Exposes(plan) <==> Own(plan) == Members(plan)
    decreases plan, 1
  {
    match plan
    case Leaf(_, _, _) =>
    case Series(parts) => ExposesSeriesExact(parts);
    case Fork(branches) => ExposesForkExact(branches);
  }

  lemma {:induction false} ExposesSeriesExact(parts: seq<Plan>)
    requires NoDuplicates(PlanIdsOf(parts))
    ensures ExposesSeries(parts) <==> OwnSeries(parts) == MembersOf(parts)
    decreases parts, 0
  {
    if parts != [] {
      Disjoint(parts);
      ExposesExact(parts[0]);
      ExposesSeriesExact(parts[1..]);
      CarrySplit(parts[0], {});
      CarrySeriesSplit(parts[1..], {});
      var own := if PassesAll(parts[1..]) then Own(parts[0]) else {};
      SplitUnion(own, OwnSeries(parts[1..]), Members(parts[0]), MembersOf(parts[1..]));
    }
  }

  lemma {:induction false} ExposesForkExact(branches: seq<Plan>)
    requires NoDuplicates(PlanIdsOf(branches))
    ensures ExposesFork(branches) <==> OwnFork(branches) == MembersOf(branches)
    decreases branches, 0
  {
    if branches != [] {
      Disjoint(branches);
      ExposesExact(branches[0]);
      ExposesForkExact(branches[1..]);
      CarrySplit(branches[0], {});
      CarryForkSplit(branches[1..], {});
      SplitUnion(Own(branches[0]), OwnFork(branches[1..]), Members(branches[0]), MembersOf(branches[1..]));
    }
  }

  lemma SplitUnion(a: set<TaskId>, b: set<TaskId>, x: set<TaskId>, y: set<TaskId>)
    requires a <= x && b <= y && x !! y
    ensures a + b == x + y <==> a == x && b == y
  {
    if a + b == x + y {
      forall e | e in x
        ensures e in a
      {
        assert e in a + b;
      }
      forall e | e in y
        ensures e in b
      {
        assert e in a + b;
      }
    }
  }

  // ---- The intended order ----

  lemma {:induction false} IntendedWithin(plan: Plan, pre: set<TaskId>)
    ensures Within(Intended(plan, pre), pre, Members(plan)) && Cross(pre, Members(plan)) <= Intended(plan, pre)
    decreases plan, 1
  {
    match plan
    case Leaf(_, _, _) =>
    case Series(parts) => IntendedSeriesWithin(parts, pre);
    case Fork(branches) => IntendedForkWithin(branches, pre);
  }

  lemma {:induction false} IntendedSeriesWithin(parts: seq<Plan>, pre: set<TaskId>)
    ensures Within(IntendedSeries(parts, pre), pre, MembersOf(parts))
    ensures Cross(pre, MembersOf(parts)) <= IntendedSeries(parts, pre)
    decreases parts, 0
  {
    if parts != [] {
      IntendedWithin(parts[0], pre);
      IntendedSeriesWithin(parts[1..], pre + Members(parts[0]));
    }
  }

  lemma {:induction false} IntendedForkWithin(branches: seq<Plan>, pre: set<TaskId>)
    ensures Within(IntendedFork(branches, pre), pre, MembersOf(branches))
    ensures Cross(pre, MembersOf(branches)) <= IntendedFork(branches, pre)
    decreases branches, 0
  {
    if branches != [] {
      IntendedWithin(branches[0], pre);
      IntendedForkWithin(branches[1..], pre);
    }
  }

  /** In a series everything in an earlier part comes before everything in a later part. */
  lemma {:induction false} SeriesOrders(parts: seq<Plan>, pre: set<TaskId>, i: nat, j: nat, u: TaskId, v: TaskId)
    requires NoDuplicates(PlanIdsOf(parts)) && pre !! MembersOf(parts)
    requires i < j < |parts| && u in Members(parts[i]) && v in Members(parts[j])
    ensures (u, v) in IntendedSeries(parts, pre) && (v, u) !in IntendedSeries(parts, pre)
    decreases parts
  {
    var rest := parts[1..];
    Disjoint(parts);
    MemberOfPart(rest, j - 1, v);
    IntendedWithin(parts[0], pre);
    IntendedSeriesWithin(rest, pre + Members(parts[0]));
    if i == 0 {
      assert (u, v) in Cross(pre + Members(parts[0]), MembersOf(rest));
    } else {
      MemberOfPart(rest, i - 1, u);
      SeriesOrders(rest, pre + Members(parts[0]), i - 1, j - 1, u, v);
    }
  }

  /** Tasks of different branches of a fork are incomparable. */
  lemma {:induction false} ForkIncomparable(
      branches: seq<Plan>, pre: set<TaskId>, i: nat, j: nat, u: TaskId, v: TaskId)
    requires NoDuplicates(PlanIdsOf(branches)) && pre !! MembersOf(branches)
    requires i < j < |branches| && u in Members(branches[i]) && v in Members(branches[j])
    ensures (u, v) !in IntendedFork(branches, pre) && (v, u) !in IntendedFork(branches, pre)
    decreases branches
  {
    var rest := branches[1..];
    Disjoint(branches);
    MemberOfPart(rest, j - 1, v);
    IntendedWithin(branches[0], pre);
    IntendedForkWithin(rest, pre);
    if i > 0 {
      MemberOfPart(rest, i - 1, u);
      ForkIncomparable(rest, pre, i - 1, j - 1, u, v);
    }
  }

  lemma {:induction false} MemberOfPart(plans: seq<Plan>, k: nat, u: TaskId)
    requires k < |plans| && u in Members(plans[k])
    ensures u in MembersOf(plans)
    decreases plans
  {
    if k > 0 {
      MemberOfPart(plans[1..], k - 1, u);
    }
  }

  // ---- The imposed order is the intended one exactly for faithful plans ----

  lemma SplitOrders(a: Order, b: Order, x: Order, y: Order, s: set<TaskId>, t: set<TaskId>)
    requires s !! t
    requires forall p | p in a || p in x :: p.1 in s
    requires forall p | p in b || p in y :: p.1 in t
    ensures a + b == x + y <==> a == x && b == y
  {
    if a + b == x + y {
      forall p
        ensures (p in a <==> p in x) && (p in b <==> p in y)
      {
        assert p in a + b <==> p in x + y;
      }
    }
  }

  lemma {:induction false} ImposedExact(plan: Plan, pre: set<TaskId>)
    requires NoDuplicates(PlanIds(plan)) && pre !! Members(plan)
    ensures Imposed(plan, pre) == Intended(plan, pre) <==> Faithful(plan, pre != {})
    decreases plan, 1
  {
    match plan
    case Leaf(_, _, _) =>
    case Series(parts) => SeriesExact(parts, pre, pre);
    case Fork(branches) => ForkExact(branches, pre);
  }

  lemma {:induction false} SeriesExact(parts: seq<Plan>, pre: set<TaskId>, car: set<TaskId>)
    requires NoDuplicates(PlanIdsOf(parts)) && pre !! MembersOf(parts) && car <= pre
    ensures ImposedSeries(parts, car) == IntendedSeries(parts, pre) <==> FaithfulSeries(parts, pre != {}, car == pre)
    decreases parts, 0
  {
    if parts != [] {
      var p, rest := parts[0], parts[1..];
      var pre', car' := pre + Members(p), Carry(p, car);
      Disjoint(parts);
      CarrySplit(p, car);
      ExposesExact(p);
      SeriesExact(rest, pre', car');
      ImposedWithin(p, car);
      IntendedWithin(p, pre);
      ImposedSeriesWithin(rest, car');
      IntendedSeriesWithin(rest, pre');
      SplitOrders(Imposed(p, car), ImposedSeries(rest, car'), Intended(p, pre), IntendedSeries(rest, pre'),
                  Members(p), MembersOf(rest));
      CarriesAll(p, pre, car);
      if car == pre {
        ImposedExact(p, pre);
      } else {
        DroppedOrder(p, pre, car);
      }
    }
  }

  lemma CarriesAll(p: Plan, pre: set<TaskId>, car: set<TaskId>)
    requires NoDuplicates(PlanIds(p)) && pre !! Members(p) && car <= pre
    ensures Carry(p, car) == pre + Members(p) <==> car == pre && (pre == {} || Passes(p)) && Exposes(p)
  {
    CarrySplit(p, car);
    ExposesExact(p);
    SplitUnion(Kept(Passes(p), car), Own(p), pre, Members(p));
  }

  /** Once something has been dropped, any further task misses it. */
  lemma DroppedOrder(p: Plan, pre: set<TaskId>, car: set<TaskId>)
    requires pre !! Members(p) && car <= pre && car != pre
    ensures Imposed(p, car) == Intended(p, pre) <==> !HasTasks(p)
  {
    CarrySplit(p, car);
    ImposedWithin(p, car);
    IntendedWithin(p, pre);
    if HasTasks(p) {
      var e :| e in pre && e !in car;
      var v :| v in Members(p);
      assert (e, v) in Cross(pre, Members(p));
      assert (e, v) !in Imposed(p, car);
    } else {
      assert Imposed(p, car) == {} && Intended(p, pre) == {};
    }
  }

  lemma {:induction false} ForkExact(branches: seq<Plan>, pre: set<TaskId>)
    requires NoDuplicates(PlanIdsOf(branches)) && pre !! MembersOf(branches)
    ensures ImposedFork(branches, pre) == IntendedFork(branches, pre) <==> FaithfulFork(branches, pre != {})
    decreases branches, 0
  {
    if branches != [] {
      var b, rest := branches[0], branches[1..];
      Disjoint(branches);
      ImposedExact(b, pre);
      ForkExact(rest, pre);
      ImposedWithin(b, pre);
      IntendedWithin(b, pre);
      ImposedForkWithin(rest, pre);
      IntendedForkWithin(rest, pre);
      SplitOrders(Imposed(b, pre), ImposedFork(rest, pre), Intended(b, pre), IntendedFork(rest, pre),
                  Members(b), MembersOf(rest));
    }
  }

  // ---- Filled parallel blocks are always faithful ----

  /** Every parallel block, at any depth, has at least one item. */
  predicate Filled(items: seq<PhaseItem>)
    decreases items, 0
  {
    items == [] || (FilledItem(items[0]) && Filled(items[1..]))
  }

  predicate FilledItem(item: PhaseItem)
    decreases item, 1
  {
    match item
    case SequenceBlock(_, phases) => Filled(phases)
    case ParallelBlock(_, phases) => phases != [] && Filled(phases)
    case PhaseOf(_) => true
    case LoopOf(_) => true
  }

  predicate Solid(plan: Plan)
    decreases plan, 1
  {
    match plan
    case Leaf(_, _, _) => true
    case Series(parts) => SolidAll(parts)
    case Fork(branches) => branches != [] && SolidAll(branches)
  }

  predicate SolidAll(plans: seq<Plan>)
    decreases plans, 0
  {
    plans == [] || (Solid(plans[0]) && SolidAll(plans[1..]))
  }

  lemma {:induction false} SolidIsFaithful(plan: Plan, preceded: bool)
    requires Solid(plan)
    ensures Passes(plan) && Exposes(plan) && Faithful(plan, preceded)
    decreases plan, 1
  {
    match plan
    case Leaf(_, _, _) =>
    case Series(parts) => SolidSeries(parts, preceded);
    case Fork(branches) =>
      SolidFork(branches, preceded);
      SolidIsFaithful(branches[0], preceded);
  }

  lemma {:induction false} SolidSeries(parts: seq<Plan>, preceded: bool)
    requires SolidAll(parts)
    ensures PassesAll(parts) && ExposesSeries(parts) && FaithfulSeries(parts, preceded, true)
    decreases parts, 0
  {
    if parts != [] {
      SolidIsFaithful(parts[0], preceded);
      SolidSeries(parts[1..], preceded || HasTasks(parts[0]));
    }
  }

  lemma {:induction false} SolidFork(branches: seq<Plan>, preceded: bool)
    requires SolidAll(branches)
    ensures ExposesFork(branches) && FaithfulFork(branches, preceded)
    decreases branches, 0
  {
    if branches != [] {
      SolidIsFaithful(branches[0], preceded);
      SolidFork(branches[1..], preceded);
    }
  }

  lemma {:induction false} BodySolid(loop: string, body: seq<BodyItem>, n: nat)
    ensures SolidAll(ElaborateBody(loop, body, n))
    decreases body, 0
  {
    if body != [] {
      BodyItemSolid(loop, body[0], n);
      BodySolid(loop, body[1..], n);
      assert ElaborateBody(loop, body, n)[1..] == ElaborateBody(loop, body[1..], n);
    }
  }

  lemma {:induction false} BodyItemSolid(loop: string, item: BodyItem, n: nat)
    ensures Solid(ElaborateBodyItem(loop, item, n))
    decreases item, 1
  {
    match item
    case BodyPhase(_) =>
    case BodyLoop(inner) => BodySolid(inner.name, inner.body, n);
  }

  lemma {:induction false} IterationsSolid(loop: LoopBlock, n: nat)
    ensures SolidAll(ElaborateIterations(loop, n))
    decreases loop.max + 1 - n
  {
    if n <= loop.max {
      BodySolid(loop.name, loop.body, n);
      IterationsSolid(loop, n + 1);
      assert ElaborateIterations(loop, n)[1..] == ElaborateIterations(loop, n + 1);
    }
  }

  lemma {:induction false} FilledItemSolid(item: PhaseItem, pad: Scratchpad)
    requires FilledItem(item)
    ensures Solid(Elaborate(item, pad))
    decreases item, 1
  {
    match item
    case PhaseOf(_) =>
    case SequenceBlock(_, phases) => FilledSolid(phases, pad);
    case ParallelBlock(_, phases) => FilledSolid(phases, pad);
    case LoopOf(loop) => IterationsSolid(loop, 1);
  }

  lemma {:induction false} FilledSolid(items: seq<PhaseItem>, pad: Scratchpad)
    requires Filled(items)
    ensures SolidAll(ElaborateAll(items, pad))
    decreases items, 0
  {
    if items != [] {
      FilledItemSolid(items[0], pad);
      FilledSolid(items[1..], pad);
      assert ElaborateAll(items, pad)[1..] == ElaborateAll(items[1..], pad);
    }
  }

  // ---- The emitted list: distinct ids, dependencies on earlier tasks only ----

  /** Every dependency is in `seen` or is the id of an earlier task of the list. */
  ghost predicate InOrder(tasks: seq<TaskSpec>, seen: set<TaskId>) {
    tasks == [] ||
    (IdSet(tasks[0].dependsOn) <= seen && InOrder(tasks[1..], seen + {tasks[0].id}))
  }

  lemma {:induction false} InOrderConcat(a: seq<TaskSpec>, b: seq<TaskSpec>, seen: set<TaskId>)
    requires InOrder(a, seen) && InOrder(b, seen + IdSet(Ids(a)))
    ensures InOrder(a + b, seen)
  {
    if a == [] {
      assert a + b == b;
      assert seen + IdSet(Ids(a)) == seen;
    } else {
      assert (a + b)[0] == a[0] && (a + b)[1..] == a[1..] + b;
      assert Ids(a) == [a[0].id] + Ids(a[1..]);
      assert seen + IdSet(Ids(a)) == (seen + {a[0].id}) + IdSet(Ids(a[1..]));
      InOrderConcat(a[1..], b, seen + {a[0].id});
    }
  }

  lemma {:induction false} InOrderMore(tasks: seq<TaskSpec>, seen: set<TaskId>, more: set<TaskId>)
    requires InOrder(tasks, seen) && seen <= more
    ensures InOrder(tasks, more)
  {
    if tasks != [] {
      InOrderMore(tasks[1..], seen + {tasks[0].id}, more + {tasks[0].id});
    }
  }

  lemma {:induction false} FanInOrder(ids: seq<TaskId>, prior: seq<TaskId>, seen: set<TaskId>)
    requires IdSet(prior) <= seen
    ensures InOrder(Fan(ids, prior), seen)
  {
    if ids != [] {
      assert Fan(ids, prior)[1..] == Fan(ids[1..], prior);
      FanInOrder(ids[1..], prior, seen + {ids[0]});
    }
  }

  lemma {:induction false} ChainInOrder(ids: seq<TaskId>, deps: seq<TaskId>, seen: set<TaskId>)
    requires IdSet(deps) <= seen
    ensures InOrder(Chain(ids, deps), seen)
  {
    if ids != [] {
      assert Chain(ids, deps)[1..] == Chain(ids[1..], [ids[0]]);
      ChainInOrder(ids[1..], [ids[0]], seen + {ids[0]});
    }
  }

  lemma LeafInOrder(scope: Scope, phase: string, pattern: Pattern, prior: seq<TaskId>, seen: set<TaskId>)
    requires IdSet(prior) <= seen
    ensures InOrder(LeafTasks(scope, phase, pattern, prior), seen)
  {
    match pattern
    case Single => FanInOrder([TaskId(scope, phase, Worker(0))], prior, seen);
    case Parallel(n) => FanInOrder(Workers(scope, phase, AtLeastOne(n)), prior, seen);
    case Competitive(n, judged) =>
      var solvers := Workers(scope, phase, AtLeastOne(n));
      FanInOrder(solvers, prior, seen);
      if judged {
        var last := [TaskSpec(TaskId(scope, phase, Judge), solvers)];
        assert Ids(Fan(solvers, prior)) == solvers;
        assert last[1..] == [];
        assert IdSet(last[0].dependsOn) <= seen + IdSet(solvers);
        assert InOrder(last, seen + IdSet(solvers));
        InOrderConcat(Fan(solvers, prior), last, seen);
        assert LeafTasks(scope, phase, pattern, prior) == Fan(solvers, prior) + last;
      } else {
        assert LeafTasks(scope, phase, pattern, prior) == Fan(solvers, prior);
      }
    case Debate(n) =>
      DebateIsChain(scope, phase, 1, AtLeastOne(n), prior);
      ChainInOrder(DebateIds(scope, phase, 1, AtLeastOne(n)), prior, seen);
  }

  /** The listing of a plan whose prior ids are among `seen`. */
  ghost predicate Lists(m: Emission, ids: set<TaskId>, seen: set<TaskId>) {
    && InOrder(m.tasks, seen)
    && NoDuplicates(Ids(m.tasks))
    && IdSet(Ids(m.tasks)) == ids
    && IdSet(m.terminals) <= seen + ids
  }

  lemma ListsConcat(a: Emission, b: Emission, x: set<TaskId>, y: set<TaskId>, seen: set<TaskId>)
    requires Lists(a, x, seen) && Lists(b, y, seen + x) && x !! y
    ensures Lists(Emission(a.tasks + b.tasks, b.terminals), x + y, seen)
  {
    InOrderConcat(a.tasks, b.tasks, seen);
    var ids := Ids(a.tasks + b.tasks);
    assert ids == Ids(a.tasks) + Ids(b.tasks);
    forall i, j | 0 <= i < j < |ids|
      ensures ids[i] != ids[j]
    {
      if i < |a.tasks| <= j {
        assert ids[i] in IdSet(Ids(a.tasks)) && ids[j] in IdSet(Ids(b.tasks));
      }
    }
  }

  lemma {:induction false} EmitLists(plan: Plan, prior: seq<TaskId>, seen: set<TaskId>)
    requires NoDuplicates(PlanIds(plan)) && IdSet(prior) <= seen
    ensures Lists(Emit(plan, prior), Members(plan), seen)
    decreases plan, 1
  {
    match plan
    case Leaf(scope, phase, pattern) =>
      LeafInOrder(scope, phase, pattern, prior, seen);
      LeafTaskIds(scope, phase, pattern, prior);
      LeafIdsDistinct(scope, phase, pattern);
      if pattern.Debate? {
        DebateIdsRange(scope, phase, 1, AtLeastOne(pattern.rounds));
      }
    case Series(parts) => SeriesLists(parts, prior, seen);
    case Fork(branches) => ForkLists(branches, prior, seen);
  }

  lemma {:induction false} SeriesLists(parts: seq<Plan>, prior: seq<TaskId>, seen: set<TaskId>)
    requires NoDuplicates(PlanIdsOf(parts)) && IdSet(prior) <= seen
    ensures Lists(EmitSeries(parts, prior), MembersOf(parts), seen)
    decreases parts, 0
  {
    if parts != [] {
      Disjoint(parts);
      EmitLists(parts[0], prior, seen);
      var first := Emit(parts[0], prior);
      SeriesLists(parts[1..], first.terminals, seen + Members(parts[0]));
      ListsConcat(first, EmitSeries(parts[1..], first.terminals), Members(parts[0]), MembersOf(parts[1..]), seen);
    }
  }

  lemma {:induction false} ForkLists(branches: seq<Plan>, prior: seq<TaskId>, seen: set<TaskId>)
    requires NoDuplicates(PlanIdsOf(branches)) && IdSet(prior) <= seen
    ensures Lists(EmitFork(branches, prior), MembersOf(branches), seen)
    decreases branches, 0
  {
    if branches != [] {
      Disjoint(branches);
      EmitLists(branches[0], prior, seen);
      ForkLists(branches[1..], prior, seen + Members(branches[0]));
      ListsConcat(Emit(branches[0], prior), EmitFork(branches[1..], prior),
                  Members(branches[0]), MembersOf(branches[1..]), seen);
    }
  }

  // ---- Transitive dependencies by paths ----

  ghost predicate DirectDep<Id>(tasks: seq<Spec<Id>>, u: Id, v: Id) {
    exists i | 0 <= i < |tasks| :: tasks[i].id == u && v in tasks[i].dependsOn
  }

  ghost predicate DepPath<Id>(tasks: seq<Spec<Id>>, path: seq<Id>) {
    |path| >= 2 && forall k | 0 <= k < |path| - 1 :: DirectDep(tasks, path[k], path[k + 1])
  }

  /** `v` is reached from `u` by following one or more `depends_on` edges. */
  ghost predicate DependsTransitively<Id(!new)>(tasks: seq<Spec<Id>>, u: Id, v: Id) {
    exists path :: DepPath(tasks, path) && path[0] == u && path[|path| - 1] == v
  }

  lemma {:induction false} InOrderSplit(a: seq<TaskSpec>, b: seq<TaskSpec>, seen: set<TaskId>)
    requires InOrder(a + b, seen)
    ensures InOrder(a, seen) && InOrder(b, seen + IdSet(Ids(a)))
  {
    if a == [] {
      assert a + b == b;
      assert seen + IdSet(Ids(a)) == seen;
    } else {
      assert (a + b)[0] == a[0] && (a + b)[1..] == a[1..] + b;
      assert Ids(a) == [a[0].id] + Ids(a[1..]);
      assert seen + IdSet(Ids(a)) == (seen + {a[0].id}) + IdSet(Ids(a[1..]));
      InOrderSplit(a[1..], b, seen + {a[0].id});
    }
  }

  /** Dropping the last task of a well-formed list leaves a well-formed list. */
  lemma DropLast(tasks: seq<TaskSpec>) returns (init: seq<TaskSpec>, t: TaskSpec)
    requires tasks != [] && InOrder(tasks, {}) && NoDuplicates(Ids(tasks))
    ensures tasks == init + [t] && InOrder(init, {}) && NoDuplicates(Ids(init))
    ensures t.id !in Ids(init) && IdSet(t.dependsOn) <= IdSet(Ids(init))
    ensures forall u, v :: DirectDep(tasks, u, v) <==> DirectDep(init, u, v) || (u == t.id && v in t.dependsOn)
    ensures forall u, v | DirectDep(init, u, v) :: u != t.id && v != t.id
    ensures Ancestors(tasks, {}) == Ancestors(init, {}) + Cross(Down(t.dependsOn, Ancestors(init, {})), {t.id})
  {
    var n := |tasks| - 1;
    init, t := tasks[..n], tasks[n];
    assert tasks == init + [t];
    assert Ids(tasks) == Ids(init) + [t.id];
    InOrderSplit(init, [t], {});
    AncestorsConcat(init, [t], {});
    assert [t][1..] == [];
    forall i | 0 <= i < n
      ensures Ids(init)[i] != t.id
    {
      assert Ids(tasks)[i] != Ids(tasks)[n];
    }
    forall i, j | 0 <= i < j < n
      ensures Ids(init)[i] != Ids(init)[j]
    {
      assert Ids(tasks)[i] != Ids(tasks)[j];
    }
    forall u, v
      ensures DirectDep(tasks, u, v) <==> DirectDep(init, u, v) || (u == t.id && v in t.dependsOn)
    {
      if DirectDep(init, u, v) {
        var i :| 0 <= i < n && init[i].id == u && v in init[i].dependsOn;
        assert tasks[i] == init[i];
      }
      if u == t.id && v in t.dependsOn {
        assert tasks[n].id == u;
      }
    }
    forall u, v | DirectDep(init, u, v)
      ensures u != t.id && v != t.id
    {
      var i :| 0 <= i < n && init[i].id == u && v in init[i].dependsOn;
      assert Ids(init)[i] != t.id;
      DepEarlier(init, i, v);
    }
  }

  lemma DepEarlier(tasks: seq<TaskSpec>, i: nat, v: TaskId)
    requires InOrder(tasks, {}) && i < |tasks| && v in tasks[i].dependsOn
    ensures v in Ids(tasks[..i]) && v in Ids(tasks)
  {
    assert tasks == tasks[..i] + tasks[i..];
    InOrderSplit(tasks[..i], tasks[i..], {});
    assert v in IdSet(tasks[i..][0].dependsOn);
    var k :| 0 <= k < i && Ids(tasks[..i])[k] == v;
    assert Ids(tasks)[k] == v;
  }

  lemma {:induction false} PathIsAncestor(tasks: seq<TaskSpec>, path: seq<TaskId>)
    requires InOrder(tasks, {}) && NoDuplicates(Ids(tasks)) && DepPath(tasks, path)
    ensures (path[|path| - 1], path[0]) in Ancestors(tasks, {})
    decreases |tasks|
  {
    assert DirectDep(tasks, path[0], path[1]);
    var init, t := DropLast(tasks);
    forall k | 1 <= k < |path|
      ensures path[k] != t.id
    {
      assert DirectDep(tasks, path[k - 1], path[k]);
      if path[k - 1] == t.id && path[k] in t.dependsOn {
        assert path[k] in IdSet(t.dependsOn);
      }
    }
    var tail := path[1..];
    assert forall k | 1 <= k < |path| - 1 :: DirectDep(tasks, path[k], path[k + 1]);
    if path[0] != t.id {
      assert DepPath(init, path);
      PathIsAncestor(init, path);
    } else if |path| > 2 {
      forall k | 0 <= k < |tail| - 1
        ensures DirectDep(init, tail[k], tail[k + 1])
      {
        assert tail[k] == path[k + 1] && tail[k + 1] == path[k + 2];
        assert DirectDep(tasks, path[k + 1], path[k + 2]);
      }
      PathIsAncestor(init, tail);
    }
  }

  lemma PathPrepend(tasks: seq<TaskSpec>, u: TaskId, d: TaskId, v: TaskId)
    requires DirectDep(tasks, u, d) && DependsTransitively(tasks, d, v)
    ensures DependsTransitively(tasks, u, v)
  {
    var tail :| DepPath(tasks, tail) && tail[0] == d && tail[|tail| - 1] == v;
    var path := [u] + tail;
    forall k | 0 <= k < |path| - 1
      ensures DirectDep(tasks, path[k], path[k + 1])
    {
      if k > 0 {
        assert DirectDep(tasks, tail[k - 1], tail[k - 1 + 1]);
      }
    }
    assert DepPath(tasks, path);
  }

  lemma PathWiden(init: seq<TaskSpec>, tasks: seq<TaskSpec>, u: TaskId, v: TaskId)
    requires forall a, b | DirectDep(init, a, b) :: DirectDep(tasks, a, b)
    requires DependsTransitively(init, u, v)
    ensures DependsTransitively(tasks, u, v)
  {
    var path :| DepPath(init, path) && path[0] == u && path[|path| - 1] == v;
    assert DepPath(tasks, path);
  }

  lemma {:induction false} AncestorHasPath(tasks: seq<TaskSpec>, u: TaskId, v: TaskId)
    requires InOrder(tasks, {}) && NoDuplicates(Ids(tasks)) && (v, u) in Ancestors(tasks, {})
    ensures DependsTransitively(tasks, u, v)
    decreases |tasks|
  {
    var init, t := DropLast(tasks);
    if (v, u) in Ancestors(init, {}) {
      AncestorHasPath(init, u, v);
      PathWiden(init, tasks, u, v);
    } else if v in t.dependsOn {
      assert DirectDep(tasks, u, v);
      var path := [u, v];
      assert DepPath(tasks, path);
    } else {
      var p :| p in Ancestors(init, {}) && p.1 in t.dependsOn && p.0 == v;
      AncestorHasPath(init, p.1, v);
      PathWiden(init, tasks, p.1, v);
      assert DirectDep(tasks, u, p.1);
      PathPrepend(tasks, u, p.1, v);
    }
  }

  /** On a well-formed list the computed order is reachability over dependency edges. */
  lemma AncestorsAreReachable(tasks: seq<TaskSpec>)
    requires InOrder(tasks, {}) && NoDuplicates(Ids(tasks))
    ensures forall u, v :: DependsTransitively(tasks, u, v) <==> (v, u) in Ancestors(tasks, {})
  {
    forall u, v
      ensures DependsTransitively(tasks, u, v) <==> (v, u) in Ancestors(tasks, {})
    {
      if DependsTransitively(tasks, u, v) {
        var path :| DepPath(tasks, path) && path[0] == u && path[|path| - 1] == v;
        PathIsAncestor(tasks, path);
      }
      if (v, u) in Ancestors(tasks, {}) {
        AncestorHasPath(tasks, u, v);
      }
    }
  }

  // ---- The meaning of an accepted workflow's plan ----

  /** Who the block structure puts before whom. */
  ghost function BlockOrder(items: seq<PhaseItem>, pad: Scratchpad): Order {
    IntendedSeries(ElaborateAll(items, pad), {})
  }

  /** The pairs of the order as pairs of id strings. */
  ghost function WrittenOrder(order: Order): set<(string, string)> {
    set p | p in order :: (LocalId(p.0), LocalId(p.1))
  }

  /** The plan of an accepted workflow lists its tasks with dependencies on earlier tasks only. */
  lemma PlanWellFormed(items: seq<PhaseItem>, pad: Scratchpad)
    requires Accepted(items, pad)
    ensures var plans := ElaborateAll(items, pad);
            var m := EmitSeries(plans, []);
            Lists(m, MembersOf(plans), {}) && Ids(m.tasks) == PlanIdsOf(plans)
  {
    ExpansionTranslates(items, pad);
    SeriesLists(ElaborateAll(items, pad), [], {});
    EmitSeriesIds(ElaborateAll(items, pad), []);
  }

  lemma MeaningExact(items: seq<PhaseItem>, pad: Scratchpad)
    requires Accepted(items, pad)
    ensures var plans := ElaborateAll(items, pad);
            Ancestors(EmitSeries(plans, []).tasks, {}) == BlockOrder(items, pad) <==> FaithfulSeries(plans, false, true)
  {
    var plans := ElaborateAll(items, pad);
    ExpansionTranslates(items, pad);
    SeriesImposes(plans, [], {});
    assert Down([], {}) == {};
    assert {} + ImposedSeries(plans, {}) == ImposedSeries(plans, {});
    SeriesExact(plans, {}, {});
  }

  // ---- From structured ids to id strings ----

  /** No two of the ids get the same name. */
  ghost predicate Apart<A, B>(name: A -> B, ids: set<A>) {
    forall u, v {:trigger name(u), name(v)} | u in ids && v in ids && name(u) == name(v) :: u == v
  }

  ghost predicate DepsWithin<A>(tasks: seq<Spec<A>>, ids: set<A>) {
    forall i | 0 <= i < |tasks| :: tasks[i].id in ids && forall d | d in tasks[i].dependsOn :: d in ids
  }

  lemma NamedDep<A, B>(name: A -> B, tasks: seq<Spec<A>>, u: A, v: A)
    requires DirectDep(tasks, u, v)
    ensures DirectDep(MapTasks(name, tasks), name(u), name(v))
  {
    var i :| 0 <= i < |tasks| && tasks[i].id == u && v in tasks[i].dependsOn;
    var j :| 0 <= j < |tasks[i].dependsOn| && tasks[i].dependsOn[j] == v;
    assert MapIds(name, tasks[i].dependsOn)[j] == name(v);
    assert MapTasks(name, tasks)[i].id == name(u);
  }

  lemma ReadDep<A, B>(name: A -> B, tasks: seq<Spec<A>>, ids: set<A>, x: B, y: B) returns (u: A, v: A)
    requires DepsWithin(tasks, ids) && DirectDep(MapTasks(name, tasks), x, y)
    ensures DirectDep(tasks, u, v) && u in ids && v in ids && name(u) == x && name(v) == y
  {
    var named := MapTasks(name, tasks);
    var i :| 0 <= i < |named| && named[i].id == x && y in named[i].dependsOn;
    var j :| 0 <= j < |named[i].dependsOn| && named[i].dependsOn[j] == y;
    u, v := tasks[i].id, tasks[i].dependsOn[j];
    assert DirectDep(tasks, u, v);
  }

  /** A path over names is the naming of a path over the ids. */
  lemma {:induction false} ReadPath<A, B>(name: A -> B, tasks: seq<Spec<A>>, ids: set<A>, texts: seq<B>)
    returns (path: seq<A>)
    requires DepsWithin(tasks, ids) && Apart(name, ids) && DepPath(MapTasks(name, tasks), texts)
    ensures DepPath(tasks, path) && MapIds(name, path) == texts && path[0] in ids
    decreases |texts|
  {
    var named := MapTasks(name, tasks);
    assert DirectDep(named, texts[0], texts[0 + 1]);
    var u, v := ReadDep(name, tasks, ids, texts[0], texts[1]);
    if |texts| == 2 {
      path := [u, v];
    } else {
      var tail := texts[1..];
      forall k | 0 <= k < |tail| - 1
        ensures DirectDep(named, tail[k], tail[k + 1])
      {
        assert DirectDep(named, texts[k + 1], texts[k + 1 + 1]);
      }
      var rest := ReadPath(name, tasks, ids, tail);
      assert MapIds(name, rest)[0] == texts[1];
      path := [u] + rest;
      PrependPath(tasks, u, rest);
    }
  }

  lemma PrependPath<A>(tasks: seq<Spec<A>>, u: A, rest: seq<A>)
    requires DepPath(tasks, rest) && DirectDep(tasks, u, rest[0])
    ensures DepPath(tasks, [u] + rest)
  {
    var path := [u] + rest;
    forall k | 0 <= k < |path| - 1
      ensures DirectDep(tasks, path[k], path[k + 1])
    {
      assert k > 0 ==> DirectDep(tasks, rest[k - 1], rest[k - 1 + 1]);
    }
  }

  lemma NamedPath<A, B>(name: A -> B, tasks: seq<Spec<A>>, path: seq<A>)
    requires DepPath(tasks, path)
    ensures DepPath(MapTasks(name, tasks), MapIds(name, path))
  {
    forall k | 0 <= k < |path| - 1
      ensures DirectDep(MapTasks(name, tasks), MapIds(name, path)[k], MapIds(name, path)[k + 1])
    {
      assert DirectDep(tasks, path[k], path[k + 1]);
      NamedDep(name, tasks, path[k], path[k + 1]);
    }
  }

  /** Transitive dependency between names is transitive dependency between the tasks they name. */
  lemma NamedReach<A(!new), B(!new)>(name: A -> B, tasks: seq<Spec<A>>, ids: set<A>, x: B, y: B)
    requires DepsWithin(tasks, ids) && Apart(name, ids)
    ensures DependsTransitively(MapTasks(name, tasks), x, y)
       <==> exists u, v :: DependsTransitively(tasks, u, v) && name(u) == x && name(v) == y
  {
    if DependsTransitively(MapTasks(name, tasks), x, y) {
      var texts :| DepPath(MapTasks(name, tasks), texts) && texts[0] == x && texts[|texts| - 1] == y;
      var path := ReadPath(name, tasks, ids, texts);
      assert MapIds(name, path)[0] == x && MapIds(name, path)[|path| - 1] == y;
      assert DependsTransitively(tasks, path[0], path[|path| - 1]);
    }
    if u, v :| DependsTransitively(tasks, u, v) && name(u) == x && name(v) == y {
      var path :| DepPath(tasks, path) && path[0] == u && path[|path| - 1] == v;
      NamedPath(name, tasks, path);
      assert MapIds(name, path)[0] == x && MapIds(name, path)[|path| - 1] == y;
    }
  }

  lemma DistinctNames<A, B>(name: A -> B, ids: seq<A>)
    requires NoDuplicates(MapIds(name, ids))
    ensures Apart(name, IdSet(ids))
  {
    var names := MapIds(name, ids);
    forall u, v | u in IdSet(ids) && v in IdSet(ids) && name(u) == name(v)
      ensures u == v
    {
      var i :| 0 <= i < |ids| && ids[i] == u;
      var j :| 0 <= j < |ids| && ids[j] == v;
      assert names[i] == names[j];
    }
  }

  lemma NamedEarlier<B>(name: TaskId -> B, tasks: seq<TaskSpec>, i: nat, d: B)
    requires InOrder(tasks, {}) && i < |tasks| && d in MapTasks(name, tasks)[i].dependsOn
    ensures d in Ids(MapTasks(name, tasks)[..i])
  {
    var named := MapTasks(name, tasks);
    var j :| 0 <= j < |named[i].dependsOn| && named[i].dependsOn[j] == d;
    var v := tasks[i].dependsOn[j];
    DepEarlier(tasks, i, v);
    var k :| 0 <= k < i && Ids(tasks[..i])[k] == v;
    assert Ids(named[..i])[k] == d;
  }

  /**
    * The expansion of an accepted workflow lists exactly the tasks its blocks call for, once each and
    * with dependencies on earlier tasks only.
    */
  lemma ExpansionWellFormed(items: seq<PhaseItem>, pad: Scratchpad)
    requires Accepted(items, pad)
    ensures var tasks := ExpandSequence(items, pad, []).tasks;
            && Ids(tasks) == LocalIds(PlanIdsOf(ElaborateAll(items, pad)))
            && (forall i, d | 0 <= i < |tasks| && d in tasks[i].dependsOn :: d in Ids(tasks[..i]))
  {
    var tasks, m := ExpandSequence(items, pad, []).tasks, EmitSeries(ElaborateAll(items, pad), []);
    ExpansionTranslates(items, pad);
    PlanWellFormed(items, pad);
    WrittenIsNamed(m.tasks);
    LocalIdsNamed(Ids(m.tasks));
    forall i, d | 0 <= i < |tasks| && d in tasks[i].dependsOn
      ensures d in Ids(tasks[..i])
    {
      NamedEarlier(LocalId, m.tasks, i, d);
    }
  }

  lemma ListedDepsWithin(tasks: seq<TaskSpec>)
    requires InOrder(tasks, {})
    ensures DepsWithin(tasks, IdSet(Ids(tasks)))
  {
    forall i | 0 <= i < |tasks|
      ensures tasks[i].id in Ids(tasks) && forall d | d in tasks[i].dependsOn :: d in Ids(tasks)
    {
      assert Ids(tasks)[i] == tasks[i].id;
      forall d | d in tasks[i].dependsOn
        ensures d in Ids(tasks)
      {
        DepEarlier(tasks, i, d);
      }
    }
  }

  /** In the expansion of an accepted workflow the id strings depend as the plan's ids precede each other. */
  lemma WrittenAncestors(items: seq<PhaseItem>, pad: Scratchpad)
    requires Accepted(items, pad)
    ensures var order := Ancestors(EmitSeries(ElaborateAll(items, pad), []).tasks, {});
            forall x, y ::
              DependsTransitively(ExpandSequence(items, pad, []).tasks, x, y) <==> (y, x) in WrittenOrder(order)
  {
    var plans := ElaborateAll(items, pad);
    var m := EmitSeries(plans, []);
    ExpansionTranslates(items, pad);
    PlanWellFormed(items, pad);
    ListedDepsWithin(m.tasks);
    LocalIdsNamed(PlanIdsOf(plans));
    DistinctNames(LocalId, PlanIdsOf(plans));
    WrittenIsNamed(m.tasks);
    AncestorsAreReachable(m.tasks);
    var order := Ancestors(m.tasks, {});
    forall x, y
      ensures DependsTransitively(Written(m.tasks), x, y) <==> (y, x) in WrittenOrder(order)
    {
      NamedReach(LocalId, m.tasks, IdSet(Ids(m.tasks)), x, y);
      if (y, x) in WrittenOrder(order) {
        var p :| p in order && (LocalId(p.0), LocalId(p.1)) == (y, x);
        assert DependsTransitively(m.tasks, p.1, p.0);
      }
    }
  }

  lemma WrittenOrderInjective(a: Order, b: Order, ids: set<TaskId>)
    requires Apart(LocalId, ids) && Within(a, {}, ids) && Within(b, {}, ids) && WrittenOrder(a) <= WrittenOrder(b)
    ensures a <= b
  {
    forall p | p in a
      ensures p in b
    {
      assert (LocalId(p.0), LocalId(p.1)) in WrittenOrder(a);
      var q :| q in b && (LocalId(q.0), LocalId(q.1)) == (LocalId(p.0), LocalId(p.1));
      assert q == p;
    }
  }

  // ---- Main results ----

  /**
    * Meaning preservation, exactly: transitive dependency between the emitted id strings is the order
    * of the block structure if and only if no part that drops its predecessors is followed by a task.
    */
  lemma MeaningPreserved(items: seq<PhaseItem>, pad: Scratchpad)
    requires Accepted(items, pad)
    ensures var tasks := ExpandSequence(items, pad, []).tasks;
            (forall x, y :: DependsTransitively(tasks, x, y) <==> (y, x) in WrittenOrder(BlockOrder(items, pad)))
            <==> FaithfulSeries(ElaborateAll(items, pad), false, true)
  {
    var plans := ElaborateAll(items, pad);
    var tasks := ExpandSequence(items, pad, []).tasks;
    WrittenAncestors(items, pad);
    MeaningExact(items, pad);
    var order, meant := Ancestors(EmitSeries(plans, []).tasks, {}), BlockOrder(items, pad);
    if forall x, y :: DependsTransitively(tasks, x, y) <==> (y, x) in WrittenOrder(meant) {
      forall p
        ensures p in WrittenOrder(order) <==> p in WrittenOrder(meant)
      {
        assert DependsTransitively(tasks, p.1, p.0) <==> (p.0, p.1) in WrittenOrder(meant);
      }
      BothWithin(items, pad);
      WrittenOrderInjective(order, meant, MembersOf(plans));
      WrittenOrderInjective(meant, order, MembersOf(plans));
    }
  }

  lemma BothWithin(items: seq<PhaseItem>, pad: Scratchpad)
    requires Accepted(items, pad)
    ensures var plans := ElaborateAll(items, pad);
            && Apart(LocalId, MembersOf(plans))
            && Within(Ancestors(EmitSeries(plans, []).tasks, {}), {}, MembersOf(plans))
            && Within(BlockOrder(items, pad), {}, MembersOf(plans))
  {
    var plans := ElaborateAll(items, pad);
    ExpansionTranslates(items, pad);
    PlanWellFormed(items, pad);
    LocalIdsNamed(PlanIdsOf(plans));
    DistinctNames(LocalId, PlanIdsOf(plans));
    SeriesImposes(plans, [], {});
    assert Down([], {}) == {};
    assert {} + ImposedSeries(plans, {}) == ImposedSeries(plans, {});
    ImposedSeriesWithin(plans, {});
    IntendedSeriesWithin(plans, {});
  }

  /** With no empty parallel block, at any depth, the meaning is always preserved. */
  lemma FilledMeaningPreserved(items: seq<PhaseItem>, pad: Scratchpad)
    requires Accepted(items, pad) && Filled(items)
    ensures var tasks := ExpandSequence(items, pad, []).tasks;
            forall x, y :: DependsTransitively(tasks, x, y) <==> (y, x) in WrittenOrder(BlockOrder(items, pad))
  {
    FilledSolid(items, pad);
    SolidSeries(ElaborateAll(items, pad), false);
    MeaningPreserved(items, pad);
  }

  /** The terminals of a filled workflow stand for all of its tasks, so a following block waits for all. */
  lemma FilledTerminalsCoverAll(items: seq<PhaseItem>, pad: Scratchpad)
    requires Accepted(items, pad) && Filled(items)
    ensures var e := ExpandSequence(items, pad, []);
            forall x | x in Ids(e.tasks) ::
              x in e.terminals || exists k :: k in e.terminals && DependsTransitively(e.tasks, k, x)
  {
    var plans := ElaborateAll(items, pad);
    var e, m := ExpandSequence(items, pad, []), EmitSeries(plans, []);
    ExpansionTranslates(items, pad);
    PlanWellFormed(items, pad);
    PlanTerminalsCoverAll(items, pad);
    WrittenAncestors(items, pad);
    var order := Ancestors(m.tasks, {});
    forall x | x in Ids(e.tasks)
      ensures x in e.terminals || exists k :: k in e.terminals && DependsTransitively(e.tasks, k, x)
    {
      var i :| 0 <= i < |e.tasks| && Ids(e.tasks)[i] == x;
      var u := m.tasks[i].id;
      assert Ids(m.tasks)[i] == u && u in Down(m.terminals, order);
      OwnWritten(m.terminals);
      if u !in m.terminals {
        var p :| p in order && p.1 in m.terminals && p.0 == u;
        assert (x, LocalId(p.1)) in WrittenOrder(order);
        assert DependsTransitively(e.tasks, LocalId(p.1), x);
      }
    }
  }

  lemma PlanTerminalsCoverAll(items: seq<PhaseItem>, pad: Scratchpad)
    requires Accepted(items, pad) && Filled(items)
    ensures var m := EmitSeries(ElaborateAll(items, pad), []);
            Down(m.terminals, Ancestors(m.tasks, {})) == IdSet(Ids(m.tasks))
  {
    var plans := ElaborateAll(items, pad);
    ExpansionTranslates(items, pad);
    PlanWellFormed(items, pad);
    SeriesImposes(plans, [], {});
    FilledSolid(items, pad);
    SolidSeries(plans, false);
    ExposesSeriesExact(plans);
    CarrySeriesSplit(plans, {});
    assert Down([], {}) == {};
  }
}
