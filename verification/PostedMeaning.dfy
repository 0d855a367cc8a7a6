// What the list that the route submits means: exactly when replacing block names in dependencies keeps
// the order of the block structure, for every workflow, whatever its phases and blocks are called.

module PostedMeaning {
  import opened Wrappers
  import opened PhaseSpecs
  import opened PhaseStrategies
  import opened PhaseExecutor
  import opened BlockPlan
  import opened BlockMeaning
  import opened BlockTheorems
  import opened BlockEmission
  import opened BlockRoots
  import opened BlockNames
  import opened BlockCapture
  import opened TaskNaming
  import Dag

  /** The task list the route checks and submits: the expansion with block names resolved. */
  function Posted(items: seq<PhaseItem>, pad: Scratchpad): seq<LocalSpec> {
    Resolved(ExpandSequence(items, pad, []).tasks, BlockTerminals(items, pad, []))
  }

  /** The DAG check lets the list through. */
  ghost predicate PassesCheck(tasks: seq<LocalSpec>) {
    NoDuplicates(Ids(tasks)) && Dag.KnownDependencies(tasks) && Dag.Acyclic(Dag.Edges(tasks))
  }

  /** The tasks of the workflow's plan, with the dependencies the blocks call for. */
  function Planned(items: seq<PhaseItem>, pad: Scratchpad): seq<TaskSpec> {
    EmitSeries(ElaborateAll(items, pad), []).tasks
  }

  ghost predicate Reached(tasks: seq<LocalSpec>, u: TaskId, v: TaskId) {
    DependsTransitively(tasks, LocalId(u), LocalId(v))
  }

  /** Every dependency of the plan is still reached, replaced or not. */
  ghost predicate KeepsDependencies(items: seq<PhaseItem>, pad: Scratchpad) {
    forall u, v | DirectDep(Planned(items, pad), u, v) :: Reached(Posted(items, pad), u, v)
  }

  /** No dependency, replaced or not, goes beyond the block order. */
  ghost predicate AddsNothing(items: seq<PhaseItem>, pad: Scratchpad) {
    forall x, y | DirectDep(Posted(items, pad), x, y) :: (y, x) in WrittenOrder(BlockOrder(items, pad))
  }

  /** Whatever the blocks put first is reached. */
  ghost predicate KeepsOrder(items: seq<PhaseItem>, pad: Scratchpad) {
    forall v, u | (v, u) in BlockOrder(items, pad) :: Reached(Posted(items, pad), u, v)
  }

  /** Transitive dependency in the posted list is the block order. */
  ghost predicate MeansBlocks(items: seq<PhaseItem>, pad: Scratchpad) {
    forall x, y :: DependsTransitively(Posted(items, pad), x, y) <==> (y, x) in WrittenOrder(BlockOrder(items, pad))
  }

  // ---- Paths ----

  lemma PathJoin<A(!new)>(tasks: seq<Spec<A>>, x: A, y: A, z: A)
    requires DependsTransitively(tasks, x, y) && DependsTransitively(tasks, y, z)
    ensures DependsTransitively(tasks, x, z)
  {
    var a :| DepPath(tasks, a) && a[0] == x && a[|a| - 1] == y;
    var b :| DepPath(tasks, b) && b[0] == y && b[|b| - 1] == z;
    var path := a + b[1..];
    forall k | 0 <= k < |path| - 1
      ensures DirectDep(tasks, path[k], path[k + 1])
    {
      if k < |a| - 1 {
        assert DirectDep(tasks, a[k], a[k + 1]);
      } else {
        var i := k - (|a| - 1);
        assert DirectDep(tasks, b[i], b[i + 1]);
      }
    }
    assert DepPath(tasks, path);
  }

  lemma OneStep<A(!new)>(tasks: seq<Spec<A>>, x: A, y: A)
    requires DirectDep(tasks, x, y)
    ensures DependsTransitively(tasks, x, y)
  {
    var path := [x, y];
    assert DepPath(tasks, path);
  }

  /** A path that leaves a set it does not begin in enters it somewhere. */
  lemma {:induction false} Crossing<A>(tasks: seq<Spec<A>>, path: seq<A>, within: set<A>) returns (x: A, y: A)
    requires DepPath(tasks, path) && path[0] !in within && path[|path| - 1] in within
    ensures DirectDep(tasks, x, y) && x !in within && y in within
    decreases |path|
  {
    assert DirectDep(tasks, path[0], path[0 + 1]);
    if path[1] in within {
      x, y := path[0], path[1];
    } else {
      var tail := path[1..];
      forall k | 0 <= k < |tail| - 1
        ensures DirectDep(tasks, tail[k], tail[k + 1])
      {
        assert DirectDep(tasks, path[k + 1], path[k + 1 + 1]);
      }
      x, y := Crossing(tasks, tail, within);
    }
  }

  /** What depends on itself, however indirectly, lies on a cycle. */
  lemma SelfIsCyclic(tasks: seq<LocalSpec>, x: string)
    requires DependsTransitively(tasks, x, x)
    ensures !Dag.Acyclic(Dag.Edges(tasks))
  {
    var path :| DepPath(tasks, path) && path[0] == x && path[|path| - 1] == x;
    var stuck := IdSet(path);
    forall y | y in stuck
      ensures Dag.WaitsInside(stuck, Dag.Edges(tasks), y)
    {
      var h :| 0 <= h < |path| && path[h] == y;
      var k := if h == |path| - 1 then 0 else h;
      assert DirectDep(tasks, path[k], path[k + 1]);
      var i :| 0 <= i < |tasks| && tasks[i].id == path[k] && path[k + 1] in tasks[i].dependsOn;
      Dag.TaskHasEdge(tasks, i, path[k + 1]);
      var a :| 0 <= a < |Dag.Edges(tasks)| && Dag.Edges(tasks)[a] == (path[k + 1], y);
      assert path[k + 1] in stuck;
    }
    assert x in stuck;
    Dag.StuckHasCycle(stuck, Dag.Edges(tasks));
  }

  // ---- What the posted list has in common with the plan ----

  lemma ResolvedDep(deps: seq<string>, terminals: map<string, seq<string>>, c: string) returns (d: string)
    requires c in ResolveDeps(deps, terminals)
    ensures d in deps && if d in terminals then c in terminals[d] else c == d
    decreases deps
  {
    d := deps[0];
    if !(if d in terminals then c in terminals[d] else c == d) {
      d := ResolvedDep(deps[1..], terminals, c);
    }
  }

  lemma {:induction false} StillListed(deps: seq<string>, terminals: map<string, seq<string>>, d: string)
    requires d in deps && d !in terminals
    ensures d in ResolveDeps(deps, terminals)
    decreases deps
  {
    if deps[0] != d {
      StillListed(deps[1..], terminals, d);
    }
  }

  /** For every workflow: the same ids, in the same order, and structured ids that are as distinct as their strings. */
  lemma PostedIds(items: seq<PhaseItem>, pad: Scratchpad)
    ensures Kin(ExpandSequence(items, pad, []).tasks, Planned(items, pad), IntendedSeries(ElaborateAll(items, pad), {}))
    ensures Ids(Posted(items, pad)) == LocalIds(PlanIdsOf(ElaborateAll(items, pad)))
    ensures |Posted(items, pad)| == |Planned(items, pad)| == |ExpandSequence(items, pad, []).tasks|
    ensures Ids(Planned(items, pad)) == PlanIdsOf(ElaborateAll(items, pad))
  {
    var plans := ElaborateAll(items, pad);
    assert LocalIds([]) == [];
    SequenceMatches(items, pad, []);
    EmitSeriesIds(plans, []);
    var tasks, posted, specs := ExpandSequence(items, pad, []).tasks, Posted(items, pad), Planned(items, pad);
    forall i | 0 <= i < |posted|
      ensures Ids(posted)[i] == LocalIds(PlanIdsOf(plans))[i]
    {
      assert KinTask(tasks, tasks[i], specs[i], IntendedSeries(plans, {}));
      assert Ids(specs)[i] == specs[i].id;
    }
  }

  lemma PlanFacts(items: seq<PhaseItem>, pad: Scratchpad)
    requires NoDuplicates(Ids(Posted(items, pad)))
    ensures var plans, specs := ElaborateAll(items, pad), Planned(items, pad);
            && NoDuplicates(PlanIdsOf(plans)) && NoDuplicates(Ids(specs)) && InOrder(specs, {})
            && Apart(LocalId, MembersOf(plans)) && MembersOf(plans) == IdSet(Ids(specs))
            && Ancestors(specs, {}) == ImposedSeries(plans, {})
            && DepsWithin(specs, MembersOf(plans))
  {
    var plans, specs := ElaborateAll(items, pad), Planned(items, pad);
    PostedIds(items, pad);
    DistinctWhenWritten(PlanIdsOf(plans));
    LocalIdsNamed(PlanIdsOf(plans));
    DistinctNames(LocalId, PlanIdsOf(plans));
    MembersOfListed(plans);
    SeriesLists(plans, [], {});
    SeriesImposes(plans, [], {});
    assert Down([], {}) == {};
    assert {} + ImposedSeries(plans, {}) == ImposedSeries(plans, {});
    ListedDepsWithin(specs);
  }

  lemma OrderWithin(items: seq<PhaseItem>, pad: Scratchpad)
    ensures Within(BlockOrder(items, pad), {}, MembersOf(ElaborateAll(items, pad)))
    ensures ImposedSeries(ElaborateAll(items, pad), {}) <= BlockOrder(items, pad)
  {
    IntendedSeriesWithin(ElaborateAll(items, pad), {});
    SeriesIsIntended(ElaborateAll(items, pad), {}, {});
  }

  // ---- Kept dependencies keep the order of a faithful plan ----

  lemma {:induction false} PathReached(specs: seq<TaskSpec>, tasks: seq<LocalSpec>, path: seq<TaskId>)
    requires DepPath(specs, path) && forall u, v | DirectDep(specs, u, v) :: Reached(tasks, u, v)
    ensures Reached(tasks, path[0], path[|path| - 1])
    decreases |path|
  {
    assert DirectDep(specs, path[0], path[0 + 1]);
    assert Reached(tasks, path[0], path[1]);
    if |path| > 2 {
      var tail := path[1..];
      forall k | 0 <= k < |tail| - 1
        ensures DirectDep(specs, tail[k], tail[k + 1])
      {
        assert DirectDep(specs, path[k + 1], path[k + 1 + 1]);
      }
      PathReached(specs, tasks, tail);
      PathJoin(tasks, LocalId(path[0]), LocalId(path[1]), LocalId(path[|path| - 1]));
    }
  }

  lemma KeptDependenciesKeepOrder(items: seq<PhaseItem>, pad: Scratchpad)
    requires NoDuplicates(Ids(Posted(items, pad)))
    requires FaithfulSeries(ElaborateAll(items, pad), false, true) && KeepsDependencies(items, pad)
    ensures KeepsOrder(items, pad)
  {
    var specs := Planned(items, pad);
    PlanFacts(items, pad);
    FaithfulOrder(items, pad);
    AncestorsAreReachable(specs);
    forall v, u | (v, u) in BlockOrder(items, pad)
      ensures Reached(Posted(items, pad), u, v)
    {
      assert DependsTransitively(specs, u, v);
      var path :| DepPath(specs, path) && path[0] == u && path[|path| - 1] == v;
      PathReached(specs, Posted(items, pad), path);
    }
  }

  lemma FaithfulOrder(items: seq<PhaseItem>, pad: Scratchpad)
    requires NoDuplicates(PlanIdsOf(ElaborateAll(items, pad)))
    ensures ImposedSeries(ElaborateAll(items, pad), {}) == BlockOrder(items, pad)
       <==> FaithfulSeries(ElaborateAll(items, pad), false, true)
  {
    SeriesExact(ElaborateAll(items, pad), {}, {});
  }

  // ---- An order that the plan has dropped is not won back ----

  /** Everything that reaches `x` in the plan, and `x` itself. */
  ghost function Above(order: Order, x: TaskId): set<TaskId> {
    {x} + set p | p in order && p.0 == x :: p.1
  }

  lemma AboveClosed(specs: seq<TaskSpec>, x: TaskId, c: TaskId, y: TaskId)
    requires InOrder(specs, {}) && NoDuplicates(Ids(specs))
    requires c in Above(Ancestors(specs, {}), x) && DirectDep(specs, y, c)
    ensures y in Above(Ancestors(specs, {}), x)
  {
    AncestorsAreReachable(specs);
    OneStep(specs, y, c);
    if c != x {
      assert DependsTransitively(specs, c, x);
      PathJoin(specs, y, c, x);
    }
    assert (x, y) in Ancestors(specs, {});
  }

  /** An edge of the posted list comes from a dependency of the expansion. */
  lemma EdgeOrigin(items: seq<PhaseItem>, pad: Scratchpad, y: string, c: string) returns (i: nat, j: nat)
    requires DirectDep(Posted(items, pad), y, c)
    ensures var tasks, terminals := ExpandSequence(items, pad, []).tasks, BlockTerminals(items, pad, []);
            && i < |tasks| && tasks[i].id == y && j < |tasks[i].dependsOn|
            && var d := tasks[i].dependsOn[j]; if d in terminals then c in terminals[d] else c == d
  {
    var tasks, terminals := ExpandSequence(items, pad, []).tasks, BlockTerminals(items, pad, []);
    var posted := Posted(items, pad);
    i :| 0 <= i < |posted| && posted[i].id == y && c in posted[i].dependsOn;
    var d := ResolvedDep(tasks[i].dependsOn, terminals, c);
    j :| 0 <= j < |tasks[i].dependsOn| && tasks[i].dependsOn[j] == d;
  }

  /** A dependency that is no block name is posted as it is. */
  lemma PlainIsPosted(items: seq<PhaseItem>, pad: Scratchpad, i: nat, d: string)
    requires i < |ExpandSequence(items, pad, []).tasks| && d in ExpandSequence(items, pad, []).tasks[i].dependsOn
    requires d !in BlockTerminals(items, pad, [])
    ensures DependsTransitively(Posted(items, pad), ExpandSequence(items, pad, []).tasks[i].id, d)
  {
    var task, posted := ExpandSequence(items, pad, []).tasks[i], Posted(items, pad);
    StillListed(task.dependsOn, BlockTerminals(items, pad, []), d);
    assert posted[i].id == task.id && d in posted[i].dependsOn;
    assert DirectDep(posted, task.id, d);
    OneStep(posted, task.id, d);
  }

  /** No posted dependency leads to a task that depends on itself or must come later. */
  lemma NoTwistedEdge(items: seq<PhaseItem>, pad: Scratchpad, i: nat, id: TaskId, d: string)
    requires PassesCheck(Posted(items, pad)) && KeepsOrder(items, pad)
    requires i < |ExpandSequence(items, pad, []).tasks| && d in ExpandSequence(items, pad, []).tasks[i].dependsOn
    requires ExpandSequence(items, pad, []).tasks[i].id == LocalId(id) && d !in BlockTerminals(items, pad, [])
    ensures !SelfDep(ExpandSequence(items, pad, []).tasks, d)
    ensures forall c | (id, c) in BlockOrder(items, pad) :: d != LocalId(c)
  {
    var tasks, posted := ExpandSequence(items, pad, []).tasks, Posted(items, pad);
    if SelfDep(tasks, d) {
      var k :| 0 <= k < |tasks| && tasks[k].id == d && d in tasks[k].dependsOn;
      PlainIsPosted(items, pad, k, d);
      SelfIsCyclic(posted, d);
    }
    PlainIsPosted(items, pad, i, d);
    if c :| (id, c) in BlockOrder(items, pad) && d == LocalId(c) {
      assert Reached(posted, c, id);
      PathJoin(posted, d, LocalId(id), d);
      SelfIsCyclic(posted, d);
    }
  }

  /** Where the order is kept, a dependency that is no block name is the plan's. */
  lemma PlainEdge(items: seq<PhaseItem>, pad: Scratchpad, i: nat, j: nat)
    requires PassesCheck(Posted(items, pad)) && KeepsOrder(items, pad)
    requires var tasks := ExpandSequence(items, pad, []).tasks; i < |tasks| && j < |tasks[i].dependsOn|
    requires ExpandSequence(items, pad, []).tasks[i].dependsOn[j] !in BlockTerminals(items, pad, [])
    ensures i < |Planned(items, pad)| && j < |Planned(items, pad)[i].dependsOn|
    ensures ExpandSequence(items, pad, []).tasks[i].dependsOn[j] == LocalId(Planned(items, pad)[i].dependsOn[j])
  {
    PostedIds(items, pad);
    var tasks, e := ExpandSequence(items, pad, []).tasks, Planned(items, pad)[i];
    assert KinTask(tasks, tasks[i], e, BlockOrder(items, pad));
    assert KinDep(tasks, tasks[i].dependsOn[j], e.id, e.dependsOn[j], BlockOrder(items, pad));
    NoTwistedEdge(items, pad, i, e.id, tasks[i].dependsOn[j]);
  }

  /** What the terminals of the first parts stand for. */
  lemma PrefixCarries(plans: seq<Plan>, m: nat)
    requires NoDuplicates(PlanIdsOf(plans)) && m <= |plans|
    ensures IdSet(TerminalsAfter(plans, [], m)) <= MembersOf(plans[..m]) <= MembersOf(plans)
    ensures Down(TerminalsAfter(plans, [], m), ImposedSeries(plans[..m], {})) == CarrySeries(plans[..m], {})
  {
    CutSeries(plans, {}, m);
    SplitDistinct(PlanIdsOf(plans[..m]), PlanIdsOf(plans[m..]));
    SeriesImposes(plans[..m], [], {});
    MembersOfPrefix(plans, m);
    assert Down([], {}) == {};
    assert {} + ImposedSeries(plans[..m], {}) == ImposedSeries(plans[..m], {});
  }

  /** What comes before a task of the first parts does so within them. */
  lemma PrefixImposes(plans: seq<Plan>, m: nat, x: TaskId, c: TaskId)
    requires NoDuplicates(PlanIdsOf(plans)) && m <= |plans|
    requires c in MembersOf(plans[..m]) && (x, c) in ImposedSeries(plans, {})
    ensures (x, c) in ImposedSeries(plans[..m], {})
  {
    CutSeries(plans, {}, m);
    SplitDistinct(PlanIdsOf(plans[..m]), PlanIdsOf(plans[m..]));
    MembersOfListed(plans[..m]);
    MembersOfListed(plans[m..]);
    ImposedSeriesWithin(plans[m..], CarrySeries(plans[..m], {}));
  }

  /** What a recorded terminal reaches is carried on after the block. */
  lemma TerminalCarries(plans: seq<Plan>, m: nat, x: TaskId, c: TaskId)
    requires NoDuplicates(PlanIdsOf(plans)) && m <= |plans|
    requires c in TerminalsAfter(plans, [], m) && c in Above(ImposedSeries(plans, {}), x)
    ensures x in CarrySeries(plans[..m], {})
  {
    PrefixCarries(plans, m);
    assert c in IdSet(TerminalsAfter(plans, [], m));
    if c != x {
      PrefixImposes(plans, m, x, c);
    }
    assert x in Down(TerminalsAfter(plans, [], m), ImposedSeries(plans[..m], {}));
  }

  lemma RootlessHasNoDependencies(items: seq<PhaseItem>, pad: Scratchpad, z: TaskId, y: string)
    requires NoDuplicates(Ids(Posted(items, pad))) && z in MembersOf(ElaborateAll(items, pad))
    requires Rootless(ImposedSeries(ElaborateAll(items, pad), {}), z)
    ensures !DirectDep(Posted(items, pad), LocalId(z), y)
  {
    var tasks, specs, posted := ExpandSequence(items, pad, []).tasks, Planned(items, pad), Posted(items, pad);
    PlanFacts(items, pad);
    PostedIds(items, pad);
    AncestorsAreReachable(specs);
    if DirectDep(posted, LocalId(z), y) {
      var i, j := EdgeOrigin(items, pad, LocalId(z), y);
      assert KinTask(tasks, tasks[i], specs[i], IntendedSeries(ElaborateAll(items, pad), {}));
      assert Ids(specs)[i] == specs[i].id;
      assert specs[i].id == z;
      var d := specs[i].dependsOn[j];
      assert DirectDep(specs, z, d);
      OneStep(specs, z, d);
    }
  }

  lemma RootlessReachesNothing(items: seq<PhaseItem>, pad: Scratchpad, z: TaskId, x: TaskId)
    requires NoDuplicates(Ids(Posted(items, pad))) && z in MembersOf(ElaborateAll(items, pad))
    requires Rootless(ImposedSeries(ElaborateAll(items, pad), {}), z)
    ensures !Reached(Posted(items, pad), z, x)
  {
    var posted := Posted(items, pad);
    if Reached(posted, z, x) {
      var path :| DepPath(posted, path) && path[0] == LocalId(z) && path[|path| - 1] == LocalId(x);
      assert DirectDep(posted, path[0], path[0 + 1]);
      RootlessHasNoDependencies(items, pad, z, path[1]);
    }
  }

  /** A replaced dependency leads to terminals of a block, which carry on whatever they reach. */
  lemma BlockEdge(items: seq<PhaseItem>, pad: Scratchpad, d: string, x: TaskId, a: TaskId) returns (m: nat)
    requires NoDuplicates(Ids(Posted(items, pad))) && x in MembersOf(ElaborateAll(items, pad))
    requires d in BlockTerminals(items, pad, []) && LocalId(a) in BlockTerminals(items, pad, [])[d]
    requires a in Above(ImposedSeries(ElaborateAll(items, pad), {}), x)
    ensures m <= |ElaborateAll(items, pad)| && x in CarrySeries(ElaborateAll(items, pad)[..m], {})
  {
    var plans := ElaborateAll(items, pad);
    PlanFacts(items, pad);
    ImposedSeriesWithin(plans, {});
    assert LocalIds([]) == [];
    m := RecordedTerminals(items, pad, [], d);
    var ends := TerminalsAfter(plans, [], m);
    var k :| 0 <= k < |ends| && LocalIds(ends)[k] == LocalId(a);
    PrefixCarries(plans, m);
    assert ends[k] in IdSet(ends);
    TerminalCarries(plans, m, x, a);
  }

  /** An edge into what reaches `x`, from outside, leads through a block that still carries `x` on. */
  lemma CrossingCarries(items: seq<PhaseItem>, pad: Scratchpad, x: TaskId, y: string, c: string) returns (m: nat)
    requires PassesCheck(Posted(items, pad)) && KeepsOrder(items, pad) && x in MembersOf(ElaborateAll(items, pad))
    requires var within := set a | a in Above(ImposedSeries(ElaborateAll(items, pad), {}), x) :: LocalId(a);
             DirectDep(Posted(items, pad), y, c) && y !in within && c in within
    ensures m <= |ElaborateAll(items, pad)| && x in CarrySeries(ElaborateAll(items, pad)[..m], {})
  {
    var above := Above(ImposedSeries(ElaborateAll(items, pad), {}), x);
    var a :| a in above && LocalId(a) == c;
    var i, j := EdgeOrigin(items, pad, y, c);
    var d := ExpandSequence(items, pad, []).tasks[i].dependsOn[j];
    if d !in BlockTerminals(items, pad, []) {
      PlainEdgeStaysAbove(items, pad, i, j, x, a);
    }
    m := BlockEdge(items, pad, d, x, a);
  }

  /** A dependency that is no block name and leads to what reaches `x` comes from what reaches `x`. */
  lemma PlainEdgeStaysAbove(items: seq<PhaseItem>, pad: Scratchpad, i: nat, j: nat, x: TaskId, a: TaskId)
    requires PassesCheck(Posted(items, pad)) && KeepsOrder(items, pad) && x in MembersOf(ElaborateAll(items, pad))
    requires var tasks := ExpandSequence(items, pad, []).tasks;
             i < |tasks| && j < |tasks[i].dependsOn| && tasks[i].dependsOn[j] == LocalId(a)
    requires LocalId(a) !in BlockTerminals(items, pad, []) && a in Above(ImposedSeries(ElaborateAll(items, pad), {}), x)
    ensures exists e :: e in Above(ImposedSeries(ElaborateAll(items, pad), {}), x)
                   && LocalId(e) == ExpandSequence(items, pad, []).tasks[i].id
  {
    var tasks, specs := ExpandSequence(items, pad, []).tasks, Planned(items, pad);
    PlanFacts(items, pad);
    PostedIds(items, pad);
    ImposedSeriesWithin(ElaborateAll(items, pad), {});
    PlainEdge(items, pad, i, j);
    assert KinTask(tasks, tasks[i], specs[i], BlockOrder(items, pad));
    var v := specs[i].dependsOn[j];
    assert DirectDep(specs, specs[i].id, v);
    assert v == a;
    AboveClosed(specs, x, a, specs[i].id);
  }

  /** What the posted list reaches although the plan does not is carried on by some block. */
  lemma WonBackIsCarried(items: seq<PhaseItem>, pad: Scratchpad, x: TaskId, u: TaskId) returns (m: nat)
    requires PassesCheck(Posted(items, pad)) && KeepsOrder(items, pad)
    requires (x, u) in BlockOrder(items, pad) && (x, u) !in ImposedSeries(ElaborateAll(items, pad), {})
    ensures m <= |ElaborateAll(items, pad)| && x in CarrySeries(ElaborateAll(items, pad)[..m], {})
  {
    var plans, posted := ElaborateAll(items, pad), Posted(items, pad);
    var above := Above(ImposedSeries(plans, {}), x);
    var within := set a | a in above :: LocalId(a);
    PlanFacts(items, pad);
    OrderWithin(items, pad);
    ImposedSeriesWithin(plans, {});
    assert Reached(posted, u, x);
    if u == x {
      SelfIsCyclic(posted, LocalId(x));
    }
    OutsideWritten(plans, above, u);
    assert x in above;
    var path :| DepPath(posted, path) && path[0] == LocalId(u) && path[|path| - 1] == LocalId(x);
    var y, c := Crossing(posted, path, within);
    m := CrossingCarries(items, pad, x, y, c);
  }

  lemma OutsideWritten(plans: seq<Plan>, above: set<TaskId>, u: TaskId)
    requires Apart(LocalId, MembersOf(plans)) && above <= MembersOf(plans) && u in MembersOf(plans) && u !in above
    ensures LocalId(u) !in (set a | a in above :: LocalId(a))
  {
  }

  /** If the posted list keeps the block order, the plan was faithful already. */
  lemma KeptOrderIsFaithful(items: seq<PhaseItem>, pad: Scratchpad)
    requires PassesCheck(Posted(items, pad)) && KeepsOrder(items, pad)
    ensures FaithfulSeries(ElaborateAll(items, pad), false, true)
  {
    var plans := ElaborateAll(items, pad);
    var imposed, meant := ImposedSeries(plans, {}), BlockOrder(items, pad);
    PlanFacts(items, pad);
    FaithfulOrder(items, pad);
    OrderWithin(items, pad);
    forall p | p in meant
      ensures p in imposed
    {
      if p !in imposed {
        var m := WonBackIsCarried(items, pad, p.0, p.1);
        CarriedShowsSeries(plans, {}, {}, m, p.0, p.1);
        var z :| (p.0, z) in meant && Rootless(imposed, z);
        RootlessReachesNothing(items, pad, z, p.0);
      }
    }
  }

  // ---- Main results ----

  /**
    * For every workflow whose posted list passes the check: whatever the blocks put first is a
    * transitive dependency, if and only if no part that drops its predecessors is followed by a task
    * and every dependency of the plan is still reached after block names are replaced.
    */
  lemma OrderKeptExactly(items: seq<PhaseItem>, pad: Scratchpad)
    requires PassesCheck(Posted(items, pad))
    ensures KeepsOrder(items, pad)
       <==> FaithfulSeries(ElaborateAll(items, pad), false, true) && KeepsDependencies(items, pad)
  {
    var specs := Planned(items, pad);
    if KeepsOrder(items, pad) {
      KeptOrderIsFaithful(items, pad);
      PlanFacts(items, pad);
      FaithfulOrder(items, pad);
      AncestorsAreReachable(specs);
      forall u, v | DirectDep(specs, u, v)
        ensures Reached(Posted(items, pad), u, v)
      {
        OneStep(specs, u, v);
        assert (v, u) in Ancestors(specs, {});
      }
    } else if FaithfulSeries(ElaborateAll(items, pad), false, true) && KeepsDependencies(items, pad) {
      KeptDependenciesKeepOrder(items, pad);
    }
  }

  /**
    * Meaning of the posted list, exactly: its transitive dependencies are the block order if and only
    * if, besides, no dependency goes beyond the block order.
    */
  lemma PostedMeaningExact(items: seq<PhaseItem>, pad: Scratchpad)
    requires PassesCheck(Posted(items, pad))
    ensures MeansBlocks(items, pad)
       <==> FaithfulSeries(ElaborateAll(items, pad), false, true) && KeepsDependencies(items, pad) && AddsNothing(items, pad)
  {
    OrderKeptExactly(items, pad);
    var posted, meant := Posted(items, pad), BlockOrder(items, pad);
    if MeansBlocks(items, pad) {
      forall v, u | (v, u) in meant
        ensures Reached(posted, u, v)
      {
        assert (LocalId(v), LocalId(u)) in WrittenOrder(meant);
      }
      forall x, y | DirectDep(posted, x, y)
        ensures (y, x) in WrittenOrder(meant)
      {
        OneStep(posted, x, y);
      }
    } else if KeepsOrder(items, pad) && AddsNothing(items, pad) {
      forall x, y
        ensures DependsTransitively(posted, x, y) <==> (y, x) in WrittenOrder(meant)
      {
        if DependsTransitively(posted, x, y) {
          var path :| DepPath(posted, path) && path[0] == x && path[|path| - 1] == y;
          PathWithinOrder(items, pad, path);
        }
        if (y, x) in WrittenOrder(meant) {
          var p :| p in meant && (LocalId(p.0), LocalId(p.1)) == (y, x);
          assert Reached(posted, p.1, p.0);
        }
      }
    }
  }

  lemma {:induction false} PathWithinOrder(items: seq<PhaseItem>, pad: Scratchpad, path: seq<string>)
    requires PassesCheck(Posted(items, pad)) && KeepsOrder(items, pad) && AddsNothing(items, pad)
    requires DepPath(Posted(items, pad), path)
    ensures (path[|path| - 1], path[0]) in WrittenOrder(BlockOrder(items, pad))
    decreases |path|
  {
    var posted, meant := Posted(items, pad), BlockOrder(items, pad);
    assert DirectDep(posted, path[0], path[0 + 1]);
    if |path| > 2 {
      var tail := path[1..];
      forall k | 0 <= k < |tail| - 1
        ensures DirectDep(posted, tail[k], tail[k + 1])
      {
        assert DirectDep(posted, path[k + 1], path[k + 1 + 1]);
      }
      PathWithinOrder(items, pad, tail);
      WrittenOrderTransitive(items, pad, path[|path| - 1], path[1], path[0]);
    }
  }

  lemma WrittenOrderTransitive(items: seq<PhaseItem>, pad: Scratchpad, a: string, b: string, c: string)
    requires PassesCheck(Posted(items, pad)) && KeepsOrder(items, pad)
    requires (a, b) in WrittenOrder(BlockOrder(items, pad)) && (b, c) in WrittenOrder(BlockOrder(items, pad))
    ensures (a, c) in WrittenOrder(BlockOrder(items, pad))
  {
    var meant, specs := BlockOrder(items, pad), Planned(items, pad);
    PlanFacts(items, pad);
    KeptOrderIsFaithful(items, pad);
    FaithfulOrder(items, pad);
    OrderWithin(items, pad);
    AncestorsAreReachable(specs);
    var p :| p in meant && (LocalId(p.0), LocalId(p.1)) == (a, b);
    var q :| q in meant && (LocalId(q.0), LocalId(q.1)) == (b, c);
    assert p.1 == q.0;
    assert DependsTransitively(specs, q.1, q.0) && DependsTransitively(specs, p.1, p.0);
    PathJoin(specs, q.1, p.1, p.0);
    assert (p.0, q.1) in meant;
  }

  /** With plain block names an accepted workflow is posted as it was expanded, so it means its blocks. */
  lemma PlainBlocksKeepMeaning(items: seq<PhaseItem>, pad: Scratchpad)
    requires PlainBlocks(items) && Accepted(items, pad) && FaithfulSeries(ElaborateAll(items, pad), false, true)
    ensures PassesCheck(Posted(items, pad)) && KeepsDependencies(items, pad) && AddsNothing(items, pad)
  {
    ResolvingChangesNothing(items, pad);
    AcceptedExactly(items, pad);
    MeaningPreserved(items, pad);
    PostedMeaningExact(items, pad);
  }
}
