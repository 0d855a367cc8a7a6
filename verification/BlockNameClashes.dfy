// Workflows in which a block is named like a task: replacing the name loses an order, makes a cycle, or
// adds an order that no block asks for.

module BlockNameClashes {
  import opened Wrappers
  import opened PhaseSpecs
  import opened PhaseStrategies
  import opened PhaseExecutor
  import opened BlockPlan
  import opened BlockMeaning
  import opened BlockTheorems
  import opened BlockEmission
  import opened BlockNames
  import opened PostedMeaning
  import opened TaskNaming
  import opened Text
  import Dag

  const NO_PAD: Scratchpad := Wrappers.None

  /** The only task of a phase with the single pattern. */
  function Solo(phase: string): TaskId {
    TaskId(Outer, phase, Worker(0))
  }

  function SoloPhase(phase: string): PhaseItem {
    PhaseOf(PhaseSpec(phase, Single, Wrappers.None))
  }

  lemma SoloWritten(phase: string)
    ensures LocalId(Solo(phase)) == "phase_" + phase + "_0"
  {
    assert NatToString(0) == "0";
  }

  lemma SoloExpands(phase: string, prior: seq<string>)
    ensures var e := ExpandItem(SoloPhase(phase), NO_PAD, prior);
            e.tasks == [TaskSpec(LocalId(Solo(phase)), prior)] && e.terminals == [LocalId(Solo(phase))]
  {
    SinglePhase(phase, prior);
  }

  lemma ThreeStrings(a: string, b: string, c: string)
    requires a == "a" && b == "b" && c == "c"
    ensures LocalId(Solo(a)) == "phase_a_0"
    ensures LocalId(Solo(a)) != LocalId(Solo(b)) && LocalId(Solo(a)) != LocalId(Solo(c)) && LocalId(Solo(b)) != LocalId(Solo(c))
  {
    SoloWritten(a);
    SoloWritten(b);
    SoloWritten(c);
    assert LocalId(Solo(a))[6] == 'a' && LocalId(Solo(b))[6] == 'b' && LocalId(Solo(c))[6] == 'c';
  }

  lemma ChainOf(first: PhaseItem, second: PhaseItem, third: PhaseItem)
    ensures var e := ExpandItem(first, NO_PAD, []);
            var f := ExpandItem(second, NO_PAD, e.terminals);
            var g := ExpandItem(third, NO_PAD, f.terminals);
            ExpandSequence([first, second, third], NO_PAD, []).tasks == e.tasks + (f.tasks + g.tasks)
  {
    assert [first, second, third][1..] == [second, third] && [second, third][1..] == [third] && [third][1..] == [];
    var e := ExpandItem(first, NO_PAD, []);
    var f := ExpandItem(second, NO_PAD, e.terminals);
    var g := ExpandItem(third, NO_PAD, f.terminals);
    assert ExpandSequence([third], NO_PAD, f.terminals) == Then(g, ExpandSequence([], NO_PAD, g.terminals));
    assert ExpandSequence([second, third], NO_PAD, e.terminals) == Then(f, ExpandSequence([third], NO_PAD, f.terminals));
    assert ExpandSequence([first, second, third], NO_PAD, [])
        == Then(e, ExpandSequence([second, third], NO_PAD, e.terminals));
  }

  lemma OneInSequence(name: string, phase: string, prior: seq<string>)
    ensures var e := ExpandItem(SequenceBlock(name, [SoloPhase(phase)]), NO_PAD, prior);
            e.tasks == [TaskSpec(LocalId(Solo(phase)), prior)] && e.terminals == [LocalId(Solo(phase))]
  {
    SoloExpands(phase, prior);
    var items := [SoloPhase(phase)];
    assert items[1..] == [];
    var e := ExpandItem(items[0], NO_PAD, prior);
    assert ExpandSequence(items, NO_PAD, prior) == Then(e, ExpandSequence([], NO_PAD, e.terminals));
  }

  // ---- A lost order ----

  /** A block at the beginning, named like the task of the phase after it, and one phase more. */
  function Losing(): seq<PhaseItem> {
    [SequenceBlock("phase_a_0", [SoloPhase("b")]), SoloPhase("a"), SoloPhase("c")]
  }

  lemma LosingPosts()
    ensures Posted(Losing(), NO_PAD)
         == [TaskSpec(LocalId(Solo("b")), []), TaskSpec(LocalId(Solo("a")), [LocalId(Solo("b"))]),
             TaskSpec(LocalId(Solo("c")), [LocalId(Solo("b"))])]
  {
    var a, b, c := LocalId(Solo("a")), LocalId(Solo("b")), LocalId(Solo("c"));
    var items := Losing();
    ThreeStrings("a", "b", "c");
    ChainOf(items[0], items[1], items[2]);
    OneInSequence("phase_a_0", "b", []);
    SoloExpands("a", [b]);
    SoloExpands("c", [a]);
    var tasks := ExpandSequence(items, NO_PAD, []).tasks;
    assert tasks == [TaskSpec(b, []), TaskSpec(a, [b]), TaskSpec(c, [a])];
    assert items[1..] == [items[1], items[2]] && items[1..][1..] == [items[2]] && items[1..][1..][1..] == [];
    var terminals := BlockTerminals(items, NO_PAD, []);
    assert BlockTerminals([items[2]], NO_PAD, [a]) == map[] + BlockTerminals([], NO_PAD, [c]);
    assert BlockTerminals(items[1..], NO_PAD, [b]) == map[] + BlockTerminals([items[2]], NO_PAD, [a]);
    assert terminals == map["phase_a_0" := [b]] + BlockTerminals(items[1..], NO_PAD, [b]) == map["phase_a_0" := [b]];
    OneDep(b, terminals);
    OneDep(a, terminals);
    assert ResolveDeps([], terminals) == [];
  }

  lemma OneDep(d: string, terminals: map<string, seq<string>>)
    ensures ResolveDeps([d], terminals) == if d in terminals then terminals[d] else [d]
  {
    assert [d][1..] == [];
  }

  /**
    * The block structure puts `a` before `c` and the list is submitted, but `c` does not wait for `a`:
    * its dependency on `a` has become one on the block that is named like it.
    */
  lemma BlockNameLosesOrder()
    ensures var items := Losing();
            && PassesCheck(Posted(items, NO_PAD)) && FaithfulSeries(ElaborateAll(items, NO_PAD), false, true)
            && (Solo("a"), Solo("c")) in BlockOrder(items, NO_PAD)
            && !Reached(Posted(items, NO_PAD), Solo("c"), Solo("a"))
  {
    var items, posted := Losing(), Posted(Losing(), NO_PAD);
    var a, b, c := LocalId(Solo("a")), LocalId(Solo("b")), LocalId(Solo("c"));
    LosingPosts();
    ThreeStrings("a", "b", "c");
    ThreePass(posted);
    FilledPlain(items);
    LosingOrder();
    forall path | DepPath(posted, path) && path[0] == c
      ensures path[|path| - 1] != a
    {
      assert DirectDep(posted, path[0], path[0 + 1]);
      assert path[1] == b;
      assert !DirectDep(posted, b, path[|path| - 1]);
      if |path| > 2 {
        SecondStep(posted, path);
      }
    }
  }

  lemma SecondStep(tasks: seq<LocalSpec>, path: seq<string>)
    requires DepPath(tasks, path) && |path| > 2
    ensures DirectDep(tasks, path[1], path[2])
  {
    assert DirectDep(tasks, path[1], path[1 + 1]);
  }

  /** Three tasks whose dependencies name earlier ones pass the check. */
  lemma ThreePass(tasks: seq<LocalSpec>)
    requires |tasks| == 3 && tasks[0].id != tasks[1].id && tasks[0].id != tasks[2].id && tasks[1].id != tasks[2].id
    requires tasks[0].dependsOn == [] && tasks[1].dependsOn == [tasks[0].id]
    requires forall d | d in tasks[2].dependsOn :: d == tasks[0].id || d == tasks[1].id
    ensures PassesCheck(tasks)
  {
    assert Ids(tasks[..1]) == [tasks[0].id] && Ids(tasks[..2]) == [tasks[0].id, tasks[1].id];
    forall i, d | 0 <= i < |tasks| && d in tasks[i].dependsOn
      ensures d in Ids(tasks[..i])
    {
      assert i == 1 || i == 2;
    }
    Dag.ForwardListIsAcyclic(tasks);
  }

  lemma FilledPlain(items: seq<PhaseItem>)
    requires items == Losing() || items == Closing()
    ensures FaithfulSeries(ElaborateAll(items, NO_PAD), false, true)
  {
    assert items[1..][1..] == [items[2]] && items[1..][1..][1..] == [];
    forall k | 0 <= k < 3
      ensures FilledItem(items[k])
    {
      if items[k].SequenceBlock? {
        assert items[k].phases[1..] == [];
        assert Filled(items[k].phases[1..]) && FilledItem(items[k].phases[0]);
      }
    }
    assert Filled(items[1..][1..]) && Filled(items[1..]) && Filled(items);
    FilledSolid(items, NO_PAD);
    SolidSeries(ElaborateAll(items, NO_PAD), false);
  }

  lemma LosingOrder()
    ensures (Solo("a"), Solo("c")) in BlockOrder(Losing(), NO_PAD)
  {
    var items := Losing();
    assert items[1..] == [items[1], items[2]] && items[1..][1..] == [items[2]] && items[1..][1..][1..] == [];
    var plans := ElaborateAll(items, NO_PAD);
    var a, c := Leaf(Outer, "a", Single), Leaf(Outer, "c", Single);
    assert plans[1..] == ElaborateAll(items[1..], NO_PAD) && plans[1..][1..] == ElaborateAll([items[2]], NO_PAD);
    assert ElaborateAll([items[2]], NO_PAD) == [c] + ElaborateAll([], NO_PAD);
    var rest := plans[1..];
    var pre := {} + Members(plans[0]);
    assert rest[0] == a && rest[1..][0] == c;
    assert Solo("a") in Members(a) && Solo("c") in Members(c);
    IntendedSeriesWithin(rest[1..], pre + Members(a));
    assert Solo("c") in MembersOf(rest[1..]);
    assert (Solo("a"), Solo("c")) in Cross(pre + Members(a), MembersOf(rest[1..]));
    assert (Solo("a"), Solo("c")) in IntendedSeries(rest, pre);
  }

  // ---- A cycle ----

  /** A block at the end, named like the first task. */
  function Closing(): seq<PhaseItem> {
    [SoloPhase("a"), SoloPhase("b"), SequenceBlock("phase_a_0", [SoloPhase("c")])]
  }

  lemma ClosingExpands()
    ensures ExpandSequence(Closing(), NO_PAD, []).tasks
         == [TaskSpec(LocalId(Solo("a")), []), TaskSpec(LocalId(Solo("b")), [LocalId(Solo("a"))]),
             TaskSpec(LocalId(Solo("c")), [LocalId(Solo("b"))])]
  {
    var a, b := LocalId(Solo("a")), LocalId(Solo("b"));
    var items := Closing();
    ChainOf(items[0], items[1], items[2]);
    SoloExpands("a", []);
    SoloExpands("b", [a]);
    OneInSequence("phase_a_0", "c", [b]);
  }

  lemma ClosingTerminals()
    ensures BlockTerminals(Closing(), NO_PAD, []) == map["phase_a_0" := [LocalId(Solo("c"))]]
  {
    var a, b, c := LocalId(Solo("a")), LocalId(Solo("b")), LocalId(Solo("c"));
    var items := Closing();
    SoloExpands("a", []);
    SoloExpands("b", [a]);
    OneInSequence("phase_a_0", "c", [b]);
    assert items[1..] == [items[1], items[2]] && items[1..][1..] == [items[2]] && items[1..][1..][1..] == [];
    assert BlockTerminals([items[2]], NO_PAD, [b]) == map["phase_a_0" := [c]] + BlockTerminals([], NO_PAD, [c]);
    assert BlockTerminals(items[1..], NO_PAD, [a]) == map[] + BlockTerminals([items[2]], NO_PAD, [b]);
  }

  /**
    * The workflow has no loop and no id twice, and its expansion passes the check. But `b` is made to wait
    * for the block at the end, which waits for `b`, so the route rejects it.
    */
  lemma BlockNameMakesCycle()
    ensures Accepted(Closing(), NO_PAD) && !PassesCheck(Posted(Closing(), NO_PAD))
  {
    ThreeStrings("a", "b", "c");
    ClosingExpands();
    ClosingIsClean();
    ClosingPosts();
    BackAndForth(Posted(Closing(), NO_PAD), LocalId(Solo("b")), LocalId(Solo("c")));
  }

  lemma ClosingPosts()
    ensures var posted := Posted(Closing(), NO_PAD);
            && |posted| == 3 && posted[1] == TaskSpec(LocalId(Solo("b")), [LocalId(Solo("c"))])
            && posted[2] == TaskSpec(LocalId(Solo("c")), [LocalId(Solo("b"))])
  {
    ThreeStrings("a", "b", "c");
    ClosingExpands();
    ClosingTerminals();
    OneDep(LocalId(Solo("a")), BlockTerminals(Closing(), NO_PAD, []));
    OneDep(LocalId(Solo("b")), BlockTerminals(Closing(), NO_PAD, []));
  }

  lemma BackAndForth(tasks: seq<LocalSpec>, b: string, c: string)
    requires |tasks| == 3 && tasks[1] == TaskSpec(b, [c]) && tasks[2] == TaskSpec(c, [b])
    ensures !Dag.Acyclic(Dag.Edges(tasks))
  {
    assert DirectDep(tasks, b, c) && DirectDep(tasks, c, b);
    OneStep(tasks, b, c);
    OneStep(tasks, c, b);
    PathJoin(tasks, b, c, b);
    SelfIsCyclic(tasks, b);
  }

  lemma ClosingIsClean()
    ensures CleanSequence(Closing(), NO_PAD, [])
  {
    var items := Closing();
    var e := ExpandItem(items[0], NO_PAD, []);
    var f := ExpandItem(items[1], NO_PAD, e.terminals);
    assert items[1..] == [items[1], items[2]] && items[1..][1..] == [items[2]] && items[1..][1..][1..] == [];
    var inner := items[2].phases;
    assert inner[1..] == [] && CleanItem(inner[0], NO_PAD, f.terminals) && CleanSequence(inner, NO_PAD, f.terminals);
    assert CleanSequence([items[2]], NO_PAD, f.terminals);
    assert CleanSequence(items[1..], NO_PAD, e.terminals);
  }

  // ---- An added order ----

  /** Everything after `a` in its branch is hidden behind an empty parallel block, except `a` itself. */
  function Hidden(): PhaseItem {
    ParallelBlock("p", [SequenceBlock("e", []), SequenceBlock("t", [SoloPhase("b"), ParallelBlock("h", [])])])
  }

  /** One parallel block, named like the task `a` in its second branch. */
  function Branching(): seq<PhaseItem> {
    [ParallelBlock("phase_a_0", [SoloPhase("c"), SequenceBlock("s", [SoloPhase("a"), Hidden()])])]
  }

  lemma HiddenExpands(prior: seq<string>)
    ensures var e := ExpandItem(Hidden(), NO_PAD, prior);
            e.tasks == [TaskSpec(LocalId(Solo("b")), prior)] && e.terminals == prior
  {
    var b := LocalId(Solo("b"));
    var inner := [SoloPhase("b"), ParallelBlock("h", [])];
    var branches := [SequenceBlock("e", []), SequenceBlock("t", inner)];
    SoloExpands("b", prior);
    assert inner[1..] == [inner[1]] && inner[1..][1..] == [] && branches[1..] == [branches[1]] && branches[1..][1..] == [];
    var e := ExpandItem(inner[0], NO_PAD, prior);
    var h := ExpandItem(inner[1], NO_PAD, e.terminals);
    assert h.tasks == [] && h.terminals == [];
    assert ExpandSequence([inner[1]], NO_PAD, e.terminals) == Then(h, ExpandSequence([], NO_PAD, []));
    var t := ExpandSequence(inner, NO_PAD, prior);
    assert t == Then(e, ExpandSequence([inner[1]], NO_PAD, e.terminals));
    assert t.tasks == [TaskSpec(b, prior)] && t.terminals == [];
    var none := ExpandItem(branches[0], NO_PAD, prior);
    assert none.tasks == [] && none.terminals == prior;
    assert ExpandBranches([branches[1]], NO_PAD, prior) == Beside(t, ExpandBranches([], NO_PAD, prior));
    assert ExpandBranches(branches, NO_PAD, prior) == Beside(none, ExpandBranches([branches[1]], NO_PAD, prior));
  }

  lemma SecondBranchExpands()
    ensures var e := ExpandItem(SequenceBlock("s", [SoloPhase("a"), Hidden()]), NO_PAD, []);
            && e.tasks == [TaskSpec(LocalId(Solo("a")), []), TaskSpec(LocalId(Solo("b")), [LocalId(Solo("a"))])]
            && e.terminals == [LocalId(Solo("a"))]
  {
    var a := LocalId(Solo("a"));
    var items := [SoloPhase("a"), Hidden()];
    assert items[1..] == [Hidden()] && [Hidden()][1..] == [];
    SoloExpands("a", []);
    HiddenExpands([a]);
    var e := ExpandItem(items[0], NO_PAD, []);
    var h := ExpandItem(Hidden(), NO_PAD, [a]);
    assert ExpandSequence([Hidden()], NO_PAD, [a]) == Then(h, ExpandSequence([], NO_PAD, h.terminals));
    assert ExpandSequence(items, NO_PAD, []) == Then(e, ExpandSequence([Hidden()], NO_PAD, e.terminals));
  }

  lemma BranchingExpands()
    ensures var e := ExpandItem(Branching()[0], NO_PAD, []);
            && e.tasks == [TaskSpec(LocalId(Solo("c")), []), TaskSpec(LocalId(Solo("a")), []),
                           TaskSpec(LocalId(Solo("b")), [LocalId(Solo("a"))])]
            && e.terminals == [LocalId(Solo("c")), LocalId(Solo("a"))]
  {
    var branches := Branching()[0].phases;
    assert branches[1..] == [branches[1]] && [branches[1]][1..] == [];
    SoloExpands("c", []);
    SecondBranchExpands();
    var c, s := ExpandItem(branches[0], NO_PAD, []), ExpandItem(branches[1], NO_PAD, []);
    assert ExpandBranches([branches[1]], NO_PAD, []) == Beside(s, ExpandBranches([], NO_PAD, []));
    assert ExpandBranches(branches, NO_PAD, []) == Beside(c, ExpandBranches([branches[1]], NO_PAD, []));
  }

  lemma BranchingPosts()
    ensures Posted(Branching(), NO_PAD)
         == [TaskSpec(LocalId(Solo("c")), []), TaskSpec(LocalId(Solo("a")), []),
             TaskSpec(LocalId(Solo("b")), [LocalId(Solo("c")), LocalId(Solo("a"))])]
  {
    var a, c := LocalId(Solo("a")), LocalId(Solo("c"));
    var items := Branching();
    assert items[1..] == [];
    BranchingExpands();
    ThreeStrings("a", "b", "c");
    var e := ExpandItem(items[0], NO_PAD, []);
    assert ExpandSequence(items, NO_PAD, []) == Then(e, ExpandSequence([], NO_PAD, e.terminals));
    var terminals := BlockTerminals(items, NO_PAD, []);
    assert terminals == map["phase_a_0" := [c, a]] + BlockTerminals([], NO_PAD, e.terminals) == map["phase_a_0" := [c, a]];
    OneDep(a, terminals);
    assert ResolveDeps([], terminals) == [];
  }

  lemma BranchingPlan()
    ensures var c, a, b := Leaf(Outer, "c", Single), Leaf(Outer, "a", Single), Leaf(Outer, "b", Single);
            ElaborateAll(Branching(), NO_PAD)
            == [Fork([c, Series([a, Fork([Series([]), Series([b, Fork([])])])])])]
  {
    var c, a, b := Leaf(Outer, "c", Single), Leaf(Outer, "a", Single), Leaf(Outer, "b", Single);
    var items := Branching();
    var branches := items[0].phases;
    var inner := branches[1].phases;
    var hidden := Hidden().phases;
    var last := hidden[1].phases;
    assert items[1..] == [] && branches[1..] == [branches[1]] && inner[1..] == [inner[1]] && hidden[1..] == [hidden[1]];
    assert last[1..] == [last[1]];
    var none: seq<PhaseItem> := [];
    assert Elaborate(last[1], NO_PAD) == Fork(ElaborateAll(none, NO_PAD)) == Fork([]);
    assert ElaborateAll(last[1..], NO_PAD) == [Elaborate(last[1], NO_PAD)] + ElaborateAll(none, NO_PAD);
    assert ElaborateAll(last, NO_PAD) == [b] + ElaborateAll(last[1..], NO_PAD) == [b, Fork([])];
    assert Elaborate(hidden[0], NO_PAD) == Series(ElaborateAll(none, NO_PAD)) == Series([]);
    assert Elaborate(hidden[1], NO_PAD) == Series(ElaborateAll(last, NO_PAD)) == Series([b, Fork([])]);
    assert ElaborateAll(hidden[1..], NO_PAD) == [Elaborate(hidden[1], NO_PAD)] + ElaborateAll(none, NO_PAD);
    assert ElaborateAll(hidden, NO_PAD) == [Series([])] + ElaborateAll(hidden[1..], NO_PAD);
    assert ElaborateAll(hidden, NO_PAD) == [Series([]), Series([b, Fork([])])];
    assert inner[1] == Hidden() && Elaborate(inner[1], NO_PAD) == Fork(ElaborateAll(hidden, NO_PAD));
    assert ElaborateAll(inner[1..], NO_PAD) == [Elaborate(inner[1], NO_PAD)] + ElaborateAll(none, NO_PAD);
    assert ElaborateAll(inner, NO_PAD) == [a] + ElaborateAll(inner[1..], NO_PAD);
    assert ElaborateAll(inner, NO_PAD) == [a, Fork([Series([]), Series([b, Fork([])])])];
    assert Elaborate(branches[1], NO_PAD) == Series(ElaborateAll(inner, NO_PAD));
    assert ElaborateAll(branches[1..], NO_PAD) == [Elaborate(branches[1], NO_PAD)] + ElaborateAll(none, NO_PAD);
    assert ElaborateAll(branches, NO_PAD) == [c] + ElaborateAll(branches[1..], NO_PAD);
    assert Elaborate(items[0], NO_PAD) == Fork(ElaborateAll(branches, NO_PAD));
    assert ElaborateAll(branches, NO_PAD) == [c, Series([a, Fork([Series([]), Series([b, Fork([])])])])];
    assert ElaborateAll(items, NO_PAD) == [Elaborate(items[0], NO_PAD)] + ElaborateAll(none, NO_PAD);
  }

  /**
    * No order is lost, and nothing is hollow in the way of another task. But `b` also waits for `c`, a
    * task of a branch beside its own, so keeping every dependency is not enough for the same meaning.
    */
  lemma BlockNameAddsOrder()
    ensures var items := Branching();
            && PassesCheck(Posted(items, NO_PAD)) && FaithfulSeries(ElaborateAll(items, NO_PAD), false, true)
            && Reached(Posted(items, NO_PAD), Solo("b"), Solo("a"))
            && Reached(Posted(items, NO_PAD), Solo("b"), Solo("c")) && (Solo("c"), Solo("b")) !in BlockOrder(items, NO_PAD)
  {
    var posted := Posted(Branching(), NO_PAD);
    var a, b, c := LocalId(Solo("a")), LocalId(Solo("b")), LocalId(Solo("c"));
    BranchingPosts();
    ThreeStrings("a", "b", "c");
    ForwardPass(posted);
    assert posted[2].id == b;
    assert DirectDep(posted, b, a) && DirectDep(posted, b, c);
    OneStep(posted, b, a);
    OneStep(posted, b, c);
    BranchingMeans();
  }

  lemma ForwardPass(tasks: seq<LocalSpec>)
    requires |tasks| == 3 && tasks[0].id != tasks[1].id && tasks[0].id != tasks[2].id && tasks[1].id != tasks[2].id
    requires tasks[0].dependsOn == [] && tasks[1].dependsOn == []
    requires forall d | d in tasks[2].dependsOn :: d == tasks[0].id || d == tasks[1].id
    ensures PassesCheck(tasks)
  {
    assert Ids(tasks[..2]) == [tasks[0].id, tasks[1].id];
    forall i, d | 0 <= i < |tasks| && d in tasks[i].dependsOn
      ensures d in Ids(tasks[..i])
    {
      assert i == 2;
    }
    Dag.ForwardListIsAcyclic(tasks);
  }

  lemma BranchingFaithful(c: Plan, a: Plan, b: Plan)
    requires c.Leaf? && a.Leaf? && b.Leaf?
    ensures FaithfulSeries([Fork([c, Series([a, Fork([Series([]), Series([b, Fork([])])])])])], false, true)
  {
    var ending, tail := [Fork([])], [b, Fork([])];
    var hidden := [Series([]), Series(tail)];
    var second := [a, Fork(hidden)];
    var branches := [c, Series(second)];
    assert ending[1..] == [] && tail[1..] == ending && hidden[1..] == [Series(tail)] && hidden[1..][1..] == [];
    assert second[1..] == [Fork(hidden)] && second[1..][1..] == [] && branches[1..] == [Series(second)];
    assert branches[1..][1..] == [] && [Fork(branches)][1..] == [];
    assert Faithful(ending[0], true) && FaithfulSeries(ending, true, true) && FaithfulSeries(tail, true, true);
    assert Faithful(hidden[0], true) && FaithfulFork(hidden[1..], true) && FaithfulFork(hidden, true);
    assert FaithfulSeries(second[1..], true, true) && FaithfulSeries(second, false, true);
    assert FaithfulFork(branches[1..], false) && FaithfulFork(branches, false);
  }

  lemma OneTaskLeaf(phase: string)
    ensures Members(Leaf(Outer, phase, Single)) == {Solo(phase)}
  {
    assert LeafIds(Outer, phase, Single) == [Solo(phase)];
  }

  lemma MembersOfTwo(first: Plan, second: Plan)
    ensures MembersOf([first, second]) == Members(first) + Members(second)
  {
    assert [first, second][1..] == [second] && [second][1..] == [];
    assert MembersOf([second]) == Members(second) + MembersOf([]);
  }

  lemma BranchingMeans()
    ensures FaithfulSeries(ElaborateAll(Branching(), NO_PAD), false, true)
    ensures (Solo("c"), Solo("b")) !in BlockOrder(Branching(), NO_PAD)
  {
    var c, a, b := Leaf(Outer, "c", Single), Leaf(Outer, "a", Single), Leaf(Outer, "b", Single);
    var tail := Series([b, Fork([])]);
    var second := Series([a, Fork([Series([]), tail])]);
    BranchingPlan();
    BranchingFaithful(c, a, b);
    OneTaskLeaf("c");
    OneTaskLeaf("a");
    OneTaskLeaf("b");
    MembersOfTwo(b, Fork([]));
    MembersOfTwo(Series([]), tail);
    MembersOfTwo(a, Fork([Series([]), tail]));
    BesideEachOther(c, second, Solo("c"), Solo("b"));
  }

  /** Tasks of two branches are not ordered. */
  lemma BesideEachOther(first: Plan, second: Plan, x: TaskId, y: TaskId)
    requires x !in Members(second) && y !in Members(first)
    ensures (x, y) !in IntendedSeries([Fork([first, second])], {})
  {
    IntendedWithin(first, {});
    IntendedWithin(second, {});
    var plans := [Fork([first, second])];
    assert plans[1..] == [] && [first, second][1..] == [second] && [second][1..] == [];
    assert IntendedSeries(plans, {}) == Intended(plans[0], {}) + IntendedSeries([], {} + Members(plans[0]));
    assert IntendedFork([second], {}) == Intended(second, {}) + IntendedFork([], {});
    assert Intended(plans[0], {}) == Intended(first, {}) + IntendedFork([second], {});
  }
}
