// Exactly when the DAG check accepts an expansion, with no assumption about names: the id strings
// must be distinct, and no loop phase may follow a task that bears one of its own.

module BlockCapture {
  import opened Wrappers
  import opened PhaseSpecs
  import opened PhaseStrategies
  import opened PhaseExecutor
  import opened BlockPlan
  import opened BlockTheorems
  import opened TaskNaming
  import opened Text
  import Dag

  // ---- A clash makes a cycle ----

  ghost predicate FeedsItself(t: LocalSpec, own: seq<string>) {
    exists d :: d in t.dependsOn && d in own
  }

  lemma {:induction false} DebateFeedsItself(
      phase: string, r: nat, rounds: nat, deps: seq<string>, own: seq<string>, c: string)
    requires c in deps && c in own && forall x | x in DebateIds(Outer, phase, r, rounds) :: LocalId(x) in own
    ensures forall t | t in LocalDebate(Outer, phase, r, rounds, deps) :: FeedsItself(t, own)
    decreases rounds + 1 - r
  {
    if r <= rounds {
      var ids := DebateIds(Outer, phase, r, rounds);
      assert ids[0] in ids && ids[1] in ids;
      DebateFeedsItself(phase, r + 1, rounds, [LocalId(ids[1])], own, LocalId(ids[1]));
    }
  }

  lemma LeafFeedsItself(phase: string, pattern: Pattern, prior: seq<string>, own: seq<string>, c: string)
    requires c in prior && c in own && forall x | x in LeafIds(Outer, phase, pattern) :: LocalId(x) in own
    ensures forall t | t in LocalTasks(Outer, phase, pattern, prior) :: FeedsItself(t, own)
  {
    if pattern.Debate? {
      DebateFeedsItself(phase, 1, AtLeastOne(pattern.rounds), prior, own, c);
    } else if pattern.Competitive? {
      var solvers := Workers(Outer, phase, AtLeastOne(pattern.solvers));
      assert solvers[0] in LeafIds(Outer, phase, pattern);
      assert LocalIds(solvers)[0] == LocalId(solvers[0]);
    }
  }

  /** Renaming sends the phase's own strings, moved or not yet, to moved ones. */
  lemma RenamedIsMoved(phase: string, pattern: Pattern, scope: Scope, d: string)
    requires d in LocalIds(LeafIds(Outer, phase, pattern)) + LocalIds(LeafIds(scope, phase, pattern))
    ensures RenameId(LocalIds(LeafIds(Outer, phase, pattern)), Prefix(scope), d) in LocalIds(LeafIds(scope, phase, pattern))
  {
    var ids := LeafIds(Outer, phase, pattern);
    var own := LocalIds(ids);
    MovedIds(phase, pattern, scope);
    if d in own {
      var i :| 0 <= i < |own| && own[i] == d;
      assert RenameIds(own, Prefix(scope), own)[i] == RenameId(own, Prefix(scope), d);
    }
  }

  /** A renamed task that depends on its own phase waits, in any list, for a task of the moved phase. */
  lemma MovedWaits(phase: string, pattern: Pattern, scope: Scope, raw: LocalSpec, all: seq<LocalSpec>)
    requires FeedsItself(raw, LocalIds(LeafIds(Outer, phase, pattern)) + LocalIds(LeafIds(scope, phase, pattern)))
    requires var own := LocalIds(LeafIds(Outer, phase, pattern));
             TaskSpec(RenameId(own, Prefix(scope), raw.id), RenameIds(own, Prefix(scope), raw.dependsOn)) in all
    ensures Dag.WaitsInside(IdSet(LocalIds(LeafIds(scope, phase, pattern))), Dag.Edges(all),
                            RenameId(LocalIds(LeafIds(Outer, phase, pattern)), Prefix(scope), raw.id))
  {
    var own, moved := LocalIds(LeafIds(Outer, phase, pattern)), LocalIds(LeafIds(scope, phase, pattern));
    var task := TaskSpec(RenameId(own, Prefix(scope), raw.id), RenameIds(own, Prefix(scope), raw.dependsOn));
    var d :| d in raw.dependsOn && d in own + moved;
    var j :| 0 <= j < |raw.dependsOn| && raw.dependsOn[j] == d;
    var e := RenameId(own, Prefix(scope), d);
    assert task.dependsOn[j] == e;
    RenamedIsMoved(phase, pattern, scope, d);
    var k :| 0 <= k < |all| && all[k] == task;
    Dag.TaskHasEdge(all, k, e);
    var a :| 0 <= a < |Dag.Edges(all)| && Dag.Edges(all)[a] == (e, task.id);
  }

  lemma MovedAllWait(phase: string, pattern: Pattern, scope: Scope, raw: seq<LocalSpec>, all: seq<LocalSpec>)
    requires Ids(raw) == LocalIds(LeafIds(Outer, phase, pattern))
    requires forall t | t in raw ::
               FeedsItself(t, LocalIds(LeafIds(Outer, phase, pattern)) + LocalIds(LeafIds(scope, phase, pattern)))
    requires forall t | t in RenameTasks(Ids(raw), Prefix(scope), raw) :: t in all
    ensures Dag.Stuck(IdSet(LocalIds(LeafIds(scope, phase, pattern))), Dag.Edges(all))
  {
    var own := Ids(raw);
    var tasks := RenameTasks(own, Prefix(scope), raw);
    var stuck := IdSet(LocalIds(LeafIds(scope, phase, pattern)));
    MovedIds(phase, pattern, scope);
    forall x | x in stuck
      ensures Dag.WaitsInside(stuck, Dag.Edges(all), x)
    {
      var i :| 0 <= i < |own| && RenameIds(own, Prefix(scope), own)[i] == x;
      assert raw[i] in raw && tasks[i] in tasks;
      MovedWaits(phase, pattern, scope, raw[i], all);
    }
  }

  /** Wherever the tasks of a clashing phase end up, the list has a cycle. */
  lemma ClashIsCyclic(loop: string, n: nat, phase: PhaseSpec, prior: seq<string>, all: seq<LocalSpec>)
    requires Clashes(loop, n, phase, prior)
    requires forall t | t in ExpandBodyPhase(loop, n, phase, prior).tasks :: t in all
    ensures !Dag.Acyclic(Dag.Edges(all))
  {
    var name, scope := SubstituteIter(phase.name, n), Iteration(loop, n);
    var ids, moved := LeafIds(Outer, name, phase.pattern), LocalIds(LeafIds(scope, name, phase.pattern));
    var c :| c in prior && (c in LocalIds(ids) || c in moved);
    LocalTaskIds(Outer, name, phase.pattern, prior);
    OwnWritten(ids);
    LeafFeedsItself(name, phase.pattern, prior, LocalIds(ids) + moved, c);
    MovedAllWait(name, phase.pattern, scope, LocalTasks(Outer, name, phase.pattern, prior), all);
    LeafTaskIds(scope, name, phase.pattern, []);
    assert moved[0] in IdSet(moved);
    Dag.StuckHasCycle(IdSet(moved), Dag.Edges(all));
  }

  lemma {:induction false} BodyClashIsCyclic(loop: string, body: seq<BodyItem>, n: nat, prior: seq<string>, all: seq<LocalSpec>)
    requires !CleanBody(loop, body, n, prior)
    requires forall t | t in ExpandBody(loop, body, n, prior).tasks :: t in all
    ensures !Dag.Acyclic(Dag.Edges(all))
    decreases body, 0
  {
    var first := ExpandBodyItem(loop, body[0], n, prior);
    if CleanBodyItem(loop, body[0], n, prior) {
      BodyClashIsCyclic(loop, body[1..], n, first.terminals, all);
    } else {
      BodyItemClashIsCyclic(loop, body[0], n, prior, all);
    }
  }

  lemma {:induction false} BodyItemClashIsCyclic(loop: string, item: BodyItem, n: nat, prior: seq<string>, all: seq<LocalSpec>)
    requires !CleanBodyItem(loop, item, n, prior)
    requires forall t | t in ExpandBodyItem(loop, item, n, prior).tasks :: t in all
    ensures !Dag.Acyclic(Dag.Edges(all))
    decreases item, 1
  {
    match item
    case BodyPhase(phase) => ClashIsCyclic(loop, n, phase, prior, all);
    case BodyLoop(inner) => BodyClashIsCyclic(inner.name, inner.body, n, prior, all);
  }

  lemma {:induction false} LoopClashIsCyclic(loop: LoopBlock, n: nat, prior: seq<string>, all: seq<LocalSpec>)
    requires !CleanIterations(loop, n, prior)
    requires forall t | t in ExpandIterations(loop, n, prior).tasks :: t in all
    ensures !Dag.Acyclic(Dag.Edges(all))
    decreases loop.max + 1 - n
  {
    var first := ExpandBody(loop.name, loop.body, n, prior);
    if CleanBody(loop.name, loop.body, n, prior) {
      LoopClashIsCyclic(loop, n + 1, first.terminals, all);
    } else {
      BodyClashIsCyclic(loop.name, loop.body, n, prior, all);
    }
  }

  lemma {:induction false} ItemClashIsCyclic(item: PhaseItem, pad: Scratchpad, prior: seq<string>, all: seq<LocalSpec>)
    requires !CleanItem(item, pad, prior)
    requires forall t | t in ExpandItem(item, pad, prior).tasks :: t in all
    ensures !Dag.Acyclic(Dag.Edges(all))
    decreases item, 1
  {
    match item
    case PhaseOf(_) =>
    case SequenceBlock(_, items) => SequenceClashIsCyclic(items, pad, prior, all);
    case ParallelBlock(_, items) => BranchClashIsCyclic(items, pad, prior, all);
    case LoopOf(loop) => LoopClashIsCyclic(loop, 1, prior, all);
  }

  lemma {:induction false} SequenceClashIsCyclic(items: seq<PhaseItem>, pad: Scratchpad, prior: seq<string>, all: seq<LocalSpec>)
    requires !CleanSequence(items, pad, prior)
    requires forall t | t in ExpandSequence(items, pad, prior).tasks :: t in all
    ensures !Dag.Acyclic(Dag.Edges(all))
    decreases items, 0
  {
    var first := ExpandItem(items[0], pad, prior);
    if CleanItem(items[0], pad, prior) {
      SequenceClashIsCyclic(items[1..], pad, first.terminals, all);
    } else {
      ItemClashIsCyclic(items[0], pad, prior, all);
    }
  }

  lemma {:induction false} BranchClashIsCyclic(items: seq<PhaseItem>, pad: Scratchpad, prior: seq<string>, all: seq<LocalSpec>)
    requires !CleanBranches(items, pad, prior)
    requires forall t | t in ExpandBranches(items, pad, prior).tasks :: t in all
    ensures !Dag.Acyclic(Dag.Edges(all))
    decreases items, 0
  {
    if CleanItem(items[0], pad, prior) {
      BranchClashIsCyclic(items[1..], pad, prior, all);
    } else {
      ItemClashIsCyclic(items[0], pad, prior, all);
    }
  }

  // ---- The exact condition ----

  /**
    * For every workflow whatsoever: its expansion is accepted by the DAG check if and only if all
    * task id strings are distinct and no loop phase follows a task bearing one of its own.
    */
  lemma AcceptedExactly(items: seq<PhaseItem>, pad: Scratchpad)
    ensures var tasks := ExpandSequence(items, pad, []).tasks;
            NoDuplicates(Ids(tasks)) && Dag.KnownDependencies(tasks) && Dag.Acyclic(Dag.Edges(tasks))
            <==> Accepted(items, pad)
  {
    var tasks := ExpandSequence(items, pad, []).tasks;
    if !CleanSequence(items, pad, []) {
      SequenceClashIsCyclic(items, pad, [], tasks);
    } else if NoDuplicates(Ids(tasks)) {
      ExpansionWellFormed(items, pad);
      Dag.ForwardListIsAcyclic(tasks);
    }
  }
}
