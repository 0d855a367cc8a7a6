// Dependencies on block names, which the route replaces by the block's terminals before the DAG
// check, and why that changes nothing as long as no block is named like a task.

module BlockNames {
  import opened PhaseSpecs
  import opened PhaseStrategies
  import opened PhaseExecutor
  import opened TaskNaming
  import opened Text

  // ---- What the route does with the expanded tasks ----

  function ResolveDeps(deps: seq<string>, terminals: map<string, seq<string>>): seq<string> {
    if deps == [] then []
    else (if deps[0] in terminals then terminals[deps[0]] else [deps[0]]) + ResolveDeps(deps[1..], terminals)
  }

  function Resolved(tasks: seq<LocalSpec>, terminals: map<string, seq<string>>): (r: seq<LocalSpec>)
    ensures |r| == |tasks|
    ensures forall i | 0 <= i < |tasks| :: r[i] == TaskSpec(tasks[i].id, ResolveDeps(tasks[i].dependsOn, terminals))
  {
    seq(|tasks|, i requires 0 <= i < |tasks| => TaskSpec(tasks[i].id, ResolveDeps(tasks[i].dependsOn, terminals)))
  }

  lemma {:induction false} ResolveConcat(a: seq<string>, b: seq<string>, terminals: map<string, seq<string>>)
    ensures ResolveDeps(a + b, terminals) == ResolveDeps(a, terminals) + ResolveDeps(b, terminals)
    decreases a
  {
    if a == [] {
      assert a + b == b;
    } else {
      assert (a + b)[0] == a[0] && (a + b)[1..] == a[1..] + b;
      ResolveConcat(a[1..], b, terminals);
    }
  }

  /** Each block name gives way to the terminals of its block, everything else stays. */
  lemma {:induction false} ResolvedMembers(deps: seq<string>, terminals: map<string, seq<string>>)
    ensures forall d :: d in ResolveDeps(deps, terminals) <==>
              (d in deps && d !in terminals) || exists b :: b in deps && b in terminals && d in terminals[b]
    decreases deps
  {
    if deps != [] {
      ResolvedMembers(deps[1..], terminals);
      assert forall x :: x in deps <==> x == deps[0] || x in deps[1..];
    }
  }

  method ResolveBlockNames(tasks: seq<LocalSpec>, terminals: map<string, seq<string>>) returns (r: seq<LocalSpec>)
    ensures r == Resolved(tasks, terminals)
  {
    r := [];
    for i := 0 to |tasks|
      invariant r == Resolved(tasks[..i], terminals)
    {
      var deps := tasks[i].dependsOn;
      var resolved := [];
      for k := 0 to |deps|
        invariant resolved == ResolveDeps(deps[..k], terminals)
      {
        assert deps[..k + 1] == deps[..k] + [deps[k]] && [deps[k]][1..] == [];
        ResolveConcat(deps[..k], [deps[k]], terminals);
        resolved := resolved + if deps[k] in terminals then terminals[deps[k]] else [deps[k]];
      }
      assert deps[..|deps|] == deps;
      r := r + [TaskSpec(tasks[i].id, resolved)];
    }
    assert tasks[..|tasks|] == tasks;
  }

  lemma {:induction false} NothingToResolve(deps: seq<string>, terminals: map<string, seq<string>>)
    requires forall d | d in deps :: d !in terminals
    ensures ResolveDeps(deps, terminals) == deps
  {
    if deps != [] {
      NothingToResolve(deps[1..], terminals);
      assert deps == [deps[0]] + deps[1..];
    }
  }

  /** Replacing the block names among the dependencies leaves each of them alone. */
  predicate EachStays(deps: seq<string>, terminals: map<string, seq<string>>) {
    forall d | d in deps && d in terminals :: terminals[d] == [d]
  }

  lemma {:induction false} ResolvedGrows(deps: seq<string>, terminals: map<string, seq<string>>)
    requires forall d | d in deps && d in terminals :: terminals[d] != []
    ensures |ResolveDeps(deps, terminals)| >= |deps|
  {
    if deps != [] {
      ResolvedGrows(deps[1..], terminals);
    }
  }

  /**
    * If every named block has terminals, the replacement leaves a list of dependencies as it is exactly
    * if each block name in it is its own block's only terminal.
    */
  lemma {:induction false} ResolvesToItself(deps: seq<string>, terminals: map<string, seq<string>>)
    requires forall d | d in deps && d in terminals :: terminals[d] != []
    ensures ResolveDeps(deps, terminals) == deps <==> EachStays(deps, terminals)
  {
    if deps != [] {
      var d, rest := deps[0], deps[1..];
      var here := if d in terminals then terminals[d] else [d];
      ResolvedGrows(rest, terminals);
      ResolvesToItself(rest, terminals);
      assert ResolveDeps(deps, terminals) == here + ResolveDeps(rest, terminals);
      assert deps == [d] + rest;
      if ResolveDeps(deps, terminals) == deps {
        assert |here| == 1 && here[0] == (here + ResolveDeps(rest, terminals))[0] == d;
        assert (here + ResolveDeps(rest, terminals))[1..] == ResolveDeps(rest, terminals);
      }
      assert forall x | x in deps :: x == d || x in rest;
    }
  }

  /** Blocks without terminals can make up for others: two names replaced, and yet the same list. */
  lemma HollowNamesCancel()
    ensures var deps, terminals := ["phase_a_0", "phase_a_1"], map["phase_a_0" := ["phase_a_0", "phase_a_1"], "phase_a_1" := []];
            ResolveDeps(deps, terminals) == deps && !EachStays(deps, terminals)
  {
    var deps, terminals := ["phase_a_0", "phase_a_1"], map["phase_a_0" := ["phase_a_0", "phase_a_1"], "phase_a_1" := []];
    assert deps[1..] == ["phase_a_1"] && ["phase_a_1"][1..] == [];
    assert ResolveDeps(["phase_a_1"], terminals) == [];
    assert deps[0] in terminals;
  }

  /** The same for a whole list of tasks. */
  lemma ResolvingExact(tasks: seq<LocalSpec>, terminals: map<string, seq<string>>)
    requires forall t, d | t in tasks && d in t.dependsOn && d in terminals :: terminals[d] != []
    ensures Resolved(tasks, terminals) == tasks <==> forall t | t in tasks :: EachStays(t.dependsOn, terminals)
  {
    forall i | 0 <= i < |tasks|
      ensures Resolved(tasks, terminals)[i] == tasks[i] <==> EachStays(tasks[i].dependsOn, terminals)
    {
      assert tasks[i] in tasks;
      ResolvesToItself(tasks[i].dependsOn, terminals);
    }
  }

  // ---- Every id string bears the mark ----

  lemma WrittenMarked(id: TaskId)
    ensures !Plain(LocalId(id))
  {
    assert MarkAt(LocalId(id), |Prefix(id.scope)|);
  }

  lemma PrefixedMarked(prefix: string, text: string)
    requires !Plain(text)
    ensures !Plain(prefix + text)
  {
    var i: nat :| i <= |text| - |MARK| && MarkAt(text, i);
    assert (prefix + text)[|prefix| + i..|prefix| + i + |MARK|] == text[i..i + |MARK|];
    assert MarkAt(prefix + text, |prefix| + i);
  }

  ghost predicate AllMarked(ids: seq<string>) {
    forall d | d in ids :: !Plain(d)
  }

  ghost predicate DepsMarked(tasks: seq<LocalSpec>) {
    forall t | t in tasks :: AllMarked(t.dependsOn)
  }

  ghost predicate MarkedThroughout(e: Expansion) {
    DepsMarked(e.tasks) && AllMarked(e.terminals)
  }

  lemma LocalIdsMarked(ids: seq<TaskId>)
    ensures AllMarked(LocalIds(ids))
  {
    forall i | 0 <= i < |ids|
      ensures !Plain(LocalIds(ids)[i])
    {
      WrittenMarked(ids[i]);
    }
  }

  lemma {:induction false} DebateMarked(phase: string, r: nat, rounds: nat, deps: seq<string>)
    requires AllMarked(deps)
    ensures DepsMarked(LocalDebate(Outer, phase, r, rounds, deps))
    decreases rounds + 1 - r
  {
    if r <= rounds {
      var adv, crit := TaskId(Outer, phase, Advocate(r)), TaskId(Outer, phase, Critic(r));
      WrittenMarked(adv);
      WrittenMarked(crit);
      DebateMarked(phase, r + 1, rounds, [LocalId(crit)]);
    }
  }

  lemma LeafMarked(phase: string, pattern: Pattern, prior: seq<string>)
    requires AllMarked(prior)
    ensures DepsMarked(LocalTasks(Outer, phase, pattern, prior)) && AllMarked(LocalTerminals(Outer, phase, pattern))
  {
    LocalIdsMarked(LeafTerminals(Outer, phase, pattern));
    match pattern
    case Single =>
    case Parallel(_) =>
    case Competitive(n, _) => LocalIdsMarked(Workers(Outer, phase, AtLeastOne(n)));
    case Debate(n) => DebateMarked(phase, 1, AtLeastOne(n), prior);
  }

  lemma RenamedMarked(own: seq<string>, prefix: string, ids: seq<string>)
    requires AllMarked(ids)
    ensures AllMarked(RenameIds(own, prefix, ids))
  {
    forall i | 0 <= i < |ids|
      ensures !Plain(RenameIds(own, prefix, ids)[i])
    {
      assert ids[i] in ids;
      PrefixedMarked(prefix, ids[i]);
    }
  }

  lemma BodyPhaseMarked(loop: string, n: nat, phase: PhaseSpec, prior: seq<string>)
    requires AllMarked(prior)
    ensures MarkedThroughout(ExpandBodyPhase(loop, n, phase, prior))
  {
    var name, prefix := SubstituteIter(phase.name, n), Prefix(Iteration(loop, n));
    var raw := LocalTasks(Outer, name, phase.pattern, prior);
    LeafMarked(name, phase.pattern, prior);
    RenamedMarked(Ids(raw), prefix, LocalTerminals(Outer, name, phase.pattern));
    var tasks := RenameTasks(Ids(raw), prefix, raw);
    forall i | 0 <= i < |tasks|
      ensures AllMarked(tasks[i].dependsOn)
    {
      assert raw[i] in raw;
      RenamedMarked(Ids(raw), prefix, raw[i].dependsOn);
    }
  }

  lemma {:induction false} BodyItemMarked(loop: string, item: BodyItem, n: nat, prior: seq<string>)
    requires AllMarked(prior)
    ensures MarkedThroughout(ExpandBodyItem(loop, item, n, prior))
    decreases item, 1
  {
    match item
    case BodyPhase(phase) => BodyPhaseMarked(loop, n, phase, prior);
    case BodyLoop(inner) => BodyMarked(inner.name, inner.body, n, prior);
  }

  lemma {:induction false} BodyMarked(loop: string, body: seq<BodyItem>, n: nat, prior: seq<string>)
    requires AllMarked(prior)
    ensures MarkedThroughout(ExpandBody(loop, body, n, prior))
    decreases body, 0
  {
    if body != [] {
      BodyItemMarked(loop, body[0], n, prior);
      BodyMarked(loop, body[1..], n, ExpandBodyItem(loop, body[0], n, prior).terminals);
    }
  }

  lemma {:induction false} IterationsMarked(loop: LoopBlock, n: nat, prior: seq<string>)
    requires AllMarked(prior)
    ensures MarkedThroughout(ExpandIterations(loop, n, prior))
    decreases loop.max + 1 - n
  {
    if n <= loop.max {
      BodyMarked(loop.name, loop.body, n, prior);
      IterationsMarked(loop, n + 1, ExpandBody(loop.name, loop.body, n, prior).terminals);
    }
  }

  lemma {:induction false} ItemMarked(item: PhaseItem, pad: Scratchpad, prior: seq<string>)
    requires AllMarked(prior)
    ensures MarkedThroughout(ExpandItem(item, pad, prior))
    decreases item, 1
  {
    match item
    case PhaseOf(phase) => LeafMarked(phase.name, phase.pattern, prior);
    case SequenceBlock(_, items) => SequenceMarked(items, pad, prior);
    case ParallelBlock(_, items) => BranchesMarked(items, pad, prior);
    case LoopOf(loop) => IterationsMarked(loop, 1, prior);
  }

  lemma {:induction false} SequenceMarked(items: seq<PhaseItem>, pad: Scratchpad, prior: seq<string>)
    requires AllMarked(prior)
    ensures MarkedThroughout(ExpandSequence(items, pad, prior))
    decreases items, 0
  {
    if items != [] {
      ItemMarked(items[0], pad, prior);
      SequenceMarked(items[1..], pad, ExpandItem(items[0], pad, prior).terminals);
    }
  }

  lemma {:induction false} BranchesMarked(items: seq<PhaseItem>, pad: Scratchpad, prior: seq<string>)
    requires AllMarked(prior)
    ensures MarkedThroughout(ExpandBranches(items, pad, prior))
    decreases items, 0
  {
    if items != [] {
      ItemMarked(items[0], pad, prior);
      BranchesMarked(items[1..], pad, prior);
    }
  }

  // ---- Block names without the mark ----

  /** No block at the top level of the workflow has a name that could be an id string. */
  ghost predicate PlainBlocks(items: seq<PhaseItem>) {
    forall item | item in items && IsBlock(item) :: Plain(BlockName(item))
  }

  lemma {:induction false} RecordedNames(items: seq<PhaseItem>, pad: Scratchpad, prior: seq<string>)
    requires PlainBlocks(items)
    ensures forall name | name in BlockTerminals(items, pad, prior) :: Plain(name)
    decreases items
  {
    if items != [] {
      assert items[0] in items;
      RecordedNames(items[1..], pad, ExpandItem(items[0], pad, prior).terminals);
    }
  }

  /** With plain block names the route's replacement leaves every expansion as it is. */
  lemma ResolvingChangesNothing(items: seq<PhaseItem>, pad: Scratchpad)
    requires PlainBlocks(items)
    ensures var tasks := ExpandSequence(items, pad, []).tasks; Resolved(tasks, BlockTerminals(items, pad, [])) == tasks
  {
    var tasks := ExpandSequence(items, pad, []).tasks;
    var terminals := BlockTerminals(items, pad, []);
    SequenceMarked(items, pad, []);
    RecordedNames(items, pad, []);
    forall i | 0 <= i < |tasks|
      ensures Resolved(tasks, terminals)[i] == tasks[i]
    {
      assert tasks[i] in tasks;
      NothingToResolve(tasks[i].dependsOn, terminals);
    }
  }
}
