// The block expanders: phase items to a flat task list with dependency edges.

module PhaseExecutor {
  import opened Wrappers
  import opened PhaseSpecs
  import opened PhaseStrategies
  import opened TaskNaming
  import opened Text

  type Scratchpad = Option<map<string, string>>

  // ---- What each expander computes ----

  function Then(first: Expansion, second: Expansion): Expansion {
    Expansion(first.tasks + second.tasks, first.statuses + second.statuses, second.terminals)
  }

  function Beside(first: Expansion, second: Expansion): Expansion {
    Then(first, second).(terminals := first.terminals + second.terminals)
  }

  /** An id of the freshly expanded phase gets the iteration's prefix; others are kept. */
  function RenameId(own: seq<string>, prefix: string, id: string): string {
    if id in own then prefix + id else id
  }

  function RenameIds(own: seq<string>, prefix: string, ids: seq<string>): (r: seq<string>)
    ensures |r| == |ids|
    ensures forall i | 0 <= i < |ids| :: r[i] == RenameId(own, prefix, ids[i])
  {
    seq(|ids|, i requires 0 <= i < |ids| => RenameId(own, prefix, ids[i]))
  }

  function RenameTasks(own: seq<string>, prefix: string, tasks: seq<LocalSpec>): (r: seq<LocalSpec>)
    ensures |r| == |tasks|
    ensures forall i | 0 <= i < |tasks| ::
              r[i] == TaskSpec(RenameId(own, prefix, tasks[i].id), RenameIds(own, prefix, tasks[i].dependsOn))
  {
    seq(|tasks|, i requires 0 <= i < |tasks| =>
      TaskSpec(RenameId(own, prefix, tasks[i].id), RenameIds(own, prefix, tasks[i].dependsOn)))
  }

  function ExpandBodyPhase(loop: string, n: nat, phase: PhaseSpec, prior: seq<string>): Expansion {
    var name := SubstituteIter(phase.name, n);
    var raw := LocalTasks(Outer, name, phase.pattern, prior);
    var own := Ids(raw);
    var prefix := Prefix(Iteration(loop, n));
    Expansion(
      RenameTasks(own, prefix, raw),
      [PhaseStatus(name, RenameIds(own, prefix, own), false)],
      RenameIds(own, prefix, LocalTerminals(Outer, name, phase.pattern)))
  }

  /** One pass over a loop body. A nested loop is expanded once, with the outer iteration number. */
  function ExpandBody(loop: string, body: seq<BodyItem>, n: nat, prior: seq<string>): Expansion
    decreases body, 0
  {
    if body == [] then Expansion([], [], prior)
    else
      var first := ExpandBodyItem(loop, body[0], n, prior);
      Then(first, ExpandBody(loop, body[1..], n, first.terminals))
  }

  function ExpandBodyItem(loop: string, item: BodyItem, n: nat, prior: seq<string>): Expansion
    decreases item, 1
  {
    match item
    case BodyPhase(phase) => ExpandBodyPhase(loop, n, phase, prior)
    case BodyLoop(inner) => ExpandBody(inner.name, inner.body, n, prior)
  }

  function ExpandIterations(loop: LoopBlock, n: nat, prior: seq<string>): Expansion
    decreases loop.max + 1 - n
  {
    if n > loop.max then Expansion([], [], prior)
    else
      var first := ExpandBody(loop.name, loop.body, n, prior);
      Then(first, ExpandIterations(loop, n + 1, first.terminals))
  }

  function ExpandPhase(phase: PhaseSpec, pad: Scratchpad, prior: seq<string>): Expansion {
    if EvaluateSkip(phase, pad) then Expansion([], [PhaseStatus(phase.name, [], true)], prior)
    else
      var tasks := LocalTasks(Outer, phase.name, phase.pattern, prior);
      Expansion(tasks, [PhaseStatus(phase.name, Ids(tasks), false)], LocalTerminals(Outer, phase.name, phase.pattern))
  }

  function ExpandItem(item: PhaseItem, pad: Scratchpad, prior: seq<string>): Expansion
    decreases item, 1
  {
    match item
    case PhaseOf(phase) => ExpandPhase(phase, pad, prior)
    case SequenceBlock(_, items) => ExpandSequence(items, pad, prior)
    case ParallelBlock(_, items) => ExpandBranches(items, pad, prior)
    case LoopOf(loop) => ExpandIterations(loop, 1, prior)
  }

  function ExpandSequence(items: seq<PhaseItem>, pad: Scratchpad, prior: seq<string>): Expansion
    decreases items, 0
  {
    if items == [] then Expansion([], [], prior)
    else
      var first := ExpandItem(items[0], pad, prior);
      Then(first, ExpandSequence(items[1..], pad, first.terminals))
  }

  function ExpandBranches(items: seq<PhaseItem>, pad: Scratchpad, prior: seq<string>): Expansion
    decreases items, 0
  {
    if items == [] then Expansion([], [], [])
    else Beside(ExpandItem(items[0], pad, prior), ExpandBranches(items[1..], pad, prior))
  }

  // ---- The expanders as the program runs them ----

  lemma ThenAssociative(a: Expansion, b: Expansion, c: Expansion)
    ensures Then(Then(a, b), c) == Then(a, Then(b, c))
  {
    assert (a.tasks + b.tasks) + c.tasks == a.tasks + (b.tasks + c.tasks);
    assert (a.statuses + b.statuses) + c.statuses == a.statuses + (b.statuses + c.statuses);
  }

  lemma BesideAssociative(a: Expansion, b: Expansion, c: Expansion)
    ensures Beside(Beside(a, b), c) == Beside(a, Beside(b, c))
  {
    ThenAssociative(a, b, c);
    assert (a.terminals + b.terminals) + c.terminals == a.terminals + (b.terminals + c.terminals);
  }

  method ExpandLoopPhase(loop: string, n: nat, phase: PhaseSpec, prior: seq<string>) returns (r: Expansion)
    ensures r == ExpandBodyPhase(loop, n, phase, prior)
    ensures |r.statuses| == 1 && r.statuses[0].name == SubstituteIter(phase.name, n) && !r.statuses[0].skipped
  {
    var subst := phase.(name := SubstituteIter(phase.name, n));
    var raw, status := Expand(subst, prior);
    var prefix := Prefix(Iteration(loop, n));
    var own := Ids(raw);
    var renamed := [];
    for i := 0 to |raw|
      invariant renamed == RenameTasks(own, prefix, raw[..i])
    {
      renamed := renamed + [TaskSpec(RenameId(own, prefix, raw[i].id), RenameIds(own, prefix, raw[i].dependsOn))];
    }
    assert raw[..|raw|] == raw;
    status := status.(taskIds := RenameIds(own, prefix, status.taskIds));
    var terminals := TerminalIds(subst, raw);
    r := Expansion(renamed, [status], RenameIds(own, prefix, terminals));
  }

  method ExpandLoopIter(loop: LoopBlock, n: nat, prior: seq<string>) returns (r: Expansion)
    ensures r == ExpandBody(loop.name, loop.body, n, prior)
    decreases loop
  {
    r := Expansion([], [], prior);
    for k := 0 to |loop.body|
      invariant Then(r, ExpandBody(loop.name, loop.body[k..], n, r.terminals))
             == ExpandBody(loop.name, loop.body, n, prior)
    {
      ghost var rest := loop.body[k..];
      assert rest[0] == loop.body[k] && rest[1..] == loop.body[k + 1..];
      var item: Expansion;
      match loop.body[k] {
        case BodyPhase(phase) => item := ExpandLoopPhase(loop.name, n, phase, r.terminals);
        case BodyLoop(inner) => item := ExpandLoopIter(inner, n, r.terminals);
      }
      ThenAssociative(r, item, ExpandBody(loop.name, rest[1..], n, item.terminals));
      r := Then(r, item);
    }
  }

  method ExpandAllLoopIters(loop: LoopBlock, prior: seq<string>) returns (r: Expansion)
    ensures r == ExpandIterations(loop, 1, prior)
  {
    r := Expansion([], [], prior);
    for n := 1 to loop.max + 1
      invariant Then(r, ExpandIterations(loop, n, r.terminals)) == ExpandIterations(loop, 1, prior)
    {
      var iteration := ExpandLoopIter(loop, n, r.terminals);
      ThenAssociative(r, iteration, ExpandIterations(loop, n + 1, iteration.terminals));
      r := Then(r, iteration);
    }
  }

  method ExpandPlainPhase(phase: PhaseSpec, pad: Scratchpad, prior: seq<string>) returns (r: Expansion)
    ensures r == ExpandPhase(phase, pad, prior)
  {
    if EvaluateSkip(phase, pad) {
      r := Expansion([], [PhaseStatus(phase.name, [], true)], prior);
    } else {
      var tasks, status := Expand(phase, prior);
      var terminals := TerminalIds(phase, tasks);
      r := Expansion(tasks, [status], terminals);
    }
  }

  method ExpandSingleItem(item: PhaseItem, pad: Scratchpad, prior: seq<string>) returns (r: Expansion)
    ensures r == ExpandItem(item, pad, prior)
    decreases item, 1
  {
    match item
    case SequenceBlock(_, items) => r := ExpandSequenceBlock(items, pad, prior);
    case ParallelBlock(_, items) => r := ExpandParallelBlock(items, pad, prior);
    case LoopOf(loop) => r := ExpandAllLoopIters(loop, prior);
    case PhaseOf(phase) => r := ExpandPlainPhase(phase, pad, prior);
  }

  method ExpandSequenceBlock(items: seq<PhaseItem>, pad: Scratchpad, prior: seq<string>) returns (r: Expansion)
    ensures r == ExpandSequence(items, pad, prior)
    decreases items, 0
  {
    r := Expansion([], [], prior);
    for k := 0 to |items|
      invariant Then(r, ExpandSequence(items[k..], pad, r.terminals)) == ExpandSequence(items, pad, prior)
    {
      assert items[k..][0] == items[k] && items[k..][1..] == items[k + 1..];
      var item := ExpandSingleItem(items[k], pad, r.terminals);
      ThenAssociative(r, item, ExpandSequence(items[k + 1..], pad, item.terminals));
      r := Then(r, item);
    }
  }

  method ExpandParallelBlock(items: seq<PhaseItem>, pad: Scratchpad, prior: seq<string>) returns (r: Expansion)
    ensures r == ExpandBranches(items, pad, prior)
    decreases items, 0
  {
    r := Expansion([], [], []);
    for k := 0 to |items|
      invariant Beside(r, ExpandBranches(items[k..], pad, prior)) == ExpandBranches(items, pad, prior)
    {
      assert items[k..][0] == items[k] && items[k..][1..] == items[k + 1..];
      var item := ExpandSingleItem(items[k], pad, prior);
      BesideAssociative(r, item, ExpandBranches(items[k + 1..], pad, prior));
      r := Beside(r, item);
    }
  }

  predicate IsBlock(item: PhaseItem) {
    !item.PhaseOf?
  }

  function BlockName(item: PhaseItem): string
    requires IsBlock(item)
  {
    match item
    case SequenceBlock(name, _) => name
    case ParallelBlock(name, _) => name
    case LoopOf(loop) => loop.name
  }

  /** The terminal ids of the last top-level block of each name, when items are chained from `prior`. */
  function BlockTerminals(items: seq<PhaseItem>, pad: Scratchpad, prior: seq<string>): map<string, seq<string>> {
    if items == [] then map[]
    else
      var e := ExpandItem(items[0], pad, prior);
      (if IsBlock(items[0]) then map[BlockName(items[0]) := e.terminals] else map[])
      + BlockTerminals(items[1..], pad, e.terminals)
  }

  lemma MergeAssociative(a: map<string, seq<string>>, b: map<string, seq<string>>, c: map<string, seq<string>>)
    ensures (a + b) + c == a + (b + c)
  {
  }

  lemma TopItem(items: seq<PhaseItem>, k: nat, pad: Scratchpad, prior: seq<string>)
    requires k < |items|
    ensures var e := ExpandItem(items[k], pad, prior);
            && ExpandSequence(items[k..], pad, prior) == Then(e, ExpandSequence(items[k + 1..], pad, e.terminals))
            && BlockTerminals(items[k..], pad, prior)
               == (if IsBlock(items[k]) then map[BlockName(items[k]) := e.terminals] else map[])
                  + BlockTerminals(items[k + 1..], pad, e.terminals)
  {
    assert items[k..][0] == items[k] && items[k..][1..] == items[k + 1..];
  }

  /** The entry point: expands a whole workflow and records each block's terminal ids by name. */
  method ExpandPhaseItemsWithStatus(items: seq<PhaseItem>, pad: Scratchpad)
    returns (tasks: seq<LocalSpec>, statuses: seq<PhaseStatus>, blockTerminals: map<string, seq<string>>)
    ensures var e := ExpandSequence(items, pad, []); tasks == e.tasks && statuses == e.statuses
    ensures blockTerminals == BlockTerminals(items, pad, [])
  {
    var r := Expansion([], [], []);
    blockTerminals := map[];
    for k := 0 to |items|
      invariant Then(r, ExpandSequence(items[k..], pad, r.terminals)) == ExpandSequence(items, pad, [])
      invariant blockTerminals + BlockTerminals(items[k..], pad, r.terminals) == BlockTerminals(items, pad, [])
    {
      TopItem(items, k, pad, r.terminals);
      var item: Expansion;
      var recorded: map<string, seq<string>> := map[];
      if IsBlock(items[k]) {
        item := ExpandSingleItem(items[k], pad, r.terminals);
        recorded := map[BlockName(items[k]) := item.terminals];
      } else {
        item := ExpandPlainPhase(items[k].phase, pad, r.terminals);
      }
      MergeAssociative(blockTerminals, recorded, BlockTerminals(items[k + 1..], pad, item.terminals));
      blockTerminals := blockTerminals + recorded;
      ThenAssociative(r, item, ExpandSequence(items[k + 1..], pad, item.terminals));
      r := Then(r, item);
    }
    tasks, statuses := r.tasks, r.statuses;
  }

  /** A phase is shown as skipped, without tasks, exactly if its condition holds; what it would wait for is passed on. */
  lemma SkippingMeans(phase: PhaseSpec, pad: Scratchpad, prior: seq<string>)
    ensures var r := ExpandPhase(phase, pad, prior);
            var skipped := phase.skip.Some? && pad.Some? &&
                           (var c := phase.skip.value;
                            (c.key in pad.value && (c.value == "" || pad.value[c.key] == c.value)) <==> !c.negate);
            r.statuses == [PhaseStatus(phase.name, Ids(r.tasks), skipped)]
            && (skipped <==> r.tasks == []) && (skipped ==> r.terminals == prior)
  {
    LocalTaskIds(Outer, phase.name, phase.pattern, prior);
    LeafTaskIds(Outer, phase.name, phase.pattern, []);
  }

  /** Recorded under a name are the terminals of the last block of that name, expanded after all before it. */
  lemma {:induction false} LastBlockRecorded(
      before: seq<PhaseItem>, block: PhaseItem, later: seq<PhaseItem>, pad: Scratchpad, prior: seq<string>)
    requires IsBlock(block) && forall item | item in later && IsBlock(item) :: BlockName(item) != BlockName(block)
    ensures var recorded := BlockTerminals(before + [block] + later, pad, prior);
            BlockName(block) in recorded
            && recorded[BlockName(block)] == ExpandItem(block, pad, ExpandSequence(before, pad, prior).terminals).terminals
    decreases before
  {
    var items := before + [block] + later;
    if before == [] {
      assert items[0] == block && items[1..] == later;
      NotRecorded(later, BlockName(block), pad, ExpandItem(block, pad, prior).terminals);
    } else {
      assert items[0] == before[0] && items[1..] == before[1..] + [block] + later;
      LastBlockRecorded(before[1..], block, later, pad, ExpandItem(before[0], pad, prior).terminals);
    }
  }

  lemma {:induction false} NotRecorded(items: seq<PhaseItem>, name: string, pad: Scratchpad, prior: seq<string>)
    requires forall item | item in items && IsBlock(item) :: BlockName(item) != name
    ensures name !in BlockTerminals(items, pad, prior)
    decreases items
  {
    if items != [] {
      assert items[0] in items;
      NotRecorded(items[1..], name, pad, ExpandItem(items[0], pad, prior).terminals);
    }
  }

  // ---- Each task lies in exactly one phase status ----

  function StatusIds(statuses: seq<PhaseStatus>): seq<string> {
    if statuses == [] then [] else statuses[0].taskIds + StatusIds(statuses[1..])
  }

  lemma {:induction false} StatusIdsConcat(a: seq<PhaseStatus>, b: seq<PhaseStatus>)
    ensures StatusIds(a + b) == StatusIds(a) + StatusIds(b)
  {
    if a == [] {
      assert a + b == b;
    } else {
      StatusIdsConcat(a[1..], b);
      assert (a + b)[0] == a[0] && (a + b)[1..] == a[1..] + b;
      var x, y, z := a[0].taskIds, StatusIds(a[1..]), StatusIds(b);
      assert x + (y + z) == (x + y) + z;
    }
  }

  ghost predicate StatusesMatch(e: Expansion) {
    StatusIds(e.statuses) == Ids(e.tasks)
  }

  lemma MatchThen(a: Expansion, b: Expansion)
    requires StatusesMatch(a) && StatusesMatch(b)
    ensures StatusesMatch(Then(a, b)) && StatusesMatch(Beside(a, b))
  {
    StatusIdsConcat(a.statuses, b.statuses);
    assert Ids(a.tasks + b.tasks) == Ids(a.tasks) + Ids(b.tasks);
  }

  lemma BodyPhaseStatuses(loop: string, n: nat, phase: PhaseSpec, prior: seq<string>)
    ensures StatusesMatch(ExpandBodyPhase(loop, n, phase, prior))
  {
    var e := ExpandBodyPhase(loop, n, phase, prior);
    assert StatusIds(e.statuses) == e.statuses[0].taskIds;
    assert e.statuses[0].taskIds == Ids(e.tasks);
  }

  lemma {:induction false} BodyItemStatuses(loop: string, item: BodyItem, n: nat, prior: seq<string>)
    ensures StatusesMatch(ExpandBodyItem(loop, item, n, prior))
    decreases item, 1
  {
    match item
    case BodyPhase(phase) => BodyPhaseStatuses(loop, n, phase, prior);
    case BodyLoop(inner) => BodyStatuses(inner.name, inner.body, n, prior);
  }

  lemma {:induction false} BodyStatuses(loop: string, body: seq<BodyItem>, n: nat, prior: seq<string>)
    ensures StatusesMatch(ExpandBody(loop, body, n, prior))
    decreases body, 0
  {
    if body != [] {
      var first := ExpandBodyItem(loop, body[0], n, prior);
      BodyItemStatuses(loop, body[0], n, prior);
      BodyStatuses(loop, body[1..], n, first.terminals);
      MatchThen(first, ExpandBody(loop, body[1..], n, first.terminals));
    }
  }

  lemma {:induction false} IterationStatuses(loop: LoopBlock, n: nat, prior: seq<string>)
    ensures StatusesMatch(ExpandIterations(loop, n, prior))
    decreases loop.max + 1 - n
  {
    if n <= loop.max {
      var first := ExpandBody(loop.name, loop.body, n, prior);
      BodyStatuses(loop.name, loop.body, n, prior);
      IterationStatuses(loop, n + 1, first.terminals);
      MatchThen(first, ExpandIterations(loop, n + 1, first.terminals));
    }
  }

  lemma {:induction false} ItemStatuses(item: PhaseItem, pad: Scratchpad, prior: seq<string>)
    ensures StatusesMatch(ExpandItem(item, pad, prior))
    decreases item, 1
  {
    match item
    case PhaseOf(phase) =>
      var e := ExpandPhase(phase, pad, prior);
      assert StatusIds(e.statuses) == e.statuses[0].taskIds;
    case SequenceBlock(_, items) => SequenceStatuses(items, pad, prior);
    case ParallelBlock(_, items) => BranchStatuses(items, pad, prior);
    case LoopOf(loop) => IterationStatuses(loop, 1, prior);
  }

  /**
    * Read in order, the task lists of the phase statuses are exactly the emitted task ids, so with
    * distinct ids every task belongs to exactly one phase.
    */
  lemma {:induction false} SequenceStatuses(items: seq<PhaseItem>, pad: Scratchpad, prior: seq<string>)
    ensures StatusesMatch(ExpandSequence(items, pad, prior))
    decreases items, 0
  {
    if items != [] {
      var first := ExpandItem(items[0], pad, prior);
      ItemStatuses(items[0], pad, prior);
      SequenceStatuses(items[1..], pad, first.terminals);
      MatchThen(first, ExpandSequence(items[1..], pad, first.terminals));
    }
  }

  lemma {:induction false} BranchStatuses(items: seq<PhaseItem>, pad: Scratchpad, prior: seq<string>)
    ensures StatusesMatch(ExpandBranches(items, pad, prior))
    decreases items, 0
  {
    if items != [] {
      ItemStatuses(items[0], pad, prior);
      BranchStatuses(items[1..], pad, prior);
      MatchThen(ExpandItem(items[0], pad, prior), ExpandBranches(items[1..], pad, prior));
    }
  }
}
