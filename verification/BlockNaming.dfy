// A naming discipline a workflow's author can check by reading it, and why it is enough.

module BlockNaming {
  import opened PhaseSpecs
  import opened PhaseStrategies
  import opened PhaseExecutor
  import opened BlockPlan
  import opened TaskNaming
  import opened Text

  /** Where a phase occurs, and under which name once `{iter}` is substituted. */
  datatype PhaseKey = PhaseKey(scope: Scope, phase: string)

  function Keys(plan: Plan): seq<PhaseKey>
    decreases plan, 1
  {
    match plan
    case Leaf(scope, phase, _) => [PhaseKey(scope, phase)]
    case Series(parts) => KeysOf(parts)
    case Fork(branches) => KeysOf(branches)
  }

  function KeysOf(plans: seq<Plan>): seq<PhaseKey>
    decreases plans, 0
  {
    if plans == [] then [] else Keys(plans[0]) + KeysOf(plans[1..])
  }

  function KeyOf(id: TaskId): PhaseKey {
    PhaseKey(id.scope, id.phase)
  }

  /** The same phase again, or a loop phase named like a phase outside loops. */
  predicate Conflict(earlier: PhaseKey, later: PhaseKey) {
    earlier.phase == later.phase
    && (earlier.scope == later.scope || (earlier.scope.Outer? && later.scope.Iteration?))
  }

  ghost predicate Separate(a: seq<PhaseKey>, b: seq<PhaseKey>) {
    forall x, y | x in a && y in b :: !Conflict(x, y)
  }

  ghost predicate ConflictFree(keys: seq<PhaseKey>) {
    forall i, j | 0 <= i < j < |keys| :: !Conflict(keys[i], keys[j])
  }

  ghost predicate AllPlain(keys: seq<PhaseKey>) {
    forall k | k in keys :: Plain(k.phase)
  }

  /**
    * Names are distinct within each loop iteration and outside loops, no loop phase has the name of
    * an earlier phase outside loops, and no name contains the mark that id strings are built with.
    */
  ghost predicate WellNamed(items: seq<PhaseItem>, pad: Scratchpad) {
    var keys := KeysOf(ElaborateAll(items, pad));
    ConflictFree(keys) && AllPlain(keys)
  }

  // ---- Splitting lists of keys ----

  lemma SplitConflictFree(a: seq<PhaseKey>, b: seq<PhaseKey>)
    requires ConflictFree(a + b)
    ensures ConflictFree(a) && ConflictFree(b) && Separate(a, b)
  {
    var all := a + b;
    forall i, j | 0 <= i < j < |a|
      ensures !Conflict(a[i], a[j])
    {
      assert all[i] == a[i] && all[j] == a[j];
    }
    forall i, j | 0 <= i < j < |b|
      ensures !Conflict(b[i], b[j])
    {
      assert all[|a| + i] == b[i] && all[|a| + j] == b[j];
    }
    forall x, y | x in a && y in b
      ensures !Conflict(x, y)
    {
      var i :| 0 <= i < |a| && a[i] == x;
      var j :| 0 <= j < |b| && b[j] == y;
      assert all[i] == x && all[|a| + j] == y;
    }
  }

  // ---- Where terminals come from ----

  /** Every terminal is handed on from before or belongs to one of the phases. */
  ghost predicate From(terminals: seq<TaskId>, prior: seq<TaskId>, keys: seq<PhaseKey>) {
    forall d | d in terminals :: d in prior || KeyOf(d) in keys
  }

  lemma {:induction false} EmitFrom(plan: Plan, prior: seq<TaskId>)
    ensures From(Emit(plan, prior).terminals, prior, Keys(plan))
    decreases plan, 1
  {
    match plan
    case Leaf(scope, phase, pattern) => LeafIdsDistinct(scope, phase, pattern);
    case Series(parts) => SeriesFrom(parts, prior);
    case Fork(branches) => ForkFrom(branches, prior);
  }

  lemma {:induction false} SeriesFrom(parts: seq<Plan>, prior: seq<TaskId>)
    ensures From(EmitSeries(parts, prior).terminals, prior, KeysOf(parts))
    decreases parts, 0
  {
    if parts != [] {
      EmitFrom(parts[0], prior);
      SeriesFrom(parts[1..], Emit(parts[0], prior).terminals);
    }
  }

  lemma {:induction false} ForkFrom(branches: seq<Plan>, prior: seq<TaskId>)
    ensures From(EmitFork(branches, prior).terminals, prior, KeysOf(branches))
    decreases branches, 0
  {
    if branches != [] {
      EmitFrom(branches[0], prior);
      ForkFrom(branches[1..], prior);
    }
  }

  // ---- What is listed later does not clash with what is listed earlier ----

  /** The ids have plain names and do not conflict with the keys. */
  ghost predicate Clear(prior: seq<TaskId>, keys: seq<PhaseKey>) {
    (forall d | d in prior :: Plain(d.phase)) && (forall d, k | d in prior && k in keys :: !Conflict(KeyOf(d), k))
  }

  lemma ClearSplit(prior: seq<TaskId>, a: seq<PhaseKey>, b: seq<PhaseKey>)
    requires Clear(prior, a + b)
    ensures Clear(prior, a) && Clear(prior, b)
  {
    forall d, k | d in prior && (k in a || k in b)
      ensures !Conflict(KeyOf(d), k)
    {
      assert k in a + b;
    }
  }

  lemma ClearNext(prior: seq<TaskId>, terminals: seq<TaskId>, first: seq<PhaseKey>, rest: seq<PhaseKey>)
    requires Clear(prior, first + rest) && From(terminals, prior, first) && Separate(first, rest) && AllPlain(first)
    ensures Clear(terminals, rest)
  {
    forall d | d in terminals
      ensures Plain(d.phase)
    {
      assert KeyOf(d) in first ==> Plain(KeyOf(d).phase);
    }
    forall d, k | d in terminals && k in rest
      ensures !Conflict(KeyOf(d), k)
    {
      assert k in first + rest;
      assert d in prior ==> !Conflict(KeyOf(d), k);
    }
  }

  /** What the rest of a series needs, after its first part. */
  lemma NextPart(plans: seq<Plan>, prior: seq<TaskId>)
    requires plans != [] && ConflictFree(KeysOf(plans)) && AllPlain(KeysOf(plans)) && Clear(prior, KeysOf(plans))
    ensures ConflictFree(Keys(plans[0])) && AllPlain(Keys(plans[0])) && Clear(prior, Keys(plans[0]))
    ensures ConflictFree(KeysOf(plans[1..])) && AllPlain(KeysOf(plans[1..])) && Clear(prior, KeysOf(plans[1..]))
    ensures Clear(Emit(plans[0], prior).terminals, KeysOf(plans[1..]))
  {
    var first, rest := Keys(plans[0]), KeysOf(plans[1..]);
    SplitConflictFree(first, rest);
    ClearSplit(prior, first, rest);
    forall k | k in first || k in rest
      ensures Plain(k.phase)
    {
      assert k in first + rest;
    }
    EmitFrom(plans[0], prior);
    ClearNext(prior, Emit(plans[0], prior).terminals, first, rest);
  }

  /** Plain names in other places are written differently. */
  lemma NotWritten(c: TaskId, ids: seq<TaskId>)
    requires c !in ids && Plain(c.phase) && forall x | x in ids :: Plain(x.phase)
    ensures LocalId(c) !in LocalIds(ids)
  {
    forall i | 0 <= i < |ids|
      ensures LocalIds(ids)[i] != LocalId(c)
    {
      assert ids[i] in ids;
      if LocalId(ids[i]) == LocalId(c) {
        PlainNamesAreInjective(ids[i], c);
      }
    }
  }

  lemma BodyPhaseClean(loop: string, n: nat, phase: PhaseSpec, prior: seq<TaskId>)
    requires Plain(SubstituteIter(phase.name, n))
    requires Clear(prior, [PhaseKey(Iteration(loop, n), SubstituteIter(phase.name, n))])
    ensures !Clashes(loop, n, phase, LocalIds(prior))
  {
    var name, scope := SubstituteIter(phase.name, n), Iteration(loop, n);
    LeafIdsDistinct(Outer, name, phase.pattern);
    LeafIdsDistinct(scope, name, phase.pattern);
    forall c | c in LocalIds(prior)
      ensures c !in LocalIds(LeafIds(Outer, name, phase.pattern))
      ensures c !in LocalIds(LeafIds(scope, name, phase.pattern))
    {
      var i :| 0 <= i < |prior| && LocalIds(prior)[i] == c;
      assert prior[i] in prior && PhaseKey(scope, name) in [PhaseKey(scope, name)];
      assert !Conflict(KeyOf(prior[i]), PhaseKey(scope, name));
      NotWritten(prior[i], LeafIds(Outer, name, phase.pattern));
      NotWritten(prior[i], LeafIds(scope, name, phase.pattern));
    }
  }

  // ---- Well-named workflows are accepted ----

  lemma {:induction false} BodyItemClean(loop: string, item: BodyItem, n: nat, prior: seq<TaskId>)
    requires var keys := Keys(ElaborateBodyItem(loop, item, n)); ConflictFree(keys) && AllPlain(keys) && Clear(prior, keys)
    ensures CleanBodyItem(loop, item, n, LocalIds(prior))
    decreases item, 1
  {
    match item
    case BodyPhase(phase) =>
      assert PhaseKey(Iteration(loop, n), SubstituteIter(phase.name, n)) in Keys(ElaborateBodyItem(loop, item, n));
      BodyPhaseClean(loop, n, phase, prior);
    case BodyLoop(inner) => BodyClean(inner.name, inner.body, n, prior);
  }

  lemma {:induction false} BodyClean(loop: string, body: seq<BodyItem>, n: nat, prior: seq<TaskId>)
    requires var keys := KeysOf(ElaborateBody(loop, body, n)); ConflictFree(keys) && AllPlain(keys) && Clear(prior, keys)
    ensures CleanBody(loop, body, n, LocalIds(prior))
    decreases body, 0
  {
    if body != [] {
      var plans := ElaborateBody(loop, body, n);
      assert plans[1..] == ElaborateBody(loop, body[1..], n);
      NextPart(plans, prior);
      BodyItemClean(loop, body[0], n, prior);
      BodyItemTranslates(loop, body[0], n, prior);
      BodyClean(loop, body[1..], n, Emit(plans[0], prior).terminals);
    }
  }

  lemma {:induction false} IterationsClean(loop: LoopBlock, n: nat, prior: seq<TaskId>)
    requires var keys := KeysOf(ElaborateIterations(loop, n)); ConflictFree(keys) && AllPlain(keys) && Clear(prior, keys)
    ensures CleanIterations(loop, n, LocalIds(prior))
    decreases loop.max + 1 - n
  {
    if n <= loop.max {
      var plans := ElaborateIterations(loop, n);
      assert plans[1..] == ElaborateIterations(loop, n + 1);
      NextPart(plans, prior);
      BodyClean(loop.name, loop.body, n, prior);
      BodyTranslates(loop.name, loop.body, n, prior);
      IterationsClean(loop, n + 1, Emit(plans[0], prior).terminals);
    }
  }

  lemma {:induction false} ItemClean(item: PhaseItem, pad: Scratchpad, prior: seq<TaskId>)
    requires var keys := Keys(Elaborate(item, pad)); ConflictFree(keys) && AllPlain(keys) && Clear(prior, keys)
    ensures CleanItem(item, pad, LocalIds(prior))
    decreases item, 1
  {
    match item
    case PhaseOf(phase) =>
    case SequenceBlock(_, items) => SequenceClean(items, pad, prior);
    case ParallelBlock(_, items) => BranchesClean(items, pad, prior);
    case LoopOf(loop) => IterationsClean(loop, 1, prior);
  }

  lemma {:induction false} SequenceClean(items: seq<PhaseItem>, pad: Scratchpad, prior: seq<TaskId>)
    requires var keys := KeysOf(ElaborateAll(items, pad)); ConflictFree(keys) && AllPlain(keys) && Clear(prior, keys)
    ensures CleanSequence(items, pad, LocalIds(prior))
    decreases items, 0
  {
    if items != [] {
      var plans := ElaborateAll(items, pad);
      assert plans[1..] == ElaborateAll(items[1..], pad);
      NextPart(plans, prior);
      ItemClean(items[0], pad, prior);
      ItemTranslates(items[0], pad, prior);
      SequenceClean(items[1..], pad, Emit(plans[0], prior).terminals);
    }
  }

  lemma {:induction false} BranchesClean(items: seq<PhaseItem>, pad: Scratchpad, prior: seq<TaskId>)
    requires var keys := KeysOf(ElaborateAll(items, pad)); ConflictFree(keys) && AllPlain(keys) && Clear(prior, keys)
    ensures CleanBranches(items, pad, LocalIds(prior))
    decreases items, 0
  {
    if items != [] {
      var plans := ElaborateAll(items, pad);
      assert plans[1..] == ElaborateAll(items[1..], pad);
      NextPart(plans, prior);
      ItemClean(items[0], pad, prior);
      BranchesClean(items[1..], pad, prior);
    }
  }

  /** Phases that do not conflict have no task id in common, and none twice. */
  lemma {:induction false} PlanIdsDistinct(plan: Plan)
    requires ConflictFree(Keys(plan))
    ensures NoDuplicates(PlanIds(plan)) && forall d | d in PlanIds(plan) :: KeyOf(d) in Keys(plan)
    decreases plan, 1
  {
    match plan
    case Leaf(scope, phase, pattern) => LeafIdsDistinct(scope, phase, pattern);
    case Series(parts) => PlansIdsDistinct(parts);
    case Fork(branches) => PlansIdsDistinct(branches);
  }

  lemma {:induction false} PlansIdsDistinct(plans: seq<Plan>)
    requires ConflictFree(KeysOf(plans))
    ensures NoDuplicates(PlanIdsOf(plans)) && forall d | d in PlanIdsOf(plans) :: KeyOf(d) in KeysOf(plans)
    decreases plans, 0
  {
    if plans != [] {
      SplitConflictFree(Keys(plans[0]), KeysOf(plans[1..]));
      PlanIdsDistinct(plans[0]);
      PlansIdsDistinct(plans[1..]);
      forall d, e | d in PlanIds(plans[0]) && e in PlanIdsOf(plans[1..])
        ensures d != e
      {
        assert !Conflict(KeyOf(d), KeyOf(e));
      }
      JoinDistinct(PlanIds(plans[0]), PlanIdsOf(plans[1..]));
    }
  }

  /** A workflow whose phase names are plain and do not conflict is accepted, whatever its blocks. */
  lemma WellNamedIsAccepted(items: seq<PhaseItem>, pad: Scratchpad)
    requires WellNamed(items, pad)
    ensures Accepted(items, pad)
  {
    var plans := ElaborateAll(items, pad);
    assert LocalIds([]) == [];
    SequenceClean(items, pad, []);
    SequenceTranslates(items, pad, []);
    EmitSeriesIds(plans, []);
    PlansIdsDistinct(plans);
    forall id | id in PlanIdsOf(plans)
      ensures Plain(id.phase)
    {
      assert Plain(KeyOf(id).phase);
    }
    DistinctAsStrings(PlanIdsOf(plans));
    assert Ids(ExpandSequence(items, pad, []).tasks) == LocalIds(PlanIdsOf(plans));
  }

  // ---- Names with the mark ----

  function OneTaskLoop(loop: string, phase: string): PhaseItem {
    LoopOf(LoopBlock(loop, 1, [BodyPhase(PhaseSpec(phase, Single, Wrappers.None))]))
  }

  lemma OneTaskLoopExpands(loop: string, phase: string, prior: seq<string>)
    requires SubstituteIter(phase, 1) == phase
    ensures var e := ExpandItem(OneTaskLoop(loop, phase), Wrappers.None, prior);
            var prefix, raw := Prefix(Iteration(loop, 1)), LocalId(TaskId(Outer, phase, Worker(0)));
            && e.tasks == [TaskSpec(prefix + raw, RenameIds([raw], prefix, prior))]
            && e.terminals == [prefix + raw]
  {
    var spec := PhaseSpec(phase, Single, Wrappers.None);
    var block := LoopBlock(loop, 1, [BodyPhase(spec)]);
    var raw := LocalId(TaskId(Outer, phase, Worker(0)));
    SinglePhase(phase, prior);
    assert Ids([TaskSpec(raw, prior)]) == [raw];
    var only := ExpandBodyPhase(loop, 1, spec, prior);
    assert block.body[0] == BodyPhase(spec) && block.body[1..] == [];
    assert ExpandBody(loop, block.body, 1, prior) == Then(only, ExpandBody(loop, [], 1, only.terminals));
    assert ExpandIterations(block, 1, prior)
        == Then(ExpandBody(loop, block.body, 1, prior), ExpandIterations(block, 2, only.terminals));
  }

  lemma OneTaskLoopKeys(loop: string, phase: string)
    requires SubstituteIter(phase, 1) == phase
    ensures Keys(Elaborate(OneTaskLoop(loop, phase), Wrappers.None)) == [PhaseKey(Iteration(loop, 1), phase)]
  {
    var block := LoopBlock(loop, 1, [BodyPhase(PhaseSpec(phase, Single, Wrappers.None))]);
    assert block.body[1..] == [];
    var leaf := ElaborateBodyItem(loop, block.body[0], 1);
    var plans := ElaborateBody(loop, block.body, 1);
    assert plans == [leaf] + ElaborateBody(loop, [], 1) == [leaf];
    var iterations := ElaborateIterations(block, 1);
    assert iterations == [Series(plans)] + ElaborateIterations(block, 2) == [Series(plans)];
    assert iterations[1..] == [] && plans[1..] == [];
    assert KeysOf(plans) == Keys(leaf) + KeysOf([]);
    assert KeysOf(iterations) == Keys(iterations[0]) + KeysOf([]);
  }

  /**
    * Why names must be plain: the phases below have different names in different loops and all id
    * strings differ, but the second phase's string before renaming is the first task's, so the second
    * task ends up depending on itself and the workflow is rejected.
    */
  lemma MarkedNameIsRejected()
    ensures var items := [OneTaskLoop("phase_x", "r"), OneTaskLoop("m", "x_i1_phase_r")];
            var tasks := ExpandSequence(items, Wrappers.None, []).tasks;
            && ConflictFree(KeysOf(ElaborateAll(items, Wrappers.None)))
            && |tasks| == 2 && tasks[0].id != tasks[1].id && tasks[1].dependsOn == [tasks[1].id]
            && !CleanSequence(items, Wrappers.None, [])
  {
    var first, second := OneTaskLoop("phase_x", "r"), OneTaskLoop("m", "x_i1_phase_r");
    var items := [first, second];
    assert items[1..] == [second] && [second][1..] == [];
    NothingToReplace("r", "{iter}", NatToString(1));
    NothingToReplace("x_i1_phase_r", "{iter}", NatToString(1));
    MarkedKeys(first, second);
    MarkedClash(first, second);
  }

  lemma MarkedKeys(first: PhaseItem, second: PhaseItem)
    requires first == OneTaskLoop("phase_x", "r") && second == OneTaskLoop("m", "x_i1_phase_r")
    requires SubstituteIter("r", 1) == "r" && SubstituteIter("x_i1_phase_r", 1) == "x_i1_phase_r"
    ensures ConflictFree(KeysOf(ElaborateAll([first, second], Wrappers.None)))
  {
    OneTaskLoopKeys("phase_x", "r");
    OneTaskLoopKeys("m", "x_i1_phase_r");
    assert [first, second][1..] == [second] && [second][1..] == [];
    var plans, last := ElaborateAll([first, second], Wrappers.None), ElaborateAll([second], Wrappers.None);
    assert last == [Elaborate(second, Wrappers.None)] + ElaborateAll([], Wrappers.None);
    assert plans == [Elaborate(first, Wrappers.None)] + last;
    assert plans[1..] == last && last[1..] == [];
    assert KeysOf(last) == Keys(last[0]) + KeysOf([]);
    var keys := KeysOf(plans);
    assert keys == [PhaseKey(Iteration("phase_x", 1), "r"), PhaseKey(Iteration("m", 1), "x_i1_phase_r")];
    assert |keys[0].phase| == 1 && |keys[1].phase| == 12;
  }

  lemma MarkedClash(first: PhaseItem, second: PhaseItem)
    requires first == OneTaskLoop("phase_x", "r") && second == OneTaskLoop("m", "x_i1_phase_r")
    requires SubstituteIter("r", 1) == "r" && SubstituteIter("x_i1_phase_r", 1) == "x_i1_phase_r"
    ensures var items := [first, second];
            var tasks := ExpandSequence(items, Wrappers.None, []).tasks;
            && |tasks| == 2 && tasks[0].id != tasks[1].id && tasks[1].dependsOn == [tasks[1].id]
            && !CleanSequence(items, Wrappers.None, [])
  {
    var items := [first, second];
    var none := Wrappers.None;
    assert items[1..] == [second] && [second][1..] == [];
    var id := MarkedStrings();
    var prefix := Prefix(Iteration("m", 1));
    OneTaskLoopExpands("phase_x", "r", []);
    OneTaskLoopExpands("m", "x_i1_phase_r", [id]);
    var one, two := ExpandItem(first, none, []), ExpandItem(second, none, [id]);
    assert one.tasks == [TaskSpec(id, [])] && one.terminals == [id];
    assert RenameIds([id], prefix, [id]) == [prefix + id];
    assert two.tasks == [TaskSpec(prefix + id, [prefix + id])];
    assert ExpandSequence([second], none, [id]) == Then(two, ExpandSequence([], none, two.terminals));
    assert ExpandSequence(items, none, []) == Then(one, ExpandSequence([second], none, [id]));
    OneTaskLoopClashes("m", "x_i1_phase_r", [id]);
    assert !CleanSequence([second], none, [id]);
  }

  lemma OneTaskLoopClashes(loop: string, phase: string, prior: seq<string>)
    requires SubstituteIter(phase, 1) == phase && LocalId(TaskId(Outer, phase, Worker(0))) in prior
    ensures !CleanItem(OneTaskLoop(loop, phase), Wrappers.None, prior)
  {
    var spec := PhaseSpec(phase, Single, Wrappers.None);
    var block := LoopBlock(loop, 1, [BodyPhase(spec)]);
    var raw := LocalId(TaskId(Outer, phase, Worker(0)));
    assert LocalIds(LeafIds(Outer, phase, Single)) == [raw];
    assert Clashes(loop, 1, spec, prior);
    assert !CleanBodyItem(loop, block.body[0], 1, prior);
    assert !CleanBody(loop, block.body, 1, prior);
    assert !CleanIterations(block, 1, prior);
  }

  /** The id string of the task in the first loop, which is also the second phase's before renaming. */
  lemma MarkedStrings() returns (id: string)
    ensures id == LocalId(TaskId(Outer, "x_i1_phase_r", Worker(0)))
    ensures id == Prefix(Iteration("phase_x", 1)) + LocalId(TaskId(Outer, "r", Worker(0)))
  {
    id := LocalId(TaskId(Outer, "x_i1_phase_r", Worker(0)));
    assert NatToString(1) == "1" && NatToString(0) == "0";
    assert Prefix(Iteration("phase_x", 1)) == "phase_x_i1_";
    assert LocalId(TaskId(Outer, "r", Worker(0))) == "phase_r_0";
    assert id == "phase_x_i1_phase_r_0";
  }
}
