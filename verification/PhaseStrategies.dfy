// How one phase becomes tasks: the single, parallel, competitive and debate strategies.

module PhaseStrategies {
  import opened PhaseSpecs
  import opened TaskNaming

  // ---- The task ids of a phase, and which of them must precede which ----

  function Workers(scope: Scope, phase: string, n: nat): (ids: seq<TaskId>)
    ensures |ids| == n
    ensures forall i | 0 <= i < n :: ids[i] == TaskId(scope, phase, Worker(i))
  {
    seq(n, i requires 0 <= i < n => TaskId(scope, phase, Worker(i)))
  }

  function DebateIds(scope: Scope, phase: string, r: nat, rounds: nat): seq<TaskId>
    decreases rounds + 1 - r
  {
    if r > rounds then [TaskId(scope, phase, Judge)]
    else [TaskId(scope, phase, Advocate(r)), TaskId(scope, phase, Critic(r))] + DebateIds(scope, phase, r + 1, rounds)
  }

  function LeafIds(scope: Scope, phase: string, pattern: Pattern): seq<TaskId> {
    match pattern
    case Single => [TaskId(scope, phase, Worker(0))]
    case Parallel(n) => Workers(scope, phase, AtLeastOne(n))
    case Competitive(n, judged) =>
      Workers(scope, phase, AtLeastOne(n)) + if judged then [TaskId(scope, phase, Judge)] else []
    case Debate(r) => DebateIds(scope, phase, 1, AtLeastOne(r))
  }

  ghost function LeafSet(scope: Scope, phase: string, pattern: Pattern): set<TaskId> {
    IdSet(LeafIds(scope, phase, pattern))
  }

  /**
    * The order a pattern promises inside a phase: a competitive judge comes after every solver; in
    * a debate everything comes after the turns before it, and the judge comes last.
    */
  ghost predicate SlotBefore(pattern: Pattern, a: Slot, b: Slot) {
    match pattern
    case Single => false
    case Parallel(_) => false
    case Competitive(_, _) => a.Worker? && b.Judge?
    case Debate(_) =>
      match (a, b)
      case (Advocate(i), Advocate(j)) => i < j
      case (Advocate(i), Critic(j)) => i <= j
      case (Critic(i), Advocate(j)) => i < j
      case (Critic(i), Critic(j)) => i < j
      case (_, Judge) => !a.Judge?
      case _ => false
  }

  // ---- The tasks a phase expands to ----

  function Fan<Id>(ids: seq<Id>, prior: seq<Id>): (tasks: seq<Spec<Id>>)
    ensures |tasks| == |ids|
    ensures forall i | 0 <= i < |ids| :: tasks[i] == TaskSpec(ids[i], prior)
  {
    seq(|ids|, i requires 0 <= i < |ids| => TaskSpec(ids[i], prior))
  }

  function DebateTasks(scope: Scope, phase: string, r: nat, rounds: nat, deps: seq<TaskId>): seq<TaskSpec>
    decreases rounds + 1 - r
  {
    var adv, crit := TaskId(scope, phase, Advocate(r)), TaskId(scope, phase, Critic(r));
    if r > rounds then [TaskSpec(TaskId(scope, phase, Judge), deps)]
    else [TaskSpec(adv, deps), TaskSpec(crit, [adv])] + DebateTasks(scope, phase, r + 1, rounds, [crit])
  }

  function LeafTasks(scope: Scope, phase: string, pattern: Pattern, prior: seq<TaskId>): seq<TaskSpec> {
    match pattern
    case Single => Fan([TaskId(scope, phase, Worker(0))], prior)
    case Parallel(n) => Fan(Workers(scope, phase, AtLeastOne(n)), prior)
    case Competitive(n, judged) =>
      var solvers := Workers(scope, phase, AtLeastOne(n));
      Fan(solvers, prior) + if judged then [TaskSpec(TaskId(scope, phase, Judge), solvers)] else []
    case Debate(r) => DebateTasks(scope, phase, 1, AtLeastOne(r), prior)
  }

  /** What the next phase depends on: a debate's judge, and every task of any other pattern. */
  function LeafTerminals(scope: Scope, phase: string, pattern: Pattern): seq<TaskId> {
    if pattern.Debate? then [TaskId(scope, phase, Judge)] else LeafIds(scope, phase, pattern)
  }

  lemma {:induction false} DebateTaskIds(scope: Scope, phase: string, r: nat, rounds: nat, deps: seq<TaskId>)
    ensures Ids(DebateTasks(scope, phase, r, rounds, deps)) == DebateIds(scope, phase, r, rounds)
    ensures DebateIds(scope, phase, r, rounds) != []
    ensures var ts := DebateTasks(scope, phase, r, rounds, deps);
            ts != [] && ts[|ts| - 1].id == TaskId(scope, phase, Judge)
    decreases rounds + 1 - r
  {
    if r <= rounds {
      DebateTaskIds(scope, phase, r + 1, rounds, [TaskId(scope, phase, Critic(r))]);
    }
  }

  lemma LeafTaskIds(scope: Scope, phase: string, pattern: Pattern, prior: seq<TaskId>)
    ensures Ids(LeafTasks(scope, phase, pattern, prior)) == LeafIds(scope, phase, pattern)
    ensures LeafIds(scope, phase, pattern) != []
  {
    if pattern.Debate? {
      DebateTaskIds(scope, phase, 1, AtLeastOne(pattern.rounds), prior);
    }
  }

  lemma {:induction false} DebateIdsRange(scope: Scope, phase: string, r: nat, rounds: nat)
    requires 1 <= r <= rounds + 1
    ensures forall x :: x in DebateIds(scope, phase, r, rounds) <==>
              x.scope == scope && x.phase == phase &&
              match x.slot
              case Judge => true
              case Advocate(k) => r <= k <= rounds
              case Critic(k) => r <= k <= rounds
              case Worker(_) => false
    ensures NoDuplicates(DebateIds(scope, phase, r, rounds))
    decreases rounds + 1 - r
  {
    if r <= rounds {
      DebateIdsRange(scope, phase, r + 1, rounds);
    }
  }

  /** Every id of a phase carries the phase's scope and name, and no id occurs twice. */
  lemma LeafIdsDistinct(scope: Scope, phase: string, pattern: Pattern)
    ensures NoDuplicates(LeafIds(scope, phase, pattern))
    ensures forall x | x in LeafIds(scope, phase, pattern) :: x.scope == scope && x.phase == phase
  {
    if pattern.Debate? {
      DebateIdsRange(scope, phase, 1, AtLeastOne(pattern.rounds));
    }
  }

  /** The tasks a pattern stands for; whatever is configured, there is one worker or round at least. */
  predicate HasSlot(pattern: Pattern, slot: Slot) {
    match pattern
    case Single => slot == Worker(0)
    case Parallel(n) => slot.Worker? && (slot.index < n || slot.index == 0)
    case Competitive(n, judged) => (slot.Worker? && (slot.index < n || slot.index == 0)) || (slot.Judge? && judged)
    case Debate(r) => slot.Judge? || ((slot.Advocate? || slot.Critic?) && (1 <= slot.round <= r || slot.round == 1))
  }

  /** The ids of a phase: exactly those of its scope, its name and the slots of its pattern, and how many. */
  lemma LeafIdsExactly(scope: Scope, phase: string, pattern: Pattern)
    ensures forall x :: x in LeafIds(scope, phase, pattern) <==>
                          x.scope == scope && x.phase == phase && HasSlot(pattern, x.slot)
    ensures |LeafIds(scope, phase, pattern)|
         == match pattern
            case Single => 1
            case Parallel(n) => if n < 1 then 1 else n
            case Competitive(n, judged) => (if n < 1 then 1 else n) + (if judged then 1 else 0)
            case Debate(r) => 2 * (if r < 1 then 1 else r) + 1
  {
    match pattern
    case Single =>
    case Parallel(n) => WorkersExactly(scope, phase, AtLeastOne(n));
    case Competitive(n, judged) => SolversExactly(scope, phase, n, judged);
    case Debate(r) => TurnsExactly(scope, phase, r);
  }

  lemma SolversExactly(scope: Scope, phase: string, n: int, judged: bool)
    ensures var ids := LeafIds(scope, phase, Competitive(n, judged));
            && (forall x :: x in ids <==> x.scope == scope && x.phase == phase && HasSlot(Competitive(n, judged), x.slot))
            && |ids| == (if n < 1 then 1 else n) + if judged then 1 else 0
  {
    WorkersExactly(scope, phase, AtLeastOne(n));
    var last := if judged then [TaskId(scope, phase, Judge)] else [];
    assert forall x :: x in Workers(scope, phase, AtLeastOne(n)) + last <==>
                         x in Workers(scope, phase, AtLeastOne(n)) || x in last;
  }

  lemma TurnsExactly(scope: Scope, phase: string, r: int)
    ensures var ids := LeafIds(scope, phase, Debate(r));
            && (forall x :: x in ids <==> x.scope == scope && x.phase == phase && HasSlot(Debate(r), x.slot))
            && |ids| == 2 * (if r < 1 then 1 else r) + 1
  {
    DebateIdsRange(scope, phase, 1, AtLeastOne(r));
    DebateTurns(scope, phase, 1, AtLeastOne(r));
    forall x
      ensures x in DebateIds(scope, phase, 1, AtLeastOne(r))
         <==> x.scope == scope && x.phase == phase && HasSlot(Debate(r), x.slot)
    {
    }
  }

  lemma WorkersExactly(scope: Scope, phase: string, n: nat)
    ensures forall x :: x in Workers(scope, phase, n) <==>
                          x.scope == scope && x.phase == phase && x.slot.Worker? && x.slot.index < n
  {
    forall x: TaskId | x.scope == scope && x.phase == phase && x.slot.Worker? && x.slot.index < n
      ensures x in Workers(scope, phase, n)
    {
      assert Workers(scope, phase, n)[x.slot.index] == x;
    }
  }

  /** The k-th turn of a debate that starts in round r. */
  ghost function Turn(r: nat, rounds: nat, k: nat): Slot {
    if r + k / 2 > rounds then Judge else if k % 2 == 0 then Advocate(r + k / 2) else Critic(r + k / 2)
  }

  lemma {:induction false} DebateTurns(scope: Scope, phase: string, r: nat, rounds: nat)
    requires r <= rounds + 1
    ensures var ids := DebateIds(scope, phase, r, rounds);
            && |ids| == 2 * (rounds + 1 - r) + 1
            && forall k | 0 <= k < |ids| :: ids[k] == TaskId(scope, phase, Turn(r, rounds, k))
    decreases rounds + 1 - r
  {
    if r <= rounds {
      DebateTurns(scope, phase, r + 1, rounds);
      var ids, later := DebateIds(scope, phase, r, rounds), DebateIds(scope, phase, r + 1, rounds);
      forall k | 2 <= k < |ids|
        ensures ids[k] == TaskId(scope, phase, Turn(r, rounds, k))
      {
        assert ids[k] == later[k - 2];
        assert Turn(r + 1, rounds, k - 2) == Turn(r, rounds, k);
      }
    }
  }

  // ---- The same tasks with their ids written out, as the strategies produce them ----

  function LocalDebate(scope: Scope, phase: string, r: nat, rounds: nat, deps: seq<string>): seq<LocalSpec>
    decreases rounds + 1 - r
  {
    var adv, crit := LocalId(TaskId(scope, phase, Advocate(r))), LocalId(TaskId(scope, phase, Critic(r)));
    if r > rounds then [TaskSpec(LocalId(TaskId(scope, phase, Judge)), deps)]
    else [TaskSpec(adv, deps), TaskSpec(crit, [adv])] + LocalDebate(scope, phase, r + 1, rounds, [crit])
  }

  function LocalTasks(scope: Scope, phase: string, pattern: Pattern, prior: seq<string>): seq<LocalSpec> {
    match pattern
    case Single => Fan([LocalId(TaskId(scope, phase, Worker(0)))], prior)
    case Parallel(n) => Fan(LocalIds(Workers(scope, phase, AtLeastOne(n))), prior)
    case Competitive(n, judged) =>
      var solvers := LocalIds(Workers(scope, phase, AtLeastOne(n)));
      Fan(solvers, prior) + if judged then [TaskSpec(LocalId(TaskId(scope, phase, Judge)), solvers)] else []
    case Debate(r) => LocalDebate(scope, phase, 1, AtLeastOne(r), prior)
  }

  function LocalTerminals(scope: Scope, phase: string, pattern: Pattern): seq<string> {
    LocalIds(LeafTerminals(scope, phase, pattern))
  }

  lemma TurnIds<Id>(adv: Spec<Id>, crit: Spec<Id>, rest: seq<Spec<Id>>)
    ensures Ids([adv, crit] + rest) == [adv.id, crit.id] + Ids(rest)
  {
  }

  lemma TurnNames<A, B>(name: A -> B, adv: A, crit: A, rest: seq<A>)
    ensures MapIds(name, [adv, crit] + rest) == [name(adv), name(crit)] + MapIds(name, rest)
  {
  }

  lemma TurnTasks<A, B>(name: A -> B, adv: A, crit: A, deps: seq<A>, rest: seq<Spec<A>>)
    ensures MapTasks(name, [TaskSpec(adv, deps), TaskSpec(crit, [adv])] + rest)
         == [TaskSpec(name(adv), MapIds(name, deps)), TaskSpec(name(crit), [name(adv)])] + MapTasks(name, rest)
  {
    assert MapIds(name, [adv]) == [name(adv)];
  }

  lemma {:induction false} LocalDebateIds(scope: Scope, phase: string, r: nat, rounds: nat, deps: seq<string>)
    ensures Ids(LocalDebate(scope, phase, r, rounds, deps)) == LocalIds(DebateIds(scope, phase, r, rounds))
    ensures var ts := LocalDebate(scope, phase, r, rounds, deps);
            ts != [] && ts[|ts| - 1].id == LocalId(TaskId(scope, phase, Judge))
    decreases rounds + 1 - r
  {
    var adv, crit := TaskId(scope, phase, Advocate(r)), TaskId(scope, phase, Critic(r));
    if r <= rounds {
      var rest := LocalDebate(scope, phase, r + 1, rounds, [LocalId(crit)]);
      LocalDebateIds(scope, phase, r + 1, rounds, [LocalId(crit)]);
      TurnIds(TaskSpec(LocalId(adv), deps), TaskSpec(LocalId(crit), [LocalId(adv)]), rest);
      TurnNames(LocalId, adv, crit, DebateIds(scope, phase, r + 1, rounds));
      LocalIdsNamed(DebateIds(scope, phase, r + 1, rounds));
      LocalIdsNamed(DebateIds(scope, phase, r, rounds));
    } else {
      assert LocalIds([TaskId(scope, phase, Judge)]) == [LocalId(TaskId(scope, phase, Judge))];
    }
  }

  /** The k-th of the tasks is the k-th turn, and waits for the turn before it. */
  ghost predicate TurnAt(ts: seq<LocalSpec>, k: nat, id: TaskId, deps: seq<string>)
    requires k < |ts|
  {
    ts[k] == TaskSpec(LocalId(id), if k == 0 then deps else [ts[k - 1].id])
  }

  lemma {:induction false} LocalDebateAt(scope: Scope, phase: string, r: nat, rounds: nat, deps: seq<string>)
    requires r <= rounds + 1
    ensures var ts := LocalDebate(scope, phase, r, rounds, deps);
            && |ts| == 2 * (rounds + 1 - r) + 1
            && forall k | 0 <= k < |ts| :: TurnAt(ts, k, TaskId(scope, phase, Turn(r, rounds, k)), deps)
    decreases rounds + 1 - r
  {
    var ts := LocalDebate(scope, phase, r, rounds, deps);
    if r <= rounds {
      var crit := LocalId(TaskId(scope, phase, Critic(r)));
      LocalDebateAt(scope, phase, r + 1, rounds, [crit]);
      var later := LocalDebate(scope, phase, r + 1, rounds, [crit]);
      forall k | 2 <= k < |ts|
        ensures TurnAt(ts, k, TaskId(scope, phase, Turn(r, rounds, k)), deps)
      {
        assert TurnAt(later, k - 2, TaskId(scope, phase, Turn(r + 1, rounds, k - 2)), [crit]);
        assert Turn(r + 1, rounds, k - 2) == Turn(r, rounds, k);
        assert k > 2 ==> ts[k - 1] == later[k - 3];
      }
      assert Turn(r, rounds, 0) == Advocate(r) && Turn(r, rounds, 1) == Critic(r);
      assert TurnAt(ts, 0, TaskId(scope, phase, Advocate(r)), deps);
      assert TurnAt(ts, 1, TaskId(scope, phase, Critic(r)), deps);
    } else {
      assert Turn(r, rounds, 0) == Judge;
    }
  }

  lemma LocalTaskIds(scope: Scope, phase: string, pattern: Pattern, prior: seq<string>)
    ensures Ids(LocalTasks(scope, phase, pattern, prior)) == LocalIds(LeafIds(scope, phase, pattern))
  {
    if pattern.Debate? {
      LocalDebateIds(scope, phase, 1, AtLeastOne(pattern.rounds), prior);
    }
  }

  lemma {:induction false} WrittenDebate(scope: Scope, phase: string, r: nat, rounds: nat, deps: seq<TaskId>)
    ensures LocalDebate(scope, phase, r, rounds, LocalIds(deps)) == Written(DebateTasks(scope, phase, r, rounds, deps))
    decreases rounds + 1 - r
  {
    WrittenIsNamed(DebateTasks(scope, phase, r, rounds, deps));
    LocalIdsNamed(deps);
    if r <= rounds {
      var adv, crit := TaskId(scope, phase, Advocate(r)), TaskId(scope, phase, Critic(r));
      var rest := DebateTasks(scope, phase, r + 1, rounds, [crit]);
      assert LocalIds([crit]) == [LocalId(crit)];
      WrittenDebate(scope, phase, r + 1, rounds, [crit]);
      WrittenIsNamed(rest);
      TurnTasks(LocalId, adv, crit, deps, rest);
    }
  }

  /** The strategies write down exactly the tasks of the phase. */
  lemma WrittenLeaf(scope: Scope, phase: string, pattern: Pattern, prior: seq<TaskId>)
    ensures LocalTasks(scope, phase, pattern, LocalIds(prior)) == Written(LeafTasks(scope, phase, pattern, prior))
  {
    if pattern.Debate? {
      WrittenDebate(scope, phase, 1, AtLeastOne(pattern.rounds), prior);
    }
  }

  // ---- The strategies as the program runs them ----

  method ExpandSingle(phase: PhaseSpec, prior: seq<string>) returns (tasks: seq<LocalSpec>, status: PhaseStatus)
    requires phase.pattern.Single?
    ensures tasks == [TaskSpec(LocalId(TaskId(Outer, phase.name, Worker(0))), prior)]
    ensures tasks == LocalTasks(Outer, phase.name, phase.pattern, prior)
    ensures status == PhaseStatus(phase.name, Ids(tasks), false)
  {
    var id := LocalId(TaskId(Outer, phase.name, Worker(0)));
    tasks := [TaskSpec(id, prior)];
    status := PhaseStatus(phase.name, [id], false);
  }

  method ExpandParallel(phase: PhaseSpec, prior: seq<string>) returns (tasks: seq<LocalSpec>, status: PhaseStatus)
    requires phase.pattern.Parallel?
    ensures |tasks| == if phase.pattern.count < 1 then 1 else phase.pattern.count
    ensures forall i | 0 <= i < |tasks| :: tasks[i] == TaskSpec(LocalId(TaskId(Outer, phase.name, Worker(i))), prior)
    ensures tasks == LocalTasks(Outer, phase.name, phase.pattern, prior)
    ensures status == PhaseStatus(phase.name, Ids(tasks), false)
  {
    var count := AtLeastOne(phase.pattern.count);
    var ids := [];
    tasks := [];
    for i := 0 to count
      invariant ids == LocalIds(Workers(Outer, phase.name, i))
      invariant tasks == Fan(ids, prior)
    {
      var id := LocalId(TaskId(Outer, phase.name, Worker(i)));
      tasks := tasks + [TaskSpec(id, prior)];
      ids := ids + [id];
    }
    status := PhaseStatus(phase.name, ids, false);
  }

  method ExpandCompetitive(phase: PhaseSpec, prior: seq<string>) returns (tasks: seq<LocalSpec>, status: PhaseStatus)
    requires phase.pattern.Competitive?
    ensures var solvers := if phase.pattern.solvers < 1 then 1 else phase.pattern.solvers;
            && |tasks| == (if phase.pattern.judged then solvers + 1 else solvers)
            && (forall i | 0 <= i < solvers ::
                  tasks[i] == TaskSpec(LocalId(TaskId(Outer, phase.name, Worker(i))), prior))
            && (phase.pattern.judged ==>
                  tasks[solvers] == TaskSpec(LocalId(TaskId(Outer, phase.name, Judge)), Ids(tasks)[..solvers]))
    ensures tasks == LocalTasks(Outer, phase.name, phase.pattern, prior)
    ensures status == PhaseStatus(phase.name, Ids(tasks), false)
  {
    var count := AtLeastOne(phase.pattern.solvers);
    var ids := [];
    tasks := [];
    for i := 0 to count
      invariant ids == LocalIds(Workers(Outer, phase.name, i))
      invariant tasks == Fan(ids, prior)
    {
      var id := LocalId(TaskId(Outer, phase.name, Worker(i)));
      tasks := tasks + [TaskSpec(id, prior)];
      ids := ids + [id];
    }
    if phase.pattern.judged {
      var judge := LocalId(TaskId(Outer, phase.name, Judge));
      tasks := tasks + [TaskSpec(judge, ids)];
      ids := ids + [judge];
    }
    status := PhaseStatus(phase.name, ids, false);
  }

  /** Advocate and critic of round one, of round two, and so on, then the judge; each waits for the one before. */
  ghost predicate TakesTurns(tasks: seq<LocalSpec>, phase: string, rounds: nat, prior: seq<string>) {
    && |tasks| == 2 * rounds + 1
    && forall k | 0 <= k < |tasks| ::
         var slot := if k == 2 * rounds then Judge
                     else if k % 2 == 0 then Advocate(k / 2 + 1) else Critic(k / 2 + 1);
         TurnAt(tasks, k, TaskId(Outer, phase, slot), prior)
  }

  lemma DebateWritten(phase: string, n: int, prior: seq<string>)
    ensures TakesTurns(LocalTasks(Outer, phase, Debate(n), prior), phase, if n < 1 then 1 else n, prior)
  {
    var rounds := AtLeastOne(n);
    var tasks := LocalTasks(Outer, phase, Debate(n), prior);
    LocalDebateAt(Outer, phase, 1, rounds, prior);
    forall k | 0 <= k < |tasks|
      ensures var slot := if k == 2 * rounds then Judge
                          else if k % 2 == 0 then Advocate(k / 2 + 1) else Critic(k / 2 + 1);
              TurnAt(tasks, k, TaskId(Outer, phase, slot), prior)
    {
      assert TurnAt(tasks, k, TaskId(Outer, phase, Turn(1, rounds, k)), prior);
    }
  }

  lemma OneMoreTurn(tasks: seq<LocalSpec>, phase: string, r: nat, rounds: nat, deps: seq<string>)
    requires r <= rounds
    ensures var adv, crit := LocalId(TaskId(Outer, phase, Advocate(r))), LocalId(TaskId(Outer, phase, Critic(r)));
            var turn := [TaskSpec(adv, deps), TaskSpec(crit, [adv])];
            && tasks + LocalDebate(Outer, phase, r, rounds, deps)
               == (tasks + turn) + LocalDebate(Outer, phase, r + 1, rounds, [crit])
            && Ids(tasks + turn) == Ids(tasks) + [adv, crit]
  {
  }

  method ExpandDebate(phase: PhaseSpec, prior: seq<string>) returns (tasks: seq<LocalSpec>, status: PhaseStatus)
    requires phase.pattern.Debate?
    ensures TakesTurns(tasks, phase.name, if phase.pattern.rounds < 1 then 1 else phase.pattern.rounds, prior)
    ensures tasks == LocalTasks(Outer, phase.name, phase.pattern, prior)
    ensures status == PhaseStatus(phase.name, Ids(tasks), false)
  {
    var rounds := AtLeastOne(phase.pattern.rounds);
    var ids := [];
    var deps := prior;
    tasks := [];
    for r := 1 to rounds + 1
      invariant tasks + LocalDebate(Outer, phase.name, r, rounds, deps) == LocalTasks(Outer, phase.name, phase.pattern, prior)
      invariant ids == Ids(tasks)
    {
      var adv := LocalId(TaskId(Outer, phase.name, Advocate(r)));
      var crit := LocalId(TaskId(Outer, phase.name, Critic(r)));
      OneMoreTurn(tasks, phase.name, r, rounds, deps);
      tasks := tasks + [TaskSpec(adv, deps), TaskSpec(crit, [adv])];
      ids := ids + [adv, crit];
      deps := [crit];
    }
    var judge := LocalId(TaskId(Outer, phase.name, Judge));
    tasks := tasks + [TaskSpec(judge, deps)];
    ids := ids + [judge];
    status := PhaseStatus(phase.name, ids, false);
    DebateWritten(phase.name, phase.pattern.rounds, prior);
  }

  /** The strategy registry: dispatch on the pattern name. */
  method Expand(phase: PhaseSpec, prior: seq<string>) returns (tasks: seq<LocalSpec>, status: PhaseStatus)
    ensures tasks == LocalTasks(Outer, phase.name, phase.pattern, prior)
    ensures status == PhaseStatus(phase.name, Ids(tasks), false)
  {
    match phase.pattern
    case Single => tasks, status := ExpandSingle(phase, prior);
    case Parallel(_) => tasks, status := ExpandParallel(phase, prior);
    case Competitive(_, _) => tasks, status := ExpandCompetitive(phase, prior);
    case Debate(_) => tasks, status := ExpandDebate(phase, prior);
  }

  method TerminalIds(phase: PhaseSpec, tasks: seq<LocalSpec>) returns (ids: seq<string>)
    requires exists prior :: tasks == LocalTasks(Outer, phase.name, phase.pattern, prior)
    ensures ids == if phase.pattern.Debate? then [LocalId(TaskId(Outer, phase.name, Judge))] else Ids(tasks)
    ensures ids == LocalTerminals(Outer, phase.name, phase.pattern)
  {
    ghost var prior :| tasks == LocalTasks(Outer, phase.name, phase.pattern, prior);
    LocalTaskIds(Outer, phase.name, phase.pattern, prior);
    if phase.pattern.Debate? {
      LocalDebateIds(Outer, phase.name, 1, AtLeastOne(phase.pattern.rounds), prior);
      ids := [tasks[|tasks| - 1].id];
    } else {
      ids := Ids(tasks);
    }
  }
}
