// The phase language: what a workflow author writes, and the flat task specs it compiles to.

module Wrappers {

  datatype Option<+T> = None | Some(value: T)

  datatype Result<+T, +E> = Ok(value: T) | Err(error: E)
}

module PhaseSpecs {
  import opened Wrappers

  /** Skip a phase when a scratchpad key exists (or holds `value`); `negate` inverts the test. */
  datatype SkipCondition = SkipCondition(key: string, value: string, negate: bool) {

    predicate IsMet(scratchpad: map<string, string>) {
      var base := key in scratchpad && (value != "" ==> scratchpad[key] == value);
      if negate then !base else base
    }
  }

  /** Counts and rounds are the raw configured integers; the strategies clamp them to at least 1. */
  datatype Pattern =
    | Single
    | Parallel(count: int)
    | Competitive(solvers: int, judged: bool)
    | Debate(rounds: int)

  datatype PhaseSpec = PhaseSpec(name: string, pattern: Pattern, skip: Option<SkipCondition>)

  /** A loop body holds phases and nested loops only. */
  datatype LoopBlock = LoopBlock(name: string, max: nat, body: seq<BodyItem>)

  datatype BodyItem = BodyPhase(phase: PhaseSpec) | BodyLoop(inner: LoopBlock)

  datatype PhaseItem =
    | PhaseOf(phase: PhaseSpec)
    | SequenceBlock(name: string, phases: seq<PhaseItem>)
    | ParallelBlock(name: string, phases: seq<PhaseItem>)
    | LoopOf(loop: LoopBlock)

  /** The role of a task inside its phase: the last part of its local id. */
  datatype Slot = Worker(index: nat) | Advocate(round: nat) | Critic(round: nat) | Judge

  /** Loop-body tasks are namespaced by loop name and iteration number; all others are not. */
  datatype Scope = Outer | Iteration(loop: string, number: nat)

  datatype TaskId = TaskId(scope: Scope, phase: string, slot: Slot)

  /** A task spec over any kind of id: strings in the program, structured ids in the plan it stands for. */
  datatype Spec<Id> = TaskSpec(id: Id, dependsOn: seq<Id>)

  type TaskSpec = Spec<TaskId>
  type LocalSpec = Spec<string>

  datatype PhaseStatus = PhaseStatus(name: string, taskIds: seq<string>, skipped: bool)

  datatype Expansion = Expansion(tasks: seq<LocalSpec>, statuses: seq<PhaseStatus>, terminals: seq<string>)

  /** `None` as scratchpad means that no skip condition is ever evaluated. */
  predicate EvaluateSkip(phase: PhaseSpec, scratchpad: Option<map<string, string>>) {
    phase.skip.Some? && scratchpad.Some? && phase.skip.value.IsMet(scratchpad.value)
  }

  ghost function IdSet<Id>(ids: seq<Id>): set<Id> {
    set d | d in ids
  }

  function AtLeastOne(n: int): nat {
    if n < 1 then 1 else n
  }

  function Ids<Id>(tasks: seq<Spec<Id>>): (ids: seq<Id>)
    ensures |ids| == |tasks|
    ensures forall i | 0 <= i < |tasks| :: ids[i] == tasks[i].id
  {
    seq(|tasks|, i requires 0 <= i < |tasks| => tasks[i].id)
  }

  function MapIds<A, B>(name: A -> B, ids: seq<A>): (r: seq<B>)
    ensures |r| == |ids| && forall i | 0 <= i < |ids| :: r[i] == name(ids[i])
  {
    seq(|ids|, i requires 0 <= i < |ids| => name(ids[i]))
  }

  function MapTasks<A, B>(name: A -> B, tasks: seq<Spec<A>>): (r: seq<Spec<B>>)
    ensures |r| == |tasks|
    ensures forall i | 0 <= i < |tasks| :: r[i] == TaskSpec(name(tasks[i].id), MapIds(name, tasks[i].dependsOn))
  {
    seq(|tasks|, i requires 0 <= i < |tasks| => TaskSpec(name(tasks[i].id), MapIds(name, tasks[i].dependsOn)))
  }

  ghost predicate NoDuplicates<T>(s: seq<T>) {
    forall i, j | 0 <= i < j < |s| :: s[i] != s[j]
  }

  lemma JoinDistinct<T>(a: seq<T>, b: seq<T>)
    requires NoDuplicates(a) && NoDuplicates(b) && forall x, y | x in a && y in b :: x != y
    ensures NoDuplicates(a + b)
  {
    forall i, j | 0 <= i < j < |a + b|
      ensures (a + b)[i] != (a + b)[j]
    {
      if i < |a| <= j {
        assert a[i] in a && b[j - |a|] in b;
      }
    }
  }
}
