// The workflow manager: all tracked runs, and the early exit of loops whose condition is met.

module WorkflowManager {
  import opened PhaseSpecs
  import opened Tasks
  import opened Wrappers
  import opened WorkflowRuns
  import opened WorkflowPhases

  datatype RunId = RunId(name: string)

  /** Which tasks belong to which iteration of a loop, and when to stop iterating. */
  datatype Loop = Loop(run: RunId, name: string, iterations: seq<seq<Id>>, until: Option<SkipCondition>)

  /** `cancelRequests` lists the calls of the cancel callback, in order. */
  datatype Tracker = Tracker(
    runs: map<RunId, WorkflowRun>, completedTasks: set<Id>, loops: seq<Loop>, cancelRequests: seq<Id>)

  // ---- Leaving a loop ----

  function Flatten(lists: seq<seq<Id>>): seq<Id> {
    if lists == [] then [] else lists[0] + Flatten(lists[1..])
  }

  function LoopTasks(loop: Loop): seq<Id> {
    Flatten(loop.iterations)
  }

  /** The first iteration that contains the task. */
  function IterationOf(iterations: seq<seq<Id>>, id: Id): (r: Option<nat>)
    ensures r.Some? ==> r.value < |iterations| && id in iterations[r.value]
    ensures r.Some? ==> forall i | 0 <= i < r.value :: id !in iterations[i]
    ensures r.None? ==> forall i | 0 <= i < |iterations| :: id !in iterations[i]
  {
    if iterations == [] then None
    else if id in iterations[0] then Some(0)
    else match IterationOf(iterations[1..], id)
      case None => None
      case Some(i) => assert iterations[1..][i] == iterations[i + 1]; Some(i + 1)
  }

  /** The completed task was the last of its iteration and the loop's condition holds. */
  predicate Fires(loop: Loop, id: Id, completedTasks: set<Id>, pad: map<string, string>) {
    loop.until.Some?
    && match IterationOf(loop.iterations, id)
       case None => false
       case Some(k) => (forall t | t in loop.iterations[k] :: t in completedTasks) && loop.until.value.IsMet(pad)
  }

  /** The tasks of the iterations after the one that contains the task. */
  function Remaining(loop: Loop, id: Id): seq<Id> {
    match IterationOf(loop.iterations, id)
    case None => []
    case Some(k) => Flatten(loop.iterations[k + 1..])
  }

  function FirstHolding(phases: seq<Phase>, id: Id): (r: Option<nat>)
    ensures r.Some? ==> r.value < |phases| && id in phases[r.value].taskIds
    ensures r.None? ==> forall i | 0 <= i < |phases| :: id !in phases[i].taskIds
  {
    if phases == [] then None
    else if id in phases[0].taskIds then Some(0)
    else match FirstHolding(phases[1..], id)
      case None => None
      case Some(i) => assert phases[1..][i] == phases[i + 1]; Some(i + 1)
  }

  predicate Terminal(s: Status) {
    s.Complete? || s.Failed? || s.Skipped?
  }

  /** A cancelled task counts as completed; its phase becomes skipped unless it has already ended. */
  function SkipTask(run: WorkflowRun, id: Id): WorkflowRun {
    var counted := run.(completed := run.completed + {id}, failed := run.failed - {id});
    match FirstHolding(run.phases, id)
    case None => counted
    case Some(i) =>
      if Terminal(run.phases[i].status) then counted
      else counted.(phases := run.phases[i := run.phases[i].(status := Skipped)])
  }

  function SkipTasks(run: WorkflowRun, ids: seq<Id>): WorkflowRun
    decreases ids
  {
    if ids == [] then run else SkipTasks(SkipTask(run, ids[0]), ids[1..])
  }

  function ExitLoop(run: WorkflowRun, ids: seq<Id>): WorkflowRun {
    UpdateStatus(SkipTasks(run, ids))
  }

  function Unregister(loops: seq<Loop>, run: RunId, name: string): (r: seq<Loop>)
    ensures forall l :: l in r <==> l in loops && !(l.run == run && l.name == name)
    ensures Keyed(loops) ==> Keyed(r)
  {
    if loops == [] then []
    else (if loops[0].run == run && loops[0].name == name then [] else [loops[0]]) + Unregister(loops[1..], run, name)
  }

  predicate SameKey(a: Loop, b: Loop) {
    a.run == b.run && a.name == b.name
  }

  ghost predicate Keyed(loops: seq<Loop>) {
    forall i, j | 0 <= i < j < |loops| :: !SameKey(loops[i], loops[j])
  }

  /** A registration overwrites one for the same workflow and name, in its place. */
  function Register(loops: seq<Loop>, loop: Loop): (r: seq<Loop>)
    ensures Keyed(loops) ==> Keyed(r) && forall l :: l in r <==> l == loop || (l in loops && !SameKey(l, loop))
  {
    if loops == [] then [loop]
    else if SameKey(loops[0], loop) then
      assert Keyed(loops) ==> forall l | l in loops[1..] :: !SameKey(l, loop) by {
        assert forall l | l in loops[1..] :: exists j :: 0 < j < |loops| && loops[j] == l;
      }
      [loop] + loops[1..]
    else
      var rest := Register(loops[1..], loop);
      assert Keyed(loops) ==> Keyed(loops[1..]);
      assert Keyed(loops) ==> forall l | l in rest :: !SameKey(loops[0], l) by {
        assert forall l | l in loops[1..] :: exists j :: 0 < j < |loops| && loops[j] == l;
      }
      [loops[0]] + rest
  }

  function SetFrom(ids: seq<Id>): set<Id> {
    set t | t in ids
  }

  function Fire(t: Tracker, loop: Loop, id: Id): Tracker {
    var ids := Remaining(loop, id);
    if loop.run in t.runs then
      Tracker(t.runs[loop.run := ExitLoop(t.runs[loop.run], ids)], t.completedTasks + SetFrom(ids),
              Unregister(t.loops, loop.run, loop.name), t.cancelRequests + ids)
    else t.(loops := Unregister(t.loops, loop.run, loop.name), cancelRequests := t.cancelRequests + ids)
  }

  /** Checks the given loops in registration order. */
  function CheckLoops(t: Tracker, loops: seq<Loop>, id: Id, pad: map<string, string>): Tracker
    decreases loops
  {
    if loops == [] then t
    else
      CheckLoops(if Fires(loops[0], id, t.completedTasks, pad) then Fire(t, loops[0], id) else t, loops[1..], id, pad)
  }

  /** The task counts as completed, in its run and for the loops. */
  function Counted(t: Tracker, run: RunId, id: Id): Tracker
    requires run in t.runs
  {
    t.(runs := t.runs[run := Apply(t.runs[run], TaskComplete(id))], completedTasks := t.completedTasks + {id})
  }

  function CompleteTask(t: Tracker, run: RunId, id: Id, pad: map<string, string>): Tracker
    requires run in t.runs
  {
    if t.runs[run].status.Cancelled? then t else CheckLoops(Counted(t, run, id), t.loops, id, pad)
  }

  // ---- What an early exit does ----

  lemma SkipTaskSets(run: WorkflowRun, id: Id)
    ensures var r := SkipTask(run, id);
            && r == run.(phases := r.phases, completed := run.completed + {id}, failed := run.failed - {id})
            && |r.phases| == |run.phases|
  {
  }

  lemma {:induction false} SkipTasksSets(run: WorkflowRun, ids: seq<Id>)
    ensures var r := SkipTasks(run, ids);
            && r == run.(phases := r.phases, completed := run.completed + SetFrom(ids), failed := run.failed - SetFrom(ids))
            && |r.phases| == |run.phases|
    decreases ids
  {
    if ids == [] {
      assert SetFrom(ids) == {};
    } else {
      SkipTaskSets(run, ids[0]);
      SkipTasksSets(SkipTask(run, ids[0]), ids[1..]);
      assert SetFrom(ids) == {ids[0]} + SetFrom(ids[1..]);
      assert (run.completed + {ids[0]}) + SetFrom(ids[1..]) == run.completed + SetFrom(ids);
      assert (run.failed - {ids[0]}) - SetFrom(ids[1..]) == run.failed - SetFrom(ids);
    }
  }

  lemma {:induction false} SkipTasksConcat(run: WorkflowRun, a: seq<Id>, b: seq<Id>)
    ensures SkipTasks(run, a + b) == SkipTasks(SkipTasks(run, a), b)
    decreases a
  {
    if a == [] {
      assert a + b == b;
    } else {
      assert (a + b)[0] == a[0] && (a + b)[1..] == a[1..] + b;
      SkipTasksConcat(SkipTask(run, a[0]), a[1..], b);
    }
  }

  lemma FlattenNext(lists: seq<seq<Id>>, i: nat)
    requires i < |lists|
    ensures Flatten(lists[..i + 1]) == Flatten(lists[..i]) + lists[i]
  {
    FlattenSplit(lists[..i + 1], i);
    assert lists[..i + 1][..i] == lists[..i] && lists[..i + 1][i + 1..] == [];
  }

  /** The phase after skipping: skipped if it holds one of the tasks and had not ended, else as before. */
  ghost predicate SkippedIf(before: Phase, after: Phase, ids: seq<Id>) {
    after == if (exists t :: t in ids && t in before.taskIds) && !Terminal(before.status)
             then before.(status := Skipped) else before
  }

  lemma SkipTaskPhase(run: WorkflowRun, id: Id, i: nat)
    requires OnePhaseEach(run) && i < |run.phases|
    ensures var r := SkipTask(run, id);
            OnePhaseEach(r) && |r.phases| == |run.phases| &&
            r.phases[i] == if id in run.phases[i].taskIds && !Terminal(run.phases[i].status)
                           then run.phases[i].(status := Skipped) else run.phases[i]
  {
  }

  lemma {:induction false} SkipTasksPhase(run: WorkflowRun, ids: seq<Id>, i: nat)
    requires OnePhaseEach(run) && i < |run.phases|
    ensures var r := SkipTasks(run, ids); |r.phases| == |run.phases| && SkippedIf(run.phases[i], r.phases[i], ids)
    decreases ids
  {
    if ids != [] {
      SkipTaskPhase(run, ids[0], i);
      SkipTasksPhase(SkipTask(run, ids[0]), ids[1..], i);
      assert forall t :: t in ids <==> t == ids[0] || t in ids[1..];
    }
  }

  /**
    * Leaving a loop early: exactly the given tasks count as completed and no longer as failed, no
    * other task is touched, exactly their unfinished phases become skipped, and the run is complete
    * if and only if every other task is completed and none has failed.
    */
  lemma ExitLoopExact(run: WorkflowRun, ids: seq<Id>)
    requires OnePhaseEach(run)
    ensures var r := ExitLoop(run, ids);
            && (forall t :: t in r.completed <==> t in run.completed || t in ids)
            && (forall t :: t in r.failed <==> t in run.failed && t !in ids)
            && |r.phases| == |run.phases|
            && (forall i | 0 <= i < |run.phases| :: SkippedIf(run.phases[i], r.phases[i], ids))
            && (r.status.Complete? <==>
                  (forall t | t in run.taskIds && t !in ids :: t in run.completed)
                  && (forall t | t in run.failed :: t in ids))
            && (r.status.Failed? <==> exists t :: t in run.failed && t !in ids)
  {
    SkipTasksSets(run, ids);
    var m := SkipTasks(run, ids);
    forall i | 0 <= i < |run.phases|
      ensures SkippedIf(run.phases[i], m.phases[i], ids)
    {
      SkipTasksPhase(run, ids, i);
    }
    if run.failed - SetFrom(ids) != {} {
      var t :| t in run.failed - SetFrom(ids);
      assert t in run.failed && t !in ids;
    }
  }

  /** When the loop fires, later iterations are exactly those that must not run any more. */
  lemma RemainingAreLater(loop: Loop, id: Id, t: Id)
    requires IterationOf(loop.iterations, id).Some?
    ensures var k := IterationOf(loop.iterations, id).value;
            t in Remaining(loop, id) <==> exists i :: k < i < |loop.iterations| && t in loop.iterations[i]
  {
    var k := IterationOf(loop.iterations, id).value;
    var later := loop.iterations[k + 1..];
    FlattenMembers(later, t);
    if i :| 0 <= i < |later| && t in later[i] {
      assert loop.iterations[k + 1 + i] == later[i];
    }
    if i :| k < i < |loop.iterations| && t in loop.iterations[i] {
      assert later[i - k - 1] == loop.iterations[i];
    }
  }

  lemma {:induction false} FlattenMembers(lists: seq<seq<Id>>, t: Id)
    ensures t in Flatten(lists) <==> exists i :: 0 <= i < |lists| && t in lists[i]
    decreases lists
  {
    if lists != [] {
      FlattenMembers(lists[1..], t);
      if i :| 0 <= i < |lists| && t in lists[i] {
        assert i > 0 ==> lists[1..][i - 1] == lists[i];
      }
      if i :| 0 <= i < |lists[1..]| && t in lists[1..][i] {
        assert lists[i + 1] == lists[1..][i];
      }
    }
  }

  /**
    * If no task is listed twice in the loop, each task of a later iteration is cancelled once, and no
    * task of this or an earlier iteration is.
    */
  lemma CancelledOnce(loop: Loop, id: Id)
    requires IterationOf(loop.iterations, id).Some? && NoDuplicates(LoopTasks(loop))
    ensures NoDuplicates(Remaining(loop, id))
    ensures forall i, t | 0 <= i <= IterationOf(loop.iterations, id).value && t in loop.iterations[i] :: t !in Remaining(loop, id)
  {
    var k := IterationOf(loop.iterations, id).value;
    FlattenSplit(loop.iterations, k);
    var before, here, later := Flatten(loop.iterations[..k]), loop.iterations[k], Flatten(loop.iterations[k + 1..]);
    var all := (before + here) + later;
    assert all == LoopTasks(loop);
    forall i, j | 0 <= i < j < |later|
      ensures later[i] != later[j]
    {
      assert all[|before + here| + i] != all[|before + here| + j];
    }
    forall i, t | 0 <= i <= k && t in loop.iterations[i]
      ensures t !in later
    {
      FlattenMembers(loop.iterations[..k], t);
      if i < k {
        assert loop.iterations[..k][i] == loop.iterations[i];
        assert t in before;
      }
      assert t in before + here;
      var m :| 0 <= m < |before + here| && (before + here)[m] == t;
      forall j | 0 <= j < |later|
        ensures later[j] != t
      {
        assert all[m] != all[|before + here| + j];
      }
    }
  }

  lemma {:induction false} FlattenSplit(lists: seq<seq<Id>>, k: nat)
    requires k < |lists|
    ensures Flatten(lists) == Flatten(lists[..k]) + lists[k] + Flatten(lists[k + 1..])
    decreases k
  {
    if k == 0 {
      assert lists[..0] == [];
    } else {
      FlattenSplit(lists[1..], k - 1);
      assert lists[1..][..k - 1] == lists[1..k] && lists[1..][k - 1] == lists[k] && lists[1..][k..] == lists[k + 1..];
      assert lists[..k][0] == lists[0] && lists[..k][1..] == lists[1..k];
    }
  }

  /**
    * Leaving one of any number of loops: only its own run changes, and as an early exit must change
    * it; the other loops stay registered, this one does not.
    */
  lemma FireExact(t: Tracker, loop: Loop, id: Id)
    requires loop.run in t.runs && OnePhaseEach(t.runs[loop.run])
    ensures loop.run in Fire(t, loop, id).runs
    ensures var r := Fire(t, loop, id);
            var before, run, later := t.runs[loop.run], r.runs[loop.run], Remaining(loop, id);
            && r.runs.Keys == t.runs.Keys && (forall k | k in t.runs && k != loop.run :: r.runs[k] == t.runs[k])
            && r.cancelRequests == t.cancelRequests + later
            && (forall x :: x in r.completedTasks <==> x in t.completedTasks || x in later)
            && (forall l :: l in r.loops <==> l in t.loops && !(l.run == loop.run && l.name == loop.name))
            && (forall x :: x in run.completed <==> x in before.completed || x in later)
            && (forall x :: x in run.failed <==> x in before.failed && x !in later)
            && |run.phases| == |before.phases|
            && (forall i | 0 <= i < |before.phases| :: SkippedIf(before.phases[i], run.phases[i], later))
            && (run.status.Complete? <==>
                  (forall x | x in before.taskIds && x !in later :: x in before.completed)
                  && (forall x | x in before.failed :: x in later))
  {
    ExitLoopExact(t.runs[loop.run], Remaining(loop, id));
  }

  /** If the loop's run is not known, its tasks are cancelled and it is forgotten, and nothing else happens. */
  lemma FireWithoutRun(t: Tracker, loop: Loop, id: Id)
    requires loop.run !in t.runs
    ensures var r := Fire(t, loop, id);
            && r == t.(loops := r.loops, cancelRequests := t.cancelRequests + Remaining(loop, id))
            && (forall l :: l in r.loops <==> l in t.loops && !(l.run == loop.run && l.name == loop.name))
  {
  }

  // ---- Which loop a completion can end ----

  /** No other of the loops holds the task. */
  ghost predicate OnlyHolder(loops: seq<Loop>, loop: Loop, id: Id) {
    forall l | l in loops && l != loop :: id !in LoopTasks(l)
  }

  lemma FiresOnItsOwn(loop: Loop, id: Id, completedTasks: set<Id>, pad: map<string, string>)
    ensures IterationOf(loop.iterations, id).Some? <==> id in LoopTasks(loop)
    ensures Fires(loop, id, completedTasks, pad) ==> id in LoopTasks(loop)
  {
    FlattenMembers(loop.iterations, id);
  }

  /**
    * When a loop is left: it has a condition, every task of the first iteration that holds the task has
    * completed, and the key is on the scratchpad with the right value, or, if the test is negated, is not.
    */
  lemma FiresExactly(loop: Loop, id: Id, done: set<Id>, pad: map<string, string>)
    ensures Fires(loop, id, done, pad) <==>
              && loop.until.Some?
              && (var c := loop.until.value; (c.key in pad && (c.value == "" || pad[c.key] == c.value)) <==> !c.negate)
              && exists k: nat :: k < |loop.iterations| && id in loop.iterations[k]
                   && (forall j | 0 <= j < k :: id !in loop.iterations[j])
                   && forall x | x in loop.iterations[k] :: x in done
  {
    var first := IterationOf(loop.iterations, id);
    if k: nat :| k < |loop.iterations| && id in loop.iterations[k] && forall j | 0 <= j < k :: id !in loop.iterations[j] {
      assert first == Some(k);
    }
  }

  lemma {:induction false} NoLoopFires(t: Tracker, loops: seq<Loop>, id: Id, pad: map<string, string>)
    requires forall l | l in loops :: id !in LoopTasks(l)
    ensures CheckLoops(t, loops, id, pad) == t
    decreases loops
  {
    if loops != [] {
      FiresOnItsOwn(loops[0], id, t.completedTasks, pad);
      NoLoopFires(t, loops[1..], id, pad);
    }
  }

  /** Checking all loops is checking the one that holds the task. */
  lemma {:induction false} OneLoopFires(t: Tracker, loops: seq<Loop>, loop: Loop, id: Id, pad: map<string, string>)
    requires Keyed(loops) && loop in loops && OnlyHolder(loops, loop, id)
    ensures CheckLoops(t, loops, id, pad) == if Fires(loop, id, t.completedTasks, pad) then Fire(t, loop, id) else t
    decreases loops
  {
    var j :| 0 <= j < |loops| && loops[j] == loop;
    if j == 0 {
      forall l | l in loops[1..]
        ensures id !in LoopTasks(l)
      {
        var k :| 0 <= k < |loops[1..]| && loops[1..][k] == l;
        assert !SameKey(loops[0], loops[k + 1]) && loops[k + 1] == l;
      }
      NoLoopFires(if Fires(loop, id, t.completedTasks, pad) then Fire(t, loop, id) else t, loops[1..], id, pad);
    } else {
      assert !SameKey(loops[0], loops[j]);
      FiresOnItsOwn(loops[0], id, t.completedTasks, pad);
      assert loops[1..][j - 1] == loop;
      OneLoopFires(t, loops[1..], loop, id, pad);
    }
  }

  /**
    * The loop has been left: exactly the tasks of later iterations are cancelled, they alone join the
    * completed tasks, their unfinished phases become skipped, exactly this loop is forgotten, and its run
    * is complete exactly if everything else is completed without failure. No other run is touched.
    */
  ghost predicate LoopLeft(c: Tracker, r: Tracker, loop: Loop, later: seq<Id>)
    requires loop.run in c.runs
  {
    && loop.run in r.runs
    && var before, after := c.runs[loop.run], r.runs[loop.run];
       && r.runs.Keys == c.runs.Keys && (forall k | k in c.runs && k != loop.run :: r.runs[k] == c.runs[k])
       && r.cancelRequests == c.cancelRequests + later
       && (forall x :: x in r.completedTasks <==> x in c.completedTasks || x in later)
       && (forall l :: l in r.loops <==> l in c.loops && l != loop)
       && (forall x :: x in after.completed <==> x in before.completed || x in later)
       && (forall x :: x in after.failed <==> x in before.failed && x !in later)
       && |after.phases| == |before.phases|
       && (forall i | 0 <= i < |before.phases| :: SkippedIf(before.phases[i], after.phases[i], later))
       && (after.status.Complete? <==>
             (forall x | x in before.taskIds && x !in later :: x in before.completed)
             && (forall x | x in before.failed :: x in later))
  }

  lemma LeavesWhenFiring(c: Tracker, loop: Loop, id: Id, pad: map<string, string>)
    requires Keyed(c.loops) && loop in c.loops && OnlyHolder(c.loops, loop, id)
    requires loop.run in c.runs && OnePhaseEach(c.runs[loop.run])
    ensures var r := CheckLoops(c, c.loops, id, pad);
            if Fires(loop, id, c.completedTasks, pad) then LoopLeft(c, r, loop, Remaining(loop, id)) else r == c
  {
    OneLoopFires(c, c.loops, loop, id, pad);
    FireExact(c, loop, id);
    OnlyThisKey(c.loops, loop);
  }

  lemma CountedRun(t: Tracker, run: RunId, id: Id, other: RunId)
    requires run in t.runs && other in t.runs && OnePhaseEach(t.runs[other]) && !t.runs[run].status.Cancelled?
    ensures OnePhaseEach(Counted(t, run, id).runs[other])
  {
    if other == run {
      ApplyMoves(t.runs[run], TaskComplete(id));
      SamePhases(t.runs[run], TaskComplete(id));
    }
  }

  /**
    * Completing a task of a loop, among any number of registered loops over any runs of which no other
    * holds the task. If the loop has a condition, all other tasks of the iteration have completed and the
    * condition holds on the scratchpad, the loop is left. Otherwise only the completion is counted.
    */
  lemma EarlyExit(t: Tracker, run: RunId, loop: Loop, id: Id, pad: map<string, string>)
    requires run in t.runs && !t.runs[run].status.Cancelled?
    requires Keyed(t.loops) && loop in t.loops && OnlyHolder(t.loops, loop, id)
    requires loop.run in t.runs && OnePhaseEach(t.runs[loop.run])
    ensures loop.run in Counted(t, run, id).runs
    ensures var c, r := Counted(t, run, id), CompleteTask(t, run, id, pad);
            if && loop.until.Some?
               && (var u := loop.until.value; (u.key in pad && (u.value == "" || pad[u.key] == u.value)) <==> !u.negate)
               && exists k: nat :: k < |loop.iterations| && id in loop.iterations[k]
                    && (forall j | 0 <= j < k :: id !in loop.iterations[j])
                    && forall x | x in loop.iterations[k] :: x == id || x in t.completedTasks
            then LoopLeft(c, r, loop, Remaining(loop, id))
            else r == c
  {
    var c := Counted(t, run, id);
    CountedRun(t, run, id, loop.run);
    LeavesWhenFiring(c, loop, id, pad);
    FiresWithLast(loop, id, t.completedTasks, pad);
  }

  lemma FiresWithLast(loop: Loop, id: Id, done: set<Id>, pad: map<string, string>)
    ensures Fires(loop, id, done + {id}, pad) <==>
              && loop.until.Some?
              && (var u := loop.until.value; (u.key in pad && (u.value == "" || pad[u.key] == u.value)) <==> !u.negate)
              && exists k: nat :: k < |loop.iterations| && id in loop.iterations[k]
                   && (forall j | 0 <= j < k :: id !in loop.iterations[j])
                   && forall x | x in loop.iterations[k] :: x == id || x in done
  {
    FiresExactly(loop, id, done + {id}, pad);
    forall k: nat | k < |loop.iterations|
      ensures (forall x | x in loop.iterations[k] :: x in done + {id})
         <==> forall x | x in loop.iterations[k] :: x == id || x in done
    {
    }
  }

  lemma OnlyThisKey(loops: seq<Loop>, loop: Loop)
    requires Keyed(loops) && loop in loops
    ensures forall l | l in loops :: SameKey(l, loop) <==> l == loop
  {
    var j :| 0 <= j < |loops| && loops[j] == loop;
    forall l | l in loops
      ensures SameKey(l, loop) <==> l == loop
    {
      var i :| 0 <= i < |loops| && loops[i] == l;
      assert i < j ==> !SameKey(loops[i], loops[j]);
      assert j < i ==> !SameKey(loops[j], loops[i]);
    }
  }

  // ---- The manager ----

  /** Requests the cancellation of the tasks and counts them as done in the run, if there is such a run. */
  function SkipIn(t: Tracker, run: RunId, ids: seq<Id>): Tracker {
    var asked := t.(cancelRequests := t.cancelRequests + ids);
    if run in t.runs
    then asked.(runs := t.runs[run := SkipTasks(t.runs[run], ids)], completedTasks := t.completedTasks + SetFrom(ids))
    else asked
  }

  lemma SkipInOne(t: Tracker, run: RunId, id: Id)
    ensures SkipIn(t, run, [id]) ==
            (var asked := t.(cancelRequests := t.cancelRequests + [id]);
             if run in t.runs
             then asked.(runs := t.runs[run := SkipTask(t.runs[run], id)], completedTasks := t.completedTasks + {id})
             else asked)
  {
    assert [id][1..] == [];
    assert SetFrom([id]) == {id};
    if run in t.runs {
      assert SkipTasks(t.runs[run], [id]) == SkipTasks(SkipTask(t.runs[run], id), []);
    }
  }

  ghost predicate SkippedSoFar(before: Tracker, now: Tracker, run: RunId, ids: seq<Id>) {
    now == SkipIn(before, run, ids)
  }

  lemma SkippedMore(before: Tracker, now: Tracker, run: RunId, ids: seq<Id>, more: seq<Id>)
    requires SkippedSoFar(before, now, run, ids)
    ensures SkipIn(now, run, more) == SkipIn(before, run, ids + more)
  {
    assert SetFrom(ids + more) == SetFrom(ids) + SetFrom(more);
    if run in before.runs {
      SkipTasksConcat(before.runs[run], ids, more);
    }
  }

  /** Leaving a loop is skipping the later tasks, a new status for the run, and forgetting the loop. */
  lemma FireBySkipping(t: Tracker, loop: Loop, id: Id, k: nat)
    requires IterationOf(loop.iterations, id) == Some(k)
    ensures var m := SkipIn(t, loop.run, Flatten(loop.iterations[k + 1..]));
            Fire(t, loop, id)
            == (if loop.run in m.runs then m.(runs := m.runs[loop.run := UpdateStatus(m.runs[loop.run])]) else m).(
                 loops := Unregister(t.loops, loop.run, loop.name))
  {
    if loop.run in t.runs {
      var skipped := SkipTasks(t.runs[loop.run], Flatten(loop.iterations[k + 1..]));
      Overwrite(t.runs, loop.run, skipped, UpdateStatus(skipped));
    }
  }

  lemma Overwrite<K, V>(m: map<K, V>, k: K, a: V, b: V)
    ensures m[k := a][k := b] == m[k := b]
  {
  }

  class WorkflowManager {
    var runs: map<RunId, WorkflowRun>
    var taskToWorkflow: map<Id, RunId>
    var loops: seq<Loop>
    var completedTasks: set<Id>
    var cancelRequests: seq<Id>

    ghost function Snapshot(): Tracker
      reads this
    {
      Tracker(runs, completedTasks, loops, cancelRequests)
    }

    ghost predicate Owned(id: Id)
      reads this
    {
      id in taskToWorkflow && taskToWorkflow[id] in runs
    }

    constructor ()
      ensures Snapshot() == Tracker(map[], {}, [], []) && taskToWorkflow == map[]
    {
      runs, taskToWorkflow, loops, completedTasks, cancelRequests := map[], map[], [], {}, [];
    }

    method Submit(run: RunId, taskIds: seq<Id>)
      modifies `runs, `taskToWorkflow
      ensures runs == old(runs)[run := NewRun(taskIds)]
      ensures forall t :: t in taskToWorkflow <==> t in old(taskToWorkflow) || t in taskIds
      ensures forall t | t in taskToWorkflow :: taskToWorkflow[t] == if t in taskIds then run else old(taskToWorkflow)[t]
    {
      runs := runs[run := NewRun(taskIds)];
      for i := 0 to |taskIds|
        invariant runs == old(runs)[run := NewRun(taskIds)]
        invariant forall t :: t in taskToWorkflow <==> t in old(taskToWorkflow) || t in taskIds[..i]
        invariant forall t | t in taskToWorkflow ::
                    taskToWorkflow[t] == if t in taskIds[..i] then run else old(taskToWorkflow)[t]
      {
        assert taskIds[..i + 1] == taskIds[..i] + [taskIds[i]];
        taskToWorkflow := taskToWorkflow[taskIds[i] := run];
      }
      assert taskIds[..|taskIds|] == taskIds;
    }

    /** Attaches the phases to the run and records which phase each of their tasks belongs to. */
    method AttachPhases(id: RunId, phases: seq<Phase>)
      modifies `runs
      ensures runs == if id in old(runs)
                      then old(runs)[id := WorkflowRuns.RegisterPhases(old(runs)[id].(phases := phases), phases)]
                      else old(runs)
    {
      if id !in runs {
        return;
      }
      var run := runs[id].(phases := phases);
      ghost var start := run;
      for i := 0 to |phases|
        invariant WorkflowRuns.RegisterPhases(run, phases[i..]) == WorkflowRuns.RegisterPhases(start, phases)
      {
        assert phases[i..][0] == phases[i] && phases[i..][1..] == phases[i + 1..];
        var p := phases[i];
        if p.status.Skipped? || p.taskIds == [] {
          continue;
        }
        run := run.(phaseOf := Assign(run.phaseOf, p.taskIds, p.name),
                    phaseCompleted := run.phaseCompleted[p.name := SetOf(run.phaseCompleted, p.name)],
                    phaseFailed := run.phaseFailed[p.name := SetOf(run.phaseFailed, p.name)]);
      }
      runs := runs[id := run];
    }

    method RegisterLoop(loop: Loop)
      modifies `loops
      ensures loops == Register(old(loops), loop)
      ensures Keyed(old(loops)) ==>
                Keyed(loops) && forall l :: l in loops <==> l == loop || (l in old(loops) && !SameKey(l, loop))
    {
      loops := Register(loops, loop);
    }

    method GetPhase(phases: seq<Phase>, name: string) returns (r: Option<nat>)
      ensures r == FindPhase(phases, name)
    {
      for i := 0 to |phases|
        invariant FindPhase(phases, name)
               == match FindPhase(phases[i..], name) case None => None case Some(k) => Some(k + i)
      {
        assert phases[i..][0] == phases[i] && phases[i..][1..] == phases[i + 1..];
        if phases[i].name == name {
          return Some(i);
        }
      }
      r := None;
    }

    method TrackPhase(run: WorkflowRun, id: Id, ok: bool) returns (r: WorkflowRun)
      ensures r == UpdatePhaseStatus(run, id, ok)
    {
      if id !in run.phaseOf {
        return run;
      }
      var name := run.phaseOf[id];
      var found := GetPhase(run.phases, name);
      if found.None? {
        return run;
      }
      var completed, failed := SetOf(run.phaseCompleted, name), SetOf(run.phaseFailed, name);
      if ok {
        completed, failed := completed + {id}, failed - {id};
      } else {
        completed, failed := completed - {id}, failed + {id};
      }
      var phase := run.phases[found.value];
      if phase.status.Pending? {
        phase := phase.(status := Running);
      }
      if forall t | t in phase.taskIds :: t in completed || t in failed {
        phase := phase.(status := if failed != {} then Failed else Complete);
      }
      r := run.(phases := run.phases[found.value := phase],
                phaseCompleted := run.phaseCompleted[name := completed],
                phaseFailed := run.phaseFailed[name := failed]);
    }

    method OnTaskFailed(id: Id)
      modifies `runs
      ensures runs == if old(Owned(id))
                      then old(runs)[taskToWorkflow[id] := Apply(old(runs)[taskToWorkflow[id]], TaskFailed(id))]
                      else old(runs)
    {
      if id !in taskToWorkflow || taskToWorkflow[id] !in runs {
        return;
      }
      var run := runs[taskToWorkflow[id]];
      if run.status.Cancelled? {
        return;
      }
      run := run.(completed := run.completed - {id}, failed := run.failed + {id});
      run := TrackPhase(run, id, false);
      runs := runs[taskToWorkflow[id] := UpdateStatus(run)];
    }

    method OnTaskRetrying(id: Id)
      modifies `runs
      ensures runs == if old(Owned(id))
                      then old(runs)[taskToWorkflow[id] := Apply(old(runs)[taskToWorkflow[id]], TaskRetrying(id))]
                      else old(runs)
    {
      if id !in taskToWorkflow || taskToWorkflow[id] !in runs {
        return;
      }
      var run := runs[taskToWorkflow[id]];
      run := run.(completed := run.completed - {id}, failed := run.failed - {id});
      if id in run.phaseOf {
        var name := run.phaseOf[id];
        run := run.(phaseFailed := Drop(run.phaseFailed, name, id), phaseCompleted := Drop(run.phaseCompleted, name, id));
        var found := GetPhase(run.phases, name);
        if found.Some? && run.phases[found.value].status.Failed? {
          run := run.(phases := run.phases[found.value := run.phases[found.value].(status := Running)]);
        }
      }
      runs := runs[taskToWorkflow[id] := UpdateStatus(run)];
    }

    method CancelWorkflow(id: RunId) returns (taskIds: seq<Id>)
      modifies `runs
      ensures runs == if id in old(runs) then old(runs)[id := Apply(old(runs)[id], Cancel)] else old(runs)
      ensures id in old(runs) ==> runs[id] == old(runs)[id].(status := Cancelled, finished := true)
      ensures taskIds == if id in old(runs) then old(runs)[id].taskIds else []
    {
      if id !in runs {
        return [];
      }
      runs := runs[id := runs[id].(status := Cancelled, finished := true)];
      taskIds := runs[id].taskIds;
    }

    method OnTaskComplete(id: Id, pad: map<string, string>)
      modifies `runs, `loops, `completedTasks, `cancelRequests
      ensures Snapshot() == if old(Owned(id)) then CompleteTask(old(Snapshot()), taskToWorkflow[id], id, pad)
                            else old(Snapshot())
      ensures old(Owned(id) && runs[taskToWorkflow[id]].status.Cancelled?) ==> Snapshot() == old(Snapshot())
    {
      if id !in taskToWorkflow || taskToWorkflow[id] !in runs {
        return;
      }
      var run := runs[taskToWorkflow[id]];
      if run.status.Cancelled? {
        return;
      }
      run := run.(completed := run.completed + {id}, failed := run.failed - {id});
      completedTasks := completedTasks + {id};
      run := TrackPhase(run, id, true);
      runs := runs[taskToWorkflow[id] := UpdateStatus(run)];
      CheckLoopUntil(id, pad);
    }

    method CheckLoopUntil(id: Id, pad: map<string, string>)
      modifies `runs, `loops, `completedTasks, `cancelRequests
      ensures Snapshot() == CheckLoops(old(Snapshot()), old(loops), id, pad)
    {
      var keys := loops;
      for i := 0 to |keys|
        invariant CheckLoops(Snapshot(), keys[i..], id, pad) == CheckLoops(old(Snapshot()), keys, id, pad)
      {
        assert keys[i..][0] == keys[i] && keys[i..][1..] == keys[i + 1..];
        var loop := keys[i];
        if loop.until.None? {
          continue;
        }
        var k := FindIteration(loop.iterations, id);
        if k.Some? && (forall t | t in loop.iterations[k.value] :: t in completedTasks) && loop.until.value.IsMet(pad) {
          LeaveLoop(loop, id, k.value);
        }
      }
    }

    method FindIteration(iterations: seq<seq<Id>>, id: Id) returns (k: Option<nat>)
      ensures k == IterationOf(iterations, id)
    {
      for i := 0 to |iterations|
        invariant forall j | 0 <= j < i :: id !in iterations[j]
      {
        if id in iterations[i] {
          return Some(i);
        }
      }
      k := None;
    }

    method LeaveLoop(loop: Loop, id: Id, k: nat)
      requires IterationOf(loop.iterations, id) == Some(k)
      modifies `runs, `loops, `completedTasks, `cancelRequests
      ensures Snapshot() == Fire(old(Snapshot()), loop, id)
    {
      var later := loop.iterations[k + 1..];
      for i := 0 to |later|
        invariant loops == old(loops)
        invariant SkippedSoFar(old(Snapshot()), Snapshot(), loop.run, Flatten(later[..i]))
      {
        SkippedMore(old(Snapshot()), Snapshot(), loop.run, Flatten(later[..i]), later[i]);
        FlattenNext(later, i);
        CancelIteration(loop.run, later[i]);
      }
      assert later[..|later|] == later;
      FireBySkipping(old(Snapshot()), loop, id, k);
      if loop.run in runs {
        runs := runs[loop.run := UpdateStatus(runs[loop.run])];
      }
      loops := Unregister(loops, loop.run, loop.name);
    }

    method CancelIteration(id: RunId, ids: seq<Id>)
      modifies `runs, `completedTasks, `cancelRequests
      ensures Snapshot() == SkipIn(old(Snapshot()), id, ids)
    {
      for i := 0 to |ids|
        invariant loops == old(loops)
        invariant SkippedSoFar(old(Snapshot()), Snapshot(), id, ids[..i])
      {
        assert ids[..i + 1] == ids[..i] + [ids[i]];
        SkippedMore(old(Snapshot()), Snapshot(), id, ids[..i], [ids[i]]);
        ghost var before := Snapshot();
        SkipInOne(before, id, ids[i]);
        cancelRequests := cancelRequests + [ids[i]];
        if id in runs {
          completedTasks := completedTasks + {ids[i]};
          var run := MarkTaskSkipped(runs[id], ids[i]);
          runs := runs[id := run];
        }
        assert Snapshot() == SkipIn(before, id, [ids[i]]);
      }
      assert ids[..|ids|] == ids;
    }

    method MarkTaskSkipped(run: WorkflowRun, id: Id) returns (r: WorkflowRun)
      ensures r == SkipTask(run, id)
    {
      r := run.(completed := run.completed + {id}, failed := run.failed - {id});
      for i := 0 to |run.phases|
        invariant FirstHolding(run.phases, id)
               == match FirstHolding(run.phases[i..], id) case None => None case Some(k) => Some(k + i)
      {
        assert run.phases[i..][0] == run.phases[i] && run.phases[i..][1..] == run.phases[i + 1..];
        if id in run.phases[i].taskIds {
          if !Terminal(run.phases[i].status) {
            r := r.(phases := run.phases[i := run.phases[i].(status := Skipped)]);
          }
          return;
        }
      }
    }
  }
}
