// Whole histories of the workflow manager, with submissions, loop registrations and early exits:
// each loop ends at most once, each task is cancelled at most once, cleanup is triggered at most once.

module LoopHistories {
  import opened PhaseSpecs
  import opened Tasks
  import opened Wrappers
  import opened WorkflowRuns
  import opened WorkflowPhases
  import opened WorkflowManager

  datatype TrackerEvent =
    | Submitting(run: RunId, taskIds: seq<Id>, phases: seq<Phase>)
    | Registering(loop: Loop)
    | Completing(run: RunId, id: Id, pad: map<string, string>)
    | Telling(run: RunId, event: Event)

  const EMPTY := Tracker(map[], {}, [], [])

  function Track(t: Tracker, e: TrackerEvent): Tracker {
    match e
    case Submitting(run, taskIds, phases) => t.(runs := t.runs[run := Started(taskIds, phases)])
    case Registering(loop) => t.(loops := Register(t.loops, loop))
    case Completing(run, id, pad) => if run in t.runs then CompleteTask(t, run, id, pad) else t
    case Telling(run, event) => if run in t.runs then t.(runs := t.runs[run := Apply(t.runs[run], event)]) else t
  }

  function After(history: seq<TrackerEvent>): Tracker {
    if history == [] then EMPTY else Track(After(history[..|history| - 1]), history[|history| - 1])
  }

  // ---- Which loops ended, in order ----

  /** The task whose completion ended the loop. */
  datatype Firing = Firing(loop: Loop, id: Id)

  /** The loops that one completion ends, in the order in which they are checked. */
  function FiringsOf(t: Tracker, loops: seq<Loop>, id: Id, pad: map<string, string>): (fs: seq<Firing>)
    ensures forall f | f in fs :: f.loop in loops && f.id == id
    decreases loops
  {
    if loops == [] then []
    else if Fires(loops[0], id, t.completedTasks, pad) then
      [Firing(loops[0], id)] + FiringsOf(Fire(t, loops[0], id), loops[1..], id, pad)
    else FiringsOf(t, loops[1..], id, pad)
  }

  function FireAll(t: Tracker, fs: seq<Firing>): Tracker
    decreases fs
  {
    if fs == [] then t else FireAll(Fire(t, fs[0].loop, fs[0].id), fs[1..])
  }

  /** Checking loops is leaving, one after the other, those whose time has come. */
  lemma {:induction false} CheckedByFiring(t: Tracker, loops: seq<Loop>, id: Id, pad: map<string, string>)
    ensures CheckLoops(t, loops, id, pad) == FireAll(t, FiringsOf(t, loops, id, pad))
    decreases loops
  {
    if loops != [] {
      var rest := loops[1..];
      if Fires(loops[0], id, t.completedTasks, pad) {
        var next := Fire(t, loops[0], id);
        CheckedByFiring(next, rest, id, pad);
        var fs := FiringsOf(next, rest, id, pad);
        assert ([Firing(loops[0], id)] + fs)[1..] == fs;
      } else {
        CheckedByFiring(t, rest, id, pad);
      }
    }
  }

  lemma {:induction false} CheckingCompletes(t: Tracker, loops: seq<Loop>, id: Id, pad: map<string, string>)
    ensures t.completedTasks <= CheckLoops(t, loops, id, pad).completedTasks
    decreases loops
  {
    if loops != [] {
      CheckingCompletes(if Fires(loops[0], id, t.completedTasks, pad) then Fire(t, loops[0], id) else t, loops[1..], id, pad);
    }
  }

  /** The condition of the loop holds on the scratchpad. */
  ghost predicate ConditionMet(loop: Loop, pad: map<string, string>) {
    && loop.until.Some?
    && var c := loop.until.value; (c.key in pad && (c.value == "" || pad[c.key] == c.value)) <==> !c.negate
  }

  /** The first iteration of the loop that holds the task is done. */
  ghost predicate IterationDone(loop: Loop, id: Id, done: set<Id>) {
    exists k: nat :: k < |loop.iterations| && id in loop.iterations[k]
      && (forall j | 0 <= j < k :: id !in loop.iterations[j])
      && forall x | x in loop.iterations[k] :: x in done
  }

  /** A loop that ends had its condition met and the iteration that holds the task completed. */
  lemma {:induction false} FiringsFire(t: Tracker, loops: seq<Loop>, id: Id, pad: map<string, string>, f: Firing)
    requires f in FiringsOf(t, loops, id, pad)
    ensures f.loop in loops && f.id == id && id in LoopTasks(f.loop)
    ensures ConditionMet(f.loop, pad) && IterationDone(f.loop, id, CheckLoops(t, loops, id, pad).completedTasks)
    decreases loops
  {
    var fires := Fires(loops[0], id, t.completedTasks, pad);
    var next := if fires then Fire(t, loops[0], id) else t;
    if fires && f == Firing(loops[0], id) {
      FiresOnItsOwn(loops[0], id, t.completedTasks, pad);
      FiresExactly(loops[0], id, t.completedTasks, pad);
      CheckingCompletes(t, loops, id, pad);
    } else {
      FiringsFire(next, loops[1..], id, pad, f);
    }
  }

  /** The loops that the event ends. */
  function FiredBy(t: Tracker, e: TrackerEvent): seq<Firing> {
    if e.Completing? && e.run in t.runs && !t.runs[e.run].status.Cancelled?
    then FiringsOf(Counted(t, e.run, e.id), t.loops, e.id, e.pad) else []
  }

  /** What the event does before any loop is left. */
  function Heard(t: Tracker, e: TrackerEvent): Tracker {
    if !e.Completing? then Track(t, e)
    else if e.run in t.runs && !t.runs[e.run].status.Cancelled? then Counted(t, e.run, e.id)
    else t
  }

  /** Every event is heard, and then ends the loops it ends. */
  lemma TrackFires(t: Tracker, e: TrackerEvent)
    ensures Track(t, e) == FireAll(Heard(t, e), FiredBy(t, e))
  {
    if e.Completing? && e.run in t.runs && !t.runs[e.run].status.Cancelled? {
      CheckedByFiring(Counted(t, e.run, e.id), t.loops, e.id, e.pad);
    }
  }

  function Firings(history: seq<TrackerEvent>): seq<Firing> {
    if history == [] then []
    else
      var before, e := history[..|history| - 1], history[|history| - 1];
      Firings(before) + FiredBy(After(before), e)
  }

  function Registered(history: seq<TrackerEvent>): seq<Loop> {
    if history == [] then []
    else
      var e := history[|history| - 1];
      Registered(history[..|history| - 1]) + if e.Registering? then [e.loop] else []
  }

  /** The cancellations that the endings call for. */
  function Requested(firings: seq<Firing>): seq<Id> {
    if firings == [] then []
    else
      var f := firings[|firings| - 1];
      Requested(firings[..|firings| - 1]) + Remaining(f.loop, f.id)
  }

  lemma Regroup<T>(a: seq<T>, b: seq<T>, c: seq<T>)
    ensures (a + b) + c == a + (b + c)
  {
  }

  lemma {:induction false} RequestedConcat(a: seq<Firing>, b: seq<Firing>)
    ensures Requested(a + b) == Requested(a) + Requested(b)
    decreases |b|
  {
    if b == [] {
      assert a + b == a;
    } else {
      var n := |b| - 1;
      LastOfBoth(a, b);
      RequestedConcat(a, b[..n]);
      Regroup(Requested(a), Requested(b[..n]), Remaining(b[n].loop, b[n].id));
    }
  }

  lemma LastOfBoth<T>(a: seq<T>, b: seq<T>)
    requires b != []
    ensures (a + b)[..|a + b| - 1] == a + b[..|b| - 1] && (a + b)[|a + b| - 1] == b[|b| - 1]
  {
  }

  lemma {:induction false} FireAllRequests(t: Tracker, fs: seq<Firing>)
    ensures FireAll(t, fs).cancelRequests == t.cancelRequests + Requested(fs)
    decreases fs
  {
    if fs != [] {
      var f, rest := fs[0], fs[1..];
      FireAllRequests(Fire(t, f.loop, f.id), rest);
      FirstRequested(fs);
      Regroup(t.cancelRequests, Remaining(f.loop, f.id), Requested(rest));
    }
  }

  lemma FirstRequested(fs: seq<Firing>)
    requires fs != []
    ensures Requested(fs) == Remaining(fs[0].loop, fs[0].id) + Requested(fs[1..])
  {
    assert fs == [fs[0]] + fs[1..];
    RequestedConcat([fs[0]], fs[1..]);
    OneRequested(fs[0]);
  }

  lemma OneRequested(f: Firing)
    ensures Requested([f]) == Remaining(f.loop, f.id)
  {
    assert [f][..0] == [];
    assert Requested([]) + Remaining(f.loop, f.id) == Remaining(f.loop, f.id);
  }

  /** None of the firings ends a loop with the same key. */
  ghost predicate Unfired(l: Loop, fs: seq<Firing>) {
    forall f | f in fs :: !SameKey(l, f.loop)
  }

  lemma {:induction false} FireAllLoops(t: Tracker, fs: seq<Firing>, l: Loop)
    ensures l in FireAll(t, fs).loops <==> l in t.loops && Unfired(l, fs)
    decreases fs
  {
    if fs != [] {
      FireAllLoops(Fire(t, fs[0].loop, fs[0].id), fs[1..], l);
      assert Unfired(l, fs) <==> !SameKey(l, fs[0].loop) && Unfired(l, fs[1..]) by {
        assert fs == [fs[0]] + fs[1..];
      }
    }
  }

  lemma {:induction false} FireAllKeyed(t: Tracker, fs: seq<Firing>)
    requires Keyed(t.loops)
    ensures Keyed(FireAll(t, fs).loops)
    decreases fs
  {
    if fs != [] {
      FireAllKeyed(Fire(t, fs[0].loop, fs[0].id), fs[1..]);
    }
  }

  // ---- How often a loop ends ----

  function CountEnds(firings: seq<Firing>, key: Loop): nat {
    if firings == [] then 0 else CountEnds(firings[1..], key) + if SameKey(firings[0].loop, key) then 1 else 0
  }

  function CountKeys(loops: seq<Loop>, key: Loop): nat {
    if loops == [] then 0 else CountKeys(loops[1..], key) + if SameKey(loops[0], key) then 1 else 0
  }

  lemma {:induction false} CountEndsConcat(a: seq<Firing>, b: seq<Firing>, key: Loop)
    ensures CountEnds(a + b, key) == CountEnds(a, key) + CountEnds(b, key)
  {
    if a == [] {
      assert a + b == b;
    } else {
      assert (a + b)[0] == a[0] && (a + b)[1..] == a[1..] + b;
      CountEndsConcat(a[1..], b, key);
    }
  }

  lemma {:induction false} CountKeysConcat(a: seq<Loop>, b: seq<Loop>, key: Loop)
    ensures CountKeys(a + b, key) == CountKeys(a, key) + CountKeys(b, key)
  {
    if a == [] {
      assert a + b == b;
    } else {
      assert (a + b)[0] == a[0] && (a + b)[1..] == a[1..] + b;
      CountKeysConcat(a[1..], b, key);
    }
  }

  /** One completion ends loops at most as often as they are checked. */
  lemma {:induction false} EndsAmongChecked(t: Tracker, loops: seq<Loop>, id: Id, pad: map<string, string>, key: Loop)
    ensures CountEnds(FiringsOf(t, loops, id, pad), key) <= CountKeys(loops, key)
    decreases loops
  {
    if loops != [] {
      var rest := loops[1..];
      if Fires(loops[0], id, t.completedTasks, pad) {
        var fs := FiringsOf(Fire(t, loops[0], id), rest, id, pad);
        assert ([Firing(loops[0], id)] + fs)[1..] == fs;
        EndsAmongChecked(Fire(t, loops[0], id), rest, id, pad, key);
      } else {
        EndsAmongChecked(t, rest, id, pad, key);
      }
    }
  }

  lemma {:induction false} NoKeyLeft(loops: seq<Loop>, key: Loop)
    ensures CountKeys(loops, key) == 0 <==> forall l | l in loops :: !SameKey(l, key)
  {
    if loops != [] {
      NoKeyLeft(loops[1..], key);
      assert loops[0] in loops && forall l | l in loops :: l == loops[0] || l in loops[1..];
    }
  }

  lemma {:induction false} SomeEnd(fs: seq<Firing>, key: Loop)
    ensures CountEnds(fs, key) == 0 <==> forall f | f in fs :: !SameKey(f.loop, key)
  {
    if fs != [] {
      SomeEnd(fs[1..], key);
      assert fs[0] in fs && forall f | f in fs :: f == fs[0] || f in fs[1..];
    }
  }

  lemma {:induction false} KeyedOnce(loops: seq<Loop>, key: Loop)
    requires Keyed(loops)
    ensures CountKeys(loops, key) <= 1
  {
    if loops != [] {
      KeyedOnce(loops[1..], key);
      if SameKey(loops[0], key) {
        forall l | l in loops[1..]
          ensures !SameKey(l, key)
        {
          var k :| 0 <= k < |loops[1..]| && loops[1..][k] == l;
          assert !SameKey(loops[0], loops[k + 1]);
        }
        NoKeyLeft(loops[1..], key);
      }
    }
  }

  lemma {:induction false} RegisterCounts(loops: seq<Loop>, loop: Loop, key: Loop)
    ensures CountKeys(Register(loops, loop), key) <= CountKeys(loops, key) + if SameKey(loop, key) then 1 else 0
  {
    if loops != [] && !SameKey(loops[0], loop) {
      RegisterCounts(loops[1..], loop, key);
      assert ([loops[0]] + Register(loops[1..], loop))[1..] == Register(loops[1..], loop);
    } else if loops != [] {
      assert ([loop] + loops[1..])[1..] == loops[1..];
    } else {
      assert [loop][1..] == [];
    }
  }

  /** Ending loops makes their keys free again. */
  lemma EndsCounted(t: Tracker, e: TrackerEvent, key: Loop)
    requires Keyed(t.loops) && !e.Registering?
    ensures Keyed(Track(t, e).loops)
    ensures CountEnds(FiredBy(t, e), key) + CountKeys(Track(t, e).loops, key) <= CountKeys(t.loops, key)
  {
    var fs, m := FiredBy(t, e), Heard(t, e);
    TrackFires(t, e);
    FireAllKeyed(m, fs);
    forall l
      ensures l in Track(t, e).loops <==> l in t.loops && Unfired(l, fs)
    {
      FireAllLoops(m, fs, l);
    }
    KeyedOnce(t.loops, key);
    KeyedOnce(Track(t, e).loops, key);
    if fs != [] {
      EndsAmongChecked(m, t.loops, e.id, e.pad, key);
    }
    SomeEnd(fs, key);
    NoKeyLeft(t.loops, key);
    NoKeyLeft(Track(t, e).loops, key);
  }

  /**
    * Over every history, whatever is registered: a loop ends at most as often as a loop of its name was
    * registered for its workflow, less one if it is still registered.
    */
  lemma {:induction false} EndsPerRegistration(history: seq<TrackerEvent>, key: Loop)
    ensures Keyed(After(history).loops)
    ensures CountEnds(Firings(history), key) + CountKeys(After(history).loops, key) <= CountKeys(Registered(history), key)
    decreases |history|
  {
    if history != [] {
      var before, e := history[..|history| - 1], history[|history| - 1];
      EndsPerRegistration(before, key);
      var t := After(before);
      CountEndsConcat(Firings(before), FiredBy(t, e), key);
      if e.Registering? {
        RegisterCounts(t.loops, e.loop, key);
        CountKeysConcat(Registered(before), [e.loop], key);
        assert [e.loop][1..] == [];
      } else {
        assert Registered(before) + [] == Registered(before);
        EndsCounted(t, e, key);
      }
    }
  }

  /** Over every history: the cancelled tasks are, in order, those of iterations after the ones that ended loops. */
  lemma {:induction false} CancelledInOrder(history: seq<TrackerEvent>)
    ensures After(history).cancelRequests == Requested(Firings(history))
    decreases |history|
  {
    if history != [] {
      var before, e := history[..|history| - 1], history[|history| - 1];
      CancelledInOrder(before);
      TrackFires(After(before), e);
      FireAllRequests(Heard(After(before), e), FiredBy(After(before), e));
      RequestedConcat(Firings(before), FiredBy(After(before), e));
    }
  }

  // ---- Every loop that ended was due ----

  /** The event reports a completion that its run takes note of. */
  ghost predicate Completes(t: Tracker, e: TrackerEvent, x: Id) {
    e.Completing? && e.id == x && e.run in t.runs && !t.runs[e.run].status.Cancelled?
  }

  /** The task was reported complete, or was cancelled when a loop ended. */
  ghost predicate DoneOrSkipped(history: seq<TrackerEvent>, x: Id) {
    (exists m :: 0 <= m < |history| && Completes(After(history[..m]), history[m], x))
    || x in After(history).cancelRequests
  }

  lemma DoneBefore(history: seq<TrackerEvent>, x: Id)
    requires history != [] && DoneOrSkipped(history[..|history| - 1], x)
    ensures DoneOrSkipped(history, x)
  {
    var before, e := history[..|history| - 1], history[|history| - 1];
    if m :| 0 <= m < |before| && Completes(After(before[..m]), before[m], x) {
      assert before[..m] == history[..m] && before[m] == history[m];
    } else {
      TrackFires(After(before), e);
      FireAllRequests(Heard(After(before), e), FiredBy(After(before), e));
    }
  }

  lemma {:induction false} FireAllCompletes(t: Tracker, fs: seq<Firing>)
    ensures forall x | x in FireAll(t, fs).completedTasks :: x in t.completedTasks || x in FireAll(t, fs).cancelRequests
    decreases fs
  {
    if fs != [] {
      var next := Fire(t, fs[0].loop, fs[0].id);
      FireAllCompletes(next, fs[1..]);
      FireAllRequests(next, fs[1..]);
    }
  }

  /** Whatever the manager counts as completed was reported complete or cancelled with a loop. */
  lemma {:induction false} CountedIsDone(history: seq<TrackerEvent>, x: Id)
    requires x in After(history).completedTasks
    ensures DoneOrSkipped(history, x)
    decreases |history|
  {
    var n := |history| - 1;
    var before, e := history[..n], history[n];
    var t, m := After(before), Heard(After(before), e);
    TrackFires(t, e);
    FireAllCompletes(m, FiredBy(t, e));
    if x !in After(history).cancelRequests {
      if x in t.completedTasks {
        CountedIsDone(before, x);
        DoneBefore(history, x);
      } else {
        assert Completes(After(history[..n]), history[n], x);
      }
    }
  }

  lemma {:induction false} LoopsRegistered(history: seq<TrackerEvent>)
    ensures forall l | l in After(history).loops :: l in Registered(history)
    decreases |history|
  {
    if history != [] {
      var before, e := history[..|history| - 1], history[|history| - 1];
      LoopsRegistered(before);
      EndsPerRegistration(before, Loop(RunId(""), "", [], None));
      TrackFires(After(before), e);
      forall l | l in After(history).loops
        ensures l in Registered(history)
      {
        FireAllLoops(Heard(After(before), e), FiredBy(After(before), e), l);
      }
    }
  }

  /**
    * The event ends the loop, which was registered: its condition is met on the scratchpad of that moment,
    * and each task of the iteration that holds the reported one is by then complete or cancelled.
    */
  ghost predicate DueAt(history: seq<TrackerEvent>, n: nat, f: Firing)
    requires n < |history|
  {
    && Completes(After(history[..n]), history[n], f.id) && f.loop in Registered(history[..n])
    && ConditionMet(f.loop, history[n].pad)
    && exists k: nat :: k < |f.loop.iterations| && f.id in f.loop.iterations[k]
         && (forall j | 0 <= j < k :: f.id !in f.loop.iterations[j])
         && forall x | x in f.loop.iterations[k] :: DoneOrSkipped(history[..n + 1], x)
  }

  lemma DueStays(history: seq<TrackerEvent>, m: nat, f: Firing)
    requires m < |history| - 1 && DueAt(history[..|history| - 1], m, f)
    ensures DueAt(history, m, f)
  {
    var before := history[..|history| - 1];
    assert before[..m] == history[..m] && before[..m + 1] == history[..m + 1] && before[m] == history[m];
  }

  /** Over every history, whatever is registered: each loop that ended was due at the moment it ended. */
  lemma {:induction false} EveryEndWasDue(history: seq<TrackerEvent>, f: Firing)
    requires f in Firings(history)
    ensures exists n :: 0 <= n < |history| && DueAt(history, n, f)
    decreases |history|
  {
    var n := |history| - 1;
    var before, e := history[..n], history[n];
    if f in Firings(before) {
      EveryEndWasDue(before, f);
      var m :| 0 <= m < |before| && DueAt(before, m, f);
      DueStays(history, m, f);
    } else {
      JustEndedWasDue(history, f);
    }
  }

  lemma JustEndedWasDue(history: seq<TrackerEvent>, f: Firing)
    requires history != []
    requires f in FiredBy(After(history[..|history| - 1]), history[|history| - 1])
    ensures DueAt(history, |history| - 1, f)
  {
    var n := |history| - 1;
    var before, e := history[..n], history[n];
    var t := After(before);
    assert Completes(t, e, f.id);
    FiringsFire(Counted(t, e.run, e.id), t.loops, e.id, e.pad, f);
    LoopsRegistered(before);
    assert history[..n + 1] == history;
    AllCountedDone(history);
    DoneIteration(history, f);
  }

  lemma AllCountedDone(history: seq<TrackerEvent>)
    ensures forall x | x in After(history).completedTasks :: DoneOrSkipped(history, x)
  {
    forall x | x in After(history).completedTasks
      ensures DoneOrSkipped(history, x)
    {
      CountedIsDone(history, x);
    }
  }

  lemma DoneIteration(history: seq<TrackerEvent>, f: Firing)
    requires IterationDone(f.loop, f.id, After(history).completedTasks)
    requires forall x | x in After(history).completedTasks :: DoneOrSkipped(history, x)
    ensures exists k: nat :: k < |f.loop.iterations| && f.id in f.loop.iterations[k]
              && (forall j | 0 <= j < k :: f.id !in f.loop.iterations[j])
              && forall x | x in f.loop.iterations[k] :: DoneOrSkipped(history, x)
  {
  }

  // ---- Loops that share no task ----

  /** No task is listed twice in a loop or in two registrations. */
  ghost predicate SeparateTasks(loops: seq<Loop>) {
    && (forall l | l in loops :: NoDuplicates(LoopTasks(l)))
    && (forall i, j, t | 0 <= i < j < |loops| && t in LoopTasks(loops[i]) :: t !in LoopTasks(loops[j]))
  }

  lemma SharedTask(loops: seq<Loop>, a: Loop, b: Loop, t: Id)
    requires SeparateTasks(loops) && a in loops && b in loops && t in LoopTasks(a) && t in LoopTasks(b)
    ensures a == b
  {
    var i :| 0 <= i < |loops| && loops[i] == a;
    var j :| 0 <= j < |loops| && loops[j] == b;
    assert t in LoopTasks(loops[i]) && t in LoopTasks(loops[j]);
  }

  /** Only the loops that ended, each once, and none of them registered any more. */
  ghost predicate Consistent(t: Tracker, firings: seq<Firing>, registered: seq<Loop>) {
    && Keyed(t.loops)
    && (forall l | l in t.loops :: l in registered)
    && (forall f | f in firings :: f.loop in registered && f.loop !in t.loops && f.id in LoopTasks(f.loop))
    && (forall i, j | 0 <= i < j < |firings| :: firings[i].loop != firings[j].loop)
  }

  lemma RegisteringConsistent(t: Tracker, firings: seq<Firing>, registered: seq<Loop>, loop: Loop)
    requires Consistent(t, firings, registered) && SeparateTasks(registered + [loop])
    ensures Consistent(Track(t, Registering(loop)), firings, registered + [loop])
  {
    var all := registered + [loop];
    forall f | f in firings
      ensures f.loop != loop
    {
      var i :| 0 <= i < |registered| && registered[i] == f.loop;
      assert all[i] == f.loop && all[|registered|] == loop;
      assert f.id in LoopTasks(all[i]);
    }
  }

  /** With separate tasks one completion ends at most one loop. */
  lemma {:induction false} OneEnds(t: Tracker, loops: seq<Loop>, id: Id, pad: map<string, string>, registered: seq<Loop>)
    requires Keyed(loops) && SeparateTasks(registered) && forall l | l in loops :: l in registered
    ensures |FiringsOf(t, loops, id, pad)| <= 1
    decreases loops
  {
    if loops != [] {
      var rest := loops[1..];
      if Fires(loops[0], id, t.completedTasks, pad) {
        FiresOnItsOwn(loops[0], id, t.completedTasks, pad);
        var fs := FiringsOf(Fire(t, loops[0], id), rest, id, pad);
        if fs != [] {
          assert fs[0] in fs;
          FiringsFire(Fire(t, loops[0], id), rest, id, pad, fs[0]);
          SharedTask(registered, loops[0], fs[0].loop, id);
        }
      } else {
        OneEnds(t, rest, id, pad, registered);
      }
    }
  }

  lemma FiringConsistent(t: Tracker, c: Tracker, firings: seq<Firing>, registered: seq<Loop>, f: Firing)
    requires Consistent(t, firings, registered) && c.loops == t.loops
    requires f.loop in t.loops && f.id in LoopTasks(f.loop)
    ensures Consistent(Fire(c, f.loop, f.id), firings + [f], registered)
  {
    var all := firings + [f];
    OnlyThisKey(t.loops, f.loop);
    forall i, j | 0 <= i < j < |all|
      ensures all[i].loop != all[j].loop
    {
      assert i < |firings| ==> firings[i] in firings;
    }
  }

  lemma CompletingConsistent(t: Tracker, e: TrackerEvent, firings: seq<Firing>, registered: seq<Loop>)
    requires Consistent(t, firings, registered) && SeparateTasks(registered) && e.Completing?
    ensures Consistent(Track(t, e), firings + FiredBy(t, e), registered)
  {
    var m, fs := Heard(t, e), FiredBy(t, e);
    TrackFires(t, e);
    if fs == [] {
      assert firings + fs == firings;
    } else {
      OneEnds(m, t.loops, e.id, e.pad, registered);
      assert fs == [fs[0]] && fs[0] in fs && fs[1..] == [];
      FiringsFire(m, t.loops, e.id, e.pad, fs[0]);
      FiringConsistent(t, m, firings, registered, fs[0]);
    }
  }

  lemma {:induction false} HistoryConsistent(history: seq<TrackerEvent>)
    requires SeparateTasks(Registered(history))
    ensures Consistent(After(history), Firings(history), Registered(history))
    decreases |history|
  {
    if history != [] {
      var before, e := history[..|history| - 1], history[|history| - 1];
      var registered := Registered(before);
      SeparateBefore(registered, Registered(history));
      HistoryConsistent(before);
      var t, firings := After(before), Firings(before);
      assert firings + [] == firings && registered + [] == registered;
      match e
      case Submitting(_, _, _) =>
      case Registering(loop) => RegisteringConsistent(t, firings, registered, loop);
      case Telling(_, _) =>
      case Completing(_, _, _) => CompletingConsistent(t, e, firings, registered);
    }
  }

  lemma SeparateBefore(loops: seq<Loop>, more: seq<Loop>)
    requires SeparateTasks(more) && loops <= more
    ensures SeparateTasks(loops)
  {
    forall l | l in loops
      ensures NoDuplicates(LoopTasks(l))
    {
      assert l in more;
    }
    forall i, j, t | 0 <= i < j < |loops| && t in LoopTasks(loops[i])
      ensures t !in LoopTasks(loops[j])
    {
      assert more[i] == loops[i] && more[j] == loops[j];
    }
  }

  lemma RemainingInLoop(loop: Loop, id: Id, x: Id)
    requires x in Remaining(loop, id)
    ensures x in LoopTasks(loop) && IterationOf(loop.iterations, id).Some?
  {
    RemainingAreLater(loop, id, x);
    FlattenMembers(loop.iterations, x);
  }

  lemma {:induction false} RequestedMembers(firings: seq<Firing>, x: Id)
    requires x in Requested(firings)
    ensures exists f :: f in firings && x in Remaining(f.loop, f.id)
  {
    var n := |firings| - 1;
    var f := firings[n];
    if x !in Remaining(f.loop, f.id) {
      RequestedMembers(firings[..n], x);
      var g :| g in firings[..n] && x in Remaining(g.loop, g.id);
      assert g in firings;
    } else {
      assert f in firings;
    }
  }

  lemma {:induction false} RequestedDistinct(firings: seq<Firing>, registered: seq<Loop>)
    requires SeparateTasks(registered)
    requires forall f | f in firings :: f.loop in registered
    requires forall i, j | 0 <= i < j < |firings| :: firings[i].loop != firings[j].loop
    ensures NoDuplicates(Requested(firings))
    decreases |firings|
  {
    if firings != [] {
      var n := |firings| - 1;
      var earlier, f := firings[..n], firings[n];
      RequestedDistinct(earlier, registered);
      var a, b := Requested(earlier), Remaining(f.loop, f.id);
      if IterationOf(f.loop.iterations, f.id).Some? {
        CancelledOnce(f.loop, f.id);
      }
      forall x | x in a
        ensures x !in b
      {
        RequestedMembers(earlier, x);
        var g :| g in earlier && x in Remaining(g.loop, g.id);
        RemainingInLoop(g.loop, g.id, x);
        if x in b {
          RemainingInLoop(f.loop, f.id, x);
          SharedTask(registered, g.loop, f.loop, x);
        }
      }
      JoinDistinct(a, b);
    }
  }

  /**
    * Over every history in which registrations share no task: each loop ends at most once and is then
    * registered no more; the cancelled tasks are exactly those of iterations after the one that ended a
    * loop, each cancelled once; no task of that or an earlier iteration is ever cancelled.
    */
  lemma EachLoopOnce(history: seq<TrackerEvent>)
    requires SeparateTasks(Registered(history))
    ensures var t, firings := After(history), Firings(history);
            && (forall i, j | 0 <= i < j < |firings| :: firings[i].loop != firings[j].loop)
            && (forall f | f in firings :: f.loop in Registered(history) && f.loop !in t.loops)
            && NoDuplicates(t.cancelRequests)
            && (forall x :: x in t.cancelRequests <==> exists f :: f in firings && x in Remaining(f.loop, f.id))
            && (forall f | f in firings :: Spared(f, t.cancelRequests))
  {
    var t, firings, registered := After(history), Firings(history), Registered(history);
    HistoryConsistent(history);
    RequestedDistinct(firings, registered);
    CancelledInOrder(history);
    forall x
      ensures x in t.cancelRequests <==> exists f :: f in firings && x in Remaining(f.loop, f.id)
    {
      if x in t.cancelRequests {
        RequestedMembers(firings, x);
      }
      if f :| f in firings && x in Remaining(f.loop, f.id) {
        RequestedAll(firings, f, x);
      }
    }
    forall f | f in firings
      ensures Spared(f, t.cancelRequests)
    {
      FiringSpares(firings, registered, f);
    }
  }

  /** Nothing up to the iteration that ended the loop is among the cancelled tasks. */
  ghost predicate Spared(f: Firing, cancelled: seq<Id>) {
    match IterationOf(f.loop.iterations, f.id)
    case None => true
    case Some(k) => forall i, x | 0 <= i <= k && x in f.loop.iterations[i] :: x !in cancelled
  }

  lemma {:induction false} RequestedAll(firings: seq<Firing>, f: Firing, x: Id)
    requires f in firings && x in Remaining(f.loop, f.id)
    ensures x in Requested(firings)
  {
    var n := |firings| - 1;
    if firings[n] != f {
      assert f in firings[..n];
      RequestedAll(firings[..n], f, x);
    }
  }

  lemma FiringSpares(firings: seq<Firing>, registered: seq<Loop>, f: Firing)
    requires SeparateTasks(registered) && f in firings
    requires forall g | g in firings :: g.loop in registered
    requires forall i, j | 0 <= i < j < |firings| :: firings[i].loop != firings[j].loop
    ensures Spared(f, Requested(firings))
  {
    if IterationOf(f.loop.iterations, f.id).Some? {
      var k := IterationOf(f.loop.iterations, f.id).value;
      CancelledOnce(f.loop, f.id);
      forall i, x | 0 <= i <= k && x in f.loop.iterations[i]
        ensures x !in Requested(firings)
      {
        FlattenMembers(f.loop.iterations, x);
        if x in Requested(firings) {
          RequestedMembers(firings, x);
          var g :| g in firings && x in Remaining(g.loop, g.id);
          RemainingInLoop(g.loop, g.id, x);
          SharedTask(registered, f.loop, g.loop, x);
        }
      }
    }
  }

  // ---- What happens to one run ----

  /** A run is told of an event, or loses the tasks of later iterations of a loop. */
  datatype Happening = Told(event: Event) | LeftLoop(ids: seq<Id>)

  function Advance(run: WorkflowRun, h: Happening): WorkflowRun {
    match h
    case Told(e) => Apply(run, e)
    case LeftLoop(ids) => ExitLoop(run, ids)
  }

  function Lived(run: WorkflowRun, life: seq<Happening>): WorkflowRun {
    if life == [] then run else Advance(Lived(run, life[..|life| - 1]), life[|life| - 1])
  }

  function ToldOf(e: TrackerEvent, run: RunId): seq<Happening> {
    match e
    case Completing(r, id, _) => if r == run then [Told(TaskComplete(id))] else []
    case Telling(r, event) => if r == run then [Told(event)] else []
    case _ => []
  }

  /** The run's own loops among those that ended. */
  function LeftBy(fs: seq<Firing>, run: RunId): seq<Happening>
    decreases fs
  {
    if fs == [] then []
    else (if fs[0].loop.run == run then [LeftLoop(Remaining(fs[0].loop, fs[0].id))] else []) + LeftBy(fs[1..], run)
  }

  datatype Life = Unborn | Life(start: WorkflowRun, happenings: seq<Happening>)

  /** What the history says about the run, since it was last submitted. */
  function LifeOf(history: seq<TrackerEvent>, run: RunId): Life {
    if history == [] then Unborn
    else
      var before, e := history[..|history| - 1], history[|history| - 1];
      if e.Submitting? && e.run == run then Life(Started(e.taskIds, e.phases), [])
      else match LifeOf(before, run)
        case Unborn => Unborn
        case Life(start, life) => Life(start, life + ToldOf(e, run) + LeftBy(FiredBy(After(before), e), run))
  }

  lemma {:induction false} LivedOn(run: WorkflowRun, life: seq<Happening>, more: seq<Happening>)
    ensures Lived(run, life + more) == Lived(Lived(run, life), more)
    decreases |more|
  {
    if more == [] {
      assert life + more == life;
    } else {
      var n := |more| - 1;
      assert (life + more)[..|life + more| - 1] == life + more[..n] && (life + more)[|life + more| - 1] == more[n];
      LivedOn(run, life, more[..n]);
    }
  }

  lemma OneHappening(run: WorkflowRun, h: Happening)
    ensures Lived(run, [h]) == Advance(run, h)
  {
    assert [h][..0] == [];
  }

  lemma {:induction false} FireAllMoves(t: Tracker, fs: seq<Firing>, run: RunId)
    requires run in t.runs
    ensures run in FireAll(t, fs).runs && FireAll(t, fs).runs[run] == Lived(t.runs[run], LeftBy(fs, run))
    decreases fs
  {
    if fs != [] {
      var next := Fire(t, fs[0].loop, fs[0].id);
      FireAllMoves(next, fs[1..], run);
      if fs[0].loop.run == run {
        var h := LeftLoop(Remaining(fs[0].loop, fs[0].id));
        OneHappening(t.runs[run], h);
        LivedOn(t.runs[run], [h], LeftBy(fs[1..], run));
      } else {
        assert [] + LeftBy(fs[1..], run) == LeftBy(fs[1..], run);
      }
    }
  }

  lemma {:induction false} FireAllRuns(t: Tracker, fs: seq<Firing>)
    ensures FireAll(t, fs).runs.Keys == t.runs.Keys
    decreases fs
  {
    if fs != [] {
      FireAllRuns(Fire(t, fs[0].loop, fs[0].id), fs[1..]);
    }
  }

  /** An event moves each run as its life says. */
  lemma TrackMoves(t: Tracker, e: TrackerEvent, run: RunId)
    requires run in t.runs && !(e.Submitting? && e.run == run)
    ensures run in Track(t, e).runs
    ensures Track(t, e).runs[run] == Lived(Lived(t.runs[run], ToldOf(e, run)), LeftBy(FiredBy(t, e), run))
  {
    TrackFires(t, e);
    var m := Heard(t, e);
    FireAllMoves(m, FiredBy(t, e), run);
    if ToldOf(e, run) != [] {
      OneHappening(t.runs[run], ToldOf(e, run)[0]);
    }
    assert m.runs[run] == Lived(t.runs[run], ToldOf(e, run));
  }

  /** Every run of the manager has lived exactly the life that the history gives it. */
  lemma {:induction false} RunsLive(history: seq<TrackerEvent>, run: RunId)
    ensures run in After(history).runs <==> LifeOf(history, run).Life?
    ensures var life := LifeOf(history, run);
            life.Life? ==> After(history).runs[run] == Lived(life.start, life.happenings)
    decreases |history|
  {
    if history != [] {
      var before, e := history[..|history| - 1], history[|history| - 1];
      RunsLive(before, run);
      var t := After(before);
      if LifeOf(before, run).Life? && !(e.Submitting? && e.run == run) {
        TrackMoves(t, e, run);
        var start, life := LifeOf(before, run).start, LifeOf(before, run).happenings;
        var told, left := ToldOf(e, run), LeftBy(FiredBy(t, e), run);
        LivedOn(start, life, told);
        LivedOn(start, life + told, left);
      } else if !(e.Submitting? && e.run == run) {
        TrackFires(t, e);
        FireAllRuns(Heard(t, e), FiredBy(t, e));
      }
    }
  }

  // ---- Cleanup is triggered once ----

  ghost predicate NeverCancelled(life: seq<Happening>) {
    forall h | h in life :: h.Told? ==> !h.event.Cancel?
  }

  /** At some moment before any cancellation every task of the run was completed, failed or skipped. */
  ghost predicate EndedBeforeCancel(run: WorkflowRun, life: seq<Happening>) {
    exists k :: 1 <= k <= |life| && EndedAt(run, life, k)
  }

  ghost predicate EndedAt(run: WorkflowRun, life: seq<Happening>, k: nat)
    requires k <= |life|
  {
    NeverCancelled(life[..k]) && Covered(Lived(run, life[..k]))
  }

  lemma EndedExtends(run: WorkflowRun, life: seq<Happening>)
    requires life != []
    ensures EndedBeforeCancel(run, life) <==> EndedBeforeCancel(run, life[..|life| - 1]) || EndedAt(run, life, |life|)
  {
    var n := |life|;
    var before := life[..n - 1];
    forall k | 1 <= k < n
      ensures EndedAt(run, life, k) <==> EndedAt(run, before, k)
    {
      assert life[..k] == before[..k];
    }
    if EndedBeforeCancel(run, life) {
      var k :| 1 <= k <= n && EndedAt(run, life, k);
      assert k < n ==> EndedAt(run, before, k);
    }
    if EndedBeforeCancel(run, before) {
      var k :| 1 <= k <= n - 1 && EndedAt(run, before, k);
      assert EndedAt(run, life, k);
    }
  }

  /** How one happening moves the marks of the end of a run. */
  lemma AdvanceMarks(run: WorkflowRun, h: Happening)
    ensures var r := Advance(run, h);
            if h.Told? && h.event.Cancel? then r.finished && r.cleanups == run.cleanups
            else if h.Told? && Ignored(run, h.event) then r == run
            else r.finished == (run.finished || Covered(r)) && !r.status.Cancelled?
                 && r.cleanups == run.cleanups + if !run.finished && Covered(r) then 1 else 0
  {
    if h.LeftLoop? {
      SkipTasksSets(run, h.ids);
    } else if !h.event.Cancel? && !Ignored(run, h.event) {
      ApplyMoves(run, h.event);
    }
  }

  lemma {:induction false} CleanupInLife(taskIds: seq<Id>, phases: seq<Phase>, life: seq<Happening>)
    ensures var run := Started(taskIds, phases);
            var r := Lived(run, life);
            && r.cleanups == (if EndedBeforeCancel(run, life) then 1 else 0)
            && (r.finished <==> EndedBeforeCancel(run, life) || !NeverCancelled(life))
            && (r.status.Cancelled? ==> !NeverCancelled(life))
    decreases |life|
  {
    var run := Started(taskIds, phases);
    RegisterKeeps(NewRun(taskIds).(phases := phases), phases);
    if life != [] {
      var n := |life|;
      var before, h := life[..n - 1], life[n - 1];
      CleanupInLife(taskIds, phases, before);
      EndedExtends(run, life);
      assert life == before + [h] && life[..n] == life;
      AdvanceMarks(Lived(run, before), h);
    }
  }

  /**
    * Over any history of the manager, with retries, cancellations and early exits of any loops, the
    * cleanup of a run is triggered exactly once if its completed, failed and skipped tasks ever
    * covered it before a cancellation, and otherwise never.
    */
  lemma CleanupOnce(history: seq<TrackerEvent>, run: RunId)
    requires run in After(history).runs
    ensures LifeOf(history, run).Life?
    ensures var life := LifeOf(history, run);
            After(history).runs[run].cleanups == if EndedBeforeCancel(life.start, life.happenings) then 1 else 0
  {
    RunsLive(history, run);
    var life := LifeOf(history, run);
    var e := StartOf(history, run);
    CleanupInLife(e.taskIds, e.phases, life.happenings);
  }

  lemma {:induction false} StartOf(history: seq<TrackerEvent>, run: RunId) returns (e: TrackerEvent)
    requires LifeOf(history, run).Life?
    ensures e.Submitting? && LifeOf(history, run).start == Started(e.taskIds, e.phases)
    decreases |history|
  {
    var last := history[|history| - 1];
    if last.Submitting? && last.run == run {
      e := last;
    } else {
      e := StartOf(history[..|history| - 1], run);
    }
  }
}
