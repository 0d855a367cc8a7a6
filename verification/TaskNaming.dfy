// The strings that stand for task ids, and exactly when two different tasks get the same string.

module TaskNaming {
  import opened PhaseSpecs
  import opened Text

  const MARK := "phase_"

  function Prefix(scope: Scope): string {
    match scope
    case Outer => ""
    case Iteration(loop, n) => loop + "_i" + NatToString(n) + "_"
  }

  function SlotText(slot: Slot): string {
    match slot
    case Worker(i) => NatToString(i)
    case Advocate(r) => "advocate_r" + NatToString(r)
    case Critic(r) => "critic_r" + NatToString(r)
    case Judge => "judge"
  }

  function Label(id: TaskId): string {
    Prefix(id.scope) + MARK + id.phase
  }

  /** The local id as the strategies and the loop expander write it. */
  function LocalId(id: TaskId): string {
    Label(id) + "_" + SlotText(id.slot)
  }

  /** How ids look: the phase and the slot, in loops behind the loop and the iteration. */
  lemma IdsAsWritten()
    ensures LocalId(TaskId(Outer, "build", Worker(12))) == "phase_build_12"
    ensures LocalId(TaskId(Outer, "talk", Critic(2))) == "phase_talk_critic_r2"
  {
    assert NatToString(1) == "1" && NatToString(2) == "2";
    assert NatToString(12) == NatToString(1) + "2";
    assert Label(TaskId(Outer, "build", Worker(12))) == "phase_build";
    assert Label(TaskId(Outer, "talk", Critic(2))) == "phase_talk";
  }

  lemma LoopIdsAsWritten()
    ensures LocalId(TaskId(Iteration("refine", 3), "talk", Advocate(1))) == "refine_i3_phase_talk_advocate_r1"
    ensures LocalId(TaskId(Iteration("refine", 3), "talk", Judge)) == "refine_i3_phase_talk_judge"
  {
    assert NatToString(1) == "1" && NatToString(3) == "3";
    assert Prefix(Iteration("refine", 3)) == "refine_i3_";
    assert Label(TaskId(Iteration("refine", 3), "talk", Judge)) == "refine_i3_phase_talk";
    assert Label(TaskId(Iteration("refine", 3), "talk", Advocate(1))) == "refine_i3_phase_talk";
  }

  // ---- Splitting strings ----

  /** After the last separator of a string there is none. */
  lemma NoLater(a: string, x: string, b: string, y: string, c: char)
    requires a + [c] + x == b + [c] + y && c !in x
    ensures |b| <= |a|
  {
    var s, t := a + [c] + x, b + [c] + y;
    forall k | |a| < k < |s|
      ensures s[k] != c
    {
      assert s[k] == x[k - |a| - 1] && s[k] in x;
    }
    assert t[|b|] == c;
  }

  lemma SplitLast(a: string, x: string, b: string, y: string, c: char)
    requires a + [c] + x == b + [c] + y && c !in x && c !in y
    ensures a == b && x == y
  {
    NoLater(a, x, b, y, c);
    NoLater(b, y, a, x, c);
    var s, t := a + [c] + x, b + [c] + y;
    assert s[..|a|] == a && t[..|b|] == b && s[|a| + 1..] == x && t[|b| + 1..] == y;
  }

  /** The part of an id after its last underscore, and the part before. */
  function Word(slot: Slot): (w: string)
    ensures '_' !in w && w != ""
  {
    match slot
    case Worker(i) => NatToString(i)
    case Advocate(r) => "r" + NatToString(r)
    case Critic(r) => "r" + NatToString(r)
    case Judge => "judge"
  }

  function Base(id: TaskId): string {
    match id.slot
    case Worker(_) => Label(id)
    case Advocate(_) => Label(id) + "_advocate"
    case Critic(_) => Label(id) + "_critic"
    case Judge => Label(id)
  }

  lemma LastUnderscore(id: TaskId)
    ensures LocalId(id) == Base(id) + ['_'] + Word(id.slot)
  {
    match id.slot
    case Worker(_) =>
    case Judge =>
    case Advocate(r) =>
      assert "advocate_r" + NatToString(r) == "advocate" + ['_'] + ("r" + NatToString(r));
      assert Label(id) + "_" + ("advocate" + ['_'] + Word(id.slot)) == (Label(id) + "_advocate") + ['_'] + Word(id.slot);
    case Critic(r) =>
      assert "critic_r" + NatToString(r) == "critic" + ['_'] + ("r" + NatToString(r));
      assert Label(id) + "_" + ("critic" + ['_'] + Word(id.slot)) == (Label(id) + "_critic") + ['_'] + Word(id.slot);
  }

  lemma WordTellsSlot(a: Slot, b: Slot)
    requires Word(a) == Word(b)
    ensures (a.Worker? && b.Worker? && a == b) || (a.Judge? && b.Judge?)
         || ((a.Advocate? || a.Critic?) && (b.Advocate? || b.Critic?) && a.round == b.round)
  {
    assert Word(a)[0] == Word(b)[0] && Word(a)[0] in Word(a) && Word(b)[0] in Word(b);
    assert a.Worker? ==> '0' <= Word(a)[0] <= '9';
    assert b.Worker? ==> '0' <= Word(b)[0] <= '9';
    if a.Worker? && b.Worker? {
      NatToStringInjective(a.index, b.index);
    } else if (a.Advocate? || a.Critic?) && (b.Advocate? || b.Critic?) {
      assert Word(a)[1..] == NatToString(a.round) && Word(b)[1..] == NatToString(b.round);
      NatToStringInjective(a.round, b.round);
    }
  }

  /** Two ids collide exactly if they have the same slot and the same label. */
  lemma CollideByLabel(a: TaskId, b: TaskId)
    ensures LocalId(a) == LocalId(b) <==> a.slot == b.slot && Label(a) == Label(b)
  {
    if LocalId(a) == LocalId(b) {
      LastUnderscore(a);
      LastUnderscore(b);
      SplitLast(Base(a), Word(a.slot), Base(b), Word(b.slot), '_');
      WordTellsSlot(a.slot, b.slot);
      if a.slot.Advocate? || a.slot.Critic? {
        var s, t := Base(a), Base(b);
        assert s[|s| - 1] == if a.slot.Advocate? then 'e' else 'c';
        assert t[|t| - 1] == if b.slot.Advocate? then 'e' else 'c';
        assert s[..|Label(a)|] == Label(a) && t[..|Label(b)|] == Label(b);
      }
    }
  }

  lemma PrefixInjective(a: Scope, b: Scope)
    requires Prefix(a) == Prefix(b)
    ensures a == b
  {
    if a.Iteration? && b.Iteration? {
      var x, y := NatToString(a.number), NatToString(b.number);
      SplitLast(a.loop + "_i" + x, "", b.loop + "_i" + y, "", '_');
      assert a.loop + "_i" + x == (a.loop + "_") + ['i'] + x && b.loop + "_i" + y == (b.loop + "_") + ['i'] + y;
      SplitLast(a.loop + "_", x, b.loop + "_", y, 'i');
      SplitLast(a.loop, "", b.loop, "", '_');
      NatToStringInjective(a.number, b.number);
    }
  }

  /** The loop of `b` is named so that its prefix begins with the label of a phase of `a`'s. */
  ghost predicate Shadows(a: TaskId, b: TaskId) {
    exists u :: ShadowsBy(a, b, u)
  }

  ghost predicate ShadowsBy(a: TaskId, b: TaskId, u: string) {
    Prefix(b.scope) == Prefix(a.scope) + MARK + u && a.phase == u + MARK + b.phase
  }

  lemma MarksApart(x: string, p: string, y: string, q: string)
    requires x + MARK + p == y + MARK + q && |x| < |y|
    ensures |x| + |MARK| <= |y| && y == x + MARK + (y[|x| + |MARK|..]) && p == y[|x| + |MARK|..] + MARK + q
  {
    var s, t := x + MARK + p, y + MARK + q;
    assert t[|y|] == 'p';
    forall k | |x| < k < |x| + |MARK|
      ensures s[k] != 'p'
    {
      assert s[k] == MARK[k - |x|];
    }
    var u := y[|x| + |MARK|..];
    assert s[..|x| + |MARK|] == x + MARK && t[..|x| + |MARK|] == y[..|x| + |MARK|];
    assert s[|x| + |MARK|..] == p && t[|x| + |MARK|..] == u + MARK + q;
  }

  /**
    * Two different tasks get the same id string exactly if they have the same slot and one shadows
    * the other: its phase name spells out the end of the other's loop prefix and phase.
    */
  lemma CollideExactly(a: TaskId, b: TaskId)
    ensures LocalId(a) == LocalId(b) <==> a == b || (a.slot == b.slot && (Shadows(a, b) || Shadows(b, a)))
  {
    CollideByLabel(a, b);
    var x, y := Prefix(a.scope), Prefix(b.scope);
    if Label(a) == Label(b) {
      if |x| < |y| {
        MarksApart(x, a.phase, y, b.phase);
        assert ShadowsBy(a, b, y[|x| + |MARK|..]);
      } else if |y| < |x| {
        MarksApart(y, b.phase, x, a.phase);
        assert ShadowsBy(b, a, x[|y| + |MARK|..]);
      } else {
        assert Label(a)[..|x|] == x && Label(b)[..|y|] == y;
        assert Label(a)[|x| + |MARK|..] == a.phase && Label(b)[|y| + |MARK|..] == b.phase;
        PrefixInjective(a.scope, b.scope);
      }
    }
    if Shadows(a, b) {
      ShadowSameLabel(a, b);
    }
    if Shadows(b, a) {
      ShadowSameLabel(b, a);
    }
  }

  lemma ShadowSameLabel(a: TaskId, b: TaskId)
    requires Shadows(a, b)
    ensures Label(a) == Label(b)
  {
    var u :| ShadowsBy(a, b, u);
    assert Prefix(a.scope) + MARK + (u + MARK + b.phase) == (Prefix(a.scope) + MARK + u) + MARK + b.phase;
  }

  /** The mark does not occur in the text. */
  ghost predicate Plain(text: string) {
    forall i | 0 <= i <= |text| - |MARK| :: !MarkAt(text, i)
  }

  predicate MarkAt(text: string, i: nat)
    requires i <= |text| - |MARK|
  {
    text[i..i + |MARK|] == MARK
  }

  /** If no phase name contains the mark, equal id strings mean the same task, whatever loops are called. */
  lemma PlainNamesAreInjective(a: TaskId, b: TaskId)
    requires Plain(a.phase) && Plain(b.phase) && LocalId(a) == LocalId(b)
    ensures a == b
  {
    CollideExactly(a, b);
    if Shadows(a, b) {
      PlainNeverShadows(a, b);
    } else if Shadows(b, a) {
      PlainNeverShadows(b, a);
    }
  }

  lemma PlainNeverShadows(a: TaskId, b: TaskId)
    requires Plain(a.phase)
    ensures !Shadows(a, b)
  {
    forall u
      ensures !ShadowsBy(a, b, u)
    {
      assert a.phase == u + MARK + b.phase ==> |u| <= |a.phase| - |MARK| && MarkAt(a.phase, |u|);
    }
  }

  function LocalIds(ids: seq<TaskId>): (texts: seq<string>)
    ensures |texts| == |ids| && forall i | 0 <= i < |ids| :: texts[i] == LocalId(ids[i])
  {
    seq(|ids|, i requires 0 <= i < |ids| => LocalId(ids[i]))
  }

  lemma LocalIdsNamed(ids: seq<TaskId>)
    ensures LocalIds(ids) == MapIds(LocalId, ids)
  {
  }

  /** The tasks with their ids written out. */
  function Written(tasks: seq<TaskSpec>): (specs: seq<LocalSpec>)
    ensures |specs| == |tasks|
    ensures forall i | 0 <= i < |tasks| :: specs[i] == TaskSpec(LocalId(tasks[i].id), LocalIds(tasks[i].dependsOn))
  {
    seq(|tasks|, i requires 0 <= i < |tasks| => TaskSpec(LocalId(tasks[i].id), LocalIds(tasks[i].dependsOn)))
  }

  lemma WrittenIsNamed(tasks: seq<TaskSpec>)
    ensures Written(tasks) == MapTasks(LocalId, tasks)
  {
    forall i | 0 <= i < |tasks|
      ensures Written(tasks)[i] == MapTasks(LocalId, tasks)[i]
    {
      LocalIdsNamed(tasks[i].dependsOn);
    }
  }

  /** With plain phase names a list of tasks has distinct id strings exactly if its tasks are distinct. */
  lemma DistinctAsStrings(ids: seq<TaskId>)
    requires forall id | id in ids :: Plain(id.phase)
    ensures NoDuplicates(LocalIds(ids)) <==> NoDuplicates(ids)
  {
    forall i, j | 0 <= i < j < |ids|
      ensures LocalIds(ids)[i] == LocalIds(ids)[j] <==> ids[i] == ids[j]
    {
      if LocalId(ids[i]) == LocalId(ids[j]) {
        PlainNamesAreInjective(ids[i], ids[j]);
      }
    }
    if NoDuplicates(LocalIds(ids)) {
      forall i, j | 0 <= i < j < |ids|
        ensures ids[i] != ids[j]
      {
        assert LocalIds(ids)[i] != LocalIds(ids)[j];
      }
    }
  }

  /** A collision that the naming scheme allows: loop `phase_x` and an outer phase named after its task. */
  lemma CollisionExists()
    ensures var a := TaskId(Outer, "x_i1_phase_q", Worker(0));
            var b := TaskId(Iteration("phase_x", 1), "q", Worker(0));
            a != b && LocalId(a) == LocalId(b)
  {
    var a := TaskId(Outer, "x_i1_phase_q", Worker(0));
    var b := TaskId(Iteration("phase_x", 1), "q", Worker(0));
    assert NatToString(1) == "1";
    assert Prefix(b.scope) == "phase_x_i1_";
    assert Prefix(b.scope) == Prefix(a.scope) + MARK + "x_i1_";
    assert "x_i1_phase_q" == "x_i1_" + MARK + "q";
    assert ShadowsBy(a, b, "x_i1_");
    CollideExactly(a, b);
  }
}
