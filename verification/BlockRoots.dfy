// Why an order that a plan has dropped cannot be won back later: as soon as something that was still
// carried on is missed by a later task, some task of the plan waits for nothing at all.

module BlockRoots {
  import opened PhaseSpecs
  import opened PhaseStrategies
  import opened BlockPlan
  import opened BlockMeaning
  import opened BlockTheorems

  /** Nothing precedes the task. */
  ghost predicate Rootless(order: Order, z: TaskId) {
    forall p | p in order :: p.1 != z
  }

  ghost predicate HasRootless(ids: set<TaskId>, order: Order) {
    exists z :: z in ids && Rootless(order, z)
  }

  lemma RootlessInPart(part: Order, other: Order, ids: set<TaskId>, others: set<TaskId>)
    requires HasRootless(ids, part) && ids !! others && forall p | p in other :: p.1 in others
    ensures HasRootless(ids + others, part + other) && HasRootless(ids + others, other + part)
  {
    var z :| z in ids && Rootless(part, z);
    assert Rootless(part + other, z) && Rootless(other + part, z);
  }

  // ---- A plan that waits for nothing begins with such a task ----

  lemma LeafRootless(scope: Scope, phase: string, pattern: Pattern)
    ensures HasRootless(LeafSet(scope, phase, pattern), LeafOrder(LeafSet(scope, phase, pattern), pattern))
  {
    var ids := LeafIds(scope, phase, pattern);
    LeafTaskIds(scope, phase, pattern, []);
    if pattern.Debate? {
      DebateIdsRange(scope, phase, 1, AtLeastOne(pattern.rounds));
    }
    assert ids[0] in LeafSet(scope, phase, pattern);
    assert Rootless(LeafOrder(LeafSet(scope, phase, pattern), pattern), ids[0]);
  }

  lemma {:induction false} PlanRootless(plan: Plan)
    requires NoDuplicates(PlanIds(plan)) && Members(plan) != {}
    ensures HasRootless(Members(plan), Imposed(plan, {}))
    decreases plan, 1
  {
    match plan
    case Leaf(scope, phase, pattern) =>
      LeafRootless(scope, phase, pattern);
      var ids := LeafSet(scope, phase, pattern);
      assert Cross({}, ids) + LeafOrder(ids, pattern) == LeafOrder(ids, pattern);
    case Series(parts) => SeriesRootless(parts);
    case Fork(branches) => ForkRootless(branches);
  }

  lemma {:induction false} SeriesRootless(parts: seq<Plan>)
    requires NoDuplicates(PlanIdsOf(parts)) && MembersOf(parts) != {}
    ensures HasRootless(MembersOf(parts), ImposedSeries(parts, {}))
    decreases parts, 0
  {
    var car := Carry(parts[0], {});
    Disjoint(parts);
    ImposedWithin(parts[0], {});
    ImposedSeriesWithin(parts[1..], car);
    if Members(parts[0]) != {} {
      PlanRootless(parts[0]);
      RootlessInPart(Imposed(parts[0], {}), ImposedSeries(parts[1..], car), Members(parts[0]), MembersOf(parts[1..]));
    } else {
      assert car == {};
      SeriesRootless(parts[1..]);
      RootlessInPart(ImposedSeries(parts[1..], car), Imposed(parts[0], {}), MembersOf(parts[1..]), Members(parts[0]));
      assert MembersOf(parts) == MembersOf(parts[1..]) + Members(parts[0]);
    }
  }

  lemma {:induction false} ForkRootless(branches: seq<Plan>)
    requires NoDuplicates(PlanIdsOf(branches)) && MembersOf(branches) != {}
    ensures HasRootless(MembersOf(branches), ImposedFork(branches, {}))
    decreases branches, 0
  {
    Disjoint(branches);
    ImposedWithin(branches[0], {});
    ImposedForkWithin(branches[1..], {});
    if Members(branches[0]) != {} {
      PlanRootless(branches[0]);
      RootlessInPart(Imposed(branches[0], {}), ImposedFork(branches[1..], {}), Members(branches[0]), MembersOf(branches[1..]));
    } else {
      ForkRootless(branches[1..]);
      RootlessInPart(ImposedFork(branches[1..], {}), Imposed(branches[0], {}), MembersOf(branches[1..]), Members(branches[0]));
      assert MembersOf(branches) == MembersOf(branches[1..]) + Members(branches[0]);
    }
  }

  // ---- What is carried into a plan reaches all of it, or the plan has such a task ----

  /** `c` precedes all the tasks and is carried on, or nothing is, or some task waits for nothing. */
  ghost predicate Reaches(c: TaskId, ids: set<TaskId>, order: Order, carry: set<TaskId>) {
    HasRootless(ids, order) || (Cross({c}, ids) <= order && (c in carry || carry == {}))
  }

  lemma {:induction false} CarriedReaches(plan: Plan, car: set<TaskId>, c: TaskId)
    requires NoDuplicates(PlanIds(plan)) && c in car
    ensures Reaches(c, Members(plan), Imposed(plan, car), Carry(plan, car))
    decreases plan, 1
  {
    match plan
    case Leaf(_, _, _) =>
    case Series(parts) => CarriedReachesSeries(parts, car, c);
    case Fork(branches) => CarriedReachesFork(branches, car, c);
  }

  lemma {:induction false} CarriedReachesSeries(parts: seq<Plan>, car: set<TaskId>, c: TaskId)
    requires NoDuplicates(PlanIdsOf(parts)) && c in car
    ensures Reaches(c, MembersOf(parts), ImposedSeries(parts, car), CarrySeries(parts, car))
    decreases parts, 0
  {
    if parts != [] {
      var carried := Carry(parts[0], car);
      var first, rest := Members(parts[0]), MembersOf(parts[1..]);
      var early, late := Imposed(parts[0], car), ImposedSeries(parts[1..], carried);
      Disjoint(parts);
      ImposedWithin(parts[0], car);
      ImposedSeriesWithin(parts[1..], carried);
      CarriedReaches(parts[0], car, c);
      if HasRootless(first, early) {
        RootlessInPart(early, late, first, rest);
      } else if c in carried {
        CarriedReachesSeries(parts[1..], carried, c);
        if HasRootless(rest, late) {
          RootlessInPart(late, early, rest, first);
          assert MembersOf(parts) == rest + first;
        }
      } else if rest != {} {
        SeriesRootless(parts[1..]);
        RootlessInPart(late, early, rest, first);
        assert MembersOf(parts) == rest + first;
      }
    }
  }

  lemma {:induction false} CarriedReachesFork(branches: seq<Plan>, car: set<TaskId>, c: TaskId)
    requires NoDuplicates(PlanIdsOf(branches)) && c in car
    ensures Reaches(c, MembersOf(branches), ImposedFork(branches, car), CarryFork(branches, car))
    decreases branches, 0
  {
    if branches != [] {
      var first, rest := Members(branches[0]), MembersOf(branches[1..]);
      var here, others := Imposed(branches[0], car), ImposedFork(branches[1..], car);
      Disjoint(branches);
      ImposedWithin(branches[0], car);
      ImposedForkWithin(branches[1..], car);
      CarriedReaches(branches[0], car, c);
      CarriedReachesFork(branches[1..], car, c);
      if HasRootless(first, here) {
        RootlessInPart(here, others, first, rest);
      } else if HasRootless(rest, others) {
        RootlessInPart(others, here, rest, first);
        assert MembersOf(branches) == rest + first;
      }
    }
  }

  // ---- A task that is still carried on at some point, and what must come after it ----

  /** The pair is imposed, or some task that must come after `c` waits for nothing. */
  ghost predicate ImposedOrStuck(c: TaskId, y: TaskId, imposed: Order, intended: Order) {
    (c, y) in imposed || exists z :: (c, z) in intended && Rootless(imposed, z)
  }

  lemma StuckInPart(c: TaskId, y: TaskId, imposed: Order, intended: Order, others: Order, more: Order, ids: set<TaskId>)
    requires ImposedOrStuck(c, y, imposed, intended)
    requires forall p | p in intended :: p.1 in ids
    requires forall p | p in others :: p.1 !in ids
    ensures ImposedOrStuck(c, y, imposed + others, intended + more)
    ensures ImposedOrStuck(c, y, others + imposed, more + intended)
  {
    if (c, y) !in imposed {
      var z :| (c, z) in intended && Rootless(imposed, z);
      assert Rootless(imposed + others, z) && Rootless(others + imposed, z);
      assert (c, z) in intended + more && (c, z) in more + intended;
    }
  }

  lemma BeforePlan(plan: Plan, car: set<TaskId>, pre: set<TaskId>, c: TaskId, y: TaskId)
    requires NoDuplicates(PlanIds(plan)) && c in car && car <= pre && y in Members(plan)
    ensures ImposedOrStuck(c, y, Imposed(plan, car), Intended(plan, pre))
  {
    CarriedReaches(plan, car, c);
    IntendedWithin(plan, pre);
    if HasRootless(Members(plan), Imposed(plan, car)) {
      var z :| z in Members(plan) && Rootless(Imposed(plan, car), z);
      assert (c, z) in Cross(pre, Members(plan));
    } else {
      assert (c, y) in Cross({c}, Members(plan));
    }
  }

  lemma {:induction false} CarriedShows(plan: Plan, car: set<TaskId>, pre: set<TaskId>, c: TaskId, y: TaskId)
    requires NoDuplicates(PlanIds(plan)) && pre !! Members(plan) && car <= pre
    requires c in Carry(plan, car) && (c, y) in Intended(plan, pre)
    ensures ImposedOrStuck(c, y, Imposed(plan, car), Intended(plan, pre))
    decreases plan, 1
  {
    match plan
    case Leaf(_, _, _) =>
    case Series(parts) =>
      assert parts[..|parts|] == parts;
      CarriedShowsSeries(parts, car, pre, |parts|, c, y);
    case Fork(branches) => CarriedShowsFork(branches, car, pre, c, y);
  }

  /** `c` is still carried on after the first `m` parts. */
  lemma {:induction false} CarriedShowsSeries(
      parts: seq<Plan>, car: set<TaskId>, pre: set<TaskId>, m: nat, c: TaskId, y: TaskId)
    requires NoDuplicates(PlanIdsOf(parts)) && pre !! MembersOf(parts) && car <= pre && m <= |parts|
    requires c in CarrySeries(parts[..m], car) && (c, y) in IntendedSeries(parts, pre)
    ensures ImposedOrStuck(c, y, ImposedSeries(parts, car), IntendedSeries(parts, pre))
    decreases parts, 0
  {
    IntendedSeriesWithin(parts, pre);
    var p, rest := parts[0], parts[1..];
    var pre', car' := pre + Members(p), Carry(p, car);
    Disjoint(parts);
    ImposedWithin(p, car);
    IntendedWithin(p, pre);
    ImposedSeriesWithin(rest, car');
    IntendedSeriesWithin(rest, pre');
    if m == 0 {
      assert parts[..0] == [];
      var whole := Series(parts);
      BeforePlan(whole, car, pre, c, y);
    } else {
      assert parts[..m][0] == p && parts[..m][1..] == rest[..m - 1];
      if y in Members(p) {
        MembersOfPrefix(rest, m - 1);
        ImposedSeriesWithin(rest[..m - 1], car');
        if c in pre {
          BeforePlan(p, car, pre, c, y);
        } else {
          CarriedShows(p, car, pre, c, y);
        }
        StuckInPart(c, y, Imposed(p, car), Intended(p, pre), ImposedSeries(rest, car'), IntendedSeries(rest, pre'), Members(p));
      } else {
        CarriedShowsSeries(rest, car', pre', m - 1, c, y);
        StuckInPart(c, y, ImposedSeries(rest, car'), IntendedSeries(rest, pre'), Imposed(p, car), Intended(p, pre),
                    MembersOf(rest));
      }
    }
  }

  lemma {:induction false} MembersOfPrefix(plans: seq<Plan>, m: nat)
    requires m <= |plans|
    ensures MembersOf(plans[..m]) <= MembersOf(plans)
    decreases plans
  {
    if m > 0 {
      assert plans[..m][1..] == plans[1..][..m - 1];
      MembersOfPrefix(plans[1..], m - 1);
    }
  }

  lemma {:induction false} CarriedShowsFork(branches: seq<Plan>, car: set<TaskId>, pre: set<TaskId>, c: TaskId, y: TaskId)
    requires NoDuplicates(PlanIdsOf(branches)) && pre !! MembersOf(branches) && car <= pre
    requires c in CarryFork(branches, car) && (c, y) in IntendedFork(branches, pre)
    ensures ImposedOrStuck(c, y, ImposedFork(branches, car), IntendedFork(branches, pre))
    decreases branches, 0
  {
    var b, rest := branches[0], branches[1..];
    Disjoint(branches);
    ImposedWithin(b, car);
    IntendedWithin(b, pre);
    ImposedForkWithin(rest, car);
    IntendedForkWithin(rest, pre);
    if y in Members(b) {
      if c in pre {
        BeforePlan(b, car, pre, c, y);
      } else {
        CarriedShows(b, car, pre, c, y);
      }
      StuckInPart(c, y, Imposed(b, car), Intended(b, pre), ImposedFork(rest, car), IntendedFork(rest, pre), Members(b));
    } else {
      if c in pre {
        BeforePlan(Fork(rest), car, pre, c, y);
      } else {
        CarriedShowsFork(rest, car, pre, c, y);
      }
      StuckInPart(c, y, ImposedFork(rest, car), IntendedFork(rest, pre), Imposed(b, car), Intended(b, pre), MembersOf(rest));
    }
  }

  // ---- The imposed order never goes beyond the intended one ----

  lemma {:induction false} ImposedIsIntended(plan: Plan, car: set<TaskId>, pre: set<TaskId>)
    requires car <= pre
    ensures Imposed(plan, car) <= Intended(plan, pre)
    decreases plan, 1
  {
    match plan
    case Leaf(_, _, _) =>
    case Series(parts) => SeriesIsIntended(parts, car, pre);
    case Fork(branches) => ForkIsIntended(branches, car, pre);
  }

  lemma {:induction false} SeriesIsIntended(parts: seq<Plan>, car: set<TaskId>, pre: set<TaskId>)
    requires car <= pre
    ensures ImposedSeries(parts, car) <= IntendedSeries(parts, pre)
    decreases parts, 0
  {
    if parts != [] {
      ImposedWithin(parts[0], car);
      ImposedIsIntended(parts[0], car, pre);
      SeriesIsIntended(parts[1..], Carry(parts[0], car), pre + Members(parts[0]));
    }
  }

  lemma {:induction false} ForkIsIntended(branches: seq<Plan>, car: set<TaskId>, pre: set<TaskId>)
    requires car <= pre
    ensures ImposedFork(branches, car) <= IntendedFork(branches, pre)
    decreases branches, 0
  {
    if branches != [] {
      ImposedIsIntended(branches[0], car, pre);
      ForkIsIntended(branches[1..], car, pre);
    }
  }

  /** Cutting a series in two. */
  lemma {:induction false} CutSeries(parts: seq<Plan>, car: set<TaskId>, m: nat)
    requires m <= |parts|
    ensures ImposedSeries(parts, car)
         == ImposedSeries(parts[..m], car) + ImposedSeries(parts[m..], CarrySeries(parts[..m], car))
    ensures PlanIdsOf(parts) == PlanIdsOf(parts[..m]) + PlanIdsOf(parts[m..])
    decreases parts
  {
    if m == 0 {
      assert parts[..0] == [] && parts[0..] == parts;
    } else {
      var rest := parts[1..];
      assert parts[..m][0] == parts[0] && parts[..m][1..] == rest[..m - 1] && parts[m..] == rest[m - 1..];
      CutSeries(rest, Carry(parts[0], car), m - 1);
      var a, b, c := Imposed(parts[0], car), ImposedSeries(rest[..m - 1], Carry(parts[0], car)),
                     ImposedSeries(parts[m..], CarrySeries(parts[..m], car));
      assert a + (b + c) == (a + b) + c;
      var x, y, z := PlanIds(parts[0]), PlanIdsOf(rest[..m - 1]), PlanIdsOf(parts[m..]);
      assert x + (y + z) == (x + y) + z;
    }
  }
}
