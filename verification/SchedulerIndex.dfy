// The reverse index agrees with the waiting map after every step, so no wake-up is lost and a
// failure takes down exactly the tasks that wait for it, directly or through others.

module SchedulerIndex {
  import opened Wrappers
  import opened Tasks
  import opened Scheduler
  import opened SchedulerSafety

  // ---- Counting index entries ----

  /** How often `t` is listed under `d`. */
  ghost function Listings(dependents: map<Id, seq<Id>>, d: Id, t: Id): nat {
    multiset(Listed(dependents, d))[t]
  }

  ghost function Less(a: nat, b: nat): nat {
    if a < b then 0 else a - b
  }

  lemma {:induction false} UnlinkCount(
      dependents: map<Id, seq<Id>>, deps: seq<Id>, id: Id, skip: Option<Id>, d: Id, t: Id)
    ensures Listings(Unlink(dependents, deps, id, skip), d, t)
         == if t == id && Some(d) != skip then Less(Listings(dependents, d, t), multiset(deps)[d])
            else Listings(dependents, d, t)
    decreases deps
  {
    if deps != [] {
      var x := deps[0];
      CountTail(deps, d);
      var rest := if Some(x) != skip && x in dependents
                  then dependents[x := RemoveFirst(dependents[x], id)] else dependents;
      UnlinkCount(rest, deps[1..], id, skip, d, t);
      UnlinkOneCount(dependents, x, id, skip, d, t);
    }
  }

  lemma CountTail(deps: seq<Id>, d: Id)
    requires deps != []
    ensures multiset(deps)[d] == multiset(deps[1..])[d] + if d == deps[0] then 1 else 0
  {
    assert deps == [deps[0]] + deps[1..];
  }

  lemma UnlinkOneCount(
      dependents: map<Id, seq<Id>>, x: Id, id: Id, skip: Option<Id>, d: Id, t: Id)
    ensures var rest := if Some(x) != skip && x in dependents
                        then dependents[x := RemoveFirst(dependents[x], id)] else dependents;
            Listings(rest, d, t)
            == if t == id && Some(d) != skip && d == x then Less(Listings(dependents, d, t), 1)
               else Listings(dependents, d, t)
  {
  }

  lemma {:induction false} LinkCount(dependents: map<Id, seq<Id>>, deps: seq<Id>, id: Id, d: Id, t: Id)
    ensures Listings(Link(dependents, deps, id), d, t)
         == Listings(dependents, d, t) + if t == id then multiset(deps)[d] else 0
    decreases deps
  {
    if deps != [] {
      var x := deps[0];
      assert deps == [x] + deps[1..];
      var listed := if x in dependents then dependents[x] else [];
      LinkCount(dependents[x := listed + [id]], deps[1..], id, d, t);
    }
  }

  lemma {:induction false} UnmetCount(s: State, deps: seq<Id>, d: Id)
    ensures multiset(Unmet(s, deps))[d] == if d in s.completed then 0 else multiset(deps)[d]
    decreases deps
  {
    if deps != [] {
      assert deps == [deps[0]] + deps[1..];
      UnmetCount(s, deps[1..], d);
    }
  }

  // ---- Agreement ----

  /** How often a waiting task names a dependency that has not completed. */
  ghost function Expected(s: State, d: Id, t: Id): nat {
    if t in s.waiting && d !in s.completed then multiset(s.waiting[t].dependsOn)[d] else 0
  }

  /** Entries for ids in `popped` have been taken out of the index. */
  ghost predicate Agrees(s: State, popped: set<Id>, d: Id, t: Id) {
    Listings(s.dependents, d, t) == if d in popped then 0 else Expected(s, d, t)
  }

  ghost predicate Indexed(s: State, popped: set<Id>) {
    forall d, t :: Agrees(s, popped, d, t)
  }

  // ---- Cascading failure ----

  /** Waiting tasks, the first of which waits for `cause` and each other for its predecessor. */
  ghost predicate WaitChain(waiting: map<Id, Task>, cause: Id, path: seq<Id>) {
    && path != []
    && (forall k | 0 <= k < |path| :: path[k] in waiting)
    && cause in waiting[path[0]].dependsOn
    && (forall k | 0 <= k < |path| - 1 :: path[k] in waiting[path[k + 1]].dependsOn)
  }

  ghost predicate WaitsFor(waiting: map<Id, Task>, cause: Id, t: Id) {
    exists path :: WaitChain(waiting, cause, path) && path[|path| - 1] == t
  }

  lemma WaitsDirectly(waiting: map<Id, Task>, cause: Id, t: Id)
    requires t in waiting && cause in waiting[t].dependsOn
    ensures WaitsFor(waiting, cause, t)
  {
    assert WaitChain(waiting, cause, [t]);
  }

  lemma WaitsThrough(less: map<Id, Task>, waiting: map<Id, Task>, cause: Id, id: Id, t: Id)
    requires Shrinks(less, waiting) && id in waiting && cause in waiting[id].dependsOn
    requires WaitsFor(less, id, t)
    ensures WaitsFor(waiting, cause, t)
  {
    var tail :| WaitChain(less, id, tail) && tail[|tail| - 1] == t;
    var path := [id] + tail;
    assert forall k | 0 <= k < |path| :: path[k] in waiting;
    forall k | 0 <= k < |path| - 1
      ensures path[k] in waiting[path[k + 1]].dependsOn
    {
      assert path[k + 1] == tail[k];
      if k > 0 {
        assert tail[k - 1] in less[tail[k - 1 + 1]].dependsOn;
      }
    }
    assert WaitChain(waiting, cause, path);
  }

  lemma WaitsMore(less: map<Id, Task>, waiting: map<Id, Task>, cause: Id, t: Id)
    requires Shrinks(less, waiting) && WaitsFor(less, cause, t)
    ensures WaitsFor(waiting, cause, t)
  {
    var path :| WaitChain(less, cause, path) && path[|path| - 1] == t;
    assert WaitChain(waiting, cause, path);
  }

  ghost function Removed(s: State, r: State): set<Id> {
    s.waiting.Keys - r.waiting.Keys
  }

  ghost predicate FreeOf(r: State, x: Id) {
    forall t | t in r.waiting :: x !in r.waiting[t].dependsOn
  }

  /** What a cascade caused by `cause` has done, when the entries of `popped` were already taken out. */
  ghost predicate Cascaded(s: State, r: State, popped: set<Id>, cause: Id) {
    && OnlyFails(s, r)
    && Indexed(r, popped + Removed(s, r))
    && (forall x | x in Removed(s, r) :: FreeOf(r, x))
    && (forall t | t in Removed(s, r) :: WaitsFor(s.waiting, cause, t))
  }

  lemma FailWaitingIndexed(s: State, cause: Id, id: Id, popped: set<Id>)
    requires Indexed(s, popped) && cause in popped && id in s.waiting
    ensures Indexed(FailWaiting(s, cause, id), popped)
  {
    var r := FailWaiting(s, cause, id);
    forall d, t
      ensures Agrees(r, popped, d, t)
    {
      assert Agrees(s, popped, d, t);
      UnlinkCount(s.dependents, s.waiting[id].dependsOn, id, Some(cause), d, t);
    }
  }

  lemma PopIndexed(s: State, id: Id, popped: set<Id>)
    requires Indexed(s, popped)
    ensures Indexed(s.(dependents := Without(s.dependents, id)), popped + {id})
  {
    var r := s.(dependents := Without(s.dependents, id));
    forall d, t
      ensures Agrees(r, popped + {id}, d, t)
    {
      assert Agrees(s, popped, d, t);
    }
  }

  /** The list popped for `id` holds exactly the waiting tasks that depend on it. */
  lemma ListedExact(s: State, id: Id, popped: set<Id>)
    requires Indexed(s, popped) && id !in popped && id !in s.completed
    ensures forall t :: t in Listed(s.dependents, id) <==> t in s.waiting && id in s.waiting[t].dependsOn
  {
    forall t
      ensures t in Listed(s.dependents, id) <==> t in s.waiting && id in s.waiting[t].dependsOn
    {
      assert Agrees(s, popped, id, t);
      assert t in Listed(s.dependents, id) <==> multiset(Listed(s.dependents, id))[t] > 0;
      if t in s.waiting {
        var deps := s.waiting[t].dependsOn;
        assert id in deps <==> multiset(deps)[id] > 0;
      }
    }
  }

  lemma {:induction false} OnDepFailedCascades(s: State, id: Id, popped: set<Id>)
    requires Indexed(s, popped) && popped !! s.waiting.Keys && s.waiting.Keys !! s.completed
    requires id !in s.waiting && id !in popped && id !in s.completed
    ensures var r := OnDepFailed(s, id); Cascaded(s, r, popped + {id}, id) && FreeOf(r, id)
    decreases s.waiting.Keys, 1, 0
  {
    var taken := s.(dependents := Without(s.dependents, id));
    var listed := Listed(s.dependents, id);
    PopIndexed(s, id, popped);
    ListedExact(s, id, popped);
    CascadeCascades(taken, id, listed, popped + {id});
    var r := OnDepFailed(s, id);
    assert Removed(s, r) == Removed(taken, r);
    forall t | t in r.waiting
      ensures id !in r.waiting[t].dependsOn
    {
      assert t !in listed;
    }
  }

  lemma {:induction false} CascadeCascades(s: State, cause: Id, listed: seq<Id>, popped: set<Id>)
    requires Indexed(s, popped) && popped !! s.waiting.Keys && s.waiting.Keys !! s.completed && cause in popped
    requires forall x | x in listed && x in s.waiting :: cause in s.waiting[x].dependsOn
    ensures var r := Cascade(s, cause, listed);
            Cascaded(s, r, popped, cause) && forall x | x in listed :: x !in r.waiting
    decreases s.waiting.Keys, 0, |listed|
  {
    if listed == [] {
      assert popped + Removed(s, s) == popped;
    } else {
      var id := listed[0];
      if id !in s.waiting {
        CascadeCascades(s, cause, listed[1..], popped);
      } else {
        var failed := FailWaiting(s, cause, id);
        FailWaitingIndexed(s, cause, id, popped);
        OnDepFailedCascades(failed, id, popped);
        var next := OnDepFailed(failed, id);
        CascadeCascades(next, cause, listed[1..], popped + {id} + Removed(failed, next));
        var r := Cascade(next, cause, listed[1..]);
        CascadesCompose(s, failed, next, r, popped, cause, id);
      }
    }
  }

  lemma CascadesCompose(
      s: State, failed: State, next: State, r: State, popped: set<Id>, cause: Id, id: Id)
    requires id in s.waiting && cause in s.waiting[id].dependsOn && failed == FailWaiting(s, cause, id)
    requires Cascaded(failed, next, popped + {id}, id) && FreeOf(next, id)
    requires Cascaded(next, r, popped + {id} + Removed(failed, next), cause)
    ensures Cascaded(s, r, popped, cause)
  {
    RemovedSplit(s, failed, next, r, id);
    assert popped + {id} + Removed(failed, next) + Removed(next, r) == popped + Removed(s, r);
    forall x | x in Removed(s, r)
      ensures FreeOf(r, x)
    {
      if x !in Removed(next, r) {
        assert FreeOf(next, x);
      }
    }
    forall t | t in Removed(s, r)
      ensures WaitsFor(s.waiting, cause, t)
    {
      if t == id {
        WaitsDirectly(s.waiting, cause, t);
      } else if t in Removed(failed, next) {
        WaitsThrough(failed.waiting, s.waiting, cause, id, t);
      } else {
        WaitsMore(next.waiting, s.waiting, cause, t);
      }
    }
  }

  lemma RemovedSplit(s: State, failed: State, next: State, r: State, id: Id)
    requires id in s.waiting && Shrinks(failed.waiting, s.waiting) && failed.waiting.Keys == s.waiting.Keys - {id}
    requires failed == s.(waiting := failed.waiting, dependents := failed.dependents, failed := s.failed + {id})
    requires OnlyFails(failed, next) && OnlyFails(next, r)
    ensures Removed(s, r) == {id} + Removed(failed, next) + Removed(next, r)
    ensures OnlyFails(s, r)
  {
    assert Removed(s, r) == {id} + Removed(failed, next) + Removed(next, r);
    assert r.failed == s.failed + Removed(s, r);
  }

  lemma {:induction false} ChainRemoved(s: State, r: State, cause: Id, path: seq<Id>, k: nat)
    requires OnlyFails(s, r) && FreeOf(r, cause) && forall x | x in Removed(s, r) :: FreeOf(r, x)
    requires WaitChain(s.waiting, cause, path) && k < |path|
    ensures path[k] !in r.waiting
    decreases k
  {
    if k > 0 {
      ChainRemoved(s, r, cause, path, k - 1);
      assert path[k - 1] in s.waiting[path[k - 1 + 1]].dependsOn;
      assert path[k - 1] in Removed(s, r);
    }
  }

  /**
    * Cascade exactness: a final failure takes out of the waiting map exactly the tasks that wait
    * for the failed one through a chain of waiting tasks, marks exactly those failed, and leaves
    * the index in agreement. Diamonds and cycles among waiting tasks are included.
    */
  lemma CascadeExact(s: State, id: Id)
    requires Indexed(s, {}) && s.waiting.Keys !! s.completed && id !in s.waiting && id !in s.completed
    ensures var r := OnDepFailed(s, id);
            && r == s.(waiting := r.waiting, dependents := r.dependents, failed := r.failed)
            && (forall t :: t in r.waiting <==> t in s.waiting && !WaitsFor(s.waiting, id, t))
            && (forall t | t in r.waiting :: r.waiting[t] == s.waiting[t])
            && (forall t :: t in r.failed <==> t in s.failed || (t in s.waiting && WaitsFor(s.waiting, id, t)))
            && Indexed(r, {})
  {
    var r := OnDepFailed(s, id);
    OnDepFailedCascades(s, id, {});
    forall t | t in s.waiting
      ensures t in r.waiting <==> !WaitsFor(s.waiting, id, t)
    {
      if t !in r.waiting {
        assert t in Removed(s, r);
      } else if WaitsFor(s.waiting, id, t) {
        var path :| WaitChain(s.waiting, id, path) && path[|path| - 1] == t;
        ChainRemoved(s, r, id, path, |path| - 1);
      }
    }
    var gone := {} + {id} + Removed(s, r);
    forall d, t
      ensures Agrees(r, {}, d, t)
    {
      assert Agrees(r, gone, d, t);
      if d in gone && t in r.waiting {
        assert FreeOf(r, d);
        assert multiset(r.waiting[t].dependsOn)[d] == 0;
      }
    }
  }

  // ---- Releasing ----

  /** A waiting task that still has something to wait for. */
  ghost predicate Blocked(s: State, t: Id) {
    t in s.waiting ==> exists d :: d in s.waiting[t].dependsOn && d !in s.completed
  }

  ghost predicate NoLostWakeUp(s: State) {
    forall t :: Blocked(s, t)
  }

  lemma ReleaseOneIndexed(s: State, completed: Id, id: Id)
    requires Indexed(s, {}) && id in s.waiting && AllCompleted(s, s.waiting[id].dependsOn)
    ensures Indexed(ReleaseOne(s, completed, id), {})
  {
    var r := ReleaseOne(s, completed, id);
    var deps := s.waiting[id].dependsOn;
    forall d, t
      ensures Agrees(r, {}, d, t)
    {
      assert Agrees(s, {}, d, t);
      UnlinkCount(s.dependents, deps, id, Some(completed), d, t);
      if d !in s.completed {
        assert d !in deps;
        assert multiset(deps)[d] == 0;
      }
    }
  }

  lemma {:induction false} ReleaseIndexed(s: State, completed: Id, listed: seq<Id>)
    requires WaitingApart(s) && Indexed(s, {})
    ensures var r := Release(s, completed, listed);
            Indexed(r, {}) && forall x | x in listed :: Blocked(r, x)
    decreases listed
  {
    if listed != [] {
      var id := listed[0];
      var next := s;
      if id in s.waiting && AllCompleted(s, s.waiting[id].dependsOn) {
        next := ReleaseOne(s, completed, id);
        ReleaseOneMoves(s, completed, id);
        ReleaseOneIndexed(s, completed, id);
      }
      assert Blocked(next, id);
      ReleaseIndexed(next, completed, listed[1..]);
      ReleaseMoves(next, completed, listed[1..]);
    }
  }

  /**
    * Completing a task: the index stays in agreement, and every waiting task left behind still has
    * an unmet dependency.
    */
  lemma CompletionWakesAll(s: State, id: Id)
    requires WaitingApart(s) && Indexed(s, {}) && NoLostWakeUp(s) && id !in s.completed
    ensures var r := OnDepSatisfied(s.(completed := s.completed + {id}), id);
            Indexed(r, {}) && NoLostWakeUp(r)
  {
    var done := s.(completed := s.completed + {id});
    var popped := done.(dependents := Without(done.dependents, id));
    var listed := Listed(s.dependents, id);
    var r := OnDepSatisfied(done, id);
    ListedExact(s, id, {});
    forall d, t
      ensures Agrees(popped, {}, d, t)
    {
      assert Agrees(s, {}, d, t);
    }
    ReleaseIndexed(popped, id, listed);
    ReleaseMoves(popped, id, listed);
    forall t
      ensures Blocked(r, t)
    {
      if t in r.waiting && t !in listed {
        assert Blocked(s, t);
      }
    }
  }
}
