// Broadcast groups: the same task sent to several agents, and what the group's outcome is for every
// order in which the final results arrive.

module Broadcast {
  import opened PhaseSpecs
  import opened Tasks
  import opened Wrappers
  import Dag

  datatype Mode = Race | Gather

  datatype GroupStatus = Pending | Running | Complete | Failed

  /** `awaited` are the tasks still mapped to the group; `cancelRequests` lists the cancellations asked for. */
  datatype Group = Group(
    mode: Mode, taskIds: seq<Id>, awaited: set<Id>, completed: set<Id>, failed: set<Id>, cancelled: bool,
    winner: Option<Id>, status: GroupStatus, cancelRequests: seq<Id>)

  function NewGroup(mode: Mode, taskIds: seq<Id>): Group {
    Group(mode, taskIds, set t | t in taskIds, {}, {}, false, None, if taskIds == [] then Complete else Pending, [])
  }

  function Others(ids: seq<Id>, id: Id, completed: set<Id>, failed: set<Id>): (r: seq<Id>)
    ensures forall t :: t in r <==> t in ids && t != id && t !in completed && t !in failed
  {
    if ids == [] then []
    else (if ids[0] != id && ids[0] !in completed && ids[0] !in failed then [ids[0]] else [])
         + Others(ids[1..], id, completed, failed)
  }

  datatype Result = Result(id: Id, ok: bool)

  function Succeed(g: Group, id: Id): Group {
    var done := g.(completed := g.completed + {id}, status := Running);
    if g.mode.Race? then
      if g.winner.Some? then done
      else done.(winner := Some(id), status := Complete, cancelled := true,
                 cancelRequests := g.cancelRequests + Others(g.taskIds, id, done.completed, g.failed))
    else if |done.completed| + |g.failed| >= |g.taskIds| then done.(status := Complete)
    else done
  }

  function Fail(g: Group, id: Id): Group {
    var done := g.(failed := g.failed + {id}, status := Running);
    if g.mode.Gather? then
      if |g.completed| + |done.failed| >= |g.taskIds| then done.(status := if g.completed != {} then Complete else Failed)
      else done
    else if (forall t | t in g.taskIds :: t in done.failed || t in g.completed) && g.completed == {}
    then done.(status := Failed)
    else done
  }

  /** The first final result of each task counts, unless the group has been decided by a race. */
  function Receive(g: Group, r: Result): Group {
    if r.id !in g.awaited then g
    else
      var popped := g.(awaited := g.awaited - {r.id});
      if g.cancelled then popped else if r.ok then Succeed(popped, r.id) else Fail(popped, r.id)
  }

  function ReceiveAll(g: Group, results: seq<Result>): Group {
    if results == [] then g else Receive(ReceiveAll(g, results[..|results| - 1]), results[|results| - 1])
  }

  // ---- What counts ----

  /** The first result reported for the task. */
  function FirstResult(results: seq<Result>, id: Id): (r: Option<Result>)
    ensures r.Some? ==> r.value in results && r.value.id == id
    ensures r.None? ==> forall x | x in results :: x.id != id
  {
    if results == [] then None
    else match FirstResult(results[..|results| - 1], id)
      case Some(r) => Some(r)
      case None => if results[|results| - 1].id == id then Some(results[|results| - 1]) else None
  }

  predicate Succeeded(results: seq<Result>, id: Id) {
    FirstResult(results, id) == Some(Result(id, true))
  }

  predicate HasFailed(results: seq<Result>, id: Id) {
    FirstResult(results, id) == Some(Result(id, false))
  }

  ghost predicate SomeSuccess(taskIds: seq<Id>, results: seq<Result>) {
    exists t :: t in taskIds && Succeeded(results, t)
  }

  ghost predicate AllIn(taskIds: seq<Id>, results: seq<Result>) {
    forall t | t in taskIds :: FirstResult(results, t).Some?
  }

  ghost predicate NothingIn(taskIds: seq<Id>, results: seq<Result>) {
    forall t | t in taskIds :: FirstResult(results, t).None?
  }

  /** The results before a task's own first one. */
  ghost predicate FirstToSucceed(taskIds: seq<Id>, results: seq<Result>, id: Id) {
    exists k :: 0 <= k < |results| && WonAt(taskIds, results, id, k)
  }

  ghost predicate WonAt(taskIds: seq<Id>, results: seq<Result>, id: Id, k: nat)
    requires k < |results|
  {
    id in taskIds && !SomeSuccess(taskIds, results[..k]) && Succeeded(results[..k + 1], id)
  }

  // ---- The sets ----

  /** While nothing is cancelled, each task is where its first result puts it. */
  ghost predicate Placed(g: Group, results: seq<Result>, t: Id) {
    && (t in g.awaited <==> t in g.taskIds && FirstResult(results, t).None?)
    && (!g.cancelled ==> (t in g.completed <==> t in g.taskIds && Succeeded(results, t))
                         && (t in g.failed <==> t in g.taskIds && HasFailed(results, t)))
  }

  lemma NextResult(results: seq<Result>, r: Result, t: Id)
    ensures FirstResult(results + [r], t)
         == if FirstResult(results, t).Some? then FirstResult(results, t) else if r.id == t then Some(r) else None
  {
    assert (results + [r])[..|results|] == results;
  }

  lemma {:induction false} AllPlaced(mode: Mode, taskIds: seq<Id>, results: seq<Result>)
    ensures var g := ReceiveAll(NewGroup(mode, taskIds), results);
            g.mode == mode && g.taskIds == taskIds && forall t :: Placed(g, results, t)
    decreases |results|
  {
    if results != [] {
      var before, r := results[..|results| - 1], results[|results| - 1];
      assert results == before + [r];
      AllPlaced(mode, taskIds, before);
      var g := ReceiveAll(NewGroup(mode, taskIds), before);
      var next := Receive(g, r);
      assert Placed(g, before, r.id);
      forall t
        ensures Placed(next, results, t)
      {
        assert Placed(g, before, t);
        NextResult(before, r, t);
      }
    }
  }

  lemma Sizes(taskIds: seq<Id>, completed: set<Id>, failed: set<Id>)
    requires NoDuplicates(taskIds) && completed !! failed
    requires forall t | t in completed || t in failed :: t in taskIds
    ensures |completed| + |failed| >= |taskIds| <==> forall t | t in taskIds :: t in completed || t in failed
  {
    var all := Dag.Elements(taskIds);
    Dag.DistinctSize(taskIds);
    assert |completed + failed| == |completed| + |failed|;
    assert completed + failed <= all;
    Dag.SubsetSize(completed + failed, all);
    if |completed| + |failed| >= |taskIds| {
      assert completed + failed == all;
      assert forall t | t in taskIds :: t in all;
    } else if forall t | t in taskIds :: t in completed || t in failed {
      assert all <= completed + failed;
      Dag.SubsetSize(all, completed + failed);
    }
  }

  // ---- Outcomes ----

  /**
    * Race: after any results in any order the group is complete exactly if some task succeeded, with
    * the first to succeed as winner for ever; failed exactly if all tasks failed; otherwise running
    * once a result is in.
    */
  lemma {:induction false} RaceOutcome(taskIds: seq<Id>, results: seq<Result>)
    requires taskIds != []
    ensures var g := ReceiveAll(NewGroup(Race, taskIds), results);
            && (g.status.Complete? <==> SomeSuccess(taskIds, results))
            && (g.status.Failed? <==> forall t | t in taskIds :: HasFailed(results, t))
            && (g.status.Pending? <==> NothingIn(taskIds, results))
            && (g.cancelled <==> g.status.Complete?) && (g.winner.Some? <==> g.status.Complete?)
            && (g.winner.Some? ==> FirstToSucceed(taskIds, results, g.winner.value))
    decreases |results|
  {
    var g := ReceiveAll(NewGroup(Race, taskIds), results);
    assert taskIds[0] in taskIds;
    if results != [] {
      var before, r := results[..|results| - 1], results[|results| - 1];
      assert results == before + [r];
      var m := ReceiveAll(NewGroup(Race, taskIds), before);
      RaceOutcome(taskIds, before);
      AllPlaced(Race, taskIds, before);
      AllPlaced(Race, taskIds, results);
      RaceStep(taskIds, before, r, m);
    }
  }

  /** The results up to the winner's own. */
  ghost predicate DecidedBy(taskIds: seq<Id>, results: seq<Result>, g: Group, k: nat)
    requires k < |results|
  {
    && g.winner.Some? && WonAt(taskIds, results, g.winner.value, k)
    && forall t :: t in g.cancelRequests <==> t in taskIds && FirstResult(results[..k + 1], t).None?
  }

  lemma {:induction false} SilentOthers(ids: seq<Id>, id: Id, completed: set<Id>, failed: set<Id>)
    requires NoDuplicates(ids)
    ensures NoDuplicates(Others(ids, id, completed, failed))
  {
    if ids != [] {
      assert forall i, j | 0 <= i < j < |ids[1..]| :: ids[1..][i] == ids[i + 1] && ids[1..][j] == ids[j + 1];
      SilentOthers(ids[1..], id, completed, failed);
      forall x | x in Others(ids[1..], id, completed, failed)
        ensures x != ids[0]
      {
        var i :| 0 <= i < |ids[1..]| && ids[1..][i] == x;
        assert ids[0] != ids[i + 1];
      }
    }
  }

  /**
    * Race: nothing is cancelled before a task succeeds; when the first one does, exactly the tasks that
    * have no result yet are, each once, and nothing is cancelled afterwards.
    */
  lemma {:induction false} RaceCancels(taskIds: seq<Id>, results: seq<Result>)
    requires taskIds != []
    ensures var g := ReceiveAll(NewGroup(Race, taskIds), results);
            && (g.winner.None? ==> g.cancelRequests == [])
            && (g.winner.Some? ==> exists k :: 0 <= k < |results| && DecidedBy(taskIds, results, g, k))
            && (NoDuplicates(taskIds) ==> NoDuplicates(g.cancelRequests))
    decreases |results|
  {
    if results != [] {
      var before, r := results[..|results| - 1], results[|results| - 1];
      assert results == before + [r];
      RaceCancels(taskIds, before);
      RaceOutcome(taskIds, before);
      AllPlaced(Race, taskIds, before);
      CancelsStep(taskIds, before, r, ReceiveAll(NewGroup(Race, taskIds), before));
    }
  }

  lemma CancelsStep(taskIds: seq<Id>, before: seq<Result>, r: Result, m: Group)
    requires m.mode == Race && m.taskIds == taskIds && (m.cancelled <==> m.winner.Some?)
    requires m.winner.None? ==> m.cancelRequests == [] && !SomeSuccess(taskIds, before)
    requires m.winner.Some? ==> exists k :: 0 <= k < |before| && DecidedBy(taskIds, before, m, k)
    requires NoDuplicates(taskIds) ==> NoDuplicates(m.cancelRequests)
    requires forall t :: Placed(m, before, t)
    ensures var g, results := Receive(m, r), before + [r];
            && (g.winner.None? ==> g.cancelRequests == [])
            && (g.winner.Some? ==> exists k :: 0 <= k < |results| && DecidedBy(taskIds, results, g, k))
            && (NoDuplicates(taskIds) ==> NoDuplicates(g.cancelRequests))
  {
    var g, results := Receive(m, r), before + [r];
    if m.winner.Some? {
      var k :| 0 <= k < |before| && DecidedBy(taskIds, before, m, k);
      StaysDecided(taskIds, before, r, m, g, k);
    } else if g.winner.Some? {
      if NoDuplicates(taskIds) {
        SilentOthers(taskIds, r.id, m.completed + {r.id}, m.failed);
      }
      JustDecided(taskIds, before, r, m);
    }
  }

  lemma StaysDecided(taskIds: seq<Id>, before: seq<Result>, r: Result, m: Group, g: Group, k: nat)
    requires k < |before| && DecidedBy(taskIds, before, m, k) && g.winner == m.winner && g.cancelRequests == m.cancelRequests
    ensures DecidedBy(taskIds, before + [r], g, k)
  {
    assert (before + [r])[..k] == before[..k] && (before + [r])[..k + 1] == before[..k + 1];
  }

  lemma JustDecided(taskIds: seq<Id>, before: seq<Result>, r: Result, m: Group)
    requires m.mode == Race && m.taskIds == taskIds && m.winner.None? && m.cancelRequests == [] && !m.cancelled
    requires !SomeSuccess(taskIds, before) && forall t :: Placed(m, before, t)
    requires Receive(m, r).winner.Some?
    ensures DecidedBy(taskIds, before + [r], Receive(m, r), |before|)
  {
    var g, results := Receive(m, r), before + [r];
    assert results[..|before|] == before && results[..|before| + 1] == results;
    assert Placed(m, before, r.id);
    NextResult(before, r, r.id);
    forall t
      ensures t in g.cancelRequests <==> t in taskIds && FirstResult(results, t).None?
    {
      assert Placed(m, before, t);
      NextResult(before, r, t);
    }
  }

  lemma RaceStep(taskIds: seq<Id>, before: seq<Result>, r: Result, m: Group)
    requires taskIds != [] && m.mode == Race && m.taskIds == taskIds
    requires forall t :: Placed(m, before, t)
    requires forall t :: Placed(Receive(m, r), before + [r], t)
    requires m.status.Complete? <==> SomeSuccess(taskIds, before)
    requires m.status.Failed? <==> forall t | t in taskIds :: HasFailed(before, t)
    requires m.status.Pending? <==> NothingIn(taskIds, before)
    requires (m.cancelled <==> m.status.Complete?) && (m.winner.Some? <==> m.status.Complete?)
    requires m.winner.Some? ==> FirstToSucceed(taskIds, before, m.winner.value)
    ensures var g, results := Receive(m, r), before + [r];
            && (g.status.Complete? <==> SomeSuccess(taskIds, results))
            && (g.status.Failed? <==> forall t | t in taskIds :: HasFailed(results, t))
            && (g.status.Pending? <==> NothingIn(taskIds, results))
            && (g.cancelled <==> g.status.Complete?) && (g.winner.Some? <==> g.status.Complete?)
            && (g.winner.Some? ==> FirstToSucceed(taskIds, results, g.winner.value))
  {
    var results := before + [r];
    forall t
      ensures FirstResult(results, t)
           == if FirstResult(before, t).Some? then FirstResult(before, t) else if r.id == t then Some(r) else None
    {
      NextResult(before, r, t);
    }
    assert Placed(m, before, r.id);
    var g := Receive(m, r);
    if SomeSuccess(taskIds, before) {
      var t :| t in taskIds && Succeeded(before, t);
      assert Succeeded(results, t);
      KeepsWinner(taskIds, before, r, m.winner.value);
    } else if r.id in m.awaited && r.ok {
      assert Succeeded(results, r.id);
      assert results[..|before|] == before && results[..|before| + 1] == results;
      assert WonAt(taskIds, results, r.id, |before|);
    } else if r.id in m.awaited {
      forall t
        ensures t !in m.completed
      {
        assert Placed(m, before, t);
      }
      assert HasFailed(results, r.id);
      forall t | t in taskIds
        ensures t in g.failed <==> HasFailed(results, t)
      {
        assert Placed(g, results, t);
      }
      assert g.status.Failed? <==> forall t | t in taskIds :: t in g.failed;
    }
  }

  lemma KeepsWinner(taskIds: seq<Id>, before: seq<Result>, r: Result, id: Id)
    requires FirstToSucceed(taskIds, before, id)
    ensures FirstToSucceed(taskIds, before + [r], id)
  {
    var k :| 0 <= k < |before| && WonAt(taskIds, before, id, k);
    assert (before + [r])[..k] == before[..k] && (before + [r])[..k + 1] == before[..k + 1];
    assert WonAt(taskIds, before + [r], id, k);
  }

  /**
    * Gather: the group ends exactly when the first result of every task is in, complete if at least
    * one succeeded and failed otherwise, in whatever order they arrive.
    */
  lemma {:induction false} GatherOutcome(taskIds: seq<Id>, results: seq<Result>)
    requires taskIds != [] && NoDuplicates(taskIds)
    ensures var g := ReceiveAll(NewGroup(Gather, taskIds), results);
            && (g.status.Complete? <==> AllIn(taskIds, results) && SomeSuccess(taskIds, results))
            && (g.status.Failed? <==> AllIn(taskIds, results) && !SomeSuccess(taskIds, results))
            && (g.status.Pending? <==> NothingIn(taskIds, results))
            && !g.cancelled && g.cancelRequests == []
    decreases |results|
  {
    assert taskIds[0] in taskIds;
    if results != [] {
      var before, r := results[..|results| - 1], results[|results| - 1];
      assert results == before + [r];
      var m := ReceiveAll(NewGroup(Gather, taskIds), before);
      GatherOutcome(taskIds, before);
      AllPlaced(Gather, taskIds, before);
      AllPlaced(Gather, taskIds, results);
      GatherStep(taskIds, before, r, m);
    }
  }

  lemma GatherStep(taskIds: seq<Id>, before: seq<Result>, r: Result, m: Group)
    requires taskIds != [] && NoDuplicates(taskIds) && m.mode == Gather && m.taskIds == taskIds && !m.cancelled
    requires (forall t :: Placed(m, before, t)) && forall t :: Placed(Receive(m, r), before + [r], t)
    requires m.status.Complete? <==> AllIn(taskIds, before) && SomeSuccess(taskIds, before)
    requires m.status.Failed? <==> AllIn(taskIds, before) && !SomeSuccess(taskIds, before)
    requires m.status.Pending? <==> NothingIn(taskIds, before)
    ensures var g, results := Receive(m, r), before + [r];
            && (g.status.Complete? <==> AllIn(taskIds, results) && SomeSuccess(taskIds, results))
            && (g.status.Failed? <==> AllIn(taskIds, results) && !SomeSuccess(taskIds, results))
            && (g.status.Pending? <==> NothingIn(taskIds, results))
            && !g.cancelled && g.cancelRequests == m.cancelRequests
  {
    var g, results := Receive(m, r), before + [r];
    assert Placed(m, before, r.id);
    if r.id in m.awaited {
      forall t
        ensures (t in g.completed <==> t in taskIds && Succeeded(results, t))
        ensures (t in g.failed <==> t in taskIds && HasFailed(results, t))
      {
        assert Placed(g, results, t);
      }
      CountedStatus(m, r);
      Sizes(taskIds, g.completed, g.failed);
      InOneSet(taskIds, results, g.completed, g.failed);
      SomeInSet(taskIds, results, g.completed);
      NextResult(before, r, r.id);
    } else {
      forall t | t in taskIds
        ensures FirstResult(results, t) == FirstResult(before, t)
      {
        NextResult(before, r, t);
      }
    }
  }

  lemma CountedStatus(m: Group, r: Result)
    requires r.id in m.awaited && m.mode == Gather && !m.cancelled
    ensures var g := Receive(m, r);
            && g.taskIds == m.taskIds && !g.cancelled && g.cancelRequests == m.cancelRequests
            && g.status == if |g.completed| + |g.failed| >= |g.taskIds|
                           then (if g.completed != {} then Complete else Failed) else Running
  {
  }

  lemma SomeInSet(taskIds: seq<Id>, results: seq<Result>, completed: set<Id>)
    requires forall t :: t in completed <==> t in taskIds && Succeeded(results, t)
    ensures SomeSuccess(taskIds, results) <==> completed != {}
  {
    if t :| t in completed {
      assert Succeeded(results, t);
    }
  }

  lemma InOneSet(taskIds: seq<Id>, results: seq<Result>, completed: set<Id>, failed: set<Id>)
    requires forall t :: (t in completed <==> t in taskIds && Succeeded(results, t))
                         && (t in failed <==> t in taskIds && HasFailed(results, t))
    ensures AllIn(taskIds, results) <==> forall t | t in taskIds :: t in completed || t in failed
  {
    forall t | t in taskIds
      ensures FirstResult(results, t).Some? <==> t in completed || t in failed
    {
      match FirstResult(results, t)
      case None =>
      case Some(r) => assert r == Result(t, r.ok);
    }
  }

  // ---- The group as the orchestrator keeps it ----

  lemma OthersNext(asked: seq<Id>, ids: seq<Id>, i: nat, id: Id, completed: set<Id>, failed: set<Id>)
    requires i < |ids|
    ensures asked + Others(ids[i..], id, completed, failed)
         == (if ids[i] != id && ids[i] !in completed && ids[i] !in failed then asked + [ids[i]] else asked)
            + Others(ids[i + 1..], id, completed, failed)
  {
    assert ids[i..][0] == ids[i] && ids[i..][1..] == ids[i + 1..];
  }

  class BroadcastGroup {
    const mode: Mode
    const taskIds: seq<Id>
    var awaited: set<Id>
    var completed: set<Id>
    var failed: set<Id>
    var cancelled: bool
    var winner: Option<Id>
    var status: GroupStatus
    var cancelRequests: seq<Id>

    ghost function Snapshot(): Group
      reads this
    {
      Group(mode, taskIds, awaited, completed, failed, cancelled, winner, status, cancelRequests)
    }

    constructor (mode: Mode, taskIds: seq<Id>)
      ensures Snapshot() == NewGroup(mode, taskIds)
    {
      this.mode, this.taskIds := mode, taskIds;
      awaited := set t | t in taskIds;
      completed, failed, cancelled, winner, cancelRequests := {}, {}, false, None, [];
      status := if taskIds == [] then Complete else Pending;
    }

    method OnFinalResult(id: Id, ok: bool)
      modifies this
      ensures Snapshot() == Receive(old(Snapshot()), Result(id, ok))
    {
      if id !in awaited {
        return;
      }
      awaited := awaited - {id};
      if cancelled {
        return;
      }
      if ok {
        OnSuccess(id);
      } else {
        OnFailure(id);
      }
    }

    method OnSuccess(id: Id)
      modifies `completed, `status, `winner, `cancelled, `cancelRequests
      ensures Snapshot() == Succeed(old(Snapshot()), id)
    {
      completed := completed + {id};
      status := Running;
      if mode.Race? && winner.None? {
        winner := Some(id);
        status := Complete;
        cancelled := true;
        CancelOthers(id);
      } else if mode.Gather? {
        if |completed| + |failed| >= |taskIds| {
          status := Complete;
        }
      }
    }

    method CancelOthers(id: Id)
      modifies `cancelRequests
      ensures cancelRequests == old(cancelRequests) + Others(taskIds, id, completed, failed)
    {
      for i := 0 to |taskIds|
        invariant cancelRequests + Others(taskIds[i..], id, completed, failed)
               == old(cancelRequests) + Others(taskIds, id, completed, failed)
      {
        OthersNext(cancelRequests, taskIds, i, id, completed, failed);
        var other := taskIds[i];
        if other != id && other !in completed && other !in failed {
          cancelRequests := cancelRequests + [other];
        }
      }
    }

    method OnFailure(id: Id)
      modifies `failed, `status
      ensures Snapshot() == Fail(old(Snapshot()), id)
    {
      failed := failed + {id};
      status := Running;
      if mode.Gather? {
        if |completed| + |failed| >= |taskIds| {
          status := if completed != {} then Complete else Failed;
        }
      } else {
        var allFailed := forall t | t in taskIds :: t in failed || t in completed;
        if allFailed && completed == {} {
          status := Failed;
        }
      }
    }
  }
}
