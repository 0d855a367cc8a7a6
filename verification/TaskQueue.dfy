// Tasks, and the priority queue with lazy deletion that holds the dispatchable ones.

module Tasks {
  import opened Wrappers

  /** Task and agent ids are opaque names. */
  datatype Id = Id(name: string)
  datatype Agent = Agent(name: string)

  datatype Task = Task(
    id: Id,
    priority: int,
    dependsOn: seq<Id>,
    target: Option<Agent>,
    group: Option<string>,
    tags: seq<string>,
    maxRetries: int,
    retryCount: nat,
    escalationCount: nat,
    excluded: seq<Agent>,
    requeues: nat,
    expiresAt: Option<real>)

  /** A queue item: lower priority values first, ties broken by sequence number. */
  datatype Entry = Entry(priority: int, number: int, task: Task)

  predicate Before(a: Entry, b: Entry) {
    a.priority < b.priority || (a.priority == b.priority && a.number < b.number)
  }

  /** The entry a plain priority map hands out first. */
  ghost predicate IsLeast(pending: map<Id, Entry>, e: Entry) {
    e.task.id in pending && pending[e.task.id] == e && forall id | id in pending :: !Before(pending[id], e)
  }
}

module TaskQueue {
  import opened Wrappers
  import opened Tasks

  predicate LeastOf(heap: set<Entry>, e: Entry) {
    e in heap && forall x | x in heap :: !Before(x, e)
  }

  lemma {:induction false} HasLeast(heap: set<Entry>)
    requires heap != {}
    ensures exists e :: LeastOf(heap, e)
  {
    var e :| e in heap;
    var rest := heap - {e};
    assert heap == rest + {e};
    if rest == {} {
      assert LeastOf(heap, e);
    } else {
      HasLeast(rest);
      var m :| LeastOf(rest, m);
      assert LeastOf(heap, if Before(e, m) then e else m);
    }
  }

  /** Numbers handed out so far: positive ones by `Put`, negative ones by priority updates. */
  ghost predicate Used(number: int, lastPut: int, lastUpdate: int) {
    0 < number <= lastPut || lastUpdate <= number < 0
  }

  /** The heap entries that are not stale are exactly the pending items. */
  ghost predicate Represents(heap: set<Entry>, deleted: set<int>, pending: map<Id, Entry>) {
    && (forall e | e in heap && e.number !in deleted :: e.task.id in pending && pending[e.task.id] == e)
    && (forall id | id in pending :: pending[id].task.id == id && pending[id] in heap && pending[id].number !in deleted)
  }

  ghost predicate DistinctNumbers(heap: set<Entry>) {
    forall a, b | a in heap && b in heap && a.number == b.number :: a == b
  }

  lemma SkipStale(heap: set<Entry>, deleted: set<int>, pending: map<Id, Entry>, e: Entry)
    requires Represents(heap, deleted, pending) && DistinctNumbers(heap) && e in heap && e.number in deleted
    ensures Represents(heap - {e}, deleted - {e.number}, pending)
  {
    forall x | x in heap - {e} && x.number !in deleted - {e.number}
      ensures x.number !in deleted
    {
    }
  }

  lemma TakeLive(heap: set<Entry>, deleted: set<int>, pending: map<Id, Entry>, e: Entry)
    requires Represents(heap, deleted, pending) && DistinctNumbers(heap) && LeastOf(heap, e) && e.number !in deleted
    ensures IsLeast(pending, e) && Represents(heap - {e}, deleted, pending - {e.task.id})
  {
  }

  /** An update leaves the old entry in the heap as stale and adds the new one. */
  lemma Superseded(heap: set<Entry>, deleted: set<int>, pending: map<Id, Entry>, id: Id, e: Entry)
    requires Represents(heap, deleted, pending) && DistinctNumbers(heap) && id in pending && e.task.id == id
    requires e.number !in deleted && forall x | x in heap :: x.number != e.number
    ensures Represents(heap + {e}, deleted + {pending[id].number}, pending[id := e]) && DistinctNumbers(heap + {e})
  {
  }

  lemma NothingPending(deleted: set<int>, pending: map<Id, Entry>)
    requires Represents({}, deleted, pending)
    ensures pending == map[]
  {
    assert forall id | id in pending :: pending[id] in {};
  }

  class AsyncPriorityTaskQueue {
    var heap: set<Entry>
    var pending: map<Id, Entry>
    var deleted: set<int>
    var lastUpdate: int
    ghost var lastPut: int

    ghost predicate Valid()
      reads this
    {
      && lastUpdate <= 0 <= lastPut
      && (forall e | e in heap :: Used(e.number, lastPut, lastUpdate))
      && (forall n | n in deleted :: Used(n, lastPut, lastUpdate))
      && DistinctNumbers(heap)
      && Represents(heap, deleted, pending)
    }

    constructor ()
      ensures Valid() && pending == map[] && lastPut == 0 && lastUpdate == 0
    {
      heap, pending, deleted, lastUpdate, lastPut := {}, map[], {}, 0, 0;
    }

    method Put(e: Entry)
      requires Valid() && e.number > lastPut && e.task.id !in pending
      modifies this
      ensures Valid() && pending == old(pending)[e.task.id := e] && lastPut == e.number
      ensures forall id | id in old(pending) :: old(pending)[id].number < e.number
      ensures lastUpdate == old(lastUpdate)
    {
      pending := pending[e.task.id := e];
      heap := heap + {e};
      lastPut := e.number;
    }

    /** Takes the least entry off the heap, stale or not. */
    method Pop() returns (e: Entry)
      requires heap != {}
      modifies `heap
      ensures LeastOf(old(heap), e) && heap == old(heap) - {e}
    {
      HasLeast(heap);
      e :| e in heap && LeastOf(heap, e);
      heap := heap - {e};
    }

    /** Skips stale entries; hands out the least pending item, or nothing when none is pending. */
    method Get() returns (r: Option<Entry>)
      requires Valid()
      modifies this
      ensures Valid() && lastPut == old(lastPut) && lastUpdate == old(lastUpdate)
      ensures r.None? <==> old(pending) == map[]
      ensures r.None? ==> pending == old(pending)
      ensures r.Some? ==> IsLeast(old(pending), r.value) && pending == old(pending) - {r.value.task.id}
      ensures r.Some? ==> forall id | id in old(pending) ::
                            var e := old(pending)[id];
                            r.value.priority <= e.priority && (r.value.priority == e.priority ==> r.value.number <= e.number)
    {
      while heap != {}
        invariant Valid() && pending == old(pending) && lastPut == old(lastPut) && lastUpdate == old(lastUpdate)
        decreases heap
      {
        ghost var before := heap;
        var e := Pop();
        if e.number in deleted {
          SkipStale(before, deleted, pending, e);
          deleted := deleted - {e.number};
        } else {
          TakeLive(before, deleted, pending, e);
          pending := pending - {e.task.id};
          return Some(e);
        }
      }
      NothingPending(deleted, pending);
      r := None;
    }

    /** Marks the old heap entry stale and inserts a fresh one under a number never used before. */
    method UpdatePriority(id: Id, priority: int) returns (found: bool)
      requires Valid()
      modifies this
      ensures Valid() && lastPut == old(lastPut)
      ensures found <==> id in old(pending)
      ensures lastUpdate == if found then old(lastUpdate) - 1 else old(lastUpdate)
      ensures found ==> var task := old(pending)[id].task.(priority := priority);
                        pending == old(pending)[id := Entry(priority, lastUpdate, task)]
      ensures found ==> forall k | k in pending && k != id :: pending[id].number < pending[k].number
      ensures !found ==> pending == old(pending)
    {
      if id !in pending {
        return false;
      }
      var e := pending[id];
      var entry := Entry(priority, lastUpdate - 1, e.task.(priority := priority));
      Superseded(heap, deleted, pending, id, entry);
      deleted := deleted + {e.number};
      lastUpdate := lastUpdate - 1;
      pending := pending[id := entry];
      heap := heap + {entry};
      found := true;
    }

    /** Cancellation of a queued task: every heap entry of the task goes, stale ones included. */
    method Remove(id: Id) returns (found: bool)
      requires Valid()
      modifies this
      ensures Valid() && lastPut == old(lastPut) && lastUpdate == old(lastUpdate)
      ensures pending == old(pending) - {id}
      ensures found <==> exists e :: e in old(heap) && e.task.id == id
    {
      var rest := set e | e in heap && e.task.id != id;
      found := rest != heap;
      assert id in pending ==> pending[id] in heap && pending[id] !in rest;
      if found {
        heap := rest;
        pending := pending - {id};
      } else {
        assert id !in pending;
      }
    }
  }
}
