// Kahn's algorithm: the DAG check run before a workflow is submitted.

module Dag {
  import opened Wrappers
  import opened PhaseSpecs

  /** (from, to): `to` depends on `from`. */
  type Edge<K> = (K, K)

  ghost predicate Follows<K>(edges: seq<Edge<K>>, a: nat, b: nat) {
    a < |edges| && b < |edges| && edges[a].0 == edges[b].1
  }

  /** A closed walk along dependency edges, as a sequence of edge indices. */
  ghost predicate IsCycle<K>(edges: seq<Edge<K>>, c: seq<nat>) {
    c != [] && (forall k | 0 <= k < |c| - 1 :: Follows(edges, c[k], c[k + 1])) && Follows(edges, c[|c| - 1], c[0])
  }

  ghost predicate Acyclic<K>(edges: seq<Edge<K>>) {
    forall c :: !IsCycle(edges, c)
  }

  /** Every edge into an element of the order comes from an earlier element. */
  ghost predicate Topological<K>(order: seq<K>, edges: seq<Edge<K>>) {
    forall i, e | 0 <= i < |order| && e in edges && e.1 == order[i] :: e.0 in order[..i]
  }

  ghost predicate Closed<K>(nodes: seq<K>, edges: seq<Edge<K>>) {
    forall e | e in edges :: e.0 in nodes && e.1 in nodes
  }

  // ---- Distinct sequences ----

  ghost function Elements<K>(s: seq<K>): set<K> {
    set x | x in s
  }

  lemma {:induction false} DistinctSize<K>(s: seq<K>)
    requires NoDuplicates(s)
    ensures |Elements(s)| == |s|
  {
    if s != [] {
      var n := |s| - 1;
      DistinctSize(s[..n]);
      assert Elements(s) == Elements(s[..n]) + {s[n]};
      assert s[n] !in Elements(s[..n]);
    }
  }

  lemma {:induction false} SubsetSize<K>(a: set<K>, b: set<K>)
    requires a <= b
    ensures |a| <= |b| && (|a| == |b| ==> a == b)
  {
    if a == {} {
    } else {
      var x :| x in a;
      SubsetSize(a - {x}, b - {x});
    }
  }

  lemma DistinctWithin<K>(s: seq<K>, t: seq<K>)
    requires NoDuplicates(s) && NoDuplicates(t) && forall x | x in s :: x in t
    ensures |s| <= |t|
    ensures |s| == |t| ==> forall x | x in t :: x in s
  {
    DistinctSize(s);
    DistinctSize(t);
    SubsetSize(Elements(s), Elements(t));
    if |s| == |t| {
      forall x | x in t
        ensures x in s
      {
        assert x in Elements(s);
      }
    }
  }

  // ---- A topological order rules out cycles; a stuck set contains one ----

  ghost function Position<K>(order: seq<K>, x: K): (i: nat)
    requires x in order
    ensures i < |order| && order[i] == x
  {
    var i :| 0 <= i < |order| && order[i] == x; i
  }

  lemma EdgeDescends<K>(order: seq<K>, edges: seq<Edge<K>>, a: nat)
    requires NoDuplicates(order) && Closed(order, edges) && Topological(order, edges) && a < |edges|
    ensures Position(order, edges[a].0) < Position(order, edges[a].1)
  {
    var i := Position(order, edges[a].1);
    assert edges[a].0 in order[..i];
    var j :| 0 <= j < i && order[j] == edges[a].0;
  }

  lemma {:induction false} WalkDescends<K>(order: seq<K>, edges: seq<Edge<K>>, c: seq<nat>, k: nat)
    requires NoDuplicates(order) && Closed(order, edges) && Topological(order, edges)
    requires IsCycle(edges, c) && k < |c|
    ensures c[k] < |edges| && Position(order, edges[c[k]].1) + k <= Position(order, edges[c[0]].1)
    decreases k
  {
    if k == 0 {
      assert Follows(edges, c[|c| - 1], c[0]);
    } else {
      WalkDescends(order, edges, c, k - 1);
      assert Follows(edges, c[k - 1], c[k - 1 + 1]);
      EdgeDescends(order, edges, c[k - 1]);
    }
  }

  lemma OrderedIsAcyclic<K>(order: seq<K>, edges: seq<Edge<K>>)
    requires NoDuplicates(order) && Closed(order, edges) && Topological(order, edges)
    ensures Acyclic(edges)
  {
    forall c | IsCycle(edges, c)
      ensures false
    {
      var last := |c| - 1;
      WalkDescends(order, edges, c, last);
      assert Follows(edges, c[last], c[0]);
      EdgeDescends(order, edges, c[last]);
    }
  }

  /** Every element of `stuck` depends on an element of `stuck`. */
  ghost predicate Stuck<K>(stuck: set<K>, edges: seq<Edge<K>>) {
    forall x {:trigger WaitsInside(stuck, edges, x)} | x in stuck :: WaitsInside(stuck, edges, x)
  }

  ghost predicate WaitsInside<K>(stuck: set<K>, edges: seq<Edge<K>>, x: K) {
    exists a | 0 <= a < |edges| :: edges[a].1 == x && edges[a].0 in stuck
  }

  lemma {:induction false} WalkBack<K>(stuck: set<K>, edges: seq<Edge<K>>, x: K, n: nat) returns (w: seq<nat>)
    requires Stuck(stuck, edges) && x in stuck
    ensures |w| == n
    ensures forall k | 0 <= k < n :: w[k] < |edges| && edges[w[k]].0 in stuck && edges[w[k]].1 in stuck
    ensures forall k | 0 <= k < n - 1 :: Follows(edges, w[k], w[k + 1])
    ensures n > 0 ==> edges[w[0]].1 == x
    decreases n
  {
    if n == 0 {
      w := [];
    } else {
      assert WaitsInside(stuck, edges, x);
      var a :| 0 <= a < |edges| && edges[a].1 == x && edges[a].0 in stuck;
      var rest := WalkBack(stuck, edges, edges[a].0, n - 1);
      w := [a] + rest;
      forall k | 0 <= k < n - 1
        ensures Follows(edges, w[k], w[k + 1])
      {
        if k > 0 {
          assert Follows(edges, rest[k - 1], rest[k - 1 + 1]);
        }
      }
    }
  }

  lemma StuckHasCycle<K>(stuck: set<K>, edges: seq<Edge<K>>)
    requires stuck != {} && Stuck(stuck, edges)
    ensures !Acyclic(edges)
  {
    var x :| x in stuck;
    var n := |stuck| + 1;
    var w := WalkBack(stuck, edges, x, n);
    var visited := seq(n, k requires 0 <= k < n => edges[w[k]].1);
    if NoDuplicates(visited) {
      DistinctSize(visited);
      SubsetSize(Elements(visited), stuck);
    } else {
      var i, j :| 0 <= i < j < n && visited[i] == visited[j];
      var c := w[i..j];
      forall k | 0 <= k < |c| - 1
        ensures Follows(edges, c[k], c[k + 1])
      {
        assert Follows(edges, w[i + k], w[i + k + 1]);
      }
      assert Follows(edges, w[j - 1], w[j - 1 + 1]);
      assert IsCycle(edges, c);
    }
  }

  // ---- In-degrees ----

  function Dependents<K(==)>(edges: seq<Edge<K>>, x: K): seq<K> {
    if edges == [] then []
    else
      var rest := Dependents(edges[..|edges| - 1], x);
      var e := edges[|edges| - 1];
      if e.0 == x then rest + [e.1] else rest
  }

  /** The number of edges into `x` whose source has not been processed. */
  ghost function Pending<K>(edges: seq<Edge<K>>, done: set<K>, x: K): nat {
    if edges == [] then 0
    else
      var e := edges[|edges| - 1];
      Pending(edges[..|edges| - 1], done, x) + if e.1 == x && e.0 !in done then 1 else 0
  }

  lemma {:induction false} PendingStep<K>(edges: seq<Edge<K>>, done: set<K>, d: K, x: K)
    requires d !in done
    ensures Pending(edges, done + {d}, x) + multiset(Dependents(edges, d))[x] == Pending(edges, done, x)
  {
    if edges != [] {
      PendingStep(edges[..|edges| - 1], done, d, x);
    }
  }

  lemma {:induction false} PendingZero<K>(edges: seq<Edge<K>>, done: set<K>, x: K)
    ensures Pending(edges, done, x) == 0 <==> forall e | e in edges && e.1 == x :: e.0 in done
  {
    if edges != [] {
      var init, e := edges[..|edges| - 1], edges[|edges| - 1];
      PendingZero(init, done, x);
      assert edges == init + [e];
      if Pending(edges, done, x) != 0 && Pending(init, done, x) == 0 {
        assert e in edges;
      }
    }
  }

  lemma {:induction false} DependentsTargets<K>(edges: seq<Edge<K>>, x: K)
    ensures forall y :: y in Dependents(edges, x) ==> (x, y) in edges
  {
    if edges != [] {
      DependentsTargets(edges[..|edges| - 1], x);
      var e := edges[|edges| - 1];
      assert e.0 == x ==> (x, e.1) == e;
    }
  }

  // ---- Kahn's loop ----

  ghost predicate Progress<K>(nodes: seq<K>, edges: seq<Edge<K>>, inDegree: map<K, int>, result: seq<K>, queue: seq<K>) {
    && NoDuplicates(result + queue)
    && (forall x | x in result + queue :: x in nodes)
    && (forall x | x in nodes :: x in inDegree && inDegree[x] == Pending(edges, Elements(result), x))
    && (forall x | x in nodes :: inDegree[x] == 0 <==> x in result + queue)
    && Topological(result, edges)
  }

  lemma TopologicalNext<K>(result: seq<K>, x: K, edges: seq<Edge<K>>)
    requires Topological(result, edges) && Pending(edges, Elements(result), x) == 0
    ensures Topological(result + [x], edges)
  {
    PendingZero(edges, Elements(result), x);
    var order := result + [x];
    forall i, e | 0 <= i < |order| && e in edges && e.1 == order[i]
      ensures e.0 in order[..i]
    {
      if i < |result| {
        assert order[..i] == result[..i];
        assert e.1 == result[i];
      } else {
        assert order[..i] == result;
        assert e.0 in Elements(result);
      }
    }
  }

  lemma StuckRemainder<K>(nodes: seq<K>, edges: seq<Edge<K>>, result: seq<K>)
    requires Closed(nodes, edges)
    requires forall x | x in nodes :: Pending(edges, Elements(result), x) == 0 <==> x in result
    requires exists x :: x in nodes && x !in result
    ensures !Acyclic(edges)
  {
    var stuck := Elements(nodes) - Elements(result);
    forall x | x in stuck
      ensures WaitsInside(stuck, edges, x)
    {
      PendingZero(edges, Elements(result), x);
      var e :| e in edges && e.1 == x && e.0 !in Elements(result);
      var a :| 0 <= a < |edges| && edges[a] == e;
    }
    var x :| x in nodes && x !in result;
    assert x in stuck;
    StuckHasCycle(stuck, edges);
  }

  /** Part of a node's dependents are processed: their in-degrees are lowered, those at zero are queued. */
  ghost predicate Lowered<K>(nodes: seq<K>, start: map<K, int>, degrees: map<K, int>, order: seq<K>, done: seq<K>) {
    && NoDuplicates(order)
    && (forall y | y in order :: y in nodes)
    && (forall y | y in nodes :: y in start && y in degrees && degrees[y] == start[y] - multiset(done)[y])
    && (forall y | y in nodes :: degrees[y] <= 0 <==> y in order)
  }

  lemma LowerOne<K>(
      nodes: seq<K>, start: map<K, int>, degrees: map<K, int>, order: seq<K>, done: seq<K>, y: K)
    requires Lowered(nodes, start, degrees, order, done) && y in nodes && multiset(done)[y] < start[y]
    ensures Lowered(nodes, start, degrees[y := degrees[y] - 1], if degrees[y] == 1 then order + [y] else order, done + [y])
  {
  }

  lemma RemainingDegree<K>(edges: seq<Edge<K>>, done: set<K>, x: K, k: nat)
    requires x !in done && k < |Dependents(edges, x)|
    ensures var y := Dependents(edges, x)[k];
            multiset(Dependents(edges, x)[..k])[y] < Pending(edges, done, y) && (x, y) in edges
  {
    var dependents := Dependents(edges, x);
    assert dependents[k] in dependents;
    DependentsTargets(edges, x);
    PendingStep(edges, done, x, dependents[k]);
    RemainingCount(dependents, k);
  }

  lemma ReleaseStarts<K>(
      nodes: seq<K>, edges: seq<Edge<K>>, inDegree: map<K, int>, result: seq<K>, x: K, queue: seq<K>)
    requires Progress(nodes, edges, inDegree, result, [x] + queue)
    ensures x in nodes && x !in Elements(result) && Pending(edges, Elements(result), x) == 0
    ensures Lowered(nodes, inDegree, inDegree, (result + [x]) + queue, [])
    ensures forall y | y in nodes :: inDegree[y] == Pending(edges, Elements(result), y)
  {
    var all := result + ([x] + queue);
    assert all == (result + [x]) + queue && all[|result|] == x && x in all;
    assert forall i | 0 <= i < |result| :: all[i] == result[i];
  }

  lemma ReleaseEnds<K>(
      nodes: seq<K>, edges: seq<Edge<K>>, inDegree: map<K, int>, degrees: map<K, int>, result: seq<K>, x: K, queue: seq<K>)
    requires x !in Elements(result) && forall y | y in nodes :: y in inDegree && inDegree[y] == Pending(edges, Elements(result), y)
    requires Lowered(nodes, inDegree, degrees, (result + [x]) + queue, Dependents(edges, x))
    requires Topological(result + [x], edges)
    ensures Progress(nodes, edges, degrees, result + [x], queue)
  {
    assert Elements(result + [x]) == Elements(result) + {x};
    forall y | y in nodes
      ensures degrees[y] == Pending(edges, Elements(result + [x]), y)
    {
      PendingStep(edges, Elements(result), x, y);
    }
  }

  /** Every listed dependent can be lowered once more whenever its turn comes. */
  ghost predicate Lowerable<K>(nodes: seq<K>, start: map<K, int>, dependents: seq<K>) {
    forall k | 0 <= k < |dependents| ::
      && dependents[k] in nodes && dependents[k] in start
      && multiset(dependents[..k])[dependents[k]] < start[dependents[k]]
  }

  lemma DependentsLowerable<K>(
      nodes: seq<K>, edges: seq<Edge<K>>, inDegree: map<K, int>, result: seq<K>, x: K)
    requires Closed(nodes, edges) && x !in Elements(result)
    requires forall y | y in nodes :: y in inDegree && inDegree[y] == Pending(edges, Elements(result), y)
    ensures Lowerable(nodes, inDegree, Dependents(edges, x))
  {
    var dependents := Dependents(edges, x);
    forall k | 0 <= k < |dependents|
      ensures dependents[k] in nodes && multiset(dependents[..k])[dependents[k]] < inDegree[dependents[k]]
    {
      RemainingDegree(edges, Elements(result), x, k);
    }
  }

  lemma LowerNext<K>(
      nodes: seq<K>, start: map<K, int>, degrees: map<K, int>, front: seq<K>, queue: seq<K>, dependents: seq<K>, k: nat)
    requires Lowerable(nodes, start, dependents) && k < |dependents|
    requires Lowered(nodes, start, degrees, front + queue, dependents[..k])
    ensures var y := dependents[k];
            y in degrees &&
            Lowered(nodes, start, degrees[y := degrees[y] - 1],
                    front + if degrees[y] == 1 then queue + [y] else queue, dependents[..k + 1])
  {
    var y := dependents[k];
    TakeNext(dependents, k);
    AppendLast(front, queue, y);
    LowerOne(nodes, start, degrees, front + queue, dependents[..k], y);
  }

  lemma TakeNext<K>(s: seq<K>, k: nat)
    requires k < |s|
    ensures s[..k + 1] == s[..k] + [s[k]]
  {
  }

  lemma AppendLast<K>(a: seq<K>, b: seq<K>, x: K)
    ensures a + (b + [x]) == (a + b) + [x]
  {
  }

  method LowerDependents<K(==)>(ghost nodes: seq<K>, dependents: seq<K>, inDegree: map<K, int>, ghost front: seq<K>, queue: seq<K>)
    returns (inDegree': map<K, int>, queue': seq<K>)
    requires Lowered(nodes, inDegree, inDegree, front + queue, []) && Lowerable(nodes, inDegree, dependents)
    ensures Lowered(nodes, inDegree, inDegree', front + queue', dependents)
  {
    inDegree', queue' := inDegree, queue;
    assert dependents[..0] == [];
    for k := 0 to |dependents|
      invariant Lowered(nodes, inDegree, inDegree', front + queue', dependents[..k])
    {
      var y := dependents[k];
      LowerNext(nodes, inDegree, inDegree', front, queue', dependents, k);
      if inDegree'[y] == 1 {
        queue' := queue' + [y];
      }
      inDegree' := inDegree'[y := inDegree'[y] - 1];
    }
    assert dependents[..|dependents|] == dependents;
  }

  /** Processes one node: lowers its dependents' in-degrees and queues those that reach zero. */
  method Release<K(==)>(ghost nodes: seq<K>, ghost edges: seq<Edge<K>>, dependents: seq<K>,
      inDegree: map<K, int>, ghost result: seq<K>, x: K, queue: seq<K>) returns (inDegree': map<K, int>, queue': seq<K>)
    requires Closed(nodes, edges) && dependents == Dependents(edges, x)
    requires Progress(nodes, edges, inDegree, result, [x] + queue)
    ensures Progress(nodes, edges, inDegree', result + [x], queue')
  {
    ReleaseStarts(nodes, edges, inDegree, result, x, queue);
    TopologicalNext(result, x, edges);
    DependentsLowerable(nodes, edges, inDegree, result, x);
    inDegree', queue' := LowerDependents(nodes, dependents, inDegree, result + [x], queue);
    ReleaseEnds(nodes, edges, inDegree, inDegree', result, x, queue');
  }

  lemma RemainingCount<K>(s: seq<K>, k: nat)
    requires k < |s|
    ensures multiset(s[..k])[s[k]] < multiset(s)[s[k]]
  {
    assert s == s[..k] + ([s[k]] + s[k + 1..]);
  }

  ghost predicate Indexed<K>(ids: seq<K>, edges: seq<Edge<K>>, inDegree: map<K, int>, dependents: map<K, seq<K>>) {
    forall x | x in ids ::
      && x in inDegree && inDegree[x] == Pending(edges, {}, x)
      && x in dependents && dependents[x] == Dependents(edges, x)
  }

  /** The worklist loop over a map of in-degrees; `nodes` is the key order of that map. */
  method Kahn<K(==)>(nodes: seq<K>, edges: seq<Edge<K>>, inDegree: map<K, int>, dependents: map<K, seq<K>>)
    returns (result: seq<K>)
    requires NoDuplicates(nodes) && Closed(nodes, edges)
    requires Indexed(nodes, edges, inDegree, dependents)
    ensures NoDuplicates(result) && |result| <= |nodes| && forall x | x in result :: x in nodes
    ensures Topological(result, edges)
    ensures |result| == |nodes| <==> Acyclic(edges)
  {
    var degree := inDegree;
    var queue := [];
    for k := 0 to |nodes|
      invariant NoDuplicates(queue) && forall x | x in queue :: x in nodes[..k]
      invariant forall i | 0 <= i < k :: inDegree[nodes[i]] == 0 <==> nodes[i] in queue
    {
      assert nodes[..k + 1] == nodes[..k] + [nodes[k]];
      assert nodes[k] !in nodes[..k];
      if degree[nodes[k]] == 0 {
        queue := queue + [nodes[k]];
      }
    }
    result := [];
    assert Elements(result) == {};
    assert result + queue == queue;
    DistinctWithin(result, nodes);
    while queue != []
      invariant Progress(nodes, edges, degree, result, queue)
      invariant |result| <= |nodes|
      decreases |nodes| - |result|
    {
      var x := queue[0];
      assert queue == [x] + queue[1..];
      assert (result + queue)[|result|] == x;
      assert x in result + queue;
      degree, queue := Release(nodes, edges, dependents[x], degree, result, x, queue[1..]);
      result := result + [x];
      PrefixWithin(result, queue, nodes);
    }
    assert result + queue == result;
    DistinctWithin(result, nodes);
    if |result| == |nodes| {
      forall e | e in edges
        ensures e.0 in result && e.1 in result
      {
      }
      OrderedIsAcyclic(result, edges);
    } else if forall x | x in nodes :: x in result {
      DistinctWithin(nodes, result);
    } else {
      StuckRemainder(nodes, edges, result);
    }
  }

  lemma PrefixWithin<K>(s: seq<K>, t: seq<K>, nodes: seq<K>)
    requires NoDuplicates(s + t) && NoDuplicates(nodes) && forall x | x in s + t :: x in nodes
    ensures |s| <= |nodes|
  {
    forall i, j | 0 <= i < j < |s|
      ensures s[i] != s[j]
    {
      assert (s + t)[i] != (s + t)[j];
    }
    forall x | x in s
      ensures x in nodes
    {
      assert x in s + t;
    }
    DistinctWithin(s, nodes);
  }

  // ---- validate_dag ----

  datatype DagError = UnknownDependency | CycleDetected

  function EdgesTo<K>(deps: seq<K>, to: K): (edges: seq<Edge<K>>)
    ensures |edges| == |deps| && forall i | 0 <= i < |deps| :: edges[i] == (deps[i], to)
  {
    seq(|deps|, i requires 0 <= i < |deps| => (deps[i], to))
  }

  /** All (dependency, dependent) pairs of a task list, in order and with repetitions. */
  function Edges<K>(tasks: seq<Spec<K>>): seq<Edge<K>> {
    if tasks == [] then []
    else
      var t := tasks[|tasks| - 1];
      Edges(tasks[..|tasks| - 1]) + EdgesTo(t.dependsOn, t.id)
  }

  ghost predicate KnownDependencies<K>(tasks: seq<Spec<K>>) {
    forall t, d | t in tasks && d in t.dependsOn :: d in Ids(tasks)
  }

  lemma {:induction false} EdgeHasTask<K>(tasks: seq<Spec<K>>, e: Edge<K>) returns (i: nat)
    requires e in Edges(tasks)
    ensures i < |tasks| && tasks[i].id == e.1 && e.0 in tasks[i].dependsOn
  {
    var n := |tasks| - 1;
    var t := tasks[n];
    if e in Edges(tasks[..n]) {
      i := EdgeHasTask(tasks[..n], e);
    } else {
      var k :| 0 <= k < |t.dependsOn| && EdgesTo(t.dependsOn, t.id)[k] == e;
      i := n;
    }
  }

  lemma {:induction false} TaskHasEdge<K>(tasks: seq<Spec<K>>, i: nat, d: K)
    requires i < |tasks| && d in tasks[i].dependsOn
    ensures (d, tasks[i].id) in Edges(tasks)
  {
    var n := |tasks| - 1;
    var t := tasks[n];
    if i < n {
      TaskHasEdge(tasks[..n], i, d);
    } else {
      var k :| 0 <= k < |t.dependsOn| && t.dependsOn[k] == d;
      assert EdgesTo(t.dependsOn, t.id)[k] == (d, t.id);
    }
  }

  lemma EdgesClosed<K>(tasks: seq<Spec<K>>, nodes: seq<K>)
    requires KnownDependencies(tasks) && forall x | x in Ids(tasks) :: x in nodes
    ensures Closed(nodes, Edges(tasks))
  {
    forall e | e in Edges(tasks)
      ensures e.0 in nodes && e.1 in nodes
    {
      var i := EdgeHasTask(tasks, e);
      assert tasks[i] in tasks;
      assert Ids(tasks)[i] == e.1;
    }
  }

  /** The first occurrence of every id: the key order of a dictionary filled in task order. */
  function Distinct<K(==)>(ids: seq<K>): (r: seq<K>)
    ensures NoDuplicates(r) && |r| <= |ids|
    ensures (forall x | x in r :: x in ids) && (forall x | x in ids :: x in r)
    ensures |r| == |ids| ==> r == ids
  {
    if ids == [] then []
    else
      var n := |ids| - 1;
      var init := Distinct(ids[..n]);
      assert ids == ids[..n] + [ids[n]];
      if ids[n] in ids[..n] then init else init + [ids[n]]
  }

  lemma IndexEdge<K>(ids: seq<K>, edges: seq<Edge<K>>, inDegree: map<K, int>, dependents: map<K, seq<K>>, dep: K, to: K)
    requires Indexed(ids, edges, inDegree, dependents) && dep in ids && to in ids
    ensures Indexed(ids, edges + [(dep, to)], inDegree[to := inDegree[to] + 1], dependents[dep := dependents[dep] + [to]])
  {
    var more := edges + [(dep, to)];
    assert more[..|more| - 1] == edges && more[|more| - 1] == (dep, to);
  }

  /** Enters one task's `depends_on` list into the index, entry by entry. */
  method IndexTask<K(==)>(ghost ids: seq<K>, ghost edges: seq<Edge<K>>, t: Spec<K>,
      degree: map<K, int>, deps: map<K, seq<K>>) returns (inDegree: map<K, int>, dependents: map<K, seq<K>>)
    requires Indexed(ids, edges, degree, deps)
    requires t.id in ids && forall d | d in t.dependsOn :: d in ids
    ensures Indexed(ids, edges + EdgesTo(t.dependsOn, t.id), inDegree, dependents)
  {
    inDegree, dependents := degree, deps;
    ghost var indexed := edges;
    for j := 0 to |t.dependsOn|
      invariant indexed == edges + EdgesTo(t.dependsOn[..j], t.id)
      invariant Indexed(ids, indexed, inDegree, dependents)
    {
      var dep := t.dependsOn[j];
      assert dep in t.dependsOn;
      IndexEdge(ids, indexed, inDegree, dependents, dep, t.id);
      indexed := indexed + [(dep, t.id)];
      assert EdgesTo(t.dependsOn[..j + 1], t.id) == EdgesTo(t.dependsOn[..j], t.id) + [(dep, t.id)];
      inDegree := inDegree[t.id := inDegree[t.id] + 1];
      dependents := dependents[dep := dependents[dep] + [t.id]];
    }
    assert t.dependsOn[..|t.dependsOn|] == t.dependsOn;
  }

  /** Counts incoming edges and lists dependents for every id. */
  method BuildIndex<K(==)>(tasks: seq<Spec<K>>) returns (inDegree: map<K, int>, dependents: map<K, seq<K>>)
    requires KnownDependencies(tasks)
    ensures Indexed(Ids(tasks), Edges(tasks), inDegree, dependents)
  {
    var ids := Ids(tasks);
    inDegree := map x | x in ids :: 0;
    dependents := map x | x in ids :: [];
    for i := 0 to |tasks|
      invariant Indexed(ids, Edges(tasks[..i]), inDegree, dependents)
    {
      assert tasks[..i + 1][..i] == tasks[..i];
      assert ids[i] == tasks[i].id && tasks[i] in tasks;
      inDegree, dependents := IndexTask(ids, Edges(tasks[..i]), tasks[i], inDegree, dependents);
    }
    assert tasks[..|tasks|] == tasks;
  }

  ghost predicate DependenciesFirst<K>(order: seq<Spec<K>>) {
    forall i, d | 0 <= i < |order| && d in order[i].dependsOn :: d in Ids(order[..i])
  }

  lemma {:induction false} DistinctCount<K>(s: seq<K>, x: K)
    requires NoDuplicates(s)
    ensures multiset(s)[x] == if x in s then 1 else 0
  {
    if s != [] {
      var n := |s| - 1;
      DistinctCount(s[..n], x);
      assert s == s[..n] + [s[n]];
    }
  }

  lemma SameDistinctElements<K>(a: seq<K>, b: seq<K>)
    requires NoDuplicates(a) && NoDuplicates(b)
    requires (forall x | x in a :: x in b) && forall x | x in b :: x in a
    ensures multiset(a) == multiset(b)
  {
    forall x | x in multiset(a) || x in multiset(b)
      ensures multiset(a)[x] == multiset(b)[x]
    {
      DistinctCount(a, x);
      DistinctCount(b, x);
    }
  }

  lemma DistinctIdsDistinctTasks<K>(tasks: seq<Spec<K>>)
    requires NoDuplicates(Ids(tasks))
    ensures NoDuplicates(tasks)
  {
    forall i, j | 0 <= i < j < |tasks|
      ensures tasks[i] != tasks[j]
    {
      assert Ids(tasks)[i] != Ids(tasks)[j];
    }
  }

  lemma OrderedDependencies<K>(tasks: seq<Spec<K>>, ids: seq<K>, order: seq<Spec<K>>)
    requires Ids(order) == ids && Topological(ids, Edges(tasks))
    requires forall t | t in order :: t in tasks
    ensures DependenciesFirst(order)
  {
    forall i, d | 0 <= i < |order| && d in order[i].dependsOn
      ensures d in Ids(order[..i])
    {
      assert order[i] in tasks;
      var k :| 0 <= k < |tasks| && tasks[k] == order[i];
      TaskHasEdge(tasks, k, d);
      assert (d, ids[i]).1 == ids[i];
      assert Ids(order[..i]) == ids[..i];
    }
  }

  /** Reading the tasks off a complete order of their ids gives a permutation. */
  lemma OrderedPermutation<K>(tasks: seq<Spec<K>>, ids: seq<K>, order: seq<Spec<K>>)
    requires NoDuplicates(Ids(tasks)) && NoDuplicates(ids) && Ids(order) == ids && |ids| == |tasks|
    requires forall t | t in order :: t in tasks
    ensures multiset(order) == multiset(tasks)
  {
    DistinctIdsDistinctTasks(tasks);
    DistinctIdsDistinctTasks(order);
    DistinctWithin(order, tasks);
    SameDistinctElements(order, tasks);
  }

  /**
    * The DAG check: accepts exactly the lists with distinct ids, known dependencies and no cycle,
    * and returns such a list permuted so that dependencies come first.
    */
  method ValidateDag<K(==)>(tasks: seq<Spec<K>>) returns (r: Result<seq<Spec<K>>, DagError>)
    ensures r.Ok? <==> NoDuplicates(Ids(tasks)) && KnownDependencies(tasks) && Acyclic(Edges(tasks))
    ensures r == Err(UnknownDependency) <==> !KnownDependencies(tasks)
    ensures r.Ok? ==> multiset(r.value) == multiset(tasks) && DependenciesFirst(r.value)
  {
    var ids := Ids(tasks);
    var known := AllKnown(tasks, ids);
    if !known {
      return Err(UnknownDependency);
    }
    var inDegree, dependents := BuildIndex(tasks);
    var nodes := Distinct(ids);
    EdgesClosed(tasks, nodes);
    var order := Kahn(nodes, Edges(tasks), inDegree, dependents);
    var result := TasksOf(tasks, order);
    if |result| != |tasks| {
      if NoDuplicates(ids) {
        DistinctWithin(ids, nodes);
      }
      return Err(CycleDetected);
    }
    OrderedPermutation(tasks, order, result);
    OrderedDependencies(tasks, order, result);
    r := Ok(result);
  }

  method AllKnown<K(==)>(tasks: seq<Spec<K>>, ids: seq<K>) returns (known: bool)
    requires ids == Ids(tasks)
    ensures known <==> KnownDependencies(tasks)
  {
    for i := 0 to |tasks|
      invariant forall t, d | t in tasks[..i] && d in t.dependsOn :: d in ids
    {
      var t := tasks[i];
      assert tasks[..i + 1] == tasks[..i] + [t];
      for j := 0 to |t.dependsOn|
        invariant forall d | d in t.dependsOn[..j] :: d in ids
      {
        assert t.dependsOn[..j + 1] == t.dependsOn[..j] + [t.dependsOn[j]];
        if t.dependsOn[j] !in ids {
          assert t in tasks && t.dependsOn[j] in t.dependsOn;
          return false;
        }
      }
      assert t.dependsOn[..|t.dependsOn|] == t.dependsOn;
    }
    assert tasks[..|tasks|] == tasks;
    known := true;
  }

  method TasksOf<K(==)>(tasks: seq<Spec<K>>, order: seq<K>) returns (result: seq<Spec<K>>)
    requires forall x | x in order :: x in Ids(tasks)
    ensures Ids(result) == order && forall t | t in result :: t in tasks
  {
    result := [];
    for k := 0 to |order|
      invariant Ids(result) == order[..k]
      invariant forall t | t in result :: t in tasks
    {
      assert order[k] in order;
      var t := LastWithId(tasks, order[k]);
      assert Ids(result + [t]) == Ids(result) + [t.id];
      result := result + [t];
    }
    assert order[..|order|] == order;
  }

  /** The dictionary from ids to tasks keeps the last task of each id. */
  function LastWithId<K(==)>(tasks: seq<Spec<K>>, id: K): (t: Spec<K>)
    requires id in Ids(tasks)
    ensures t in tasks && t.id == id
  {
    var n := |tasks| - 1;
    if tasks[n].id == id then tasks[n]
    else
      assert forall i | 0 <= i < n :: Ids(tasks)[i] == Ids(tasks[..n])[i];
      assert Ids(tasks)[n] != id;
      LastWithId(tasks[..n], id)
  }

  /** A list whose dependencies all name earlier tasks, with distinct ids, always passes the check. */
  lemma ForwardListIsAcyclic<K>(tasks: seq<Spec<K>>)
    requires NoDuplicates(Ids(tasks)) && DependenciesFirst(tasks)
    ensures KnownDependencies(tasks) && Acyclic(Edges(tasks))
  {
    var ids, edges := Ids(tasks), Edges(tasks);
    forall t, d | t in tasks && d in t.dependsOn
      ensures d in ids
    {
      var i :| 0 <= i < |tasks| && tasks[i] == t;
      assert d in Ids(tasks[..i]);
      var k :| 0 <= k < i && Ids(tasks[..i])[k] == d;
      assert ids[k] == d;
    }
    EdgesClosed(tasks, ids);
    forall i, e | 0 <= i < |ids| && e in edges && e.1 == ids[i]
      ensures e.0 in ids[..i]
    {
      var k := EdgeHasTask(tasks, e);
      assert ids[k] == ids[i];
      assert k == i;
      assert Ids(tasks[..i]) == ids[..i];
    }
    OrderedIsAcyclic(ids, edges);
  }
}
