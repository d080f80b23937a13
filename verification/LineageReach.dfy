/** The traversal visits exactly the entities within reach, each at its true distance. */
module LineageReach {
  import opened Wrappers
  import opened LineageLedger
  import opened LineageTraversal

  // ----- the reference: distances in the readable graph -----

  /** The entities at most `d` readable assertions away from a start. */
  ghost function Within(g: Graph, starts: set<string>, d: nat): set<string> {
    if d == 0 then starts
    else
      var w := Within(g, starts, d - 1);
      w + set a, x | a in g.assertions && x in w && Touches(g, a, x) :: NextId(a, x)
  }

  /** The path names assertions that lead from a start to the entity. */
  ghost predicate Walk(g: Graph, starts: set<string>, id: string, path: seq<string>)
    decreases |path|
  {
    if path == [] then id in starts
    else exists a, x :: a in g.assertions && Touches(g, a, x) && NextId(a, x) == id && a.id == path[|path| - 1]
                        && Walk(g, starts, x, path[..|path| - 1])
  }

  ghost predicate AtDistance(g: Graph, starts: set<string>, id: string, d: nat) {
    id in Within(g, starts, d) && (d > 0 ==> id !in Within(g, starts, d - 1))
  }

  lemma {:induction false} WithinGrows(g: Graph, starts: set<string>, d: nat, e: nat)
    requires d <= e
    ensures Within(g, starts, d) <= Within(g, starts, e)
  {
    if d < e { WithinGrows(g, starts, d, e - 1); }
  }

  // ----- the loop invariant -----

  ghost predicate QueueReached(g: Graph, starts: set<string>, queue: seq<Visit>) {
    forall q :: q in queue ==>
      q.id in Within(g, starts, q.depth) && Walk(g, starts, q.id, q.path) && |q.path| == q.depth <= g.maximumDepth
  }

  ghost predicate VisitedExact(g: Graph, starts: set<string>, visited: map<string, nat>) {
    forall x :: x in visited ==> AtDistance(g, starts, x, visited[x]) && visited[x] <= g.maximumDepth && Has(g.entities, x)
  }

  ghost predicate Reached(visited: map<string, nat>, queue: seq<Visit>, id: string, d: nat) {
    (id in visited && visited[id] <= d) || exists q :: q in queue && q.id == id && q.depth <= d
  }

  /** Starts and neighbours of expanded entities have been visited in time or are waiting in the queue. */
  ghost predicate Complete(g: Graph, starts: set<string>, visited: map<string, nat>, queue: seq<Visit>) {
    && (forall x :: x in starts ==> Reached(visited, queue, x, 0))
    && (forall x, a :: x in visited && visited[x] < g.maximumDepth && a in g.assertions && Touches(g, a, x)
          ==> Reached(visited, queue, NextId(a, x), visited[x] + 1))
  }

  ghost predicate NodeOk(g: Graph, starts: set<string>, visited: map<string, nat>, n: Node) {
    && n.entity.id in visited && n.depth == visited[n.entity.id] && Get(g.entities, n.entity.id) == Some(n.entity)
    && Walk(g, starts, n.entity.id, n.path) && |n.path| == n.depth && KindShown(g, n.entity, n.depth)
  }

  /** One node for each visited entity whose kind is shown. */
  ghost predicate NodesExact(g: Graph, starts: set<string>, visited: map<string, nat>, nodes: seq<Node>) {
    && (forall n :: n in nodes ==> NodeOk(g, starts, visited, n))
    && (forall i, j :: 0 <= i < j < |nodes| ==> nodes[i].entity.id != nodes[j].entity.id)
    && (forall x :: x in visited && Has(g.entities, x) && KindShown(g, Get(g.entities, x).value, visited[x]) ==> Shown(nodes, x))
  }

  ghost predicate Shown(nodes: seq<Node>, id: string) {
    exists n :: n in nodes && n.entity.id == id
  }

  ghost predicate Expanded(g: Graph, visited: map<string, nat>, a: Assertion) {
    exists x :: x in visited && visited[x] < g.maximumDepth && Touches(g, a, x)
  }

  /** One edge for each readable assertion at an expanded entity. */
  ghost predicate EdgesExact(g: Graph, visited: map<string, nat>, edges: seq<Assertion>) {
    && (forall a :: a in edges <==> a in g.assertions && Expanded(g, visited, a))
    && (forall i, j :: 0 <= i < j < |edges| ==> edges[i] != edges[j])
  }

  /** Table keys are ids, and no two readable assertions share a key. */
  ghost predicate GraphKeyed(g: Graph) {
    && (forall x :: Has(g.entities, x) ==> Get(g.entities, x).value.id == x)
    && (forall a, b :: a in g.assertions && b in g.assertions && AssertionKey(a) == AssertionKey(b) ==> a == b)
  }

  ghost predicate SearchOk(g: Graph, starts: set<string>, st: Search) {
    && GraphOk(g) && GraphKeyed(g) && QueueOk(g, st)
    && QueueReached(g, starts, st.queue)
    && VisitedExact(g, starts, st.visited)
    && Complete(g, starts, st.visited, st.queue)
    && NodesExact(g, starts, st.visited, st.nodes)
    && EdgesExact(g, st.visited, st.edges)
  }

  // ----- each part is kept by a turn -----

  /** Everything nearer than the head of the queue has been visited. */
  lemma {:induction false} NearerVisited(g: Graph, starts: set<string>, visited: map<string, nat>, queue: seq<Visit>, j: nat)
    requires Complete(g, starts, visited, queue)
    requires j <= g.maximumDepth && forall q :: q in queue ==> j < q.depth
    ensures forall y :: y in Within(g, starts, j) ==> y in visited && visited[y] <= j
  {
    if j == 0 {
      forall y | y in starts ensures y in visited && visited[y] <= 0 { assert Reached(visited, queue, y, 0); }
    } else {
      NearerVisited(g, starts, visited, queue, j - 1);
      var w := Within(g, starts, j - 1);
      forall y | y in Within(g, starts, j) ensures y in visited && visited[y] <= j {
        if y !in w {
          var a, x :| a in g.assertions && x in w && Touches(g, a, x) && NextId(a, x) == y;
          assert Reached(visited, queue, NextId(a, x), visited[x] + 1);
        }
      }
    }
  }

  lemma HeadDistance(g: Graph, starts: set<string>, st: Search)
    requires SearchOk(g, starts, st) && st.queue != [] && st.queue[0].id !in st.visited
    ensures AtDistance(g, starts, st.queue[0].id, st.queue[0].depth)
  {
    hide GraphOk, GraphKeyed, QueuedEntities, VisitedBelow, VisitedExact, Complete, NodesExact, EdgesExact, Within, Walk;
    var v := st.queue[0];
    assert v in st.queue;
    if v.depth > 0 { NearerVisited(g, starts, st.visited, st.queue, v.depth - 1); }
  }

  lemma PushedReached(g: Graph, starts: set<string>, v: Visit)
    requires v.id in Within(g, starts, v.depth) && Walk(g, starts, v.id, v.path) && |v.path| == v.depth < g.maximumDepth
    ensures QueueReached(g, starts, Pushed(g, g.assertions, v))
  {
    forall q | q in Pushed(g, g.assertions, v)
      ensures q.id in Within(g, starts, q.depth) && Walk(g, starts, q.id, q.path) && |q.path| == q.depth <= g.maximumDepth
    {
      var a :| a in g.assertions && Touches(g, a, v.id) && q == Visit(NextId(a, v.id), v.depth + 1, v.path + [a.id]);
      assert q.path[..|q.path| - 1] == v.path;
    }
  }

  lemma ReachedKept(visited: map<string, nat>, queue: seq<Visit>, visited': map<string, nat>, more: seq<Visit>, id: string, d: nat)
    requires queue != [] && Reached(visited, queue, id, d)
    requires forall x :: x in visited ==> x in visited' && visited'[x] <= visited[x]
    requires queue[0].id in visited' && visited'[queue[0].id] <= queue[0].depth
    ensures Reached(visited', queue[1..] + more, id, d)
  {
    if q :| q in queue && q.id == id && q.depth <= d {
      if q != queue[0] { assert q in queue[1..] + more; }
    }
  }

  lemma CompleteSkip(g: Graph, starts: set<string>, visited: map<string, nat>, queue: seq<Visit>)
    requires Complete(g, starts, visited, queue)
    requires queue != [] && queue[0].id in visited && visited[queue[0].id] <= queue[0].depth
    ensures Complete(g, starts, visited, queue[1..])
  {
    hide Reached;
    assert queue[1..] + [] == queue[1..];
    forall x | x in starts ensures Reached(visited, queue[1..], x, 0) { ReachedKept(visited, queue, visited, [], x, 0); }
    forall x, a | x in visited && visited[x] < g.maximumDepth && a in g.assertions && Touches(g, a, x)
      ensures Reached(visited, queue[1..], NextId(a, x), visited[x] + 1)
    {
      ReachedKept(visited, queue, visited, [], NextId(a, x), visited[x] + 1);
    }
  }

  lemma CompleteVisit(g: Graph, starts: set<string>, visited: map<string, nat>, queue: seq<Visit>, more: seq<Visit>)
    requires Complete(g, starts, visited, queue)
    requires queue != [] && queue[0].id !in visited
    requires queue[0].depth < g.maximumDepth ==> more == Pushed(g, g.assertions, queue[0])
    ensures Complete(g, starts, visited[queue[0].id := queue[0].depth], queue[1..] + more)
  {
    var v := queue[0];
    var visited' := visited[v.id := v.depth];
    var queue' := queue[1..] + more;
    forall x | x in starts ensures Reached(visited', queue', x, 0) { ReachedKept(visited, queue, visited', more, x, 0); }
    forall x, a | x in visited' && visited'[x] < g.maximumDepth && a in g.assertions && Touches(g, a, x)
      ensures Reached(visited', queue', NextId(a, x), visited'[x] + 1)
    {
      if x == v.id {
        assert Visit(NextId(a, x), v.depth + 1, v.path + [a.id]) in more;
        assert Visit(NextId(a, x), v.depth + 1, v.path + [a.id]) in queue';
      } else {
        ReachedKept(visited, queue, visited', more, NextId(a, x), visited[x] + 1);
      }
    }
  }

  lemma {:induction false} PutNodeAppends(nodes: seq<Node>, n: Node)
    requires forall m :: m in nodes ==> m.entity.id != n.entity.id
    ensures PutNode(nodes, n) == nodes + [n]
  {
    if nodes != [] { PutNodeAppends(nodes[1..], n); }
  }

  lemma NodesVisit(g: Graph, starts: set<string>, visited: map<string, nat>, nodes: seq<Node>, v: Visit)
    requires GraphKeyed(g) && NodesExact(g, starts, visited, nodes) && v.id !in visited && Has(g.entities, v.id)
    requires Walk(g, starts, v.id, v.path) && |v.path| == v.depth
    ensures var e := Get(g.entities, v.id).value;
            NodesExact(g, starts, visited[v.id := v.depth], if KindShown(g, e, v.depth) then PutNode(nodes, Node(e, v.depth, v.path)) else nodes)
  {
    hide Walk, Has, PutNode, KindShown;
    var e := Get(g.entities, v.id).value;
    var n := Node(e, v.depth, v.path);
    var visited' := visited[v.id := v.depth];
    PutNodeAppends(nodes, n);
    var nodes' := if KindShown(g, e, v.depth) then PutNode(nodes, n) else nodes;
    assert forall m :: m in nodes ==> m in nodes' && NodeOk(g, starts, visited', m);
    assert KindShown(g, e, v.depth) ==> NodeOk(g, starts, visited', n) && n in nodes';
    forall x | x in visited' && Has(g.entities, x) && KindShown(g, Get(g.entities, x).value, visited'[x]) ensures Shown(nodes', x) {
      if x != v.id { assert Shown(nodes, x); }
    }
  }

  lemma {:induction false} TouchedMembers(g: Graph, edges: seq<Assertion>, xs: seq<Assertion>, id: string)
    requires forall a, b :: (a in edges || a in xs) && (b in edges || b in xs) && AssertionKey(a) == AssertionKey(b) ==> a == b
    requires forall i, j :: 0 <= i < j < |edges| ==> edges[i] != edges[j]
    ensures var r := Touched(g, edges, xs, id);
      && (forall a :: a in r <==> a in edges || (a in xs && Touches(g, a, id)))
      && (forall i, j :: 0 <= i < j < |r| ==> r[i] != r[j])
    decreases |xs|
  {
    if xs != [] {
      assert forall a :: a in xs <==> a == xs[0] || a in xs[1..];
      assert xs[0] in edges ==> EdgeKnown(edges, AssertionKey(xs[0]));
      if EdgeKnown(edges, AssertionKey(xs[0])) {
        var i :| 0 <= i < |edges| && AssertionKey(edges[i]) == AssertionKey(xs[0]);
        assert edges[i] in edges && edges[i] == xs[0];
      }
      var edges' := if Touches(g, xs[0], id) && !EdgeKnown(edges, AssertionKey(xs[0])) then edges + [xs[0]] else edges;
      TouchedMembers(g, edges', xs[1..], id);
    }
  }

  lemma EdgesVisit(g: Graph, visited: map<string, nat>, edges: seq<Assertion>, v: Visit)
    requires GraphKeyed(g) && EdgesExact(g, visited, edges) && v.id !in visited
    ensures EdgesExact(g, visited[v.id := v.depth], if v.depth < g.maximumDepth then Touched(g, edges, g.assertions, v.id) else edges)
  {
    hide Touched, Has, Touches;
    var visited' := visited[v.id := v.depth];
    var edges' := if v.depth < g.maximumDepth then Touched(g, edges, g.assertions, v.id) else edges;
    TouchedMembers(g, edges, g.assertions, v.id);
    forall a ensures a in edges' <==> a in g.assertions && Expanded(g, visited', a) {
      if Expanded(g, visited, a) {
        var x :| x in visited && visited[x] < g.maximumDepth && Touches(g, a, x);
        assert x in visited' && visited'[x] == visited[x];
      }
      if Expanded(g, visited', a) {
        var x :| x in visited' && visited'[x] < g.maximumDepth && Touches(g, a, x);
        assert x == v.id || (x in visited && visited[x] == visited'[x]);
      }
      assert v.depth < g.maximumDepth && Touches(g, a, v.id) ==> v.id in visited' && Expanded(g, visited', a);
    }
  }

  lemma ExactVisit(g: Graph, starts: set<string>, visited: map<string, nat>, v: Visit)
    requires VisitedExact(g, starts, visited) && AtDistance(g, starts, v.id, v.depth) && v.depth <= g.maximumDepth && Has(g.entities, v.id)
    ensures VisitedExact(g, starts, visited[v.id := v.depth])
  {
    hide AtDistance, Has;
  }

  lemma QueueReachedStep(g: Graph, starts: set<string>, queue: seq<Visit>, more: seq<Visit>)
    requires queue != [] && QueueReached(g, starts, queue) && QueueReached(g, starts, more)
    ensures QueueReached(g, starts, queue[1..] + more)
  {
    hide Within, Walk;
    assert forall q :: q in queue[1..] + more ==> q in queue || q in more;
  }

  lemma TurnKeepsSearch(g: Graph, starts: set<string>, st: Search)
    requires SearchOk(g, starts, st) && st.queue != []
    ensures Has(g.entities, st.queue[0].id) && SearchOk(g, starts, Turn(g, st))
  {
    hide GraphOk, Levelled, QueuedEntities, Complete, NodesExact, EdgesExact, VisitedExact, QueueReached, Has, GraphKeyed, Pushed, Touched, PutNode, KindShown;
    var v := st.queue[0];
    var visited' := st.visited[v.id := v.depth];
    TurnKeepsQueue(g, st);
    HeadFacts(g, starts, st);
    assert st.queue[1..] + [] == st.queue[1..];
    assert QueueReached(g, starts, []) by { Nothing(g, starts); }
    QueueReachedStep(g, starts, st.queue, []);
    if v.id in st.visited {
      CompleteSkip(g, starts, st.visited, st.queue);
    } else {
      HeadDistance(g, starts, st);
      ExactVisit(g, starts, st.visited, v);
      NodesVisit(g, starts, st.visited, st.nodes, v);
      EdgesVisit(g, st.visited, st.edges, v);
      if v.depth < g.maximumDepth {
        PushedReached(g, starts, v);
        QueueReachedStep(g, starts, st.queue, Pushed(g, g.assertions, v));
        CompleteVisit(g, starts, st.visited, st.queue, Pushed(g, g.assertions, v));
      } else {
        CompleteVisit(g, starts, st.visited, st.queue, []);
      }
    }
  }

  lemma Nothing(g: Graph, starts: set<string>)
    ensures QueueReached(g, starts, [])
  {
  }

  lemma HeadFacts(g: Graph, starts: set<string>, st: Search)
    requires SearchOk(g, starts, st) && st.queue != []
    ensures var v := st.queue[0];
      && v.id in Within(g, starts, v.depth) && Walk(g, starts, v.id, v.path) && |v.path| == v.depth <= g.maximumDepth && Has(g.entities, v.id)
      && (v.id in st.visited ==> st.visited[v.id] <= v.depth)
  {
    hide Within, Walk, Complete, NodesExact, EdgesExact, VisitedExact, Has;
    assert st.queue[0] in st.queue;
  }

  lemma {:induction false} ExploreExact(g: Graph, starts: set<string>, st: Search)
    requires SearchOk(g, starts, st)
    ensures var r := Explore(g, st); SearchOk(g, starts, r) && (r.queue == [] || r.stopped)
    decreases Ids(g.entities) - st.visited.Keys, |st.queue|
  {
    hide SearchOk, Turn, QueueOk, GraphOk;
    SearchParts(g, starts, st);
    if st.queue != [] && !st.stopped {
      TurnKeepsQueue(g, st);
      TurnProgresses(g, st);
      TurnKeepsSearch(g, starts, st);
      ExploreExact(g, starts, Turn(g, st));
    }
  }

  lemma SearchParts(g: Graph, starts: set<string>, st: Search)
    requires SearchOk(g, starts, st)
    ensures GraphOk(g) && QueueOk(g, st)
  {
  }
}
