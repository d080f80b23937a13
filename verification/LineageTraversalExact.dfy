/** What a traversal's rows are: exactly the readable neighbourhood unless the bound cut them off. */
module LineageTraversalExact {
  import opened Wrappers
  import opened Sorting
  import opened LineageLedger
  import opened LineageArchive
  import opened LineageRebuild
  import opened LineageTraversal
  import opened LineageReach
  import opened LineageQuery

  // ----- the early exit -----

  lemma {:induction false} StoppedOver(g: Graph, st: Search)
    requires GraphOk(g) && QueueOk(g, st)
    requires st.stopped ==> |st.nodes| + |st.edges| > g.maximumResults
    ensures var r := Explore(g, st); r.stopped ==> |r.nodes| + |r.edges| > g.maximumResults
    decreases Ids(g.entities) - st.visited.Keys, |st.queue|
  {
    hide QueueOk, GraphOk, Touched, Pushed, PutNode;
    if st.queue != [] && !st.stopped {
      TurnKeepsQueue(g, st);
      TurnProgresses(g, st);
      StoppedOver(g, Turn(g, st));
    }
  }

  // ----- rows and what was found -----

  lemma {:induction false} NodesInCount(rows: seq<Row>, n: Node)
    ensures multiset(NodesIn(rows))[n] == multiset(rows)[NodeRow(n)]
  {
    if rows != [] {
      assert rows == [rows[0]] + rows[1..];
      NodesInCount(rows[1..], n);
    }
  }

  lemma {:induction false} EdgesInCount(rows: seq<Row>, e: Edge)
    ensures multiset(EdgesIn(rows))[e] == multiset(rows)[EdgeRow(e)]
  {
    if rows != [] {
      assert rows == [rows[0]] + rows[1..];
      EdgesInCount(rows[1..], e);
    }
  }

  lemma {:induction false} NodeRowsCount(nodes: seq<Node>, n: Node)
    ensures multiset(NodeRows(nodes))[NodeRow(n)] == multiset(nodes)[n]
  {
    var rows := NodeRows(nodes);
    if nodes != [] {
      assert nodes == [nodes[0]] + nodes[1..];
      assert rows == [NodeRow(nodes[0])] + NodeRows(nodes[1..]);
      NodeRowsCount(nodes[1..], n);
    }
  }

  lemma {:induction false} EdgeRowsCount(edges: seq<Edge>, e: Edge)
    ensures multiset(EdgeRows(edges))[EdgeRow(e)] == multiset(edges)[e]
  {
    var rows := EdgeRows(edges);
    if edges != [] {
      assert edges == [edges[0]] + edges[1..];
      assert rows == [EdgeRow(edges[0])] + EdgeRows(edges[1..]);
      EdgeRowsCount(edges[1..], e);
    }
  }

  lemma NodesSplit(nodes: seq<Node>, edges: seq<Edge>, rows: seq<Row>)
    requires multiset(rows) == multiset(NodeRows(nodes)) + multiset(EdgeRows(edges))
    ensures multiset(NodesIn(rows)) == multiset(nodes)
  {
    hide NodesIn, EdgesIn;
    forall n ensures multiset(NodesIn(rows))[n] == multiset(nodes)[n] {
      NodesInCount(rows, n);
      NodeRowsCount(nodes, n);
      assert NodeRow(n) !in EdgeRows(edges);
    }
  }

  lemma EdgesSplit(nodes: seq<Node>, edges: seq<Edge>, rows: seq<Row>)
    requires multiset(rows) == multiset(NodeRows(nodes)) + multiset(EdgeRows(edges))
    ensures multiset(EdgesIn(rows)) == multiset(edges)
  {
    hide NodesIn, EdgesIn;
    forall e ensures multiset(EdgesIn(rows))[e] == multiset(edges)[e] {
      EdgesInCount(rows, e);
      EdgeRowsCount(edges, e);
      assert EdgeRow(e) !in NodeRows(nodes);
    }
  }

  lemma RowCount(nodes: seq<Node>, edges: seq<Edge>)
    ensures |NodeRows(nodes) + EdgeRows(edges)| == |nodes| + |edges|
    ensures multiset(NodeRows(nodes) + EdgeRows(edges)) == multiset(NodeRows(nodes)) + multiset(EdgeRows(edges))
  {
  }

  /** The rows are exactly what the search found, each item once. */
  lemma RowsFound(env: Env, s: Ledger, r: Request, p: Policy)
    requires r.maximumDepth >= 0 && r.maximumResults >= 0 && StartsAvailable(s, r, p)
    ensures var found, rows := Searched(env, s, r, p), Rows(env, s, r, p);
      && multiset(NodesIn(rows)) == multiset(found.nodes)
      && multiset(EdgesIn(rows)) == multiset(EdgesOf(s, r, p, found.edges))
      && |rows| == |found.nodes| + |found.edges|
  {
    hide Searched, StartsAvailable, EdgeOf, LessRow, LessNode, LessEdge, NodesIn, EdgesIn, NodeRows, EdgeRows, Sort;
    var found := Searched(env, s, r, p);
    var nodes := Sort(found.nodes, LessNode(env));
    var edges := Sort(EdgesOf(s, r, p, found.edges), LessEdge(env));
    NodesSplit(nodes, edges, Rows(env, s, r, p));
    EdgesSplit(nodes, edges, Rows(env, s, r, p));
    RowCount(nodes, edges);
  }

  // ----- the search of a valid ledger -----

  function Starts(r: Request): set<string> {
    set x | x in r.startEntityIds
  }

  lemma GraphOfKeyed(env: Env, s: Ledger, r: Request, p: Policy)
    requires r.maximumDepth >= 0 && r.maximumResults >= 0 && Shaped(s)
    ensures GraphKeyed(GraphOf(env, s, r, p))
  {
    forall x | Has(s.entities, x) ensures Get(s.entities, x).value.id == x {
      var e :| e in s.entities && e.key == x && e.value == Get(s.entities, x).value;
    }
    forall a, b | a in Readable(env, s, r, p) && b in Readable(env, s, r, p) && AssertionKey(a) == AssertionKey(b) ensures a == b {
      GetValue(s.assertions, s.sequence, AssertionKey, a);
      GetValue(s.assertions, s.sequence, AssertionKey, b);
    }
  }

  lemma StartSearchOk(env: Env, s: Ledger, r: Request, p: Policy)
    requires r.maximumDepth >= 0 && r.maximumResults >= 0 && Shaped(s) && StartsAvailable(s, r, p)
    ensures SearchOk(GraphOf(env, s, r, p), Starts(r), StartSearch(r))
  {
    hide TableOk, StartsAvailable, GraphOk, GraphKeyed, QueueOk, Has, Touches, GraphOf, StartSearch;
    var g, st := GraphOf(env, s, r, p), StartSearch(r);
    StartsInGraph(env, s, r, p);
    StartsQueued(s, r, p);
    GraphOfKeyed(env, s, r, p);
    NothingVisited(r);
    StartBounds(env, s, r, p);
    forall x | x in Starts(r) ensures Reached(st.visited, st.queue, x, 0) {
      var q :| q in st.queue && q.id == x && q.depth == 0;
    }
    assert QueueReached(g, Starts(r), st.queue);
    hide Reached, Within, Walk, KindShown;
  }

  lemma NothingVisited(r: Request)
    ensures var st := StartSearch(r); st.visited == map[] && st.nodes == [] && st.edges == []
  {
  }

  lemma StartBounds(env: Env, s: Ledger, r: Request, p: Policy)
    requires r.maximumDepth >= 0 && r.maximumResults >= 0
    ensures GraphOf(env, s, r, p).maximumDepth == r.maximumDepth && GraphOf(env, s, r, p).entities == s.entities
  {
  }

  lemma SearchedOk(env: Env, s: Ledger, r: Request, p: Policy)
    requires r.maximumDepth >= 0 && r.maximumResults >= 0 && Shaped(s) && StartsAvailable(s, r, p)
    ensures var g, found := GraphOf(env, s, r, p), Searched(env, s, r, p);
      && SearchOk(g, Starts(r), found)
      && (|found.nodes| + |found.edges| <= r.maximumResults ==> found.queue == [])
  {
    hide Shaped, SearchOk, GraphOk, QueueOk, StartsAvailable;
    StartSearchOk(env, s, r, p);
    StartsInGraph(env, s, r, p);
    ExploreExact(GraphOf(env, s, r, p), Starts(r), StartSearch(r));
    StoppedOver(GraphOf(env, s, r, p), StartSearch(r));
  }

  lemma FinishedReach(g: Graph, starts: set<string>, st: Search)
    requires SearchOk(g, starts, st) && st.queue == []
    ensures forall x, d: nat :: AtDistance(g, starts, x, d) && d <= g.maximumDepth ==> x in st.visited && st.visited[x] == d
  {
    hide GraphOk, GraphKeyed, QueueOk, NodesExact, EdgesExact, Within, Walk, Complete, Has;
    forall x, d: nat | AtDistance(g, starts, x, d) && d <= g.maximumDepth ensures x in st.visited && st.visited[x] == d {
      NearerVisited(g, starts, st.visited, [], d);
      assert AtDistance(g, starts, x, st.visited[x]);
      if st.visited[x] < d { WithinGrows(g, starts, st.visited[x], d - 1); }
    }
  }

  // ----- the theorem -----

  /** A node of the result: a readable entity of the graph at its true distance, with a path of that length. */
  ghost predicate NodeTrue(g: Graph, starts: set<string>, n: Node) {
    && AtDistance(g, starts, n.entity.id, n.depth) && n.depth <= g.maximumDepth
    && Get(g.entities, n.entity.id) == Some(n.entity) && KindShown(g, n.entity, n.depth)
    && Walk(g, starts, n.entity.id, n.path) && |n.path| == n.depth
  }

  /** An assertion at an entity nearer than the maximum depth. */
  ghost predicate EdgeTrue(g: Graph, starts: set<string>, a: Assertion) {
    a in g.assertions && exists x, d: nat :: AtDistance(g, starts, x, d) && d < g.maximumDepth && Touches(g, a, x)
  }

  lemma FoundTrue(g: Graph, starts: set<string>, st: Search)
    requires SearchOk(g, starts, st)
    ensures forall n :: n in st.nodes ==> NodeTrue(g, starts, n)
    ensures forall a :: a in st.edges ==> EdgeTrue(g, starts, a)
  {
    hide GraphOk, GraphKeyed, QueueOk, Within, Walk, Complete, Has, AtDistance, KindShown;
    forall a | a in st.edges ensures EdgeTrue(g, starts, a) {
      var x :| x in st.visited && st.visited[x] < g.maximumDepth && Touches(g, a, x);
      assert AtDistance(g, starts, x, st.visited[x]);
    }
  }

  lemma AllFound(g: Graph, starts: set<string>, st: Search)
    requires SearchOk(g, starts, st) && st.queue == []
    ensures forall x, d: nat :: AtDistance(g, starts, x, d) && d <= g.maximumDepth && Has(g.entities, x) && KindShown(g, Get(g.entities, x).value, d)
              ==> Shown(st.nodes, x)
    ensures forall a :: EdgeTrue(g, starts, a) ==> a in st.edges
  {
    hide GraphOk, GraphKeyed, QueueOk, Within, Walk, Complete, Has, AtDistance, KindShown;
    FinishedReach(g, starts, st);
    forall a | EdgeTrue(g, starts, a) ensures a in st.edges {
      var x, d: nat :| AtDistance(g, starts, x, d) && d < g.maximumDepth && Touches(g, a, x);
      assert x in st.visited && st.visited[x] == d;
      assert Expanded(g, st.visited, a);
    }
  }

  ghost predicate RowsTrue(g: Graph, starts: set<string>, s: Ledger, r: Request, p: Policy, rows: seq<Row>) {
    && (forall n :: n in NodesIn(rows) ==> NodeTrue(g, starts, n))
    && (forall e :: e in EdgesIn(rows) ==> EdgeTrue(g, starts, e.assertion) && e == EdgeOf(s, r, p, e.assertion))
  }

  ghost predicate RowsOnce(rows: seq<Row>) {
    && (forall n :: multiset(NodesIn(rows))[n] <= 1)
    && (forall e :: multiset(EdgesIn(rows))[e] <= 1)
  }

  /** The entity is within the bounds of the request and of a kind it asks for, or a start. */
  ghost predicate ShouldShow(g: Graph, starts: set<string>, id: string) {
    exists d: nat :: AtDistance(g, starts, id, d) && d <= g.maximumDepth && Has(g.entities, id) && KindShown(g, Get(g.entities, id).value, d)
  }

  ghost predicate RowsComplete(g: Graph, starts: set<string>, s: Ledger, r: Request, p: Policy, rows: seq<Row>) {
    && (forall x :: ShouldShow(g, starts, x) ==> Shown(NodesIn(rows), x))
    && (forall a :: EdgeTrue(g, starts, a) ==> EdgeOf(s, r, p, a) in EdgesIn(rows))
  }

  lemma RowsAreTrue(g: Graph, starts: set<string>, s: Ledger, r: Request, p: Policy, found: Search, rows: seq<Row>)
    requires SearchOk(g, starts, found)
    requires multiset(NodesIn(rows)) == multiset(found.nodes) && multiset(EdgesIn(rows)) == multiset(EdgesOf(s, r, p, found.edges))
    ensures RowsTrue(g, starts, s, r, p, rows) && RowsOnce(rows)
  {
    hide SearchOk, NodeTrue, EdgeTrue, EdgeOf, NodesIn, EdgesIn;
    var edges := EdgesOf(s, r, p, found.edges);
    FoundTrue(g, starts, found);
    FoundOnce(g, starts, s, r, p, found);
    forall n | n in NodesIn(rows) ensures n in found.nodes { assert n in multiset(NodesIn(rows)); }
    forall e | e in EdgesIn(rows) ensures EdgeTrue(g, starts, e.assertion) && e == EdgeOf(s, r, p, e.assertion) {
      assert e in multiset(EdgesIn(rows)) && e in multiset(edges);
      var i :| 0 <= i < |edges| && edges[i] == e;
      EdgeOfAssertion(s, r, p, found.edges[i]);
      assert found.edges[i] in found.edges;
    }
  }

  lemma RowsAreComplete(g: Graph, starts: set<string>, s: Ledger, r: Request, p: Policy, found: Search, rows: seq<Row>)
    requires SearchOk(g, starts, found) && found.queue == []
    requires multiset(NodesIn(rows)) == multiset(found.nodes) && multiset(EdgesIn(rows)) == multiset(EdgesOf(s, r, p, found.edges))
    ensures RowsComplete(g, starts, s, r, p, rows)
  {
    hide SearchOk, EdgeTrue, EdgeOf, NodesIn, EdgesIn, AtDistance, KindShown, Has;
    var edges := EdgesOf(s, r, p, found.edges);
    AllFound(g, starts, found);
    forall x | ShouldShow(g, starts, x) ensures Shown(NodesIn(rows), x) {
      var n :| n in found.nodes && n.entity.id == x;
      assert n in multiset(found.nodes) && n in multiset(NodesIn(rows));
    }
    forall a | EdgeTrue(g, starts, a) ensures EdgeOf(s, r, p, a) in EdgesIn(rows) {
      var i :| 0 <= i < |found.edges| && found.edges[i] == a;
      assert edges[i] in multiset(edges) && edges[i] in multiset(EdgesIn(rows));
    }
  }

  /**
    Every row is true of the readable graph and occurs once; when the rows fit the bound, none is missing: nodes are
    exactly the entities within the maximum depth whose kind is asked for or that are starts, and edges exactly the
    readable assertions at entities nearer than that.
   */
  lemma TraversalExact(env: Env, l: Ledger, n: nat, r: Request, p: Policy)
    requires Valid(env, l) && n <= l.sequence
    requires r.maximumDepth >= 0 && r.maximumResults >= 0 && StartsAvailable(At(l, n), r, p)
    ensures var s := At(l, n);
            var g, rows := GraphOf(env, s, r, p), Rows(env, s, r, p);
      && RowsTrue(g, Starts(r), s, r, p, rows) && RowsOnce(rows)
      && (|rows| <= r.maximumResults ==> RowsComplete(g, Starts(r), s, r, p, rows))
  {
    hide Valid, Shaped, At, SearchOk, RowsTrue, RowsOnce, RowsComplete, Searched, Rows, GraphOf, StartsAvailable, EdgesOf;
    var s := At(l, n);
    PrefixShaped(env, l, n);
    var g, found, rows := GraphOf(env, s, r, p), Searched(env, s, r, p), Rows(env, s, r, p);
    SearchedOk(env, s, r, p);
    RowsFound(env, s, r, p);
    RowsAreTrue(g, Starts(r), s, r, p, found, rows);
    if |rows| <= r.maximumResults { RowsAreComplete(g, Starts(r), s, r, p, found, rows); }
  }

  lemma PrefixShaped(env: Env, l: Ledger, n: nat)
    requires Valid(env, l) && n <= l.sequence
    ensures Shaped(At(l, n))
  {
    ShapedAt(l, n);
  }

  lemma EdgeOfAssertion(s: Ledger, r: Request, p: Policy, a: Assertion)
    ensures EdgeOf(s, r, p, a).assertion == a
  {
  }

  lemma FoundOnce(g: Graph, starts: set<string>, s: Ledger, r: Request, p: Policy, st: Search)
    requires SearchOk(g, starts, st)
    ensures forall n :: multiset(st.nodes)[n] <= 1
    ensures forall e :: multiset(EdgesOf(s, r, p, st.edges))[e] <= 1
  {
    hide GraphOk, GraphKeyed, QueueOk, Within, Walk, Complete, VisitedExact, QueueReached, Has, EdgeOf;
    forall n ensures multiset(st.nodes)[n] <= 1 {
      if multiset(st.nodes)[n] >= 2 { TwoOccurrences(st.nodes, n); assert false; }
    }
    var edges := EdgesOf(s, r, p, st.edges);
    forall i | 0 <= i < |edges| ensures edges[i].assertion == st.edges[i] { EdgeOfAssertion(s, r, p, st.edges[i]); }
    forall e ensures multiset(edges)[e] <= 1 {
      if multiset(edges)[e] >= 2 { TwoOccurrences(edges, e); assert false; }
    }
  }
}
