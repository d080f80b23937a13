/** Breadth-first neighbourhoods of a community graph, the graph filter and induced subgraphs. */
module Neighborhood {
  import opened Wrappers
  import opened Sorting

  datatype Edge = Edge(source: string, target: string, weight: real, kind: Option<string>)
  datatype Community = Community(id: string, nodes: seq<string>)

  /** Nodes are known by their ids. */
  datatype Graph = Graph(nodes: seq<string>, edges: seq<Edge>, communities: seq<Community>)

  // ----- adjacency -----

  predicate Joins(e: Edge, a: string, b: string) {
    (e.source == a && e.target == b) || (e.source == b && e.target == a)
  }

  ghost predicate Adjacent(g: Graph, a: string, b: string) {
    exists i :: 0 <= i < |g.edges| && Joins(g.edges[i], a, b)
  }

  /** Listed as a node, or an endpoint of an edge. */
  ghost predicate Known(g: Graph, id: string) {
    id in g.nodes || exists other :: Adjacent(g, id, other)
  }

  type Adjacency = map<string, set<string>>

  /** The neighbours recorded for an id, none if it has no entry. */
  function NeighborsIn(adjacency: Adjacency, id: string): set<string> {
    if id in adjacency then adjacency[id] else {}
  }

  /** The map has an entry for exactly the known ids, holding exactly their neighbours. */
  ghost predicate AdjacencyOf(g: Graph, adjacency: Adjacency) {
    && (forall id :: id in adjacency <==> Known(g, id))
    && (forall a, b :: b in NeighborsIn(adjacency, a) <==> Adjacent(g, a, b))
  }

  function Ensure(adjacency: Adjacency, id: string): Adjacency {
    if id in adjacency then adjacency else adjacency[id := {}]
  }

  function Add(adjacency: Adjacency, id: string, neighbor: string): Adjacency {
    var ensured := Ensure(adjacency, id);
    ensured[id := ensured[id] + {neighbor}]
  }

  /** `buildAdjacency`. */
  method BuildAdjacency(g: Graph) returns (adjacency: Adjacency)
    ensures AdjacencyOf(g, adjacency)
  {
    adjacency := map[];
    var i := 0;
    while i < |g.nodes|
      invariant 0 <= i <= |g.nodes|
      invariant forall id :: id in adjacency <==> id in g.nodes[..i]
      invariant forall id :: id in adjacency ==> adjacency[id] == {}
    {
      adjacency := Ensure(adjacency, g.nodes[i]);
      i := i + 1;
    }
    assert g.nodes[..i] == g.nodes;
    ghost var prefix := Graph(g.nodes, g.edges[..0], []);
    i := 0;
    while i < |g.edges|
      invariant 0 <= i <= |g.edges|
      invariant AdjacencyOf(Graph(g.nodes, g.edges[..i], []), adjacency)
    {
      AddEdge(g, i, adjacency);
      adjacency := Add(Add(adjacency, g.edges[i].source, g.edges[i].target), g.edges[i].target, g.edges[i].source);
      i := i + 1;
    }
    assert g.edges[..i] == g.edges;
    forall a, b ensures Adjacent(g, a, b) <==> Adjacent(Graph(g.nodes, g.edges[..i], []), a, b) {}
  }

  lemma AdjacentMore(g: Graph, i: nat, a: string, b: string)
    requires i < |g.edges|
    ensures Adjacent(Graph(g.nodes, g.edges[..i + 1], []), a, b) <==> Adjacent(Graph(g.nodes, g.edges[..i], []), a, b) || Joins(g.edges[i], a, b)
  {
    var before, after := Graph(g.nodes, g.edges[..i], []), Graph(g.nodes, g.edges[..i + 1], []);
    hide Joins;
    if k :| 0 <= k < |before.edges| && Joins(before.edges[k], a, b) { assert Joins(after.edges[k], a, b); }
    if Joins(g.edges[i], a, b) { assert Joins(after.edges[i], a, b); }
    if k :| 0 <= k < |after.edges| && Joins(after.edges[k], a, b) { assert k < i ==> Joins(before.edges[k], a, b); }
  }

  lemma AddEdge(g: Graph, i: nat, adjacency: Adjacency)
    requires i < |g.edges| && AdjacencyOf(Graph(g.nodes, g.edges[..i], []), adjacency)
    ensures var e := g.edges[i];
      AdjacencyOf(Graph(g.nodes, g.edges[..i + 1], []), Add(Add(adjacency, e.source, e.target), e.target, e.source))
  {
    var before, after, e := Graph(g.nodes, g.edges[..i], []), Graph(g.nodes, g.edges[..i + 1], []), g.edges[i];
    forall a, b ensures Adjacent(after, a, b) <==> Adjacent(before, a, b) || Joins(e, a, b) { AdjacentMore(g, i, a, b); }
    var added := Add(Add(adjacency, e.source, e.target), e.target, e.source);
    hide Adjacent;
    forall a, b ensures b in NeighborsIn(added, a) <==> Adjacent(after, a, b) {}
    forall id ensures id in added <==> Known(after, id) {
      assert Joins(e, e.source, e.target) && Joins(e, e.target, e.source);
    }
  }

  // ----- reach -----

  /** The ids within `k` hops. */
  ghost function Reach(g: Graph, start: set<string>, k: nat): iset<string> {
    if k == 0 then iset id | id in start
    else OneHop(g, Reach(g, start, k - 1))
  }

  ghost function OneHop(g: Graph, ids: iset<string>): iset<string> {
    iset id | WithinOneHop(g, ids, id)
  }

  ghost predicate WithinOneHop(g: Graph, ids: iset<string>, id: string) {
    id in ids || exists other :: other in ids && Adjacent(g, other, id)
  }

  /** A walk along edges. */
  ghost predicate Walk(g: Graph, p: seq<string>) {
    p != [] && forall i :: 0 <= i < |p| - 1 ==> Adjacent(g, p[i], p[i + 1])
  }

  ghost predicate WalkTo(g: Graph, start: set<string>, id: string, k: nat, p: seq<string>) {
    Walk(g, p) && p[0] in start && p[|p| - 1] == id && |p| <= k + 1
  }

  /** Being within `k` hops is having a walk of at most `k` edges from a start. */
  lemma {:induction false} ReachIsWalk(g: Graph, start: set<string>, k: nat, id: string)
    ensures id in Reach(g, start, k) <==> exists p :: WalkTo(g, start, id, k, p)
  {
    hide Adjacent;
    if k == 0 {
      if id in start { assert WalkTo(g, start, id, 0, [id]); }
    } else {
      if id in Reach(g, start, k - 1) {
        ReachIsWalk(g, start, k - 1, id);
        var p :| WalkTo(g, start, id, k - 1, p);
        assert WalkTo(g, start, id, k, p);
      } else if other :| other in Reach(g, start, k - 1) && Adjacent(g, other, id) {
        ReachIsWalk(g, start, k - 1, other);
        var p :| WalkTo(g, start, other, k - 1, p);
        assert WalkTo(g, start, id, k, p + [id]);
      }
      if p :| WalkTo(g, start, id, k, p) { WalkReaches(g, start, id, k, p); }
    }
  }

  lemma {:induction false} WalkReaches(g: Graph, start: set<string>, id: string, k: nat, p: seq<string>)
    requires WalkTo(g, start, id, k, p)
    ensures id in Reach(g, start, k)
    decreases k
  {
    hide Adjacent;
    if |p| == 1 {
      ReachGrows(g, start, 0, k);
    } else {
      var q := p[..|p| - 1];
      assert forall i :: 0 <= i < |q| ==> q[i] == p[i];
      WalkReaches(g, start, q[|q| - 1], k - 1, q);
      assert Adjacent(g, p[|p| - 2], p[|p| - 1]);
    }
  }

  lemma {:induction false} ReachGrows(g: Graph, start: set<string>, m: nat, n: nat)
    requires m <= n
    ensures forall id :: id in Reach(g, start, m) ==> id in Reach(g, start, n)
  {
    hide Adjacent;
    if m < n { ReachGrows(g, start, m, n - 1); }
  }

  /** Once a hop adds nothing, no later one does. */
  lemma {:induction false} ReachStops(g: Graph, start: set<string>, m: nat, n: nat)
    requires m <= n && Reach(g, start, m + 1) == Reach(g, start, m)
    ensures Reach(g, start, n) == Reach(g, start, m)
  {
    hide Adjacent;
    if m < n {
      ReachStops(g, start, m, n - 1);
    }
  }

  // ----- expansion -----

  /** The seeds the search starts from: the known ones, and with depth 0 all of them. */
  ghost predicate Starts(g: Graph, seeds: seq<string>, depth: int, id: string) {
    id in seeds && (Known(g, id) || depth == 0)
  }

  ghost predicate Exactly(seen: set<string>, ids: iset<string>) {
    forall id :: id in seen <==> id in ids
  }

  /** After a hop: seen is what is within that many hops, and only the frontier can lead further. */
  ghost predicate Swept(g: Graph, start: set<string>, hop: nat, seen: set<string>, frontier: set<string>) {
    && Exactly(seen, Reach(g, start, hop)) && frontier <= seen
    && forall a, b :: a in seen && a !in frontier && Adjacent(g, a, b) ==> b in seen
  }

  /** One hop: everything next to the frontier that was not seen yet. */
  ghost predicate NextFrontier(g: Graph, seen: set<string>, frontier: set<string>, next: set<string>) {
    forall id :: id in next <==> id !in seen && exists a :: a in frontier && Adjacent(g, a, id)
  }

  lemma HopSweeps(g: Graph, start: set<string>, hop: nat, seen: set<string>, frontier: set<string>, next: set<string>)
    requires Swept(g, start, hop, seen, frontier) && NextFrontier(g, seen, frontier, next)
    ensures Swept(g, start, hop + 1, seen + next, next)
  {
    hide Adjacent;
    forall id ensures id in seen + next <==> id in Reach(g, start, hop + 1) {
      if id in Reach(g, start, hop + 1) && id !in seen {
        var other :| other in Reach(g, start, hop) && Adjacent(g, other, id);
        assert other in seen && other in frontier;
      }
      if id in next {
        var a :| a in frontier && Adjacent(g, a, id);
        assert a in Reach(g, start, hop);
      }
    }
    forall a, b | a in seen + next && a !in next && Adjacent(g, a, b) ensures b in seen + next {}
  }

  /** The neighbours of one id of the frontier. */
  method HopFrom(all: set<string>, ghost before: set<string>, seen0: set<string>, next0: set<string>) returns (seen: set<string>, next: set<string>)
    requires seen0 == before + next0
    ensures seen == before + next && forall x :: x in next <==> x in next0 || (x !in before && x in all)
  {
    seen, next := seen0, next0;
    var neighbors := all;
    while neighbors != {}
      invariant neighbors <= all && seen == before + next
      invariant forall x :: x in next <==> x in next0 || (x !in before && x in all && x !in neighbors)
      decreases |neighbors|
    {
      var neighbor :| neighbor in neighbors;
      if neighbor !in seen {
        seen := seen + {neighbor};
        next := next + {neighbor};
      }
      neighbors := neighbors - {neighbor};
    }
  }

  /** One hop over the frontier. */
  method Hop(ghost g: Graph, adjacency: Adjacency, before: set<string>, frontier: set<string>) returns (seen: set<string>, next: set<string>)
    requires AdjacencyOf(g, adjacency)
    ensures NextFrontier(g, before, frontier, next) && seen == before + next
  {
    hide Known, Adjacent, AdjacencyOf, NeighborsIn, Found, NextFrontier;
    seen, next := before, {};
    var todo := frontier;
    ghost var over: set<string> := {};
    NothingFound(adjacency, before);
    while todo != {}
      invariant over + todo == frontier && seen == before + next
      invariant Found(adjacency, before, over, next)
      decreases |todo|
    {
      var id :| id in todo;
      ghost var done := next;
      seen, next := HopFrom(NeighborsIn(adjacency, id), before, seen, next);
      FoundMore(adjacency, before, over, done, id, next);
      todo, over := todo - {id}, over + {id};
    }
    assert over == frontier;
    FoundAll(g, adjacency, before, frontier, next);
  }

  /** What the frontier's first ids lead to and was not seen before. */
  ghost predicate Found(adjacency: Adjacency, before: set<string>, done: set<string>, next: set<string>) {
    forall id :: id in next <==> id !in before && exists a :: a in done && id in NeighborsIn(adjacency, a)
  }

  lemma NothingFound(adjacency: Adjacency, before: set<string>)
    ensures Found(adjacency, before, {}, {})
  {
  }

  lemma FoundMore(adjacency: Adjacency, before: set<string>, done: set<string>, found: set<string>, a: string, next: set<string>)
    requires Found(adjacency, before, done, found)
    requires forall x :: x in next <==> x in found || (x !in before && x in NeighborsIn(adjacency, a))
    ensures Found(adjacency, before, done + {a}, next)
  {
    hide NeighborsIn;
  }

  lemma FoundAll(g: Graph, adjacency: Adjacency, before: set<string>, frontier: set<string>, next: set<string>)
    requires AdjacencyOf(g, adjacency) && Found(adjacency, before, frontier, next)
    ensures NextFrontier(g, before, frontier, next)
  {
    hide NeighborsIn, Adjacent, Known;
  }

  /** `expandNeighborhood`. */
  method ExpandNeighborhood(g: Graph, seeds: seq<string>, depth: int, includeSeeds: bool) returns (result: set<string>)
    ensures Reached(g, seeds, depth, includeSeeds, result)
    ensures ReachedByPaths(g, seeds, depth, includeSeeds, result)
  {
    var adjacency := BuildAdjacency(g);
    hide Known, Adjacent, Reach;
    var seen: set<string> := {};
    var i := 0;
    while i < |seeds|
      invariant 0 <= i <= |seeds|
      invariant forall id :: id in seen <==> id in seeds[..i] && (Known(g, id) || depth == 0)
    {
      if seeds[i] in adjacency || depth == 0 { seen := seen + {seeds[i]}; }
      i := i + 1;
    }
    assert seeds[..i] == seeds;
    ghost var start := seen;
    var frontier := seen;
    StartSweeps(g, start);
    var hop := 0;
    while hop < depth
      invariant 0 <= hop && (hop <= depth || hop == 0) && Swept(g, start, hop, seen, frontier)
    {
      ghost var before := seen;
      var next;
      seen, next := Hop(g, adjacency, seen, frontier);
      HopSweeps(g, start, hop, before, frontier, next);
      if next == {} {
        NothingNew(g, start, hop, depth, before);
        hop := depth;
        break;
      }
      frontier := next;
      hop := hop + 1;
    }
    result := seen;
    assert Exactly(seen, Reach(g, start, if depth < 0 then 0 else depth));
    if !includeSeeds {
      var k := 0;
      while k < |seeds|
        invariant 0 <= k <= |seeds|
        invariant forall id :: id in result <==> id in seen && id !in seeds[..k]
      {
        result := result - {seeds[k]};
        k := k + 1;
      }
      assert seeds[..k] == seeds;
    }
    assert StartSet(g, seeds, depth, start) && Expanded(g, seeds, depth, includeSeeds, start, result);
    hide ReachedByPaths;
    ReachedMeans(g, seeds, depth, includeSeeds, result);
  }

  /** Exactly what is within `depth` hops of the starts, less the seeds when they are not wanted. */
  ghost predicate Expanded(g: Graph, seeds: seq<string>, depth: int, includeSeeds: bool, start: set<string>, result: set<string>) {
    forall id :: id in result <==> id in Reach(g, start, if depth < 0 then 0 else depth) && (includeSeeds || id !in seeds)
  }

  ghost predicate StartSet(g: Graph, seeds: seq<string>, depth: int, start: set<string>) {
    forall id :: id in start <==> Starts(g, seeds, depth, id)
  }

  lemma StartSweeps(g: Graph, start: set<string>)
    ensures Swept(g, start, 0, start, start)
  {
  }

  lemma NothingNew(g: Graph, start: set<string>, hop: nat, depth: nat, seen: set<string>)
    requires hop < depth && Exactly(seen, Reach(g, start, hop)) && Exactly(seen, Reach(g, start, hop + 1))
    ensures Exactly(seen, Reach(g, start, depth))
  {
    hide Reach;
    assert Reach(g, start, hop + 1) == Reach(g, start, hop);
    ReachStops(g, start, hop, depth);
  }

  // ----- expansion by walks -----

  /** Some edge has these two ends, whichever is its source. */
  ghost predicate Linked(g: Graph, a: string, b: string) {
    exists e :: e in g.edges && {e.source, e.target} == {a, b}
  }

  /** Consecutive ids are linked. */
  ghost predicate Path(g: Graph, p: seq<string>) {
    forall i :: 0 <= i < |p| - 1 ==> Linked(g, p[i], p[i + 1])
  }

  /** A seed the search starts from: listed, at an edge's end, or, with depth 0, any. */
  ghost predicate Begins(g: Graph, seeds: seq<string>, depth: int, id: string) {
    id in seeds && (depth == 0 || id in g.nodes || exists e :: e in g.edges && (e.source == id || e.target == id))
  }

  /** A path of at most `depth` edges, none for a negative depth, leads from a starting seed to the id. */
  ghost predicate LeadsTo(g: Graph, seeds: seq<string>, depth: int, id: string, p: seq<string>) {
    p != [] && Begins(g, seeds, depth, p[0]) && p[|p| - 1] == id && Path(g, p) && (|p| == 1 || |p| - 1 <= depth)
  }

  /** The result: what paths lead to, less the seeds when they are not wanted. */
  ghost predicate ReachedByPaths(g: Graph, seeds: seq<string>, depth: int, includeSeeds: bool, result: set<string>) {
    forall id :: id in result <==> (exists p :: LeadsTo(g, seeds, depth, id, p)) && (includeSeeds || id !in seeds)
  }

  lemma LinkedAgrees(g: Graph, a: string, b: string)
    ensures Adjacent(g, a, b) <==> Linked(g, a, b)
  {
    if i :| 0 <= i < |g.edges| && Joins(g.edges[i], a, b) { assert g.edges[i] in g.edges; }
    if e :| e in g.edges && {e.source, e.target} == {a, b} {
      var i :| 0 <= i < |g.edges| && g.edges[i] == e;
      PairOf(e.source, e.target, a, b);
      assert Joins(g.edges[i], a, b);
    }
  }

  lemma PairOf(x: string, y: string, a: string, b: string)
    requires {x, y} == {a, b}
    ensures (x == a && y == b) || (x == b && y == a)
  {
    assert x in {a, b} && y in {a, b} && a in {x, y} && b in {x, y};
  }

  lemma BeginsAgrees(g: Graph, seeds: seq<string>, depth: int, id: string)
    ensures Starts(g, seeds, depth, id) <==> Begins(g, seeds, depth, id)
  {
    if other :| Adjacent(g, id, other) {
      var i :| 0 <= i < |g.edges| && Joins(g.edges[i], id, other);
      assert g.edges[i] in g.edges;
    }
    if e :| e in g.edges && (e.source == id || e.target == id) {
      var i :| 0 <= i < |g.edges| && g.edges[i] == e;
      assert Joins(g.edges[i], id, if e.source == id then e.target else e.source);
      assert Adjacent(g, id, if e.source == id then e.target else e.source);
    }
  }

  /** The expansion reaches exactly what paths lead to. */
  lemma ReachedMeans(g: Graph, seeds: seq<string>, depth: int, includeSeeds: bool, result: set<string>)
    requires Reached(g, seeds, depth, includeSeeds, result)
    ensures ReachedByPaths(g, seeds, depth, includeSeeds, result)
  {
    hide Adjacent, Linked, Starts, Begins, Reach;
    var start: set<string> :| StartSet(g, seeds, depth, start) && Expanded(g, seeds, depth, includeSeeds, start, result);
    var k := if depth < 0 then 0 else depth;
    forall id ensures id in Reach(g, start, k) <==> exists p :: LeadsTo(g, seeds, depth, id, p) {
      ReachIsWalk(g, start, k, id);
      forall p ensures WalkTo(g, start, id, k, p) <==> LeadsTo(g, seeds, depth, id, p) { WalkIsPath(g, seeds, depth, start, id, p); }
    }
  }

  lemma WalkIsPath(g: Graph, seeds: seq<string>, depth: int, start: set<string>, id: string, p: seq<string>)
    requires StartSet(g, seeds, depth, start)
    ensures WalkTo(g, start, id, if depth < 0 then 0 else depth, p) <==> LeadsTo(g, seeds, depth, id, p)
  {
    hide Adjacent, Linked, Starts, Begins;
    if p != [] {
      BeginsAgrees(g, seeds, depth, p[0]);
      forall i | 0 <= i < |p| - 1 ensures Adjacent(g, p[i], p[i + 1]) <==> Linked(g, p[i], p[i + 1]) { LinkedAgrees(g, p[i], p[i + 1]); }
    }
  }

  // ----- the filter -----

  datatype GraphFilter = GraphFilter(
    communityIds: seq<string>, edgeKinds: Option<seq<string>>, nodeIds: Option<seq<string>>, nodePredicate: Option<string -> bool>)

  /** The candidates, before the predicate: community members, else the allow-list, else every listed node. */
  ghost predicate Candidate(g: Graph, f: GraphFilter, id: string) {
    if f.communityIds != [] then exists i :: 0 <= i < |g.communities| && g.communities[i].id in f.communityIds && id in g.communities[i].nodes
    else if f.nodeIds.Some? then id in f.nodeIds.value
    else id in g.nodes
  }

  /** The predicate removes candidates that are listed nodes; it is not asked about others. */
  ghost predicate Permitted(g: Graph, f: GraphFilter, id: string) {
    Candidate(g, f, id) && (f.nodePredicate.Some? && id in g.nodes ==> f.nodePredicate.value(id))
  }

  predicate KeepsEdge(f: GraphFilter, ids: set<string>, e: Edge) {
    e.source in ids && e.target in ids && (f.edgeKinds.Some? ==> e.kind.GetOr("") in f.edgeKinds.value)
  }

  function In(ids: set<string>): string -> bool {
    (id: string) => id in ids
  }

  function EdgeKept(f: GraphFilter, ids: set<string>): Edge -> bool {
    (e: Edge) => KeepsEdge(f, ids, e)
  }

  function Occupied(): Community -> bool {
    (c: Community) => c.nodes != []
  }

  function Trimmed(communities: seq<Community>, ids: set<string>): seq<Community> {
    if communities == [] then []
    else [Community(communities[0].id, Filter(communities[0].nodes, In(ids)))] + Trimmed(communities[1..], ids)
  }

  /** The graph on these ids. */
  function Restricted(g: Graph, f: GraphFilter, ids: set<string>): Graph {
    Graph(Filter(g.nodes, In(ids)), Filter(g.edges, EdgeKept(f, ids)), Filter(Trimmed(g.communities, ids), Occupied()))
  }

  ghost predicate PermittedIds(g: Graph, f: GraphFilter, ids: set<string>) {
    forall id :: id in ids <==> Permitted(g, f, id)
  }

  function SetOf(s: seq<string>): (r: set<string>)
    ensures forall x :: x in r <==> x in s
  {
    set x | x in s
  }

  /** `filterCommunityGraph`: the node set is built, cleared and narrowed in place, then the graph restricted to it. */
  method FilterCommunityGraph(graph: Option<Graph>, f: GraphFilter) returns (result: Graph)
    ensures graph.None? ==> result == Graph([], [], [])
    ensures graph.Some? ==> exists ids :: PermittedIds(graph.value, f, ids) && Induced(graph.value, f.edgeKinds, ids, result)
  {
    if graph.None? { return Graph([], [], []); }
    var g := graph.value;
    hide Restricted, Induced;
    var nodeIds := SetOf(f.nodeIds.GetOr(g.nodes));
    if f.communityIds != [] {
      nodeIds := {};
      var i := 0;
      while i < |g.communities|
        invariant 0 <= i <= |g.communities|
        invariant forall id :: id in nodeIds <==> Member(g.communities[..i], f.communityIds, id)
      {
        MemberStep(g.communities, f.communityIds, i);
        if g.communities[i].id in f.communityIds { nodeIds := nodeIds + SetOf(g.communities[i].nodes); }
        i := i + 1;
      }
      assert g.communities[..i] == g.communities;
      forall id ensures Candidate(g, f, id) <==> Member(g.communities, f.communityIds, id) {}
    }
    assert forall id :: id in nodeIds <==> Candidate(g, f, id);
    hide Candidate;
    if f.nodePredicate.Some? {
      var i := 0;
      while i < |g.nodes|
        invariant 0 <= i <= |g.nodes|
        invariant forall id :: id in nodeIds <==> Candidate(g, f, id) && (id in g.nodes[..i] ==> f.nodePredicate.value(id))
      {
        if g.nodes[i] in nodeIds && !f.nodePredicate.value(g.nodes[i]) { nodeIds := nodeIds - {g.nodes[i]}; }
        assert g.nodes[..i + 1] == g.nodes[..i] + [g.nodes[i]];
        i := i + 1;
      }
      assert g.nodes[..i] == g.nodes;
    }
    assert PermittedIds(g, f, nodeIds);
    RestrictedIsInduced(g, f, nodeIds);
    result := Restricted(g, f, nodeIds);
  }

  ghost predicate Member(communities: seq<Community>, allowed: seq<string>, id: string) {
    exists i :: 0 <= i < |communities| && communities[i].id in allowed && id in communities[i].nodes
  }

  ghost predicate MemberOf(c: Community, allowed: seq<string>, id: string) {
    c.id in allowed && id in c.nodes
  }

  lemma MemberStep(communities: seq<Community>, allowed: seq<string>, i: nat)
    requires i < |communities|
    ensures forall id :: Member(communities[..i + 1], allowed, id) <==> Member(communities[..i], allowed, id) || MemberOf(communities[i], allowed, id)
  {
    var before, after := communities[..i], communities[..i + 1];
    forall id ensures Member(after, allowed, id) <==> Member(before, allowed, id) || (communities[i].id in allowed && id in communities[i].nodes) {
      if Member(before, allowed, id) {
        var k :| 0 <= k < |before| && before[k].id in allowed && id in before[k].nodes;
        assert after[k] == before[k];
      }
      if communities[i].id in allowed && id in communities[i].nodes { assert after[i] == communities[i]; }
      if Member(after, allowed, id) {
        var k :| 0 <= k < |after| && after[k].id in allowed && id in after[k].nodes;
        assert k < i ==> before[k] == after[k];
      }
    }
  }

  // ----- induced subgraphs -----

  /** Of a kind that is asked for, a missing kind counting as the empty one; without a list every kind is. */
  ghost predicate OfKind(kinds: Option<seq<string>>, e: Edge) {
    match kinds
    case None => true
    case Some(list) => exists i :: 0 <= i < |list| && ((e.kind.Some? && list[i] == e.kind.value) || (e.kind.None? && list[i] == ""))
  }

  /**
    The subgraph induced by a set of ids: those nodes, all edges of the kinds between them, each as often as before, and
    the communities trimmed and not empty.
   */
  ghost predicate Induced(g: Graph, kinds: Option<seq<string>>, ids: set<string>, r: Graph) {
    && (forall id :: multiset(r.nodes)[id] == if id in ids then multiset(g.nodes)[id] else 0)
    && (forall e :: multiset(r.edges)[e] == if e.source in ids && e.target in ids && OfKind(kinds, e) then multiset(g.edges)[e] else 0)
    && Cut(g.communities, ids, r.communities)
  }

  /** A community with only the members in the set. */
  ghost predicate TrimOf(c: Community, ids: set<string>, r: Community) {
    r.id == c.id && r.nodes == Filter(c.nodes, In(ids))
  }

  lemma {:induction false} TrimmedAre(communities: seq<Community>, ids: set<string>)
    ensures |Trimmed(communities, ids)| == |communities|
    ensures forall i :: 0 <= i < |communities| ==> TrimOf(communities[i], ids, Trimmed(communities, ids)[i])
  {
    if communities != [] { TrimmedAre(communities[1..], ids); }
  }

  lemma KeepsAgree(f: GraphFilter, ids: set<string>, e: Edge)
    ensures KeepsEdge(f, ids, e) <==> e.source in ids && e.target in ids && OfKind(f.edgeKinds, e)
  {
  }

  /** Restricting a graph induces the subgraph on the ids and the kinds of the filter. */
  lemma RestrictedIsInduced(g: Graph, f: GraphFilter, ids: set<string>)
    ensures Induced(g, f.edgeKinds, ids, Restricted(g, f, ids))
  {
    var r := Restricted(g, f, ids);
    RestrictedParts(g, f, ids);
    TrimmedMeans(g.communities, ids);
    hide Trimmed, TrimOf, OfKind, Filter, Occupied;
  }

  lemma RestrictedParts(g: Graph, f: GraphFilter, ids: set<string>)
    ensures var r := Restricted(g, f, ids);
      && (forall id :: multiset(r.nodes)[id] == if id in ids then multiset(g.nodes)[id] else 0)
      && (forall e :: multiset(r.edges)[e] == if e.source in ids && e.target in ids && OfKind(f.edgeKinds, e) then multiset(g.edges)[e] else 0)
  {
    hide Trimmed, KeepsEdge, OfKind, Filter;
    forall id ensures multiset(Filter(g.nodes, In(ids)))[id] == if id in ids then multiset(g.nodes)[id] else 0 { FilterCount(g.nodes, In(ids), id); }
    forall e ensures multiset(Filter(g.edges, EdgeKept(f, ids)))[e] == if e.source in ids && e.target in ids && OfKind(f.edgeKinds, e) then multiset(g.edges)[e] else 0 {
      FilterCount(g.edges, EdgeKept(f, ids), e);
      KeepsAgree(f, ids, e);
    }
  }

  /** Communities cut down to the ids, without those that end up empty. */
  ghost predicate Cut(communities: seq<Community>, ids: set<string>, kept: seq<Community>) {
    && (forall c :: c in kept ==> c.nodes != [] && exists i :: 0 <= i < |communities| && TrimOf(communities[i], ids, c))
    && (forall i :: 0 <= i < |communities| && (exists id :: id in communities[i].nodes && id in ids) ==> exists c :: c in kept && TrimOf(communities[i], ids, c))
  }

  lemma TrimmedMeans(communities: seq<Community>, ids: set<string>)
    ensures Cut(communities, ids, Filter(Trimmed(communities, ids), Occupied()))
  {
    var trimmed := Trimmed(communities, ids);
    var kept := Filter(trimmed, Occupied());
    TrimmedAre(communities, ids);
    hide Trimmed, TrimOf, Filter;
    forall c | c in kept ensures c.nodes != [] && exists i :: 0 <= i < |communities| && TrimOf(communities[i], ids, c) {
      var i :| 0 <= i < |trimmed| && trimmed[i] == c;
      assert TrimOf(communities[i], ids, c);
    }
    forall i | 0 <= i < |communities| && (exists id :: id in communities[i].nodes && id in ids)
      ensures exists c :: c in kept && TrimOf(communities[i], ids, c)
    {
      NotEmptied(communities[i], ids, trimmed[i]);
      assert trimmed[i] in kept;
    }
  }

  lemma NotEmptied(c: Community, ids: set<string>, r: Community)
    requires TrimOf(c, ids, r) && exists id :: id in c.nodes && id in ids
    ensures r.nodes != []
  {
    var id :| id in c.nodes && id in ids;
    assert id in r.nodes;
  }

  /** Edges join listed nodes. */
  ghost predicate Closed(g: Graph) {
    forall e :: e in g.edges ==> e.source in g.nodes && e.target in g.nodes
  }

  lemma {:induction false} ReachListed(g: Graph, start: set<string>, k: nat, id: string)
    requires Closed(g) && (forall s :: s in start ==> s in g.nodes) && id in Reach(g, start, k)
    ensures id in g.nodes
  {
    if k > 0 {
      if id in Reach(g, start, k - 1) {
        ReachListed(g, start, k - 1, id);
      } else {
        var other :| other in Reach(g, start, k - 1) && Adjacent(g, other, id);
        var i :| 0 <= i < |g.edges| && Joins(g.edges[i], other, id);
        assert g.edges[i] in g.edges;
      }
    }
  }

  /** What the expansion reaches from these seeds. */
  ghost predicate Reached(g: Graph, seeds: seq<string>, depth: int, includeSeeds: bool, ids: set<string>) {
    exists start: set<string> :: StartSet(g, seeds, depth, start) && Expanded(g, seeds, depth, includeSeeds, start, ids)
  }

  /** The induced subgraph on what is reached; where edges join listed nodes, its nodes are exactly the reached ids. */
  ghost predicate InducedOnReached(g: Graph, seeds: seq<string>, depth: int, includeSeeds: bool, r: Graph) {
    exists ids: set<string> :: ReachedByPaths(g, seeds, depth, includeSeeds, ids) && Induced(g, None, ids, r) && (Closed(g) && depth != 0 ==> SetOf(r.nodes) == ids)
  }

  /** `neighborhoodSubgraph`: the induced subgraph on what the expansion reaches. */
  method NeighborhoodSubgraph(g: Graph, seeds: seq<string>, depth: int, includeSeeds: bool) returns (r: Graph)
    ensures InducedOnReached(g, seeds, depth, includeSeeds, r)
  {
    hide Induced, Restricted, Candidate, Reach, StartSet, Expanded, ReachedByPaths;
    var ids := ExpandNeighborhood(g, seeds, depth, includeSeeds);
    var list := Listing(ids);
    var filter := GraphFilter([], None, Some(list), None);
    r := FilterCommunityGraph(Some(g), filter);
    ghost var kept :| PermittedIds(g, filter, kept) && Induced(g, None, kept, r);
    AllowListed(g, filter, list, kept);
    assert kept == ids;
    assert Reached(g, seeds, depth, includeSeeds, ids);
    if Closed(g) && depth != 0 { ReachedListed(g, seeds, depth, includeSeeds, ids, r); }
  }

  lemma AllowListed(g: Graph, f: GraphFilter, list: seq<string>, kept: set<string>)
    requires f.communityIds == [] && f.nodeIds == Some(list) && f.nodePredicate.None? && PermittedIds(g, f, kept)
    ensures forall id :: id in kept <==> id in list
  {
    forall id ensures id in kept <==> id in list { assert Permitted(g, f, id) <==> Candidate(g, f, id); }
  }

  lemma ReachedListed(g: Graph, seeds: seq<string>, depth: int, includeSeeds: bool, ids: set<string>, r: Graph)
    requires Reached(g, seeds, depth, includeSeeds, ids) && Induced(g, None, ids, r) && Closed(g) && depth != 0
    ensures SetOf(r.nodes) == ids
  {
    var start: set<string> :| StartSet(g, seeds, depth, start) && Expanded(g, seeds, depth, includeSeeds, start, ids);
    forall s | s in start ensures s in g.nodes { KnownIsListed(g, s); }
    hide Reach;
    forall id ensures id in r.nodes <==> id in g.nodes && id in ids { assert id in r.nodes <==> multiset(r.nodes)[id] > 0; }
    forall id | id in ids ensures id in g.nodes { ReachListed(g, start, if depth < 0 then 0 else depth, id); }
  }

  lemma KnownIsListed(g: Graph, id: string)
    requires Closed(g) && Known(g, id)
    ensures id in g.nodes
  {
    if other :| Adjacent(g, id, other) {
      var i :| 0 <= i < |g.edges| && Joins(g.edges[i], id, other);
      assert g.edges[i] in g.edges;
    }
  }

  /** `Array.from`: the members in some order. */
  method Listing(s: set<string>) returns (list: seq<string>)
    ensures forall x :: x in list <==> x in s
  {
    list := [];
    var todo := s;
    while todo != {}
      invariant todo <= s && forall x :: x in list <==> x in s && x !in todo
      decreases |todo|
    {
      var x :| x in todo;
      list := list + [x];
      todo := todo - {x};
    }
  }
}
