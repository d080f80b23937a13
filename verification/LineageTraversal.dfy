/** The bounded breadth-first traversal of what a policy allows to be read. */
module LineageTraversal {
  import opened Wrappers
  import opened LineageLedger

  /** What the search needs of a request: the readable assertions in their fixed order, and the bounds. */
  datatype Graph = Graph(entities: Table<Entity>, assertions: seq<Assertion>, direction: Direction,
                         entityKinds: Option<seq<EntityKind>>, maximumDepth: nat, maximumResults: nat)

  datatype Visit = Visit(id: string, depth: nat, path: seq<string>)
  datatype Node = Node(entity: Entity, depth: nat, path: seq<string>)

  /** The loop's variables; `stopped` is the early exit once more than the maximum has been collected. */
  datatype Search = Search(queue: seq<Visit>, visited: map<string, nat>, nodes: seq<Node>, edges: seq<Assertion>, stopped: bool)

  predicate Touches(g: Graph, a: Assertion, id: string) {
    match g.direction
    case Downstream => a.sourceEntityId == id
    case Upstream => a.targetEntityId == id
    case Both => a.sourceEntityId == id || a.targetEntityId == id
  }

  function NextId(a: Assertion, id: string): string {
    if a.sourceEntityId == id then a.targetEntityId else a.sourceEntityId
  }

  predicate KindShown(g: Graph, e: Entity, depth: nat) {
    g.entityKinds.None? || e.kind in g.entityKinds.value || depth == 0
  }

  /** Both endpoints of every readable assertion are visible entities. */
  ghost predicate GraphOk(g: Graph) {
    forall a :: a in g.assertions ==> Has(g.entities, a.sourceEntityId) && Has(g.entities, a.targetEntityId)
  }

  // ----- the search -----

  function Pushed(g: Graph, xs: seq<Assertion>, v: Visit): (r: seq<Visit>)
    ensures forall q :: q in r <==> exists a :: a in xs && Touches(g, a, v.id) && q == Visit(NextId(a, v.id), v.depth + 1, v.path + [a.id])
  {
    if xs == [] then []
    else
      assert xs == [xs[0]] + xs[1..];
      (if Touches(g, xs[0], v.id) then [Visit(NextId(xs[0], v.id), v.depth + 1, v.path + [xs[0].id])] else []) + Pushed(g, xs[1..], v)
  }

  predicate EdgeKnown(edges: seq<Assertion>, key: string) {
    exists i :: 0 <= i < |edges| && AssertionKey(edges[i]) == key
  }

  function Touched(g: Graph, edges: seq<Assertion>, xs: seq<Assertion>, id: string): seq<Assertion>
    decreases |xs|
  {
    if xs == [] then edges
    else Touched(g, if Touches(g, xs[0], id) && !EdgeKnown(edges, AssertionKey(xs[0])) then edges + [xs[0]] else edges, xs[1..], id)
  }

  /** `Map.set` on the node map. */
  function PutNode(nodes: seq<Node>, n: Node): seq<Node> {
    if nodes == [] then [n]
    else if nodes[0].entity.id == n.entity.id then [n] + nodes[1..]
    else [nodes[0]] + PutNode(nodes[1..], n)
  }

  /** One turn of the loop. */
  function Turn(g: Graph, st: Search): Search
    requires st.queue != [] && Has(g.entities, st.queue[0].id)
  {
    var v, rest := st.queue[0], st.queue[1..];
    if v.id in st.visited && st.visited[v.id] <= v.depth then st.(queue := rest)
    else
      var entity := Get(g.entities, v.id).value;
      var nodes := if KindShown(g, entity, v.depth) then PutNode(st.nodes, Node(entity, v.depth, v.path)) else st.nodes;
      var seen := st.(queue := rest, visited := st.visited[v.id := v.depth], nodes := nodes);
      if v.depth >= g.maximumDepth then seen
      else
        var edges := Touched(g, st.edges, g.assertions, v.id);
        seen.(queue := rest + Pushed(g, g.assertions, v), edges := edges, stopped := |nodes| + |edges| > g.maximumResults)
  }

  /** Queue depths never fall and span at most one level. */
  ghost predicate Levelled(queue: seq<Visit>) {
    && (forall q :: q in queue ==> queue[0].depth <= q.depth <= queue[0].depth + 1)
    && (forall i, j :: 0 <= i < j < |queue| ==> queue[i].depth <= queue[j].depth)
  }

  ghost predicate QueuedEntities(g: Graph, queue: seq<Visit>) {
    forall q :: q in queue ==> Has(g.entities, q.id)
  }

  ghost predicate VisitedBelow(visited: map<string, nat>, queue: seq<Visit>) {
    forall x, q :: x in visited && q in queue ==> visited[x] <= q.depth
  }

  ghost predicate QueueOk(g: Graph, st: Search) {
    Levelled(st.queue) && QueuedEntities(g, st.queue) && VisitedBelow(st.visited, st.queue)
  }

  function Ids(t: Table<Entity>): set<string> {
    set e | e in t :: e.key
  }

  lemma PushedInGraph(g: Graph, v: Visit)
    requires GraphOk(g)
    ensures forall q :: q in Pushed(g, g.assertions, v) ==> Has(g.entities, q.id) && q.depth == v.depth + 1
  {
    hide Has;
    forall q | q in Pushed(g, g.assertions, v) ensures Has(g.entities, q.id) && q.depth == v.depth + 1 {
      var a :| a in g.assertions && Touches(g, a, v.id) && q == Visit(NextId(a, v.id), v.depth + 1, v.path + [a.id]);
    }
  }

  lemma QueueAppended(queue: seq<Visit>, more: seq<Visit>)
    requires queue != [] && Levelled(queue)
    requires forall q :: q in more ==> q.depth == queue[0].depth + 1
    ensures Levelled(queue[1..] + more) && forall q :: q in queue[1..] + more ==> queue[0].depth <= q.depth
  {
    var r := queue[1..] + more;
    forall i | 0 <= i < |r| ensures queue[0].depth <= r[i].depth <= queue[0].depth + 1 && (i >= |queue| - 1 ==> r[i].depth == queue[0].depth + 1) {
      if i < |queue| - 1 { assert r[i] == queue[i + 1] && queue[i + 1] in queue; } else { assert r[i] == more[i - |queue| + 1]; }
    }
    forall i, j | 0 <= i < j < |r| ensures r[i].depth <= r[j].depth {
      if j < |queue| - 1 { assert r[i] == queue[i + 1] && r[j] == queue[j + 1]; }
    }
  }

  lemma TurnShape(g: Graph, st: Search)
    requires st.queue != [] && Has(g.entities, st.queue[0].id)
    ensures var v, rest, st' := st.queue[0], st.queue[1..], Turn(g, st);
      && (st'.queue == rest || st'.queue == rest + Pushed(g, g.assertions, v))
      && (if v.id in st.visited && st.visited[v.id] <= v.depth then st' == st.(queue := rest) else st'.visited == st.visited[v.id := v.depth])
  {
    hide Has, Pushed, Touched, PutNode, KindShown;
  }

  lemma BelowKept(visited: map<string, nat>, queue: seq<Visit>, visited': map<string, nat>, queue': seq<Visit>)
    requires queue != [] && VisitedBelow(visited, queue)
    requires visited' == visited || visited' == visited[queue[0].id := queue[0].depth]
    requires forall q :: q in queue' ==> queue[0].depth <= q.depth
    ensures VisitedBelow(visited', queue')
  {
    assert queue[0] in queue;
  }

  lemma TurnKeepsQueue(g: Graph, st: Search)
    requires GraphOk(g) && QueueOk(g, st) && st.queue != []
    ensures Has(g.entities, st.queue[0].id) && QueueOk(g, Turn(g, st))
  {
    hide Has, Pushed, Turn, GraphOk, Levelled, VisitedBelow;
    var v, rest := st.queue[0], st.queue[1..];
    assert v in st.queue && forall q :: q in rest ==> q in st.queue;
    TurnShape(g, st);
    PushedInGraph(g, v);
    QueueAppended(st.queue, []);
    assert rest + [] == rest;
    QueueAppended(st.queue, Pushed(g, g.assertions, v));
    BelowKept(st.visited, st.queue, Turn(g, st).visited, Turn(g, st).queue);
  }

  lemma TurnProgresses(g: Graph, st: Search)
    requires QueueOk(g, st) && st.queue != []
    ensures var st' := Turn(g, st);
      || Ids(g.entities) - st'.visited.Keys < Ids(g.entities) - st.visited.Keys
      || (st'.visited == st.visited && |st'.queue| < |st.queue|)
  {
    hide Turn;
    TurnShape(g, st);
    var v := st.queue[0];
    assert v in st.queue;
    var i :| 0 <= i < |g.entities| && g.entities[i].key == v.id;
    assert g.entities[i] in g.entities;
    if v.id !in st.visited {
      assert v.id in Ids(g.entities) - st.visited.Keys;
      assert Turn(g, st).visited.Keys == st.visited.Keys + {v.id};
    }
  }

  /** The whole loop; it ends because each turn visits a new entity or shortens the queue. */
  function Explore(g: Graph, st: Search): Search
    requires GraphOk(g) && QueueOk(g, st)
    decreases Ids(g.entities) - st.visited.Keys, |st.queue|
  {
    if st.queue == [] || st.stopped then st
    else
      TurnKeepsQueue(g, st);
      TurnProgresses(g, st);
      Explore(g, Turn(g, st))
  }
}
