/** What a traversal answers, said of routes through the visible, readable assertions in the direction asked for. */
module LineageRoutes {
  import opened Wrappers
  import opened Sorting
  import opened Text
  import opened LineageLedger
  import opened LineageArchive
  import opened LineageRebuild
  import opened LineageRules
  import opened LineageOrder
  import opened LineageTraversal
  import opened LineageReach
  import opened LineageQuery
  import opened LineageTraversalExact

  // ----- routes -----

  /** Downstream an assertion leads from its source to its target, upstream the other way, and either way for both. */
  predicate Leads(direction: Direction, a: Assertion, from: string, to: string) {
    match direction
    case Downstream => a.sourceEntityId == from && a.targetEntityId == to
    case Upstream => a.targetEntityId == from && a.sourceEntityId == to
    case Both => (a.sourceEntityId == from && a.targetEntityId == to) || (a.targetEntityId == from && a.sourceEntityId == to)
  }

  /** The assertions, in order, lead from a start to the entity. */
  ghost predicate Route(xs: seq<Assertion>, direction: Direction, starts: set<string>, id: string, route: seq<Assertion>)
    decreases |route|
  {
    if route == [] then id in starts
    else
      var last, rest := route[|route| - 1], route[..|route| - 1];
      last in xs && exists x :: Leads(direction, last, x, id) && Route(xs, direction, starts, x, rest)
  }

  /** The shortest routes to the entity have this length. */
  ghost predicate Distance(xs: seq<Assertion>, direction: Direction, starts: set<string>, id: string, d: nat) {
    && (exists route :: |route| == d && Route(xs, direction, starts, id, route))
    && (forall route :: Route(xs, direction, starts, id, route) ==> d <= |route|)
  }

  lemma LeadsAgrees(g: Graph, a: Assertion, x: string, y: string)
    ensures Leads(g.direction, a, x, y) <==> Touches(g, a, x) && NextId(a, x) == y
  {
  }

  lemma {:induction false} RouteWithin(g: Graph, starts: set<string>, id: string, route: seq<Assertion>)
    requires Route(g.assertions, g.direction, starts, id, route)
    ensures id in Within(g, starts, |route|)
    decreases |route|
  {
    if route != [] {
      var a, rest := route[|route| - 1], route[..|route| - 1];
      var x :| Leads(g.direction, a, x, id) && Route(g.assertions, g.direction, starts, x, rest);
      hide Leads;
      LeadsAgrees(g, a, x, id);
      RouteWithin(g, starts, x, rest);
    }
  }

  lemma {:induction false} WithinRoute(g: Graph, starts: set<string>, id: string, d: nat) returns (route: seq<Assertion>)
    requires id in Within(g, starts, d)
    ensures |route| <= d && Route(g.assertions, g.direction, starts, id, route)
    decreases d
  {
    hide Leads, Touches, NextId;
    if d == 0 {
      route := [];
    } else {
      var w := Within(g, starts, d - 1);
      if id in w {
        route := WithinRoute(g, starts, id, d - 1);
      } else {
        var a, x :| a in g.assertions && x in w && Touches(g, a, x) && NextId(a, x) == id;
        var rest := WithinRoute(g, starts, x, d - 1);
        LeadsAgrees(g, a, x, id);
        route := rest + [a];
        assert route[..|route| - 1] == rest;
      }
    }
  }

  /** The distances of the search are those of routes. */
  lemma DistanceAgrees(g: Graph, starts: set<string>, id: string, d: nat)
    ensures AtDistance(g, starts, id, d) <==> Distance(g.assertions, g.direction, starts, id, d)
  {
    hide Within, Route;
    if AtDistance(g, starts, id, d) {
      var route := WithinRoute(g, starts, id, d);
      forall other | Route(g.assertions, g.direction, starts, id, other) ensures d <= |other| {
        RouteWithin(g, starts, id, other);
        if |other| < d { WithinGrows(g, starts, |other|, d - 1); }
      }
    }
    if Distance(g.assertions, g.direction, starts, id, d) {
      var route :| |route| == d && Route(g.assertions, g.direction, starts, id, route);
      RouteWithin(g, starts, id, route);
      if d > 0 && id in Within(g, starts, d - 1) {
        var shorter := WithinRoute(g, starts, id, d - 1);
      }
    }
  }

  /** The ids a path lists are those of the assertions of a route. */
  ghost predicate Lists(path: seq<string>, route: seq<Assertion>) {
    |path| == |route| && forall i :: 0 <= i < |path| ==> path[i] == route[i].id
  }

  lemma {:induction false} WalkRoute(g: Graph, starts: set<string>, id: string, path: seq<string>) returns (route: seq<Assertion>)
    requires Walk(g, starts, id, path)
    ensures Lists(path, route) && Route(g.assertions, g.direction, starts, id, route)
    decreases |path|
  {
    hide Leads, Touches, NextId;
    if path == [] {
      route := [];
    } else {
      var a, x :| a in g.assertions && Touches(g, a, x) && NextId(a, x) == id && a.id == path[|path| - 1] && Walk(g, starts, x, path[..|path| - 1]);
      var rest := WalkRoute(g, starts, x, path[..|path| - 1]);
      LeadsAgrees(g, a, x, id);
      route := rest + [a];
      assert route[..|route| - 1] == rest;
      assert forall i :: 0 <= i < |rest| ==> path[i] == path[..|path| - 1][i];
    }
  }

  // ----- what is visible and readable -----

  ghost predicate VisibleEntity(l: Ledger, n: nat, id: string, value: Entity) {
    exists e :: e in l.entities && e.sequence <= n && e.key == id && e.value == value
  }

  ghost predicate ReadableAt(l: Ledger, n: nat, p: Policy, id: string) {
    exists value :: VisibleEntity(l, n, id, value) && p.canReadEntity(value)
  }

  ghost predicate Asked<K(!new)>(kinds: Option<seq<K>>, kind: K) {
    forall ks :: kinds == Some(ks) ==> kind in ks
  }

  /** An assertion of the snapshot that the request asks for and the policy shows, with both its ends. */
  ghost predicate Usable(l: Ledger, n: nat, r: Request, p: Policy, a: Assertion) {
    && (exists e :: e in l.assertions && e.sequence <= n && e.value == a)
    && Asked(r.relationshipKinds, a.relationship) && Asked(r.assertionKinds, a.assertionKind)
    && p.canReadAssertion(a) && ReadableAt(l, n, p, a.sourceEntityId) && ReadableAt(l, n, p, a.targetEntityId)
  }

  lemma EntityAgrees(l: Ledger, n: nat, p: Policy, id: string)
    requires Shaped(l)
    ensures forall value :: VisibleEntity(l, n, id, value) <==> Get(At(l, n).entities, id) == Some(value)
    ensures ReadableEntity(p, At(l, n).entities, id) <==> ReadableAt(l, n, p, id)
  {
    TableAt(l.entities, l.sequence, EntityKey, n);
    OnlyOne(At(l, n).entities, n, EntityKey, id);
    forall value ensures VisibleEntity(l, n, id, value) <==> Stored(At(l, n).entities, id, value) { }
    hide TableOk, Stored, VisibleEntity, Visible;
  }

  lemma AskedAgrees<K(!new)>(kinds: Option<seq<K>>, kind: K)
    ensures (kinds.None? || kind in kinds.value) <==> Asked(kinds, kind)
  {
    if kinds.Some? { assert kinds == Some(kinds.value); }
  }

  lemma ValueVisible(l: Ledger, n: nat, a: Assertion)
    ensures a in Values(At(l, n).assertions) <==> exists e :: e in l.assertions && e.sequence <= n && e.value == a
  {
    var t := At(l, n).assertions;
    if a in Values(t) {
      var i :| 0 <= i < |t| && Values(t)[i] == a;
      assert t[i] in t;
    }
    if e :| e in l.assertions && e.sequence <= n && e.value == a {
      assert e in t;
      var i :| 0 <= i < |t| && t[i] == e;
      assert Values(t)[i] == a;
    }
  }

  lemma UsableAgrees(env: Env, l: Ledger, n: nat, r: Request, p: Policy, a: Assertion)
    requires Shaped(l)
    ensures a in Readable(env, At(l, n), r, p) <==> Usable(l, n, r, p, a)
  {
    hide Shaped, At, ReadableEntity, ReadableAt, Asked;
    ValueVisible(l, n, a);
    EntityAgrees(l, n, p, a.sourceEntityId);
    EntityAgrees(l, n, p, a.targetEntityId);
    AskedAgrees(r.relationshipKinds, a.relationship);
    AskedAgrees(r.assertionKinds, a.assertionKind);
  }

  // ----- edges -----

  /** The status that the newest visible correction of the revision gives, active without one. */
  ghost predicate StatusIs(l: Ledger, n: nat, id: string, revision: string, status: Status) {
    && ((forall d :: d in l.corrections && d.sequence <= n ==> !Corrects(d.value, id, revision)) ==> status.Active?)
    && (forall d :: Newest(l, id, revision, n, d) ==> StatusSays(d.value.action, status))
  }

  ghost predicate VisibleEvidence(l: Ledger, n: nat, r: EvidenceReference, item: Evidence) {
    exists e :: e in l.evidence && e.sequence <= n && e.key == r.evidenceId + "@" + r.revision && e.value == item
  }

  /** The reference leads to a visible item that the policy shows. */
  ghost predicate ShowsItem(l: Ledger, n: nat, p: Policy, r: EvidenceReference) {
    exists item :: VisibleEvidence(l, n, r, item) && p.canReadEvidence(item)
  }

  /** One item for each reference that leads to a readable one, in the order of the references. */
  ghost predicate EvidenceIs(l: Ledger, n: nat, p: Policy, refs: seq<EvidenceReference>, items: seq<Evidence>)
    decreases |refs|
  {
    if refs == [] then items == []
    else if ShowsItem(l, n, p, refs[0]) then
      items != [] && VisibleEvidence(l, n, refs[0], items[0]) && EvidenceIs(l, n, p, refs[1..], items[1..])
    else EvidenceIs(l, n, p, refs[1..], items)
  }

  lemma ItemAgrees(l: Ledger, n: nat, p: Policy, r: EvidenceReference)
    requires Shaped(l)
    ensures forall item :: VisibleEvidence(l, n, r, item) <==> Get(At(l, n).evidence, ReferenceKey(r)) == Some(item)
  {
    TableAt(l.evidence, l.sequence, EvidenceKey, n);
    OnlyOne(At(l, n).evidence, n, EvidenceKey, ReferenceKey(r));
    ReferenceText(r);
    hide ReferenceKey;
    forall item ensures VisibleEvidence(l, n, r, item) <==> Stored(At(l, n).evidence, ReferenceKey(r), item) { }
    hide TableOk, Stored, VisibleEvidence, Visible;
  }

  lemma ReferenceText(r: EvidenceReference)
    ensures ReferenceKey(r) == r.evidenceId + "@" + r.revision
  {
  }

  lemma {:induction false} EvidenceAgrees(l: Ledger, n: nat, p: Policy, refs: seq<EvidenceReference>)
    requires Shaped(l)
    ensures EvidenceIs(l, n, p, refs, EvidenceOf(At(l, n), p, refs))
    decreases |refs|
  {
    hide Shaped, At, ReferenceKey, VisibleEvidence;
    if refs != [] {
      ItemAgrees(l, n, p, refs[0]);
      EvidenceAgrees(l, n, p, refs[1..]);
      var rest := EvidenceOf(At(l, n), p, refs[1..]);
      var item := Get(At(l, n).evidence, ReferenceKey(refs[0]));
      if item.Some? && p.canReadEvidence(item.value) {
        assert VisibleEvidence(l, n, refs[0], item.value);
        assert ([item.value] + rest)[1..] == rest;
      } else {
        assert [] + rest == rest;
      }
    }
  }

  /** An edge of the answer: its status, and its evidence if asked for. */
  ghost predicate EdgeSays(l: Ledger, n: nat, r: Request, p: Policy, e: Edge) {
    && StatusIs(l, n, e.assertion.id, e.assertion.revision, e.status)
    && (e.evidence.Some? <==> r.includeEvidence)
    && (forall items :: e.evidence == Some(items) ==> EvidenceIs(l, n, p, e.assertion.evidence, items))
  }

  lemma EdgeAgrees(l: Ledger, n: nat, r: Request, p: Policy, a: Assertion)
    requires Shaped(l) && n <= l.sequence
    ensures EdgeOf(At(l, n), r, p, a).assertion == a && EdgeSays(l, n, r, p, EdgeOf(At(l, n), r, p, a))
  {
    hide Shaped, EvidenceIs, EvidenceOf, Newest, Corrects, StatusAt, StatusSays, Visible;
    EvidenceAgrees(l, n, p, a.evidence);
    StatusHere(l, n, a.id, a.revision);
    StatusNewest(l, a.id, a.revision, n);
  }

  /** The status in a snapshot is the status at that snapshot. */
  lemma StatusHere(l: Ledger, n: nat, id: string, revision: string)
    ensures StatusAt(At(l, n), id, revision, At(l, n).sequence) == StatusAt(l, id, revision, n)
  {
    VisibleVisible(l.corrections, n, n);
    hide Visible, Matching, Sort;
  }

  // ----- the rows -----

  ghost predicate KindAsked(r: Request, e: Entity) {
    (forall kinds :: r.entityKinds == Some(kinds) ==> e.kind in kinds) || e.id in r.startEntityIds
  }

  /** An entity of the snapshot, at its true distance, with the ids of a shortest route. */
  ghost predicate NodeSays(l: Ledger, n: nat, r: Request, xs: seq<Assertion>, node: Node) {
    && VisibleEntity(l, n, node.entity.id, node.entity) && KindAsked(r, node.entity)
    && Distance(xs, r.direction, Starts(r), node.entity.id, node.depth) && node.depth <= r.maximumDepth
    && (exists route :: Lists(node.path, route) && Route(xs, r.direction, Starts(r), node.entity.id, route)) && |node.path| == node.depth
  }

  /** A usable assertion that leads on from an entity nearer than the maximum depth. */
  ghost predicate LeadsOn(r: Request, xs: seq<Assertion>, a: Assertion) {
    a in xs && exists x, y, d: nat :: Leads(r.direction, a, x, y) && Distance(xs, r.direction, Starts(r), x, d) && d < r.maximumDepth
  }

  ghost predicate RowsSound(l: Ledger, n: nat, r: Request, p: Policy, xs: seq<Assertion>, rows: seq<Row>) {
    && (forall node :: node in NodesIn(rows) ==> NodeSays(l, n, r, xs, node))
    && (forall e :: e in EdgesIn(rows) ==> LeadsOn(r, xs, e.assertion) && EdgeSays(l, n, r, p, e))
  }

  ghost predicate HasNode(rows: seq<Row>, id: string) {
    exists node :: node in NodesIn(rows) && node.entity.id == id
  }

  ghost predicate HasEdge(rows: seq<Row>, a: Assertion) {
    exists e :: e in EdgesIn(rows) && e.assertion == a
  }

  ghost predicate RowsFull(l: Ledger, n: nat, r: Request, p: Policy, xs: seq<Assertion>, rows: seq<Row>) {
    && (forall id, value, d: nat :: VisibleEntity(l, n, id, value) && Distance(xs, r.direction, Starts(r), id, d) && d <= r.maximumDepth && KindAsked(r, value)
          ==> HasNode(rows, id))
    && (forall a :: LeadsOn(r, xs, a) ==> HasEdge(rows, a))
  }

  /** The assertions are those the request can use. */
  ghost predicate AllUsable(l: Ledger, n: nat, r: Request, p: Policy, xs: seq<Assertion>) {
    forall a :: a in xs <==> Usable(l, n, r, p, a)
  }

  lemma GraphIs(env: Env, l: Ledger, n: nat, r: Request, p: Policy)
    requires r.maximumDepth >= 0 && r.maximumResults >= 0
    ensures var g := GraphOf(env, At(l, n), r, p);
      g == Graph(At(l, n).entities, Readable(env, At(l, n), r, p), r.direction, r.entityKinds, r.maximumDepth, r.maximumResults)
  {
  }

  /** Distance zero is being a start. */
  lemma AtZero(g: Graph, starts: set<string>, id: string, d: nat)
    requires AtDistance(g, starts, id, d)
    ensures d == 0 <==> id in starts
  {
    if id in starts && d > 0 { WithinGrows(g, starts, 0, d - 1); }
  }

  lemma KindAgrees(g: Graph, r: Request, e: Entity, d: nat)
    requires g.entityKinds == r.entityKinds && (d == 0 <==> e.id in Starts(r))
    ensures KindShown(g, e, d) <==> KindAsked(r, e)
  {
    if r.entityKinds.Some? { assert r.entityKinds == Some(r.entityKinds.value); }
  }

  lemma NodeAgrees(env: Env, l: Ledger, n: nat, r: Request, p: Policy, node: Node)
    requires Shaped(l) && r.maximumDepth >= 0 && r.maximumResults >= 0
    requires NodeTrue(GraphOf(env, At(l, n), r, p), Starts(r), node)
    ensures NodeSays(l, n, r, Readable(env, At(l, n), r, p), node)
  {
    hide Shaped, At, GraphOf, AtDistance, Distance, Walk, Route, KindShown, KindAsked, Readable, Starts;
    var g := GraphOf(env, At(l, n), r, p);
    GraphIs(env, l, n, r, p);
    EntityAgrees(l, n, p, node.entity.id);
    DistanceAgrees(g, Starts(r), node.entity.id, node.depth);
    AtZero(g, Starts(r), node.entity.id, node.depth);
    KindAgrees(g, r, node.entity, node.depth);
    var route := WalkRoute(g, Starts(r), node.entity.id, node.path);
  }

  lemma LeadsOnAgrees(env: Env, l: Ledger, n: nat, r: Request, p: Policy, a: Assertion)
    requires r.maximumDepth >= 0 && r.maximumResults >= 0
    ensures EdgeTrue(GraphOf(env, At(l, n), r, p), Starts(r), a) <==> LeadsOn(r, Readable(env, At(l, n), r, p), a)
  {
    hide At, GraphOf, AtDistance, Distance, Readable, Starts, Leads, Touches, NextId;
    var g := GraphOf(env, At(l, n), r, p);
    GraphIs(env, l, n, r, p);
    if EdgeTrue(g, Starts(r), a) {
      var x, d: nat :| AtDistance(g, Starts(r), x, d) && d < g.maximumDepth && Touches(g, a, x);
      DistanceAgrees(g, Starts(r), x, d);
      LeadsAgrees(g, a, x, NextId(a, x));
    }
    if LeadsOn(r, g.assertions, a) {
      var x, y, d: nat :| Leads(r.direction, a, x, y) && Distance(g.assertions, r.direction, Starts(r), x, d) && d < r.maximumDepth;
      DistanceAgrees(g, Starts(r), x, d);
      LeadsAgrees(g, a, x, y);
    }
  }

  lemma SoundRows(env: Env, l: Ledger, n: nat, r: Request, p: Policy, rows: seq<Row>)
    requires Shaped(l) && n <= l.sequence && r.maximumDepth >= 0 && r.maximumResults >= 0
    requires RowsTrue(GraphOf(env, At(l, n), r, p), Starts(r), At(l, n), r, p, rows)
    ensures RowsSound(l, n, r, p, Readable(env, At(l, n), r, p), rows)
  {
    hide Shaped, At, GraphOf, NodeTrue, NodeSays, EdgeTrue, EdgeSays, LeadsOn, Readable, EdgeOf, NodesIn, EdgesIn, Starts;
    forall node | node in NodesIn(rows) ensures NodeSays(l, n, r, Readable(env, At(l, n), r, p), node) { NodeAgrees(env, l, n, r, p, node); }
    forall e | e in EdgesIn(rows) ensures LeadsOn(r, Readable(env, At(l, n), r, p), e.assertion) && EdgeSays(l, n, r, p, e) {
      LeadsOnAgrees(env, l, n, r, p, e.assertion);
      EdgeAgrees(l, n, r, p, e.assertion);
    }
  }

  lemma NodeShown(env: Env, l: Ledger, n: nat, r: Request, p: Policy, id: string, value: Entity, d: nat)
    requires Shaped(l) && r.maximumDepth >= 0 && r.maximumResults >= 0
    requires VisibleEntity(l, n, id, value) && KindAsked(r, value) && d <= r.maximumDepth
    requires Distance(Readable(env, At(l, n), r, p), r.direction, Starts(r), id, d)
    ensures ShouldShow(GraphOf(env, At(l, n), r, p), Starts(r), id)
  {
    KeyIsId(l, n, id, value);
    hide Shaped, At, GraphOf, AtDistance, Distance, KindShown, KindAsked, Readable, Starts, VisibleEntity;
    var g := GraphOf(env, At(l, n), r, p);
    GraphIs(env, l, n, r, p);
    EntityAgrees(l, n, p, id);
    DistanceAgrees(g, Starts(r), id, d);
    AtZero(g, Starts(r), id, d);
    KindAgrees(g, r, value, d);
  }

  lemma KeyIsId(l: Ledger, n: nat, id: string, value: Entity)
    requires Shaped(l) && VisibleEntity(l, n, id, value)
    ensures value.id == id
  {
  }

  lemma FullRows(env: Env, l: Ledger, n: nat, r: Request, p: Policy, rows: seq<Row>)
    requires Shaped(l) && n <= l.sequence && r.maximumDepth >= 0 && r.maximumResults >= 0
    requires RowsComplete(GraphOf(env, At(l, n), r, p), Starts(r), At(l, n), r, p, rows)
    ensures RowsFull(l, n, r, p, Readable(env, At(l, n), r, p), rows)
  {
    hide Shaped, At, GraphOf, ShouldShow, EdgeTrue, LeadsOn, Readable, NodesIn, EdgesIn, EdgeOf, Starts, VisibleEntity, KindAsked, Distance;
    var xs := Readable(env, At(l, n), r, p);
    forall id, value, d: nat | VisibleEntity(l, n, id, value) && Distance(xs, r.direction, Starts(r), id, d) && d <= r.maximumDepth && KindAsked(r, value)
      ensures HasNode(rows, id)
    {
      NodeShown(env, l, n, r, p, id, value, d);
    }
    forall a | LeadsOn(r, xs, a) ensures HasEdge(rows, a) {
      LeadsOnAgrees(env, l, n, r, p, a);
      EdgeAgrees(l, n, r, p, a);
    }
  }

  /**
    What the rows say, with nothing taken from the search: each node is a visible entity at its true distance by routes in
    the direction asked for, each edge a usable assertion that leads on from an entity short of the maximum depth, with the
    status and evidence of the snapshot; and when the rows fit the bound, no such node or edge is missing.
   */
  lemma TraversalMeans(env: Env, l: Ledger, n: nat, r: Request, p: Policy) returns (xs: seq<Assertion>)
    requires Valid(env, l) && n <= l.sequence
    requires r.maximumDepth >= 0 && r.maximumResults >= 0 && StartsAvailable(At(l, n), r, p)
    ensures AllUsable(l, n, r, p, xs)
    ensures var rows := Rows(env, At(l, n), r, p);
      RowsSound(l, n, r, p, xs, rows) && RowsOnce(rows) && (|rows| <= r.maximumResults ==> RowsFull(l, n, r, p, xs, rows))
  {
    hide Valid, Shaped, At, RowsTrue, RowsComplete, RowsSound, RowsFull, Rows, GraphOf, StartsAvailable, Usable, Readable, Starts;
    xs := Readable(env, At(l, n), r, p);
    ValidShaped(env, l);
    forall a ensures a in xs <==> Usable(l, n, r, p, a) { UsableAgrees(env, l, n, r, p, a); }
    TraversalExact(env, l, n, r, p);
    var rows := Rows(env, At(l, n), r, p);
    SoundRows(env, l, n, r, p, rows);
    if |rows| <= r.maximumResults { FullRows(env, l, n, r, p, rows); }
  }

  // ----- the order of the rows -----

  /** The contract's name of a relationship. */
  ghost predicate IsName(r: Relationship, name: string) {
    && (r.DerivedFrom? ==> name == "derived-from") && (r.FieldDerivedFrom? ==> name == "field-derived-from")
    && (r.ExtractedFrom? ==> name == "extracted-from") && (r.ChunkOf? ==> name == "chunk-of")
    && (r.IndexedFrom? ==> name == "indexed-from") && (r.EmbeddedFrom? ==> name == "embedded-from")
    && (r.GraphDerivedFrom? ==> name == "graph-derived-from") && (r.CommunityDerivedFrom? ==> name == "community-derived-from")
    && (r.RevisionOf? ==> name == "revision-of") && (r.DistributedAs? ==> name == "distributed-as")
    && (r.JoinInfluence? ==> name == "join-influence") && (r.FilterInfluence? ==> name == "filter-influence")
    && (r.AggregationInfluence? ==> name == "aggregation-influence") && (r.OrderingInfluence? ==> name == "ordering-influence")
    && (r.SimilarityInfluence? ==> name == "similarity-influence") && (forall other :: r == OtherRelationship(other) ==> name == other)
  }

  /** At least eight digits, no more than needed, for the number. */
  ghost predicate Padded(digits: string, n: nat) {
    AllDigits(digits) && Value(digits) == n && |digits| >= 8 && (|digits| > 8 ==> digits[0] != '0')
  }

  /** The text by which a row is sorted. */
  ghost predicate SortedBy(row: Row, key: string) {
    match row
    case NodeRow(n) => exists digits :: Padded(digits, n.depth) && key == "n:" + digits + ":" + n.entity.id
    case EdgeRow(e) =>
      exists name :: IsName(e.assertion.relationship, name)
        && key == "e:" + e.assertion.sourceEntityId + ":" + e.assertion.targetEntityId + ":" + name + ":" + e.assertion.id
  }

  lemma {:induction false} PadStartPads(s: string, width: nat)
    requires AllDigits(s)
    ensures var r := PadStart(s, width); AllDigits(r) && Value(r) == Value(s) && |r| >= width && (|s| >= width ==> r == s) && (|s| < width ==> |r| == width)
    decreases if |s| < width then width - |s| else 0
  {
    if |s| < width {
      LeadingZero(s);
      PadStartPads("0" + s, width);
    }
  }

  lemma {:induction false} LeadingZero(s: string)
    requires AllDigits(s)
    ensures AllDigits("0" + s) && Value("0" + s) == Value(s)
  {
    if s == "" {
      assert "0"[..0] == "";
      assert "0" + s == "0";
    } else {
      var n := |s| - 1;
      LeadingZero(s[..n]);
      assert ("0" + s)[..n + 1] == "0" + s[..n];
    }
  }

  lemma DepthPadded(n: nat)
    ensures Padded(PadStart(Decimal(n), 8), n)
  {
    PadStartPads(Decimal(n), 8);
    ValueOfDecimal(n);
    hide PadStart, Decimal, Value;
  }

  lemma KeyAgrees(row: Row)
    ensures SortedBy(row, RowKey(row))
  {
    hide Padded, Decimal, PadStart;
    match row
    case NodeRow(n) => DepthPadded(n.depth);
    case EdgeRow(e) => assert IsName(e.assertion.relationship, RelationshipName(e.assertion.relationship));
  }

  lemma ByKeyWeak<T(!new)>(less: (string, string) -> bool, key: T -> string, lt: (T, T) -> bool)
    requires StrictTotal(less) && forall a, b :: lt(a, b) <==> less(key(a), key(b))
    ensures StrictWeak(lt)
  {
    forall a, b, c | lt(a, c) ensures lt(a, b) || lt(b, c) {
      assert key(a) == key(b) || less(key(a), key(b)) || less(key(b), key(a));
    }
  }

  lemma RowOrderWeak(env: Env)
    requires StrictTotal(env.less)
    ensures StrictWeak(LessRow(env))
  {
    hide RowKey, StrictTotal, StrictWeak;
    ByKeyWeak(env.less, RowKey, LessRow(env));
  }

  /** By source, then target, then relationship name, then id. */
  ghost predicate TriedBefore(env: Env, a: Assertion, b: Assertion) {
    exists x, y :: IsName(a.relationship, x) && IsName(b.relationship, y) && FourBefore(env, a, x, b, y)
  }

  ghost predicate FourBefore(env: Env, a: Assertion, x: string, b: Assertion, y: string) {
    || env.less(a.sourceEntityId, b.sourceEntityId)
    || (a.sourceEntityId == b.sourceEntityId && env.less(a.targetEntityId, b.targetEntityId))
    || (a.sourceEntityId == b.sourceEntityId && a.targetEntityId == b.targetEntityId && env.less(x, y))
    || (a.sourceEntityId == b.sourceEntityId && a.targetEntityId == b.targetEntityId && x == y && env.less(a.id, b.id))
  }

  lemma NameIs(r: Relationship, name: string)
    ensures IsName(r, name) ==> name == RelationshipName(r)
    ensures IsName(r, RelationshipName(r))
  {
  }

  lemma TriedAgrees(env: Env, a: Assertion, b: Assertion)
    requires TriedBefore(env, a, b) && StrictTotal(env.less)
    ensures LessAssertion(env)(a, b)
  {
    var x, y :| IsName(a.relationship, x) && IsName(b.relationship, y) && FourBefore(env, a, x, b, y);
    NameIs(a.relationship, x);
    NameIs(b.relationship, y);
    hide RelationshipName, IsName;
  }

  lemma AssertionOrderWeak(env: Env)
    requires StrictTotal(env.less)
    ensures StrictWeak(LessAssertion(env))
  {
    hide RelationshipName, StrictTotal, StrictWeak;
    var byId := (a: Assertion, b: Assertion) => env.less(a.id, b.id);
    var byName := (a: Assertion, b: Assertion) =>
      if RelationshipName(a.relationship) != RelationshipName(b.relationship) then env.less(RelationshipName(a.relationship), RelationshipName(b.relationship)) else byId(a, b);
    var byTarget := (a: Assertion, b: Assertion) => if a.targetEntityId != b.targetEntityId then env.less(a.targetEntityId, b.targetEntityId) else byName(a, b);
    ByKeyWeak(env.less, (a: Assertion) => a.id, byId);
    RefinedWeak(byName, (a: Assertion) => RelationshipName(a.relationship), env.less, byId);
    RefinedWeak(byTarget, (a: Assertion) => a.targetEntityId, env.less, byName);
    RefinedWeak(LessAssertion(env), (a: Assertion) => a.sourceEntityId, env.less, byTarget);
  }

  /** The search tries the usable assertions in that order: none comes before an earlier one. */
  lemma AssertionsOrdered(env: Env, l: Ledger, n: nat, r: Request, p: Policy, i: nat, j: nat)
    requires StrictTotal(env.less) && i < j < |Readable(env, At(l, n), r, p)|
    ensures !TriedBefore(env, Readable(env, At(l, n), r, p)[j], Readable(env, At(l, n), r, p)[i])
  {
    hide At, ReadableAssertion, LessAssertion, TriedBefore;
    var xs := Readable(env, At(l, n), r, p);
    var always := (a: Assertion, b: Assertion) => true;
    AssertionOrderWeak(env);
    SortStable(Filter(Values(At(l, n).assertions), a => ReadableAssertion(At(l, n), r, p, a)), LessAssertion(env), always);
    assert Before(LessAssertion(env), always, xs[i], xs[j]);
    if TriedBefore(env, xs[j], xs[i]) { TriedAgrees(env, xs[j], xs[i]); }
  }

  /** No row's key collates before that of an earlier row. */
  lemma RowsOrdered(env: Env, l: Ledger, n: nat, r: Request, p: Policy, i: nat, j: nat)
    requires r.maximumDepth >= 0 && r.maximumResults >= 0 && StartsAvailable(At(l, n), r, p) && StrictTotal(env.less)
    requires i < j < |Rows(env, At(l, n), r, p)|
    ensures exists a, b :: SortedBy(Rows(env, At(l, n), r, p)[i], a) && SortedBy(Rows(env, At(l, n), r, p)[j], b) && !env.less(b, a)
  {
    hide Searched, StartsAvailable, At, RowKey, SortedBy, NodeRows, EdgeRows, EdgesOf, LessNode, LessEdge;
    var found := Searched(env, At(l, n), r, p);
    var rows := NodeRows(Sort(found.nodes, LessNode(env))) + EdgeRows(Sort(EdgesOf(At(l, n), r, p, found.edges), LessEdge(env)));
    var always := (a: Row, b: Row) => true;
    RowOrderWeak(env);
    SortStable(rows, LessRow(env), always);
    hide Sort;
    var sorted := Rows(env, At(l, n), r, p);
    assert Before(LessRow(env), always, sorted[i], sorted[j]);
    KeyAgrees(sorted[i]);
    KeyAgrees(sorted[j]);
  }

  // ----- requests -----

  const LARGEST := 0x1F_FFFF_FFFF_FFFF

  /** Depth, results and page size within the ledger's limits, and a page no larger than the result. */
  ghost predicate Bounded(limits: Limits, r: Request) {
    && 0 <= r.maximumDepth <= limits.maximumDepth && r.maximumDepth <= LARGEST
    && 1 <= r.maximumResults <= limits.maximumResults && r.maximumResults <= LARGEST
    && 1 <= r.pageSize <= limits.maximumPageSize && r.pageSize <= r.maximumResults
  }

  ghost predicate StartsReadable(l: Ledger, n: nat, r: Request, p: Policy) {
    forall id :: id in r.startEntityIds ==> ReadableAt(l, n, p, id)
  }

  lemma StartsAgree(l: Ledger, n: nat, r: Request, p: Policy)
    requires Shaped(l)
    ensures StartsAvailable(At(l, n), r, p) <==> StartsReadable(l, n, r, p)
  {
    hide Shaped, At, ReadableEntity, ReadableAt;
    forall id ensures ReadableEntity(p, At(l, n).entities, id) <==> ReadableAt(l, n, p, id) { EntityAgrees(l, n, p, id); }
    assert forall i :: 0 <= i < |r.startEntityIds| ==> r.startEntityIds[i] in r.startEntityIds;
  }

  /** The rows from the offset on, cut to the page and to the bound. */
  ghost predicate PageSays(rows: seq<Row>, r: Request, offset: nat, page: Page)
    requires 0 <= r.maximumResults && 0 <= r.pageSize
  {
    var most := if |rows| < r.maximumResults then |rows| else r.maximumResults;
    var end := if offset + r.pageSize < most then offset + r.pageSize else most;
    && page.nodes == (if offset < end then NodesIn(rows[offset..end]) else [])
    && page.edges == (if offset < end then EdgesIn(rows[offset..end]) else [])
    && (page.nextCursor.Some? <==> offset < most && end < most)
    && (page.truncated <==> |rows| > r.maximumResults)
  }

  /** What a request that cannot be answered gets, the first reason that applies. */
  ghost predicate RequestRefused(limits: Limits, l: Ledger, r: Request, n: int, p: Policy, code: Code) {
    match code
    case IdentityRequired => |r.startEntityIds| == 0
    case TraversalLimitExceeded => |r.startEntityIds| > 0 && !Bounded(limits, r)
    case SnapshotUnavailable => |r.startEntityIds| > 0 && Bounded(limits, r) && !(0 <= n <= l.sequence)
    case IdentityDangling => |r.startEntityIds| > 0 && Bounded(limits, r) && 0 <= n <= l.sequence && !StartsReadable(l, n, r, p)
    case _ => false
  }

  /** A request meets all demands of the traversal but those on its cursor. */
  ghost predicate RequestAccepted(limits: Limits, l: Ledger, r: Request, n: int, p: Policy) {
    |r.startEntityIds| > 0 && Bounded(limits, r) && 0 <= n <= l.sequence && StartsReadable(l, n, r, p)
  }

  lemma CheckAgrees(limits: Limits, r: Request)
    ensures CheckRequest(limits, r).None? <==> |r.startEntityIds| > 0 && Bounded(limits, r)
    ensures CheckRequest(limits, r) == Some(IdentityRequired) <==> |r.startEntityIds| == 0
    ensures CheckRequest(limits, r) == Some(TraversalLimitExceeded) <==> |r.startEntityIds| > 0 && !Bounded(limits, r)
  {
  }

  lemma PageAgrees(rows: seq<Row>, r: Request, offset: nat, page: Page, n: nat, fingerprint: string)
    requires 1 <= r.maximumResults && 1 <= r.pageSize
    requires var bounded := Take(rows, r.maximumResults);
      var shown := Slice(bounded, offset, offset + r.pageSize);
      page == Page(n, NodesIn(shown), EdgesIn(shown),
                   if offset + |shown| < |bounded| then Some(EncodeCursor(n, offset + |shown|, fingerprint)) else None, |rows| > r.maximumResults)
    ensures PageSays(rows, r, offset, page)
  {
    hide NodesIn, EdgesIn, EncodeCursor;
    NothingShown();
    var bounded := Take(rows, r.maximumResults);
    var most := |bounded|;
    var end := if offset + r.pageSize < most then offset + r.pageSize else most;
    if offset < end { assert Slice(bounded, offset, offset + r.pageSize) == rows[offset..end]; }
  }

  lemma NothingShown()
    ensures NodesIn([]) == [] && EdgesIn([]) == []
  {
  }

  /**
    What a traversal request is answered: the first reason against it, or the page of the rows that starts at the offset of
    its cursor, at the beginning without one.
   */
  lemma TraverseMeans(env: Env, limits: Limits, l: Ledger, r: Request, requested: Option<int>, cursor: Option<string>, p: Policy)
    requires Valid(env, l)
    ensures var n, t := requested.GetOr(l.sequence), Traverse(env, limits, l, r, requested, cursor, p);
      && (RequestAccepted(limits, l, r, n, p) || exists code :: RequestRefused(limits, l, r, n, p, code))
      && (forall code :: RequestRefused(limits, l, r, n, p, code) ==> t == Err(code))
      && (RequestAccepted(limits, l, r, n, p) ==> Served(env, l, r, n, cursor, p, t))
  {
    hide Valid, Shaped, At, StartsAvailable, StartsReadable, Bounded, CheckRequest, Rows, Fingerprint, DecodeCursor, EncodeCursor, NodesIn, EdgesIn,
         Take, Slice, Truthy, Given, PageSays;
    var n := requested.GetOr(l.sequence);
    ValidShaped(env, l);
    CheckAgrees(limits, r);
    assert |r.startEntityIds| == 0 ==> RequestRefused(limits, l, r, n, p, IdentityRequired);
    assert |r.startEntityIds| > 0 && !Bounded(limits, r) ==> RequestRefused(limits, l, r, n, p, TraversalLimitExceeded);
    assert |r.startEntityIds| > 0 && Bounded(limits, r) && !(0 <= n <= l.sequence) ==> RequestRefused(limits, l, r, n, p, SnapshotUnavailable);
    if |r.startEntityIds| > 0 && Bounded(limits, r) && 0 <= n <= l.sequence {
      StartsAgree(l, n, r, p);
      assert !StartsReadable(l, n, r, p) ==> RequestRefused(limits, l, r, n, p, IdentityDangling);
      if StartsReadable(l, n, r, p) { AcceptedServed(env, limits, l, r, requested, cursor, p); }
    }
  }

  /** The answer to a request that meets all demands but those on its cursor. */
  ghost predicate Served(env: Env, l: Ledger, r: Request, n: int, cursor: Option<string>, p: Policy, t: Result<Page, Code>) {
    && 0 <= n <= l.sequence && 0 <= r.maximumDepth && 1 <= r.maximumResults && 1 <= r.pageSize && StartsAvailable(At(l, n), r, p)
    && var offset := if Given(cursor) then DecodeCursor(cursor.value, Fingerprint(env, r, n), n) else Ok(0);
       if offset.Err? then t == Err(offset.error)
       else t.Ok? && t.value.snapshot == n && PageSays(Rows(env, At(l, n), r, p), r, offset.value, t.value)
  }

  lemma GivenSome(o: Option<string>)
    ensures Given(o) ==> o.Some?
  {
  }

  lemma AcceptedServed(env: Env, limits: Limits, l: Ledger, r: Request, requested: Option<int>, cursor: Option<string>, p: Policy)
    requires var n := requested.GetOr(l.sequence);
      Bounded(limits, r) && CheckRequest(limits, r).None? && 0 <= n <= l.sequence && StartsAvailable(At(l, n), r, p)
    ensures Served(env, l, r, requested.GetOr(l.sequence), cursor, p, Traverse(env, limits, l, r, requested, cursor, p))
  {
    hide At, StartsAvailable, CheckRequest, Rows, Fingerprint, DecodeCursor, EncodeCursor, NodesIn, EdgesIn, Take, Slice, Truthy, Given, PageSays;
    var n := requested.GetOr(l.sequence);
    GivenAgrees(cursor);
    GivenSome(cursor);
    var rows, fingerprint := Rows(env, At(l, n), r, p), Fingerprint(env, r, n);
    var offset := if Truthy(cursor) then DecodeCursor(cursor.value, fingerprint, n) else Ok(0);
    var t := Traverse(env, limits, l, r, requested, cursor, p);
    if offset.Ok? {
      PageAgrees(rows, r, offset.value, t.value, n, fingerprint);
    }
  }
}
