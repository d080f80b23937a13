/** Traversal requests: validation, authorization, row order, pages and cursors. */
module LineageQuery {
  import opened Wrappers
  import opened Sorting
  import opened Text
  import opened LineageLedger
  import opened LineageArchive
  import opened LineageOrder
  import opened LineageTraversal

  datatype Policy = Policy(canReadEntity: Entity -> bool, canReadAssertion: Assertion -> bool, canReadEvidence: Evidence -> bool)
  datatype Limits = Limits(maximumDepth: int, maximumResults: int, maximumPageSize: int)

  datatype Edge = Edge(assertion: Assertion, status: Status, evidence: Option<seq<Evidence>>)
  datatype Row = NodeRow(node: Node) | EdgeRow(edge: Edge)
  datatype Page = Page(snapshot: int, nodes: seq<Node>, edges: seq<Edge>, nextCursor: Option<string>, truncated: bool)

  const MAX_SAFE_INTEGER := 9007199254740991

  predicate IsSafeInteger(n: int) {
    -MAX_SAFE_INTEGER <= n <= MAX_SAFE_INTEGER
  }

  function CheckRequest(limits: Limits, r: Request): Option<Code> {
    if r.startEntityIds == [] then Some(IdentityRequired)
    else if !IsSafeInteger(r.maximumDepth) || r.maximumDepth < 0 || r.maximumDepth > limits.maximumDepth then Some(TraversalLimitExceeded)
    else if !IsSafeInteger(r.maximumResults) || r.maximumResults < 1 || r.maximumResults > limits.maximumResults then Some(TraversalLimitExceeded)
    else if !IsSafeInteger(r.pageSize) || r.pageSize < 1 || r.pageSize > limits.maximumPageSize || r.pageSize > r.maximumResults
    then Some(TraversalLimitExceeded)
    else None
  }

  // ----- authorization -----

  predicate ReadableEntity(p: Policy, t: Table<Entity>, id: string) {
    var e := Get(t, id);
    e.Some? && p.canReadEntity(e.value)
  }

  predicate Wanted<K(==)>(filter: Option<seq<K>>, kind: K) {
    filter.None? || kind in filter.value
  }

  predicate ReadableAssertion(s: Ledger, r: Request, p: Policy, a: Assertion) {
    && Wanted(r.relationshipKinds, a.relationship)
    && Wanted(r.assertionKinds, a.assertionKind)
    && p.canReadAssertion(a)
    && ReadableEntity(p, s.entities, a.sourceEntityId)
    && ReadableEntity(p, s.entities, a.targetEntityId)
  }

  // ----- orders -----

  function RelationshipName(r: Relationship): string {
    match r
    case DerivedFrom => "derived-from"
    case FieldDerivedFrom => "field-derived-from"
    case ExtractedFrom => "extracted-from"
    case ChunkOf => "chunk-of"
    case IndexedFrom => "indexed-from"
    case EmbeddedFrom => "embedded-from"
    case GraphDerivedFrom => "graph-derived-from"
    case CommunityDerivedFrom => "community-derived-from"
    case RevisionOf => "revision-of"
    case DistributedAs => "distributed-as"
    case JoinInfluence => "join-influence"
    case FilterInfluence => "filter-influence"
    case AggregationInfluence => "aggregation-influence"
    case OrderingInfluence => "ordering-influence"
    case SimilarityInfluence => "similarity-influence"
    case OtherRelationship(name) => name
  }

  function LessAssertion(env: Env): (Assertion, Assertion) -> bool {
    (a: Assertion, b: Assertion) =>
      if a.sourceEntityId != b.sourceEntityId then env.less(a.sourceEntityId, b.sourceEntityId)
      else if a.targetEntityId != b.targetEntityId then env.less(a.targetEntityId, b.targetEntityId)
      else if RelationshipName(a.relationship) != RelationshipName(b.relationship) then env.less(RelationshipName(a.relationship), RelationshipName(b.relationship))
      else env.less(a.id, b.id)
  }

  function LessNode(env: Env): (Node, Node) -> bool {
    (a: Node, b: Node) => a.depth < b.depth || (a.depth == b.depth && env.less(a.entity.id, b.entity.id))
  }

  function LessEdge(env: Env): (Edge, Edge) -> bool {
    (a: Edge, b: Edge) => LessAssertion(env)(a.assertion, b.assertion)
  }

  function RowKey(r: Row): string {
    match r
    case NodeRow(n) => "n:" + PadStart(Decimal(n.depth), 8) + ":" + n.entity.id
    case EdgeRow(e) => "e:" + e.assertion.sourceEntityId + ":" + e.assertion.targetEntityId + ":"
                       + RelationshipName(e.assertion.relationship) + ":" + e.assertion.id
  }

  function LessRow(env: Env): (Row, Row) -> bool {
    (a: Row, b: Row) => env.less(RowKey(a), RowKey(b))
  }

  function Dedupe(ids: seq<string>): (r: seq<string>)
    ensures forall x :: x in r <==> x in ids
  {
    if ids == [] then []
    else
      var init, last := ids[..|ids| - 1], ids[|ids| - 1];
      assert ids == init + [last];
      Dedupe(init) + (if last in init then [] else [last])
  }

  function SortedStarts(r: Request): seq<string> {
    Sort(Dedupe(r.startEntityIds), StringLess)
  }

  // ----- the search of a request -----

  function Readable(env: Env, s: Ledger, r: Request, p: Policy): (xs: seq<Assertion>)
    ensures forall a :: a in xs <==> a in Values(s.assertions) && ReadableAssertion(s, r, p, a)
  {
    var kept := Filter(Values(s.assertions), a => ReadableAssertion(s, r, p, a));
    SortMembers(kept, LessAssertion(env));
    Sort(kept, LessAssertion(env))
  }

  function GraphOf(env: Env, s: Ledger, r: Request, p: Policy): Graph
    requires r.maximumDepth >= 0 && r.maximumResults >= 0
  {
    Graph(s.entities, Readable(env, s, r, p), r.direction, r.entityKinds, r.maximumDepth, r.maximumResults)
  }

  predicate StartsAvailable(s: Ledger, r: Request, p: Policy) {
    forall i :: 0 <= i < |r.startEntityIds| ==> ReadableEntity(p, s.entities, r.startEntityIds[i])
  }

  function StartSearch(r: Request): Search {
    var starts := SortedStarts(r);
    Search(seq(|starts|, i requires 0 <= i < |starts| => Visit(starts[i], 0, [])), map[], [], [], false)
  }

  lemma ReadableInGraph(env: Env, s: Ledger, r: Request, p: Policy)
    requires r.maximumDepth >= 0 && r.maximumResults >= 0
    ensures GraphOk(GraphOf(env, s, r, p))
  {
    hide ReadableEntity, Has;
    forall a | a in Readable(env, s, r, p) ensures Has(s.entities, a.sourceEntityId) && Has(s.entities, a.targetEntityId) {
      ReadableKnown(p, s.entities, a.sourceEntityId);
      ReadableKnown(p, s.entities, a.targetEntityId);
    }
  }

  lemma StartsQueued(s: Ledger, r: Request, p: Policy)
    requires StartsAvailable(s, r, p)
    ensures forall q :: q in StartSearch(r).queue ==> q.depth == 0 && q.path == [] && q.id in r.startEntityIds && Has(s.entities, q.id)
    ensures forall x :: x in r.startEntityIds ==> exists q :: q in StartSearch(r).queue && q.id == x && q.depth == 0
  {
    hide ReadableEntity, Has;
    var starts := SortedStarts(r);
    var queue := StartSearch(r).queue;
    SortMembers(Dedupe(r.startEntityIds), StringLess);
    forall q | q in queue ensures q.depth == 0 && q.path == [] && q.id in r.startEntityIds && Has(s.entities, q.id) {
      assert q.id in starts;
      ReadableKnown(p, s.entities, q.id);
    }
    forall x | x in r.startEntityIds ensures exists q :: q in queue && q.id == x && q.depth == 0 {
      assert x in starts;
      var i :| 0 <= i < |starts| && starts[i] == x;
      assert queue[i] in queue;
    }
  }

  lemma StartsInGraph(env: Env, s: Ledger, r: Request, p: Policy)
    requires r.maximumDepth >= 0 && r.maximumResults >= 0 && StartsAvailable(s, r, p)
    ensures GraphOk(GraphOf(env, s, r, p)) && QueueOk(GraphOf(env, s, r, p), StartSearch(r))
  {
    hide GraphOk, StartsAvailable, Has;
    ReadableInGraph(env, s, r, p);
    StartsQueued(s, r, p);
    var queue := StartSearch(r).queue;
    assert forall i :: 0 <= i < |queue| ==> queue[i] in queue;
  }

  lemma ReadableKnown(p: Policy, t: Table<Entity>, id: string)
    requires ReadableEntity(p, t, id)
    ensures Has(t, id)
  {
  }

  function Searched(env: Env, s: Ledger, r: Request, p: Policy): Search
    requires r.maximumDepth >= 0 && r.maximumResults >= 0 && StartsAvailable(s, r, p)
  {
    StartsInGraph(env, s, r, p);
    Explore(GraphOf(env, s, r, p), StartSearch(r))
  }

  // ----- rows -----

  function EvidenceOf(s: Ledger, p: Policy, refs: seq<EvidenceReference>): seq<Evidence> {
    if refs == [] then []
    else
      var item := Get(s.evidence, ReferenceKey(refs[0]));
      (if item.Some? && p.canReadEvidence(item.value) then [item.value] else []) + EvidenceOf(s, p, refs[1..])
  }

  function EdgeOf(s: Ledger, r: Request, p: Policy, a: Assertion): Edge {
    Edge(a, StatusAt(s, a.id, a.revision, s.sequence), if r.includeEvidence then Some(EvidenceOf(s, p, a.evidence)) else None)
  }

  function NodeRows(nodes: seq<Node>): seq<Row> {
    seq(|nodes|, i requires 0 <= i < |nodes| => NodeRow(nodes[i]))
  }

  function EdgeRows(edges: seq<Edge>): seq<Row> {
    seq(|edges|, i requires 0 <= i < |edges| => EdgeRow(edges[i]))
  }

  function EdgesOf(s: Ledger, r: Request, p: Policy, found: seq<Assertion>): seq<Edge> {
    seq(|found|, i requires 0 <= i < |found| => EdgeOf(s, r, p, found[i]))
  }

  function RowsOf(env: Env, s: Ledger, r: Request, p: Policy, found: Search): seq<Row> {
    var nodes := Sort(found.nodes, LessNode(env));
    var edges := Sort(EdgesOf(s, r, p, found.edges), LessEdge(env));
    Sort(NodeRows(nodes) + EdgeRows(edges), LessRow(env))
  }

  function Rows(env: Env, s: Ledger, r: Request, p: Policy): seq<Row>
    requires r.maximumDepth >= 0 && r.maximumResults >= 0 && StartsAvailable(s, r, p)
  {
    RowsOf(env, s, r, p, Searched(env, s, r, p))
  }

  /** `slice(0, n)` */
  function Take<T>(xs: seq<T>, n: nat): seq<T> {
    if n <= |xs| then xs[..n] else xs
  }

  function NodesIn(rows: seq<Row>): seq<Node> {
    if rows == [] then [] else (if rows[0].NodeRow? then [rows[0].node] else []) + NodesIn(rows[1..])
  }

  function EdgesIn(rows: seq<Row>): seq<Edge> {
    if rows == [] then [] else (if rows[0].EdgeRow? then [rows[0].edge] else []) + EdgesIn(rows[1..])
  }

  // ----- cursors -----

  function Fingerprint(env: Env, r: Request, snapshot: int): string {
    env.digest(OfRequest(r.(startEntityIds := SortedStarts(r)), snapshot))
  }

  predicate IsHex(c: char) {
    '0' <= c <= '9' || 'a' <= c <= 'f'
  }

  predicate IsDigest(s: string) {
    |s| == 71 && s[..7] == "sha256:" && forall i :: 7 <= i < 71 ==> IsHex(s[i])
  }

  function EncodeCursor(snapshot: nat, offset: nat, fingerprint: string): string {
    Decimal(snapshot) + "." + Decimal(offset) + "." + fingerprint
  }

  function DecodeCursor(cursor: string, fingerprint: string, snapshot: int): Result<nat, Code> {
    var m := DigitRun(cursor);
    if m == 0 || m == |cursor| || cursor[m] != '.' then Err(CursorInvalid)
    else
      var rest := cursor[m + 1..];
      var n := DigitRun(rest);
      if n == 0 || n == |rest| || rest[n] != '.' || !IsDigest(rest[n + 1..]) then Err(CursorInvalid)
      else if Value(cursor[..m]) != snapshot || rest[n + 1..] != fingerprint then Err(CursorInvalid)
      else if !IsSafeInteger(Value(rest[..n])) then Err(CursorInvalid)
      else Ok(Value(rest[..n]))
  }

  // ----- the traversal -----

  function Traverse(env: Env, limits: Limits, l: Ledger, r: Request, requested: Option<int>, cursor: Option<string>, p: Policy): Result<Page, Code> {
    var snapshot := requested.GetOr(l.sequence);
    if CheckRequest(limits, r).Some? then Err(CheckRequest(limits, r).value)
    else if snapshot < 0 || snapshot > l.sequence then Err(SnapshotUnavailable)
    else
      var s := At(l, snapshot);
      if !StartsAvailable(s, r, p) then Err(IdentityDangling)
      else
        var rows := Rows(env, s, r, p);
        var fingerprint := Fingerprint(env, r, snapshot);
        var offset :- if Truthy(cursor) then DecodeCursor(cursor.value, fingerprint, snapshot) else Ok(0);
        var bounded := Take(rows, r.maximumResults);
        var page := Slice(bounded, offset, offset + r.pageSize);
        var next := offset + |page|;
        Ok(Page(snapshot, NodesIn(page), EdgesIn(page),
                if next < |bounded| then Some(EncodeCursor(snapshot, next, fingerprint)) else None,
                |rows| > r.maximumResults))
  }
}
