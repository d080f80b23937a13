/** A traversal exposes only what the policy lets its caller read, and nothing else can influence it. */
module LineagePrivacy {
  import opened Wrappers
  import opened Sorting
  import opened LineageLedger
  import opened LineageArchive
  import opened LineageRebuild
  import opened LineageOrder
  import opened LineageTraversal
  import opened LineageReach
  import opened LineageQuery
  import opened LineageTraversalExact
  import opened LineageRules
  import opened LineageRoutes

  // ----- only readable rows -----

  lemma {:induction false} WithinReadable(env: Env, s: Ledger, r: Request, p: Policy, d: nat)
    requires r.maximumDepth >= 0 && r.maximumResults >= 0 && StartsAvailable(s, r, p)
    ensures forall x :: x in Within(GraphOf(env, s, r, p), Starts(r), d) ==> ReadableEntity(p, s.entities, x)
  {
    hide ReadableEntity, Touches;
    var g := GraphOf(env, s, r, p);
    if d > 0 {
      WithinReadable(env, s, r, p, d - 1);
      var w := Within(g, Starts(r), d - 1);
      forall x | x in Within(g, Starts(r), d) ensures ReadableEntity(p, s.entities, x) {
        if x !in w {
          var a, y :| a in g.assertions && y in w && Touches(g, a, y) && NextId(a, y) == x;
          assert ReadableAssertion(s, r, p, a);
        }
      }
    }
  }

  lemma {:induction false} EvidenceReadable(s: Ledger, p: Policy, refs: seq<EvidenceReference>)
    ensures forall e :: e in EvidenceOf(s, p, refs) ==> p.canReadEvidence(e)
  {
    if refs != [] { EvidenceReadable(s, p, refs[1..]); }
  }

  /** The policy shows the assertion and, as of the snapshot, both its ends. */
  ghost predicate Shows(l: Ledger, n: nat, p: Policy, a: Assertion) {
    p.canReadAssertion(a) && ReadableAt(l, n, p, a.sourceEntityId) && ReadableAt(l, n, p, a.targetEntityId)
  }

  lemma EdgeShown(env: Env, l: Ledger, n: nat, r: Request, p: Policy, a: Assertion)
    requires Valid(env, l) && ReadableAssertion(At(l, n), r, p, a)
    ensures Shows(l, n, p, a)
  {
    EntityAgrees(l, n, p, a.sourceEntityId);
    EntityAgrees(l, n, p, a.targetEntityId);
    hide Shaped, At, ReadableEntity, ReadableAt;
  }

  /** Authorization comes before expansion: every node, edge, endpoint and evidence item of the rows is readable. */
  lemma OnlyReadable(env: Env, l: Ledger, n: nat, r: Request, p: Policy)
    requires Valid(env, l) && n <= l.sequence
    requires r.maximumDepth >= 0 && r.maximumResults >= 0 && StartsAvailable(At(l, n), r, p)
    ensures var rows := Rows(env, At(l, n), r, p);
      && (forall node :: node in NodesIn(rows) ==> p.canReadEntity(node.entity))
      && (forall e :: e in EdgesIn(rows) ==> Shows(l, n, p, e.assertion))
      && (forall e, x :: e in EdgesIn(rows) && e.evidence.Some? && x in e.evidence.value ==> p.canReadEvidence(x))
  {
    hide Valid, At, StartsAvailable, Rows, AtDistance, RowsOnce, RowsComplete, KindShown, Walk, NodesIn, EdgesIn;
    var s := At(l, n);
    var g, rows := GraphOf(env, s, r, p), Rows(env, s, r, p);
    TraversalExact(env, l, n, r, p);
    forall node | node in NodesIn(rows) ensures p.canReadEntity(node.entity) {
      assert NodeTrue(g, Starts(r), node);
      NodeReadable(env, s, r, p, node);
    }
    forall e, x | e in EdgesIn(rows) && e.evidence.Some? && x in e.evidence.value ensures p.canReadEvidence(x) {
      assert e == EdgeOf(s, r, p, e.assertion);
      EvidenceReadable(s, p, e.assertion.evidence);
    }
    forall e | e in EdgesIn(rows) ensures Shows(l, n, p, e.assertion) { EdgeShown(env, l, n, r, p, e.assertion); }
  }

  lemma NodeReadable(env: Env, s: Ledger, r: Request, p: Policy, node: Node)
    requires r.maximumDepth >= 0 && r.maximumResults >= 0 && StartsAvailable(s, r, p)
    requires NodeTrue(GraphOf(env, s, r, p), Starts(r), node)
    ensures p.canReadEntity(node.entity)
  {
    hide StartsAvailable, Within, Walk, KindShown, Readable;
    WithinReadable(env, s, r, p, node.depth);
  }

  // ----- nothing hidden has influence -----

  /** The assertions the policy shows, whatever a request filters. */
  predicate Exposed(s: Ledger, p: Policy, a: Assertion) {
    p.canReadAssertion(a) && ReadableEntity(p, s.entities, a.sourceEntityId) && ReadableEntity(p, s.entities, a.targetEntityId)
  }

  function ShownAssertions(s: Ledger, p: Policy): seq<Assertion> {
    Filter(Values(s.assertions), (a: Assertion) => Exposed(s, p, a))
  }

  predicate ReadableEvidence(s: Ledger, p: Policy, k: string) {
    var e := Get(s.evidence, k);
    e.Some? && p.canReadEvidence(e.value)
  }

  /** The two snapshots look alike to the policy: only unreadable entities, assertions and evidence may differ. */
  ghost predicate SameView(s: Ledger, t: Ledger, p: Policy) {
    && ShownAssertions(s, p) == ShownAssertions(t, p)
    && (forall x :: ReadableEntity(p, s.entities, x) || ReadableEntity(p, t.entities, x) ==> Get(s.entities, x) == Get(t.entities, x))
    && (forall k :: ReadableEvidence(s, p, k) || ReadableEvidence(t, p, k) ==> Get(s.evidence, k) == Get(t.evidence, k))
    && s.corrections == t.corrections
    && s.sequence == t.sequence
  }

  lemma {:induction false} FilterTwice(xs: seq<Assertion>, f: Assertion -> bool, g: Assertion -> bool, h: Assertion -> bool)
    requires forall a :: h(a) <==> f(a) && g(a)
    ensures Filter(Filter(xs, f), g) == Filter(xs, h)
  {
    if xs != [] {
      FilterTwice(xs[1..], f, g, h);
      FilterConcat(if f(xs[0]) then [xs[0]] else [], Filter(xs[1..], f), g);
    }
  }

  predicate WantedAssertion(r: Request, a: Assertion) {
    Wanted(r.relationshipKinds, a.relationship) && Wanted(r.assertionKinds, a.assertionKind)
  }

  lemma ReadableFromView(env: Env, s: Ledger, r: Request, p: Policy)
    ensures Readable(env, s, r, p) == Sort(Filter(ShownAssertions(s, p), (a: Assertion) => WantedAssertion(r, a)), LessAssertion(env))
  {
    FilterTwice(Values(s.assertions), (a: Assertion) => Exposed(s, p, a), (a: Assertion) => WantedAssertion(r, a), a => ReadableAssertion(s, r, p, a));
  }

  /** The search looks up entities only at starts and endpoints of readable assertions. */
  lemma {:induction false} SameSearch(g: Graph, h: Graph, st: Search)
    requires GraphOk(g) && QueueOk(g, st) && GraphOk(h) && QueueOk(h, st) && h == g.(entities := h.entities)
    requires forall a :: a in g.assertions ==> Alike(g, h, a.sourceEntityId) && Alike(g, h, a.targetEntityId)
    requires forall q :: q in st.queue ==> Alike(g, h, q.id)
    ensures Explore(g, st) == Explore(h, st)
    decreases Ids(g.entities) - st.visited.Keys, |st.queue|
  {
    hide GraphOk, QueueOk, Touches, Has, Turn;
    if st.queue != [] && !st.stopped {
      TurnKeepsQueue(g, st);
      TurnKeepsQueue(h, st);
      TurnProgresses(g, st);
      SameTurn(g, h, st);
      SameSearch(g, h, Turn(g, st));
    }
  }

  ghost predicate Alike(g: Graph, h: Graph, id: string) {
    Get(g.entities, id) == Get(h.entities, id)
  }

  lemma {:induction false} SameTouched(g: Graph, h: Graph, edges: seq<Assertion>, xs: seq<Assertion>, v: Visit)
    requires h.direction == g.direction
    ensures Touched(g, edges, xs, v.id) == Touched(h, edges, xs, v.id)
    ensures Pushed(g, xs, v) == Pushed(h, xs, v)
    decreases |xs|
  {
    if xs != [] {
      SameTouched(g, h, if Touches(g, xs[0], v.id) && !EdgeKnown(edges, AssertionKey(xs[0])) then edges + [xs[0]] else edges, xs[1..], v);
    }
  }

  lemma SameTurn(g: Graph, h: Graph, st: Search)
    requires st.queue != [] && Has(g.entities, st.queue[0].id) && Has(h.entities, st.queue[0].id) && h == g.(entities := h.entities)
    requires forall a :: a in g.assertions ==> Alike(g, h, a.sourceEntityId) && Alike(g, h, a.targetEntityId)
    requires forall q :: q in st.queue ==> Alike(g, h, q.id)
    ensures Turn(g, st) == Turn(h, st)
    ensures forall q :: q in Turn(g, st).queue ==> Alike(g, h, q.id)
  {
    hide Has, PutNode;
    var v := st.queue[0];
    assert v in st.queue;
    SameTouched(g, h, st.edges, g.assertions, v);
    hide Touched;
    TurnShape(g, st);
    forall q | q in Turn(g, st).queue ensures Alike(g, h, q.id) {
      assert q in st.queue || q in Pushed(g, g.assertions, v);
      if q !in st.queue {
        var a :| a in g.assertions && Touches(g, a, v.id) && q == Visit(NextId(a, v.id), v.depth + 1, v.path + [a.id]);
      }
    }
  }

  lemma ReadableAlike(s: Ledger, t: Ledger, p: Policy, id: string)
    requires SameView(s, t, p)
    ensures ReadableEntity(p, s.entities, id) <==> ReadableEntity(p, t.entities, id)
    ensures ReadableEntity(p, s.entities, id) ==> Get(s.entities, id) == Get(t.entities, id)
  {
    hide ShownAssertions, ReadableEvidence;
  }

  lemma SameStarts(s: Ledger, t: Ledger, r: Request, p: Policy)
    requires SameView(s, t, p)
    ensures StartsAvailable(s, r, p) <==> StartsAvailable(t, r, p)
  {
    hide SameView, ReadableEntity;
    forall i | 0 <= i < |r.startEntityIds|
      ensures ReadableEntity(p, s.entities, r.startEntityIds[i]) <==> ReadableEntity(p, t.entities, r.startEntityIds[i])
    {
      ReadableAlike(s, t, p, r.startEntityIds[i]);
    }
  }

  lemma SameFound(env: Env, s: Ledger, t: Ledger, r: Request, p: Policy)
    requires r.maximumDepth >= 0 && r.maximumResults >= 0 && SameView(s, t, p)
    requires StartsAvailable(s, r, p) && StartsAvailable(t, r, p)
    ensures Searched(env, s, r, p) == Searched(env, t, r, p)
  {
    hide ReadableEntity, Has, GraphOk, QueueOk, SameView, StartsAvailable, StartSearch;
    var g, h, st := GraphOf(env, s, r, p), GraphOf(env, t, r, p), StartSearch(r);
    assert ShownAssertions(s, p) == ShownAssertions(t, p) by { ShownAlike(s, t, p); }
    ReadableFromView(env, s, r, p);
    ReadableFromView(env, t, r, p);
    forall a | a in g.assertions ensures Alike(g, h, a.sourceEntityId) && Alike(g, h, a.targetEntityId) {
      assert ReadableAssertion(s, r, p, a);
      ReadableAlike(s, t, p, a.sourceEntityId);
      ReadableAlike(s, t, p, a.targetEntityId);
    }
    forall q | q in st.queue ensures Alike(g, h, q.id) {
      StartReadable(s, r, p, q);
      ReadableAlike(s, t, p, q.id);
    }
    StartsInGraph(env, s, r, p);
    StartsInGraph(env, t, r, p);
    SameSearch(g, h, st);
  }

  lemma ShownAlike(s: Ledger, t: Ledger, p: Policy)
    requires SameView(s, t, p)
    ensures ShownAssertions(s, p) == ShownAssertions(t, p)
  {
  }

  lemma StartReadable(s: Ledger, r: Request, p: Policy, q: Visit)
    requires StartsAvailable(s, r, p) && q in StartSearch(r).queue
    ensures ReadableEntity(p, s.entities, q.id)
  {
    hide ReadableEntity;
    StartsQueued(s, r, p);
    var i :| 0 <= i < |r.startEntityIds| && r.startEntityIds[i] == q.id;
  }

  lemma {:induction false} SameEvidence(s: Ledger, t: Ledger, p: Policy, refs: seq<EvidenceReference>)
    requires SameView(s, t, p)
    ensures EvidenceOf(s, p, refs) == EvidenceOf(t, p, refs)
  {
    if refs != [] {
      SameEvidence(s, t, p, refs[1..]);
      EvidenceAlike(s, t, p, ReferenceKey(refs[0]));
    }
  }

  lemma EvidenceAlike(s: Ledger, t: Ledger, p: Policy, k: string)
    requires SameView(s, t, p)
    ensures ReadableEvidence(s, p, k) <==> ReadableEvidence(t, p, k)
    ensures ReadableEvidence(s, p, k) ==> Get(s.evidence, k) == Get(t.evidence, k)
  {
    hide ShownAssertions, ReadableEntity;
  }

  lemma SameEdge(s: Ledger, t: Ledger, r: Request, p: Policy, a: Assertion)
    requires SameView(s, t, p)
    ensures EdgeOf(s, r, p, a) == EdgeOf(t, r, p, a)
  {
    SameEvidence(s, t, p, a.evidence);
    hide ShownAssertions, ReadableEntity, ReadableEvidence, EvidenceOf;
  }

  lemma SameRows(env: Env, s: Ledger, t: Ledger, r: Request, p: Policy)
    requires r.maximumDepth >= 0 && r.maximumResults >= 0 && SameView(s, t, p)
    requires StartsAvailable(s, r, p) && StartsAvailable(t, r, p)
    ensures Rows(env, s, r, p) == Rows(env, t, r, p)
  {
    hide SameView, StartsAvailable, EdgeOf, Searched;
    SameFound(env, s, t, r, p);
    var found := Searched(env, s, r, p);
    forall i | 0 <= i < |found.edges| ensures EdgeOf(s, r, p, found.edges[i]) == EdgeOf(t, r, p, found.edges[i]) {
      SameEdge(s, t, r, p, found.edges[i]);
    }
    assert EdgesOf(s, r, p, found.edges) == EdgesOf(t, r, p, found.edges);
  }

  /**
    Noninterference: two ledgers whose snapshots differ only in entities, assertions and evidence the policy hides
    give the same answer, pages, cursors and errors included.
   */
  lemma HiddenHasNoInfluence(env: Env, limits: Limits, l: Ledger, m: Ledger, n: nat, r: Request, cursor: Option<string>, p: Policy)
    requires n <= l.sequence && n <= m.sequence
    requires SameView(At(l, n), At(m, n), p)
    ensures Traverse(env, limits, l, r, Some(n), cursor, p) == Traverse(env, limits, m, r, Some(n), cursor, p)
  {
    hide At, SameView, Rows, StartsAvailable, Fingerprint, DecodeCursor, EncodeCursor, NodesIn, EdgesIn, Slice, Take, Truthy;
    var s, t := At(l, n), At(m, n);
    SameStarts(s, t, r, p);
    if CheckRequest(limits, r).None? && StartsAvailable(s, r, p) { SameRows(env, s, t, r, p); }
  }

  // ----- what may differ without influence -----

  ghost predicate VisibleItem(l: Ledger, n: nat, key: string, item: Evidence) {
    exists e :: e in l.evidence && e.sequence <= n && e.key == key && e.value == item
  }

  /** At this place both hold the same assertion, or the policy shows neither. */
  ghost predicate SameShown(l: Ledger, m: Ledger, n: nat, p: Policy, k: nat)
    requires k < |l.assertions| == |m.assertions|
  {
    var a, b := l.assertions[k], m.assertions[k];
    a.sequence == b.sequence && (a == b || (!Shows(l, n, p, a.value) && !Shows(m, n, p, b.value)))
  }

  /**
    The readable entities and evidence items are the same, the corrections are the same, and the assertions are the same
    place by place but for those the policy shows in neither: what it hides may be anything.
   */
  ghost predicate LooksAlike(l: Ledger, m: Ledger, n: nat, p: Policy) {
    && (forall id, e :: p.canReadEntity(e) ==> (VisibleEntity(l, n, id, e) <==> VisibleEntity(m, n, id, e)))
    && (forall key, item :: p.canReadEvidence(item) ==> (VisibleItem(l, n, key, item) <==> VisibleItem(m, n, key, item)))
    && |l.assertions| == |m.assertions| && (forall k: nat :: k < |l.assertions| ==> SameShown(l, m, n, p, k))
    && l.corrections == m.corrections
  }

  lemma ItemStored(l: Ledger, n: nat, key: string)
    requires Shaped(l)
    ensures forall item :: VisibleItem(l, n, key, item) <==> Get(At(l, n).evidence, key) == Some(item)
  {
    TableAt(l.evidence, l.sequence, EvidenceKey, n);
    OnlyOne(At(l, n).evidence, n, EvidenceKey, key);
    forall item ensures VisibleItem(l, n, key, item) <==> Stored(At(l, n).evidence, key, item) { }
    hide TableOk, Stored, VisibleItem, Visible;
  }

  lemma SameEntityView(l: Ledger, m: Ledger, n: nat, p: Policy, id: string)
    requires Shaped(l) && Shaped(m) && LooksAlike(l, m, n, p)
    ensures ReadableAt(l, n, p, id) <==> ReadableAt(m, n, p, id)
    ensures var s, t := At(l, n).entities, At(m, n).entities;
      ReadableEntity(p, s, id) || ReadableEntity(p, t, id) ==> Get(s, id) == Get(t, id)
  {
    EntityAgrees(l, n, p, id);
    EntityAgrees(m, n, p, id);
    hide Shaped, At, VisibleEntity, VisibleItem, SameShown;
  }

  lemma SameItemView(l: Ledger, m: Ledger, n: nat, p: Policy, key: string)
    requires Shaped(l) && Shaped(m) && LooksAlike(l, m, n, p)
    ensures var s, t := At(l, n), At(m, n);
      ReadableEvidence(s, p, key) || ReadableEvidence(t, p, key) ==> Get(s.evidence, key) == Get(t.evidence, key)
  {
    ItemStored(l, n, key);
    ItemStored(m, n, key);
    hide Shaped, At, VisibleEntity, VisibleItem, SameShown;
  }

  lemma {:induction false} FilterLined<T(!new)>(xs: seq<Entry<T>>, ys: seq<Entry<T>>, n: int, f: T -> bool, g: T -> bool)
    requires |xs| == |ys|
    requires forall k :: 0 <= k < |xs| ==> xs[k].sequence == ys[k].sequence && (xs[k] == ys[k] || (!f(xs[k].value) && !g(ys[k].value)))
    requires forall k :: 0 <= k < |xs| ==> (f(xs[k].value) <==> g(ys[k].value))
    ensures Filter(Values(Visible(xs, n)), f) == Filter(Values(Visible(ys, n)), g)
  {
    if xs != [] {
      var last := |xs| - 1;
      FilterLined(xs[..last], ys[..last], n, f, g);
      FilterVisible(xs, n, f);
      FilterVisible(ys, n, g);
    }
  }

  lemma FilterVisible<T(!new)>(xs: seq<Entry<T>>, n: int, f: T -> bool)
    requires xs != []
    ensures var last := xs[|xs| - 1];
      Filter(Values(Visible(xs, n)), f) == Filter(Values(Visible(xs[..|xs| - 1], n)), f) + if last.sequence <= n && f(last.value) then [last.value] else []
  {
    var rest, last := Visible(xs[..|xs| - 1], n), xs[|xs| - 1];
    if last.sequence <= n {
      assert Values(rest + [last]) == Values(rest) + [last.value];
      FilterConcat(Values(rest), [last.value], f);
      FilterOne(last.value, f);
    } else {
      assert rest + [] == rest;
    }
  }

  lemma ExposedAgrees(l: Ledger, n: nat, p: Policy, a: Assertion)
    requires Shaped(l)
    ensures Exposed(At(l, n), p, a) <==> Shows(l, n, p, a)
  {
    EntityAgrees(l, n, p, a.sourceEntityId);
    EntityAgrees(l, n, p, a.targetEntityId);
    hide Shaped, At, ReadableEntity, ReadableAt;
  }

  lemma SameShownAssertions(l: Ledger, m: Ledger, n: nat, p: Policy)
    requires Shaped(l) && Shaped(m) && LooksAlike(l, m, n, p)
    ensures ShownAssertions(At(l, n), p) == ShownAssertions(At(m, n), p)
  {
    hide Shaped, VisibleEntity, VisibleItem, Exposed, ReadableAt;
    var f, g := (a: Assertion) => Exposed(At(l, n), p, a), (a: Assertion) => Exposed(At(m, n), p, a);
    forall k: nat | k < |l.assertions|
      ensures var a, b := l.assertions[k], m.assertions[k];
        a.sequence == b.sequence && (a == b || (!f(a.value) && !g(b.value))) && (f(a.value) <==> g(b.value))
    {
      var a, b := l.assertions[k].value, m.assertions[k].value;
      assert SameShown(l, m, n, p, k);
      ExposedAgrees(l, n, p, a);
      ExposedAgrees(m, n, p, b);
      SameEntityView(l, m, n, p, a.sourceEntityId);
      SameEntityView(l, m, n, p, a.targetEntityId);
    }
    FilterLined(l.assertions, m.assertions, n, f, g);
  }

  lemma AlikeIsSameView(l: Ledger, m: Ledger, n: nat, p: Policy)
    requires Shaped(l) && Shaped(m) && LooksAlike(l, m, n, p)
    ensures SameView(At(l, n), At(m, n), p)
  {
    hide Shaped, VisibleEntity, VisibleItem, ShownAssertions, ReadableEntity, ReadableEvidence, SameShown, Visible, Get;
    SameShownAssertions(l, m, n, p);
    forall id ensures ReadableEntity(p, At(l, n).entities, id) || ReadableEntity(p, At(m, n).entities, id) ==> Get(At(l, n).entities, id) == Get(At(m, n).entities, id) {
      SameEntityView(l, m, n, p, id);
    }
    forall key ensures ReadableEvidence(At(l, n), p, key) || ReadableEvidence(At(m, n), p, key) ==> Get(At(l, n).evidence, key) == Get(At(m, n).evidence, key) {
      SameItemView(l, m, n, p, key);
    }
  }

  /** Noninterference by the tables: whatever the policy hides can be exchanged without any change in what is answered. */
  lemma HiddenIsFree(env: Env, limits: Limits, l: Ledger, m: Ledger, n: nat, r: Request, cursor: Option<string>, p: Policy)
    requires Valid(env, l) && Valid(env, m) && n <= l.sequence && n <= m.sequence && LooksAlike(l, m, n, p)
    ensures Traverse(env, limits, l, r, Some(n), cursor, p) == Traverse(env, limits, m, r, Some(n), cursor, p)
  {
    hide Shaped, SameView, LooksAlike, Traverse;
    AlikeIsSameView(l, m, n, p);
    HiddenHasNoInfluence(env, limits, l, m, n, r, cursor, p);
  }
}
