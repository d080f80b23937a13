/** What an export holds, and what an import of any archive whatever demands and gives. */
module LineageTransport {
  import opened Wrappers
  import opened Sorting
  import opened LineageLedger
  import opened LineageArchive
  import opened LineageRebuild
  import opened LineageRoundTrip
  import opened LineageRules

  // ----- export -----

  /** The values recorded up to the snapshot. */
  ghost predicate Holds<T(!new)>(xs: seq<T>, t: Table<T>, n: nat) {
    && (forall x :: x in xs <==> exists e :: e in t && e.sequence <= n && e.value == x)
    && |xs| == |Visible(t, n)|
  }

  /** No item's text collates before that of an earlier item. */
  ghost predicate InOrder<T(!new)>(env: Env, xs: seq<T>, text: T -> string) {
    forall i, j :: 0 <= i < j < |xs| ==> !env.less(text(xs[j]), text(xs[i]))
  }

  lemma SortedHolds<T(!new)>(env: Env, t: Table<T>, n: nat, key: T -> string)
    requires StrictTotal(env.less)
    ensures Holds(SortedById(env, Visible(t, n), key), t, n) && InOrder(env, SortedById(env, Visible(t, n), key), key)
  {
    var v := Visible(t, n);
    var xs, lt := SortedById(env, v, key), LessBy(env, key);
    var always := (a: T, b: T) => true;
    KeyedWeak(env, key);
    SortStable(Values(v), lt, always);
    SortMembers(Values(v), lt);
    forall i, j | 0 <= i < j < |xs| ensures !env.less(key(xs[j]), key(xs[i])) {
      assert Before(lt, always, xs[i], xs[j]);
    }
    hide StrictTotal;
    ValuesVisible(t, n);
  }

  lemma KeyedWeak<T(!new)>(env: Env, key: T -> string)
    requires StrictTotal(env.less)
    ensures StrictWeak(LessBy(env, key))
    ensures forall a, b :: !(env.less(a, b) && env.less(b, a))
  {
    var lt := LessBy(env, key);
    forall a, b, c | lt(a, c) ensures lt(a, b) || lt(b, c) {
      assert key(a) == key(b) || env.less(key(a), key(b)) || env.less(key(b), key(a));
    }
  }

  lemma ValuesVisible<T(!new)>(t: Table<T>, n: nat)
    ensures forall x :: x in Values(Visible(t, n)) <==> exists e :: e in t && e.sequence <= n && e.value == x
  {
    var v := Visible(t, n);
    forall x ensures x in Values(v) <==> exists e :: e in t && e.sequence <= n && e.value == x {
      if x in Values(v) {
        var i :| 0 <= i < |v| && Values(v)[i] == x;
        assert v[i] in v;
      }
      if e :| e in t && e.sequence <= n && e.value == x {
        assert e in v;
        var i :| 0 <= i < |v| && v[i] == e;
        assert Values(v)[i] == x;
      }
    }
  }

  /** The archive of a snapshot: everything recorded up to it and nothing else, each collection in collation order. */
  ghost predicate ArchiveOf(env: Env, l: Ledger, n: nat, a: Archive) {
    var c := a.content;
    && c.contract == "fortemi.dataset-lineage/v1" && c.schemaVersion == "1.0.0" && c.snapshot == n
    && Holds(c.entities, l.entities, n) && InOrder(env, c.entities, (x: Entity) => x.id)
    && Holds(c.agents, l.agents, n) && InOrder(env, c.agents, (x: Agent) => x.id)
    && Holds(c.activities, l.activities, n) && InOrder(env, c.activities, (x: Activity) => x.id)
    && Holds(c.evidence, l.evidence, n) && InOrder(env, c.evidence, (x: Evidence) => x.id + "@" + x.revision)
    && Holds(c.assertions, l.assertions, n) && InOrder(env, c.assertions, (x: Assertion) => x.id)
    && Holds(c.corrections, l.corrections, n) && InOrder(env, c.corrections, (x: Correction) => x.id)
    && a.digest == env.digest(OfArchive(c))
  }

  lemma OrderBy<T(!new)>(env: Env, xs: seq<T>, key: T -> string, text: T -> string)
    requires InOrder(env, xs, key) && forall x :: key(x) == text(x)
    ensures InOrder(env, xs, text)
  {
  }

  /** The archive's content is what the snapshot holds. */
  lemma ExportMeans(env: Env, l: Ledger, n: int)
    requires StrictTotal(env.less)
    ensures if 0 <= n <= l.sequence then Export(env, l, n).Ok? && ArchiveOf(env, l, n, Export(env, l, n).value)
            else Export(env, l, n) == Err(SnapshotUnavailable)
  {
    hide StrictTotal, SortedById, Holds, InOrder, Visible;
    if 0 <= n <= l.sequence {
      SortedHolds(env, l.entities, n, EntityKey);
      SortedHolds(env, l.agents, n, AgentKey);
      SortedHolds(env, l.activities, n, ActivityKey);
      SortedHolds(env, l.evidence, n, EvidenceKey);
      SortedHolds(env, l.assertions, n, AssertionId);
      SortedHolds(env, l.corrections, n, CorrectionKey);
      var c := Content(env, At(l, n));
      OrderBy(env, c.entities, EntityKey, (x: Entity) => x.id);
      OrderBy(env, c.agents, AgentKey, (x: Agent) => x.id);
      OrderBy(env, c.activities, ActivityKey, (x: Activity) => x.id);
      OrderBy(env, c.evidence, EvidenceKey, (x: Evidence) => x.id + "@" + x.revision);
      OrderBy(env, c.assertions, AssertionId, (x: Assertion) => x.id);
      OrderBy(env, c.corrections, CorrectionKey, (x: Correction) => x.id);
    }
  }

  // ----- what an import demands -----

  /** The contract and a version of its first major. */
  ghost predicate Recognized(c: ArchiveContent) {
    c.contract == "fortemi.dataset-lineage/v1" && |c.schemaVersion| >= 2 && c.schemaVersion[0] == '1' && c.schemaVersion[1] == '.'
  }

  /** The archive carries the digest of its content. */
  ghost predicate Intact(env: Env, a: Archive) {
    a.digest == env.digest(OfArchive(a.content))
  }

  /** An archive of another contract or major, or with a stale digest, is refused before anything is appended. */
  lemma ImportDemands(env: Env, a: Archive)
    ensures !Recognized(a.content) ==> Import(env, a) == Err(ValueInvalid)
    ensures Recognized(a.content) && !Intact(env, a) ==> Import(env, a) == Err(EvidenceDigestMismatch)
    ensures Recognized(a.content) && Intact(env, a) ==> Import(env, a) == Import(env, Sealed(env, a.content))
  {
    hide AppendAll, ImportCorrections, BaseEvents;
    var v := a.content.schemaVersion;
    assert "1." <= v <==> |v| >= 2 && v[0] == '1' && v[1] == '.';
  }

  // ----- what an import gives -----

  lemma {:induction false} AgentsAppended(env: Env, m: Ledger, xs: seq<Agent>, es: seq<Event>, m': Ledger)
    requires Valid(env, m) && AppendAll(env, m, es) == Ok(m')
    requires |es| == |xs| && forall i :: 0 <= i < |xs| ==> es[i] == NewAgent(xs[i])
    ensures Valid(env, m') && m' == m.(sequence := m'.sequence, agents := m'.agents) && Values(m'.agents) == Values(m.agents) + xs
    decreases |xs|
  {
    hide Valid, Check;
    if xs != [] {
      AppendKeepsValid(env, m, es[0]);
      ValuesAdded(m.agents, Entry(AgentKey(xs[0]), m.sequence + 1, xs[0]));
      AgentsAppended(env, Extend(m, es[0]), xs[1..], es[1..], m');
    }
  }

  lemma {:induction false} EntitiesAppended(env: Env, m: Ledger, xs: seq<Entity>, es: seq<Event>, m': Ledger)
    requires Valid(env, m) && AppendAll(env, m, es) == Ok(m')
    requires |es| == |xs| && forall i :: 0 <= i < |xs| ==> es[i] == NewEntity(xs[i])
    ensures Valid(env, m') && m' == m.(sequence := m'.sequence, entities := m'.entities) && Values(m'.entities) == Values(m.entities) + xs
    decreases |xs|
  {
    hide Valid, Check;
    if xs != [] {
      AppendKeepsValid(env, m, es[0]);
      ValuesAdded(m.entities, Entry(EntityKey(xs[0]), m.sequence + 1, xs[0]));
      EntitiesAppended(env, Extend(m, es[0]), xs[1..], es[1..], m');
    }
  }

  lemma {:induction false} ActivitiesAppended(env: Env, m: Ledger, xs: seq<Activity>, es: seq<Event>, m': Ledger)
    requires Valid(env, m) && AppendAll(env, m, es) == Ok(m')
    requires |es| == |xs| && forall i :: 0 <= i < |xs| ==> es[i] == NewActivity(xs[i])
    ensures Valid(env, m') && m' == m.(sequence := m'.sequence, activities := m'.activities) && Values(m'.activities) == Values(m.activities) + xs
    decreases |xs|
  {
    hide Valid, Check;
    if xs != [] {
      AppendKeepsValid(env, m, es[0]);
      ValuesAdded(m.activities, Entry(ActivityKey(xs[0]), m.sequence + 1, xs[0]));
      ActivitiesAppended(env, Extend(m, es[0]), xs[1..], es[1..], m');
    }
  }

  lemma {:induction false} EvidenceAppended(env: Env, m: Ledger, xs: seq<Evidence>, es: seq<Event>, m': Ledger)
    requires Valid(env, m) && AppendAll(env, m, es) == Ok(m')
    requires |es| == |xs| && forall i :: 0 <= i < |xs| ==> es[i] == NewEvidence(xs[i])
    ensures Valid(env, m') && m' == m.(sequence := m'.sequence, evidence := m'.evidence) && Values(m'.evidence) == Values(m.evidence) + xs
    decreases |xs|
  {
    hide Valid, Check;
    if xs != [] {
      AppendKeepsValid(env, m, es[0]);
      ValuesAdded(m.evidence, Entry(EvidenceKey(xs[0]), m.sequence + 1, xs[0]));
      EvidenceAppended(env, Extend(m, es[0]), xs[1..], es[1..], m');
    }
  }

  lemma {:induction false} AssertionsAppended(env: Env, m: Ledger, xs: seq<Assertion>, es: seq<Event>, m': Ledger)
    requires Valid(env, m) && AppendAll(env, m, es) == Ok(m')
    requires |es| == |xs| && forall i :: 0 <= i < |xs| ==> es[i] == NewAssertion(xs[i])
    ensures Valid(env, m') && m' == m.(sequence := m'.sequence, assertions := m'.assertions) && Values(m'.assertions) == Values(m.assertions) + xs
    decreases |xs|
  {
    hide Valid, Check;
    if xs != [] {
      AppendKeepsValid(env, m, es[0]);
      ValuesAdded(m.assertions, Entry(AssertionKey(xs[0]), m.sequence + 1, xs[0]));
      AssertionsAppended(env, Extend(m, es[0]), xs[1..], es[1..], m');
    }
  }

  /** The documents of the archive as they stand in it, and its unnamed assertions. */
  ghost predicate BaseOf(c: ArchiveContent, m: Ledger) {
    && Values(m.agents) == c.agents && Values(m.entities) == c.entities && Values(m.activities) == c.activities
    && Values(m.evidence) == c.evidence && Values(m.assertions) == Unnamed(c.assertions, c.corrections) && m.corrections == []
  }

  lemma FiveGiven(env: Env, e1: seq<Event>, e2: seq<Event>, e3: seq<Event>, e4: seq<Event>, e5: seq<Event>, m: Ledger)
    returns (m1: Ledger, m2: Ledger, m3: Ledger, m4: Ledger)
    requires AppendAll(env, Empty, e1 + e2 + e3 + e4 + e5) == Ok(m)
    ensures AppendAll(env, Empty, e1) == Ok(m1) && AppendAll(env, m1, e2) == Ok(m2) && AppendAll(env, m2, e3) == Ok(m3)
    ensures AppendAll(env, m3, e4) == Ok(m4) && AppendAll(env, m4, e5) == Ok(m)
  {
    hide AppendAll;
    AppendAllConcat(env, Empty, e1 + e2 + e3 + e4, e5);
    AppendAllConcat(env, Empty, e1 + e2 + e3, e4);
    AppendAllConcat(env, Empty, e1 + e2, e3);
    AppendAllConcat(env, Empty, e1, e2);
    m1 := AppendAll(env, Empty, e1).value;
    m2 := AppendAll(env, m1, e2).value;
    m3 := AppendAll(env, m2, e3).value;
    m4 := AppendAll(env, m3, e4).value;
  }

  lemma BaseGiven(env: Env, c: ArchiveContent, m: Ledger)
    requires AppendAll(env, Empty, BaseEvents(c)) == Ok(m)
    ensures Valid(env, m) && BaseOf(c, m)
  {
    EmptyValid(env);
    hide Valid, AppendAll, Unnamed;
    var u := Unnamed(c.assertions, c.corrections);
    var e1, e2 := EventsOf(c.agents, x => NewAgent(x)), EventsOf(c.entities, x => NewEntity(x));
    var e3, e4 := EventsOf(c.activities, x => NewActivity(x)), EventsOf(c.evidence, x => NewEvidence(x));
    var e5 := EventsOf(u, x => NewAssertion(x));
    var m1, m2, m3, m4 := FiveGiven(env, e1, e2, e3, e4, e5, m);
    hide BaseEvents, EventsOf;
    AgentsAppended(env, Empty, c.agents, e1, m1);
    EntitiesAppended(env, m1, c.entities, e2, m2);
    ActivitiesAppended(env, m2, c.activities, e3, m3);
    EvidenceAppended(env, m3, c.evidence, e4, m4);
    AssertionsAppended(env, m4, u, e5, m);
    assert [] + c.agents == c.agents && [] + c.entities == c.entities && [] + c.activities == c.activities && [] + c.evidence == c.evidence
        && [] + u == u;
  }

  /** What the pending loop has added: the corrections, and assertions of the archive that they name. */
  ghost predicate LoopGave(xs: seq<Assertion>, m: Ledger, pending: seq<Correction>, m': Ledger) {
    && m'.entities == m.entities && m'.agents == m.agents && m'.activities == m.activities && m'.evidence == m.evidence
    && multiset(Values(m'.corrections)) == multiset(Values(m.corrections)) + multiset(pending)
    && (forall x :: x in Values(m.assertions) ==> x in Values(m'.assertions))
    && (forall x :: x in Values(m'.assertions) ==> x in Values(m.assertions) || x in xs)
    && (forall k :: Has(m.assertions, k) ==> Has(m'.assertions, k))
    && (forall c :: c in pending && NamesReplacement(c) ==> Has(m'.assertions, ReplacementKey(c)))
  }

  lemma {:induction false} LoopGives(env: Env, xs: seq<Assertion>, m: Ledger, pending: seq<Correction>, m': Ledger)
    requires Valid(env, m) && ImportCorrections(env, xs, m, pending) == Ok(m')
    ensures Valid(env, m') && LoopGave(xs, m, pending, m')
    decreases |pending|
  {
    hide Valid, Has, ImportOne, LoopGave;
    if pending != [] {
      var i := FirstEligible(m.assertions, pending).value;
      var m1 := ImportOne(env, xs, m, pending[i]).value;
      ImportOneShape(env, xs, m, pending[i], m1);
      LoopGives(env, xs, m1, Without(pending, i), m');
      GaveMore(xs, m, pending, i, m1, m');
    } else {
      NothingGave(xs, m);
    }
  }

  lemma NothingGave(xs: seq<Assertion>, m: Ledger)
    ensures LoopGave(xs, m, [], m)
  {
    assert multiset(Values(m.corrections)) + multiset([]) == multiset(Values(m.corrections));
    hide Has;
  }

  lemma GaveMore(xs: seq<Assertion>, m: Ledger, pending: seq<Correction>, i: nat, m1: Ledger, m': Ledger)
    requires i < |pending| && LoopGave(xs, m1, Without(pending, i), m')
    requires Values(m1.corrections) == Values(m.corrections) + [pending[i]]
    requires m1.entities == m.entities && m1.agents == m.agents && m1.activities == m.activities && m1.evidence == m.evidence
    requires m1.assertions == m.assertions || Gained(xs, pending[i], m.assertions, m1.assertions)
    requires NamesReplacement(pending[i]) ==> Has(m1.assertions, ReplacementKey(pending[i]))
    ensures LoopGave(xs, m, pending, m')
  {
    hide Has, Gained;
    var c, rest := pending[i], Without(pending, i);
    OneGave(xs, m, c, m1);
    forall d | d in pending ensures d == c || d in rest { assert d in multiset(pending); }
  }

  lemma OneGave(xs: seq<Assertion>, m: Ledger, c: Correction, m1: Ledger)
    requires m1.assertions == m.assertions || Gained(xs, c, m.assertions, m1.assertions)
    ensures forall x :: x in Values(m.assertions) ==> x in Values(m1.assertions)
    ensures forall x :: x in Values(m1.assertions) ==> x in Values(m.assertions) || x in xs
    ensures forall k :: Has(m.assertions, k) ==> Has(m1.assertions, k)
  {
    hide Has;
    if m1.assertions != m.assertions {
      var x, s :| x in xs && Names(c, AssertionKey(x)) && m1.assertions == m.assertions + [Entry(AssertionKey(x), s, x)];
      ValuesAdded(m.assertions, Entry(AssertionKey(x), s, x));
      forall k ensures Has(m.assertions, k) ==> Has(m1.assertions, k) { HasAdded(m.assertions, Entry(AssertionKey(x), s, x), k); }
    }
  }

  /** The rebuilt ledger holds the archive's items: no assertion that is not archived, and every archived key. */
  ghost predicate Rebuilds(c: ArchiveContent, m: Ledger) {
    && Values(m.agents) == c.agents && Values(m.entities) == c.entities && Values(m.activities) == c.activities && Values(m.evidence) == c.evidence
    && multiset(Values(m.corrections)) == multiset(c.corrections)
    && (forall x :: x in Values(m.assertions) ==> x in c.assertions)
    && (forall x :: x in c.assertions ==> Known(m.assertions, x.id + "@" + x.revision))
  }

  /**
    Whatever the archive, an import that succeeds was of a recognized and intact one, and leaves a valid ledger, so that
    every record in it has met every demand of its append, holding what the archive holds.
   */
  lemma ImportGives(env: Env, a: Archive)
    requires Import(env, a).Ok?
    ensures Recognized(a.content) && Intact(env, a)
    ensures Valid(env, Import(env, a).value) && Rebuilds(a.content, Import(env, a).value)
  {
    hide Valid, AppendAll, BaseEvents, ImportCorrections, Unnamed, Has, Known, NamedBy;
    ImportDemands(env, a);
    var c := a.content;
    var base := AppendAll(env, Empty, BaseEvents(c)).value;
    var m := Import(env, a).value;
    BaseGiven(env, c, base);
    LoopGives(env, c.assertions, base, c.corrections, m);
    assert multiset([]) + multiset(c.corrections) == multiset(c.corrections);
    forall x | x in c.assertions ensures Known(m.assertions, x.id + "@" + x.revision) { EveryKey(env, c, base, m, x); }
  }

  lemma EveryKey(env: Env, c: ArchiveContent, base: Ledger, m: Ledger, x: Assertion)
    requires BaseOf(c, base) && Valid(env, base) && LoopGave(c.assertions, base, c.corrections, m) && x in c.assertions
    ensures Known(m.assertions, x.id + "@" + x.revision)
  {
    hide Admitted, Owners, Has, Known;
    if NamedBy(c.corrections, AssertionKey(x)) {
      var i :| 0 <= i < |c.corrections| && Names(c.corrections[i], AssertionKey(x));
      assert c.corrections[i] in c.corrections;
    } else {
      assert x in Values(base.assertions);
      HasValue(base.assertions, base.sequence, AssertionKey, AssertionKey(x));
    }
    AssertionKeyText(x);
    KnownAgrees(m.assertions, AssertionKey(x));
  }
}
