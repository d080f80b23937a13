/** The first half of an import: everything but the corrections and what they name always goes back in. */
module LineageRebuild {
  import opened Wrappers
  import opened Sorting
  import opened LineageLedger
  import opened LineageArchive

  // ----- tables by their values -----

  lemma HasValue<T(!new)>(t: Table<T>, n: nat, keyOf: T -> string, k: string)
    requires TableOk(t, n, keyOf)
    ensures Has(t, k) <==> exists v :: v in Values(t) && keyOf(v) == k
  {
    if Has(t, k) {
      var i :| 0 <= i < |t| && t[i].key == k;
      assert t[i] in t && Values(t)[i] in Values(t);
    }
    if v :| v in Values(t) && keyOf(v) == k {
      var i :| 0 <= i < |t| && Values(t)[i] == v;
      assert t[i] in t;
    }
  }

  lemma GetValue<T(!new)>(t: Table<T>, n: nat, keyOf: T -> string, v: T)
    requires TableOk(t, n, keyOf)
    requires v in Values(t)
    ensures Get(t, keyOf(v)) == Some(v)
  {
    var i :| 0 <= i < |t| && Values(t)[i] == v;
    assert t[i] in t;
    var e :| e in t && e.key == keyOf(v) && Get(t, keyOf(v)) == Some(e.value);
  }

  ghost predicate Includes<T>(t: Table<T>, u: Table<T>) {
    forall k :: Has(t, k) ==> Get(u, k) == Get(t, k)
  }

  lemma IncludesByValues<T(!new)>(t: Table<T>, m: nat, u: Table<T>, n: nat, keyOf: T -> string)
    requires TableOk(t, m, keyOf) && TableOk(u, n, keyOf)
    requires forall v :: v in Values(t) ==> v in Values(u)
    ensures Includes(t, u)
  {
    forall k | Has(t, k) ensures Get(u, k) == Get(t, k) {
      HasValue(t, m, keyOf, k);
      var v :| v in Values(t) && keyOf(v) == k;
      GetValue(t, m, keyOf, v);
      GetValue(u, n, keyOf, v);
    }
  }

  ghost predicate DistinctKeys<T(!new)>(vs: seq<T>, keyOf: T -> string) {
    forall i, j :: 0 <= i < j < |vs| ==> keyOf(vs[i]) != keyOf(vs[j])
  }

  lemma ValuesDistinct<T(!new)>(t: Table<T>, n: nat, keyOf: T -> string)
    requires TableOk(t, n, keyOf)
    ensures DistinctKeys(Values(t), keyOf)
  {
    forall i, j | 0 <= i < j < |t| ensures keyOf(Values(t)[i]) != keyOf(Values(t)[j]) {
      assert t[i] in t && t[j] in t;
    }
  }

  /** Distinctness survives any reordering. */
  lemma {:induction false} DistinctKeysPermuted<T(!new)>(a: seq<T>, b: seq<T>, keyOf: T -> string)
    requires DistinctKeys(a, keyOf)
    requires multiset(a) == multiset(b)
    ensures DistinctKeys(b, keyOf)
  {
    forall i, j | 0 <= i < j < |b| ensures keyOf(b[i]) != keyOf(b[j]) {
      assert b == b[..i] + [b[i]] + b[i + 1..j] + [b[j]] + b[j + 1..];
      assert multiset(b) >= multiset{b[i], b[j]};
      if b[i] == b[j] {
        assert multiset(a)[b[i]] >= 2;
        TwoOccurrences(a, b[i]);
      } else {
        assert b[i] in multiset(a) && b[j] in multiset(a);
        assert b[i] in a && b[j] in a;
      }
    }
  }

  lemma {:induction false} TwoOccurrences<T(!new)>(a: seq<T>, x: T)
    requires multiset(a)[x] >= 2
    ensures exists i, j :: 0 <= i < j < |a| && a[i] == x && a[j] == x
  {
    var i :| 0 <= i < |a| && a[i] == x;
    var rest := Without(a, i);
    assert x in multiset(rest);
    var j :| 0 <= j < |rest| && rest[j] == x;
    var j' := if j < i then j else j + 1;
    assert a[j'] == x;
    if j' < i { assert a[j'] == x && a[i] == x; }
  }

  // ----- what an archived item's own check still says about another ledger -----

  lemma {:induction false} ReferencesTransfer(t: Table<Evidence>, u: Table<Evidence>, refs: seq<EvidenceReference>)
    requires Includes(t, u)
    requires CheckReferences(t, refs).None?
    ensures CheckReferences(u, refs).None?
  {
    if refs != [] {
      assert Has(t, ReferenceKey(refs[0]));
      ReferencesTransfer(t, u, refs[1..]);
    }
  }

  /** The target ledger knows at least the entities, agents, activities and evidence of the source. */
  ghost predicate Covers(p: Ledger, m: Ledger) {
    && Includes(p.entities, m.entities)
    && Includes(p.agents, m.agents)
    && Includes(p.activities, m.activities)
    && Includes(p.evidence, m.evidence)
  }

  lemma AssertionTransfers(env: Env, p: Ledger, m: Ledger, x: Assertion)
    requires Covers(p, m)
    requires CheckAssertionContent(env, p, x).None?
    ensures CheckAssertionContent(env, m, x).None?
  {
    assert Has(p.entities, x.sourceEntityId) && Has(p.entities, x.targetEntityId);
    assert Has(p.agents, x.issuerAgentId);
    ReferencesTransfer(p.evidence, m.evidence, x.evidence);
  }

  lemma CorrectionTransfers(env: Env, p: Ledger, m: Ledger, x: Correction)
    requires Covers(p, m)
    requires CheckCorrectionContent(env, p, x).None?
    ensures CheckCorrectionContent(env, m, x).None?
  {
    assert Has(p.agents, x.issuerAgentId) && Has(p.activities, x.activityId);
  }

  // ----- appending the archived items -----

  lemma ValuesAdded<T>(t: Table<T>, e: Entry<T>)
    ensures Values(t + [e]) == Values(t) + [e.value]
  {
  }

  lemma {:induction false} AppendAllConcat(env: Env, l: Ledger, a: seq<Event>, b: seq<Event>)
    ensures AppendAll(env, l, a + b) == var r := AppendAll(env, l, a); if r.Err? then r else AppendAll(env, r.value, b)
    decreases |a|
  {
    hide Append;
    if a == [] {
      assert a + b == b;
    } else {
      assert (a + b)[1..] == a[1..] + b;
      var r := Append(env, l, a[0]);
      if r.Ok? { AppendAllConcat(env, r.value, a[1..], b); }
    }
  }

  lemma DistinctStep<T(!new)>(done: seq<T>, xs: seq<T>, keyOf: T -> string)
    requires xs != []
    requires DistinctKeys(done + xs, keyOf)
    ensures DistinctKeys((done + [xs[0]]) + xs[1..], keyOf)
    ensures forall v :: v in done ==> keyOf(v) != keyOf(xs[0])
  {
    assert (done + [xs[0]]) + xs[1..] == done + xs;
    forall v | v in done ensures keyOf(v) != keyOf(xs[0]) {
      var i :| 0 <= i < |done| && done[i] == v;
      assert (done + xs)[i] == v && (done + xs)[|done|] == xs[0];
    }
  }

  lemma AgentsStep(env: Env, m: Ledger, x: Agent)
    requires Valid(env, m)
    requires forall v :: v in Values(m.agents) ==> AgentKey(v) != AgentKey(x)
    requires CheckAgent(Empty, x).None?
    ensures var m' := Extend(m, NewAgent(x));
            Append(env, m, NewAgent(x)) == Ok(m') && Valid(env, m') && Values(m'.agents) == Values(m.agents) + [x]
  {
    HasValue(m.agents, m.sequence, AgentKey, AgentKey(x));
    hide TableOk, Admitted;
    assert Check(env, m, NewAgent(x)).None?;
    AppendKeepsValid(env, m, NewAgent(x));
    ValuesAdded(m.agents, Entry(AgentKey(x), m.sequence + 1, x));
  }

  lemma {:induction false} AgentsPhase(env: Env, m: Ledger, xs: seq<Agent>, es: seq<Event>) returns (m': Ledger)
    requires Valid(env, m) && DistinctKeys(Values(m.agents) + xs, AgentKey)
    requires |es| == |xs| && forall i :: 0 <= i < |xs| ==> es[i] == NewAgent(xs[i])
    requires forall x :: x in xs ==> CheckAgent(Empty, x).None?
    ensures AppendAll(env, m, es) == Ok(m') && Valid(env, m')
    ensures Values(m'.agents) == Values(m.agents) + xs
    ensures m' == m.(sequence := m'.sequence, agents := m'.agents)
    decreases |xs|
  {
    hide Valid, Check;
    m' := m;
    if xs != [] {
      DistinctStep(Values(m.agents), xs, AgentKey);
      AgentsStep(env, m, xs[0]);
      m' := AgentsPhase(env, Extend(m, es[0]), xs[1..], es[1..]);
    }
  }

  lemma EntitiesStep(env: Env, m: Ledger, x: Entity)
    requires Valid(env, m)
    requires forall v :: v in Values(m.entities) ==> EntityKey(v) != EntityKey(x)
    requires CheckEntity(env, Empty, x).None?
    ensures var m' := Extend(m, NewEntity(x));
            Append(env, m, NewEntity(x)) == Ok(m') && Valid(env, m') && Values(m'.entities) == Values(m.entities) + [x]
  {
    HasValue(m.entities, m.sequence, EntityKey, EntityKey(x));
    hide TableOk, Admitted;
    assert Check(env, m, NewEntity(x)).None?;
    AppendKeepsValid(env, m, NewEntity(x));
    ValuesAdded(m.entities, Entry(EntityKey(x), m.sequence + 1, x));
  }

  lemma {:induction false} EntitiesPhase(env: Env, m: Ledger, xs: seq<Entity>, es: seq<Event>) returns (m': Ledger)
    requires Valid(env, m) && DistinctKeys(Values(m.entities) + xs, EntityKey)
    requires |es| == |xs| && forall i :: 0 <= i < |xs| ==> es[i] == NewEntity(xs[i])
    requires forall x :: x in xs ==> CheckEntity(env, Empty, x).None?
    ensures AppendAll(env, m, es) == Ok(m') && Valid(env, m')
    ensures Values(m'.entities) == Values(m.entities) + xs
    ensures m' == m.(sequence := m'.sequence, entities := m'.entities)
    decreases |xs|
  {
    hide Valid, Check;
    m' := m;
    if xs != [] {
      DistinctStep(Values(m.entities), xs, EntityKey);
      EntitiesStep(env, m, xs[0]);
      m' := EntitiesPhase(env, Extend(m, es[0]), xs[1..], es[1..]);
    }
  }

  /** An activity's own check, with the agents it may name taken from the ledger. */
  predicate ActivityFits(env: Env, agents: Table<Agent>, x: Activity) {
    CheckActivity(env, Empty.(agents := agents), x).None?
  }

  lemma ActivitiesStep(env: Env, m: Ledger, x: Activity)
    requires Valid(env, m)
    requires forall v :: v in Values(m.activities) ==> ActivityKey(v) != ActivityKey(x)
    requires ActivityFits(env, m.agents, x)
    ensures var m' := Extend(m, NewActivity(x));
            Append(env, m, NewActivity(x)) == Ok(m') && Valid(env, m') && Values(m'.activities) == Values(m.activities) + [x]
  {
    HasValue(m.activities, m.sequence, ActivityKey, ActivityKey(x));
    hide TableOk, Admitted;
    assert Check(env, m, NewActivity(x)).None?;
    AppendKeepsValid(env, m, NewActivity(x));
    ValuesAdded(m.activities, Entry(ActivityKey(x), m.sequence + 1, x));
  }

  lemma {:induction false} ActivitiesPhase(env: Env, m: Ledger, xs: seq<Activity>, es: seq<Event>) returns (m': Ledger)
    requires Valid(env, m) && DistinctKeys(Values(m.activities) + xs, ActivityKey)
    requires |es| == |xs| && forall i :: 0 <= i < |xs| ==> es[i] == NewActivity(xs[i])
    requires forall x :: x in xs ==> ActivityFits(env, m.agents, x)
    ensures AppendAll(env, m, es) == Ok(m') && Valid(env, m')
    ensures Values(m'.activities) == Values(m.activities) + xs
    ensures m' == m.(sequence := m'.sequence, activities := m'.activities)
    decreases |xs|
  {
    hide Valid, Check;
    m' := m;
    if xs != [] {
      DistinctStep(Values(m.activities), xs, ActivityKey);
      ActivitiesStep(env, m, xs[0]);
      m' := ActivitiesPhase(env, Extend(m, es[0]), xs[1..], es[1..]);
    }
  }

  lemma EvidenceStep(env: Env, m: Ledger, x: Evidence)
    requires Valid(env, m)
    requires forall v :: v in Values(m.evidence) ==> EvidenceKey(v) != EvidenceKey(x)
    requires CheckEvidence(env, Empty, x).None?
    ensures var m' := Extend(m, NewEvidence(x));
            Append(env, m, NewEvidence(x)) == Ok(m') && Valid(env, m') && Values(m'.evidence) == Values(m.evidence) + [x]
  {
    HasValue(m.evidence, m.sequence, EvidenceKey, EvidenceKey(x));
    hide TableOk, Admitted;
    assert Check(env, m, NewEvidence(x)).None?;
    AppendKeepsValid(env, m, NewEvidence(x));
    ValuesAdded(m.evidence, Entry(EvidenceKey(x), m.sequence + 1, x));
  }

  lemma {:induction false} EvidencePhase(env: Env, m: Ledger, xs: seq<Evidence>, es: seq<Event>) returns (m': Ledger)
    requires Valid(env, m) && DistinctKeys(Values(m.evidence) + xs, EvidenceKey)
    requires |es| == |xs| && forall i :: 0 <= i < |xs| ==> es[i] == NewEvidence(xs[i])
    requires forall x :: x in xs ==> CheckEvidence(env, Empty, x).None?
    ensures AppendAll(env, m, es) == Ok(m') && Valid(env, m')
    ensures Values(m'.evidence) == Values(m.evidence) + xs
    ensures m' == m.(sequence := m'.sequence, evidence := m'.evidence)
    decreases |xs|
  {
    hide Valid, Check;
    m' := m;
    if xs != [] {
      DistinctStep(Values(m.evidence), xs, EvidenceKey);
      EvidenceStep(env, m, xs[0]);
      m' := EvidencePhase(env, Extend(m, es[0]), xs[1..], es[1..]);
    }
  }

  lemma UnnamedStep(env: Env, m: Ledger, x: Assertion)
    requires Valid(env, m)
    requires forall v :: v in Values(m.assertions) ==> AssertionKey(v) != AssertionKey(x) && v.id != x.id
    requires CheckAssertionContent(env, m, x).None?
    ensures var m' := Extend(m, NewAssertion(x));
            Append(env, m, NewAssertion(x)) == Ok(m') && Valid(env, m') && Values(m'.assertions) == Values(m.assertions) + [x]
  {
    hide CheckAssertionContent, Admitted;
    HasValue(m.assertions, m.sequence, AssertionKey, AssertionKey(x));
    hide TableOk;
    forall i | 0 <= i < |m.assertions| ensures m.assertions[i].value.id != x.id {
      assert Values(m.assertions)[i] in Values(m.assertions);
    }
    assert Check(env, m, NewAssertion(x)).None?;
    AppendKeepsValid(env, m, NewAssertion(x));
    ValuesAdded(m.assertions, Entry(AssertionKey(x), m.sequence + 1, x));
  }

  /** Unnamed assertions go in without any permission, as no two of them share an id. */
  lemma {:induction false} UnnamedPhase(env: Env, m: Ledger, xs: seq<Assertion>, es: seq<Event>) returns (m': Ledger)
    requires Valid(env, m)
    requires DistinctKeys(Values(m.assertions) + xs, AssertionKey) && DistinctKeys(Values(m.assertions) + xs, AssertionId)
    requires |es| == |xs| && forall i :: 0 <= i < |xs| ==> es[i] == NewAssertion(xs[i])
    requires forall x :: x in xs ==> CheckAssertionContent(env, m, x).None?
    ensures AppendAll(env, m, es) == Ok(m') && Valid(env, m')
    ensures Values(m'.assertions) == Values(m.assertions) + xs
    ensures m' == m.(sequence := m'.sequence, assertions := m'.assertions)
    decreases |xs|
  {
    hide Valid, Check, CheckAssertionContent;
    m' := m;
    if xs != [] {
      DistinctStep(Values(m.assertions), xs, AssertionKey);
      DistinctStep(Values(m.assertions), xs, AssertionId);
      UnnamedStep(env, m, xs[0]);
      var m1 := Extend(m, es[0]);
      forall x | x in xs[1..] ensures CheckAssertionContent(env, m1, x).None? {
        AssertionTransfers(env, m, m1, x);
      }
      m' := UnnamedPhase(env, m1, xs[1..], es[1..]);
    }
  }

  // ----- what the invariant says about stored values -----

  /** The check an event passed when it was recorded. */
  lemma Admission(env: Env, l: Ledger, x: Event, s: nat)
    requires Valid(env, l) && Recorded(l, x, s)
    ensures 1 <= s <= l.sequence && Check(env, At(l, s - 1), x).None?
  {
    assert Checker(env)(At(l, s - 1), x).None?;
  }

  lemma EntryOf<T(!new)>(t: Table<T>, n: nat, keyOf: T -> string, v: T) returns (e: Entry<T>)
    requires TableOk(t, n, keyOf) && v in Values(t)
    ensures e in t && e.value == v && e.key == keyOf(v) && 1 <= e.sequence <= n
  {
    var i :| 0 <= i < |t| && Values(t)[i] == v;
    e := t[i];
  }

  lemma VisibleIncluded<T(!new)>(t: Table<T>, n: nat, keyOf: T -> string, s: nat, u: Table<T>, m: nat)
    requires TableOk(t, n, keyOf) && TableOk(u, m, keyOf)
    requires forall v :: v in Values(t) ==> v in Values(u)
    ensures Includes(Visible(t, s), u)
  {
    TableAt(t, n, keyOf, s);
    forall v | v in Values(Visible(t, s)) ensures v in Values(u) {
      var e := EntryOf(Visible(t, s), s, keyOf, v);
      var i :| 0 <= i < |t| && t[i] == e;
      assert Values(t)[i] == v;
    }
    IncludesByValues(Visible(t, s), s, u, m, keyOf);
  }

  /** The rebuilt ledger holds at least the source's entities, agents, activities and evidence. */
  ghost predicate Knows(l: Ledger, m: Ledger) {
    && (forall v :: v in Values(l.entities) ==> v in Values(m.entities))
    && (forall v :: v in Values(l.agents) ==> v in Values(m.agents))
    && (forall v :: v in Values(l.activities) ==> v in Values(m.activities))
    && (forall v :: v in Values(l.evidence) ==> v in Values(m.evidence))
  }

  lemma CoversPrefix(l: Ledger, s: nat, m: Ledger)
    requires Shaped(l) && Shaped(m) && Knows(l, m)
    ensures Covers(At(l, s), m)
  {
    hide Includes, TableOk;
    VisibleIncluded(l.entities, l.sequence, EntityKey, s, m.entities, m.sequence);
    VisibleIncluded(l.agents, l.sequence, AgentKey, s, m.agents, m.sequence);
    VisibleIncluded(l.activities, l.sequence, ActivityKey, s, m.activities, m.sequence);
    VisibleIncluded(l.evidence, l.sequence, EvidenceKey, s, m.evidence, m.sequence);
  }

  lemma IdentitiesOf(env: Env, l: Ledger, x: Assertion)
    requires CheckAssertionContent(env, l, x).None?
    ensures x.id != "" && x.revision != ""
  {
  }

  lemma AssertionChecked(env: Env, p: Ledger, x: Assertion)
    requires Check(env, p, NewAssertion(x)).None?
    ensures CheckAssertionContent(env, p, x).None? && x.id != "" && x.revision != ""
    ensures HasRevisionOf(p.assertions, x.id) ==> HasPermission(p.corrections, x.id, x.revision)
  {
    hide CheckAssertionContent, HasRevisionOf, HasPermission, Has;
    assert CheckAssertion(env, p, x).None?;
    IdentitiesOf(env, p, x);
  }

  lemma AssertionAdmission(env: Env, l: Ledger, e: Entry<Assertion>)
    requires Valid(env, l) && e in l.assertions
    ensures 1 <= e.sequence <= l.sequence && e.key == AssertionKey(e.value)
    ensures Check(env, At(l, e.sequence - 1), NewAssertion(e.value)).None?
  {
    hide Check, Owners;
    assert Recorded(l, NewAssertion(e.value), e.sequence);
    Admission(env, l, NewAssertion(e.value), e.sequence);
  }

  /** A revision that is not the first of its assertion was permitted by an earlier `correct`. */
  lemma LaterPermitted(env: Env, l: Ledger, first: Entry<Assertion>, later: Entry<Assertion>) returns (c: Entry<Correction>)
    requires Valid(env, l)
    requires first in l.assertions && later in l.assertions
    requires first.value.id == later.value.id && first.sequence < later.sequence
    ensures c in l.corrections && c.sequence < later.sequence
    ensures Permits(c.value, later.value.id, later.value.revision) && Names(c.value, later.key)
  {
    hide Valid, Check;
    AssertionAdmission(env, l, later);
    var p := At(l, later.sequence - 1);
    AssertionChecked(env, p, later.value);
    hide CheckAssertionContent;
    assert first in p.assertions;
    assert HasRevisionOf(p.assertions, later.value.id);
    var i :| 0 <= i < |p.corrections| && Permits(p.corrections[i].value, later.value.id, later.value.revision);
    c := p.corrections[i];
    assert c in p.corrections;
  }

  lemma {:induction false} UnnamedDistinct(xs: seq<Assertion>, cs: seq<Correction>)
    requires DistinctKeys(xs, AssertionKey)
    ensures DistinctKeys(Unnamed(xs, cs), AssertionKey)
  {
    if xs != [] {
      UnnamedDistinct(xs[1..], cs);
      var r := Unnamed(xs[1..], cs);
      forall y | y in r ensures AssertionKey(y) != AssertionKey(xs[0]) {
        assert y in xs[1..];
        var i :| 0 <= i < |xs[1..]| && xs[1..][i] == y;
        assert xs[i + 1] == y;
      }
    }
  }

  lemma UnnamedDistinctIds(env: Env, l: Ledger, xs: seq<Assertion>, cs: seq<Correction>)
    requires Valid(env, l)
    requires forall x :: x in xs ==> x in Values(l.assertions)
    requires forall c :: c in Values(l.corrections) ==> c in cs
    requires DistinctKeys(xs, AssertionKey)
    ensures DistinctKeys(Unnamed(xs, cs), AssertionId)
  {
    hide Admitted;
    var u := Unnamed(xs, cs);
    UnnamedDistinct(xs, cs);
    forall i, j | 0 <= i < j < |u| ensures u[i].id != u[j].id {
      assert u[i] in u && u[j] in u;
      var a := EntryOf(l.assertions, l.sequence, AssertionKey, u[i]);
      var b := EntryOf(l.assertions, l.sequence, AssertionKey, u[j]);
      assert a.key != b.key;
      if a.value.id == b.value.id {
        UnnamedApart(env, l, cs, a, b);
        assert false;
      }
    }
  }

  lemma UnnamedApart(env: Env, l: Ledger, cs: seq<Correction>, a: Entry<Assertion>, b: Entry<Assertion>)
    requires Valid(env, l) && a in l.assertions && b in l.assertions && a.key != b.key && a.value.id == b.value.id
    requires forall c :: c in Values(l.corrections) ==> c in cs
    ensures NamedBy(cs, a.key) || NamedBy(cs, b.key)
  {
    var first, later := if a.sequence < b.sequence then a else b, if a.sequence < b.sequence then b else a;
    var c := LaterPermitted(env, l, first, later);
    var k :| 0 <= k < |l.corrections| && l.corrections[k] == c;
    assert Values(l.corrections)[k] in cs;
  }

  // ----- the base of the import -----

  lemma AgentFits(env: Env, l: Ledger, x: Agent)
    requires Valid(env, l) && x in Values(l.agents)
    ensures CheckAgent(Empty, x).None?
  {
    var e := EntryOf(l.agents, l.sequence, AgentKey, x);
    Admission(env, l, NewAgent(x), e.sequence);
  }

  lemma EntityFits(env: Env, l: Ledger, x: Entity)
    requires Valid(env, l) && x in Values(l.entities)
    ensures CheckEntity(env, Empty, x).None?
  {
    var e := EntryOf(l.entities, l.sequence, EntityKey, x);
    Admission(env, l, NewEntity(x), e.sequence);
  }

  lemma EvidenceFits(env: Env, l: Ledger, x: Evidence)
    requires Valid(env, l) && x in Values(l.evidence)
    ensures CheckEvidence(env, Empty, x).None?
  {
    var e := EntryOf(l.evidence, l.sequence, EvidenceKey, x);
    Admission(env, l, NewEvidence(x), e.sequence);
  }

  lemma ActivityFitsRebuilt(env: Env, l: Ledger, m: Ledger, x: Activity)
    requires Valid(env, l) && Valid(env, m) && x in Values(l.activities)
    requires forall v :: v in Values(l.agents) ==> v in Values(m.agents)
    ensures ActivityFits(env, m.agents, x)
  {
    hide Admitted, Owners, TableOk, Check, Visible, Includes, ActivityFits;
    var e := EntryOf(l.activities, l.sequence, ActivityKey, x);
    assert Recorded(l, NewActivity(x), e.sequence);
    Admission(env, l, NewActivity(x), e.sequence);
    VisibleIncluded(l.agents, l.sequence, AgentKey, e.sequence - 1, m.agents, m.sequence);
    ActivityTransfers(env, At(l, e.sequence - 1), m.agents, x);
  }

  lemma ActivityTransfers(env: Env, p: Ledger, agents: Table<Agent>, x: Activity)
    requires Check(env, p, NewActivity(x)).None?
    requires Includes(p.agents, agents)
    ensures ActivityFits(env, agents, x)
  {
    assert forall k :: Has(p.agents, k) ==> Has(agents, k);
  }

  lemma ContentFitsRebuilt(env: Env, l: Ledger, m: Ledger, x: Assertion)
    requires Valid(env, l) && Shaped(m) && Knows(l, m) && x in Values(l.assertions)
    ensures CheckAssertionContent(env, m, x).None?
  {
    hide CheckAssertionContent, Check, Admitted, Owners, TableOk, At, Knows, Covers;
    var e := EntryOf(l.assertions, l.sequence, AssertionKey, x);
    AssertionAdmission(env, l, e);
    var p := At(l, e.sequence - 1);
    AssertionChecked(env, p, x);
    CoversPrefix(l, e.sequence - 1, m);
    AssertionTransfers(env, p, m, x);
  }

  /** Sorting a table's values by any key only reorders them. */
  lemma SortedMembers<T(!new)>(env: Env, t: Table<T>, n: nat, keyOf: T -> string, sortKey: T -> string)
    requires TableOk(t, n, keyOf)
    ensures multiset(SortedById(env, t, sortKey)) == multiset(Values(t))
    ensures forall x :: x in SortedById(env, t, sortKey) <==> x in Values(t)
    ensures DistinctKeys(SortedById(env, t, sortKey), keyOf)
  {
    SortMembers(Values(t), LessBy(env, sortKey));
    ValuesDistinct(t, n, keyOf);
    DistinctKeysPermuted(Values(t), SortedById(env, t, sortKey), keyOf);
  }

  lemma EmptyValid(env: Env)
    ensures Valid(env, Empty)
  {
  }

  lemma FourAppended(env: Env, e1: seq<Event>, e2: seq<Event>, e3: seq<Event>, e4: seq<Event>, m1: Ledger, m2: Ledger, m3: Ledger, m: Ledger)
    requires AppendAll(env, Empty, e1) == Ok(m1) && AppendAll(env, m1, e2) == Ok(m2) && AppendAll(env, m2, e3) == Ok(m3)
    requires AppendAll(env, m3, e4) == Ok(m)
    ensures AppendAll(env, Empty, e1 + e2 + e3 + e4) == Ok(m)
  {
    hide AppendAll;
    AppendAllConcat(env, Empty, e1, e2);
    AppendAllConcat(env, Empty, e1 + e2, e3);
    AppendAllConcat(env, Empty, e1 + e2 + e3, e4);
  }

  /** Agents, entities, activities and evidence of any valid ledger can be appended again in archive order. */
  lemma DocumentsRebuilt(env: Env, l: Ledger) returns (es: seq<Event>, m: Ledger)
    requires Valid(env, l)
    ensures var c := Content(env, l);
      && es == EventsOf(c.agents, x => NewAgent(x)) + EventsOf(c.entities, x => NewEntity(x))
               + EventsOf(c.activities, x => NewActivity(x)) + EventsOf(c.evidence, x => NewEvidence(x))
      && AppendAll(env, Empty, es) == Ok(m) && Valid(env, m)
      && Values(m.agents) == c.agents && Values(m.entities) == c.entities
      && Values(m.activities) == c.activities && Values(m.evidence) == c.evidence
      && m.assertions == [] && m.corrections == []
  {
    hide Admitted, Owners, TableOk, Recorded, CheckAgent, CheckEntity, CheckEvidence, CheckActivity, ActivityFits, Append, SortedById;
    var c := Content(env, l);
    SortedMembers(env, l.agents, l.sequence, AgentKey, AgentKey);
    SortedMembers(env, l.entities, l.sequence, EntityKey, EntityKey);
    SortedMembers(env, l.activities, l.sequence, ActivityKey, ActivityKey);
    SortedMembers(env, l.evidence, l.sequence, EvidenceKey, EvidenceKey);
    EmptyValid(env);
    hide Valid, AppendAll;
    assert [] + c.agents == c.agents && [] + c.entities == c.entities
        && [] + c.activities == c.activities && [] + c.evidence == c.evidence;
    forall x | x in c.agents ensures CheckAgent(Empty, x).None? { AgentFits(env, l, x); }
    forall x | x in c.entities ensures CheckEntity(env, Empty, x).None? { EntityFits(env, l, x); }
    forall x | x in c.evidence ensures CheckEvidence(env, Empty, x).None? { EvidenceFits(env, l, x); }
    var e1, e2 := EventsOf(c.agents, x => NewAgent(x)), EventsOf(c.entities, x => NewEntity(x));
    var e3, e4 := EventsOf(c.activities, x => NewActivity(x)), EventsOf(c.evidence, x => NewEvidence(x));
    var m1 := AgentsPhase(env, Empty, c.agents, e1);
    var m2 := EntitiesPhase(env, m1, c.entities, e2);
    forall x | x in c.activities ensures ActivityFits(env, m2.agents, x) { ActivityFitsRebuilt(env, l, m2, x); }
    var m3 := ActivitiesPhase(env, m2, c.activities, e3);
    m := EvidencePhase(env, m3, c.evidence, e4);
    FourAppended(env, e1, e2, e3, e4, m1, m2, m3, m);
    es := e1 + e2 + e3 + e4;
  }

  /** The ledger holds the source's documents and nothing else yet, except what is in `assertions` and `corrections`. */
  ghost predicate HoldsDocuments(c: ArchiveContent, m: Ledger) {
    && Values(m.agents) == c.agents && Values(m.entities) == c.entities
    && Values(m.activities) == c.activities && Values(m.evidence) == c.evidence
  }

  lemma DocumentsKnown(env: Env, l: Ledger, m: Ledger)
    requires Shaped(l) && HoldsDocuments(Content(env, l), m)
    ensures Knows(l, m)
  {
    hide TableOk;
    SortedMembers(env, l.agents, l.sequence, AgentKey, AgentKey);
    SortedMembers(env, l.entities, l.sequence, EntityKey, EntityKey);
    SortedMembers(env, l.activities, l.sequence, ActivityKey, ActivityKey);
    SortedMembers(env, l.evidence, l.sequence, EvidenceKey, EvidenceKey);
  }

  /** The phase before the pending loop succeeds for the archive of every valid ledger. */
  lemma BaseRebuilt(env: Env, l: Ledger) returns (m: Ledger)
    requires Valid(env, l)
    ensures var c := Content(env, l);
      AppendAll(env, Empty, BaseEvents(c)) == Ok(m) && Valid(env, m) && HoldsDocuments(c, m)
      && Values(m.assertions) == Unnamed(c.assertions, c.corrections) && m.corrections == []
  {
    hide Admitted, Owners, TableOk, Recorded, CheckAssertionContent, Append, SortedById;
    var c := Content(env, l);
    var es, m0 := DocumentsRebuilt(env, l);
    DocumentsKnown(env, l, m0);
    SortedMembers(env, l.assertions, l.sequence, AssertionKey, AssertionId);
    SortedMembers(env, l.corrections, l.sequence, CorrectionKey, CorrectionKey);
    var u := Unnamed(c.assertions, c.corrections);
    UnnamedDistinct(c.assertions, c.corrections);
    UnnamedDistinctIds(env, l, c.assertions, c.corrections);
    forall x | x in u ensures CheckAssertionContent(env, m0, x).None? { ContentFitsRebuilt(env, l, m0, x); }
    hide Valid, Unnamed;
    assert [] + u == u;
    var e5 := EventsOf(u, x => NewAssertion(x));
    m := UnnamedPhase(env, m0, u, e5);
    AppendAllConcat(env, Empty, es, e5);
    assert BaseEvents(c) == es + e5;
  }
}
