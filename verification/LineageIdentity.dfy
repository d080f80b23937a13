/** When no revision is corrected twice, importing an archive and exporting again gives the very same archive. */
module LineageIdentity {
  import opened Wrappers
  import opened Sorting
  import opened LineageLedger
  import opened LineageArchive
  import opened LineageRebuild
  import opened LineageRoundTrip
  import opened LineageCorrected
  import opened LineageOrder

  /** No assertion revision is the target of two `correct` records. */
  ghost predicate CorrectedOnce(l: Ledger) {
    forall c, d :: c in Values(l.corrections) && d in Values(l.corrections) && SameSubject(c, d) ==> c == d
  }

  predicate SameSubject(c: Correction, d: Correction) {
    c.action == Correct && d.action == Correct && TargetKey(c) == TargetKey(d)
  }

  /** Two revisions of one assertion, the first appended before the second. */
  predicate Precedes(a: Entry<Assertion>, b: Entry<Assertion>) {
    a.value.id == b.value.id && a.sequence < b.sequence
  }

  /** Whenever a revision is in, so are all earlier revisions of its assertion. */
  ghost predicate EarlierIn(l: Ledger, m: Ledger) {
    forall e, f :: e in l.assertions && f in l.assertions && Precedes(f, e) && Has(m.assertions, e.key) ==> Has(m.assertions, f.key)
  }

  /** The revisions of each assertion stand in the rebuilt table in their original order. */
  ghost predicate OrderKept(l: Ledger, t: Table<Assertion>) {
    forall i, j, e, f :: 0 <= i < j < |t| && AtIndex(l, t, i, e) && AtIndex(l, t, j, f) && e.value.id == f.value.id ==> e.sequence < f.sequence
  }

  ghost predicate AtIndex(l: Ledger, t: Table<Assertion>, i: int, e: Entry<Assertion>) {
    0 <= i < |t| && e in l.assertions && t[i].key == e.key
  }

  /** The correction that permitted a later revision targets an earlier revision of the same assertion. */
  lemma PermittedFrom(env: Env, l: Ledger, first: Entry<Assertion>, e: Entry<Assertion>) returns (c: Correction, t: Entry<Assertion>)
    requires Valid(env, l) && LaterOnlyCorrected(l)
    requires first in l.assertions && e in l.assertions && Precedes(first, e)
    ensures c in Values(l.corrections) && Names(c, e.key) && c.action == Correct
    ensures t in l.assertions && t.key == TargetKey(c) && Precedes(t, e)
  {
    hide Admitted, Owners, TableOk, Check;
    var d := LaterPermitted(env, l, first, e);
    c := d.value;
    var k :| 0 <= k < |l.corrections| && l.corrections[k] == d;
    assert Values(l.corrections)[k] == c;
    assert !IsFirst(l, e);
    t := TargetEarlier(env, l, d);
  }

  lemma CorrectionRecorded(l: Ledger, d: Entry<Correction>)
    requires Shaped(l) && d in l.corrections
    ensures Recorded(l, NewCorrection(d.value), d.sequence) && 1 <= d.sequence
  {
  }

  lemma TargetEarlier(env: Env, l: Ledger, d: Entry<Correction>) returns (t: Entry<Assertion>)
    requires Valid(env, l) && d in l.corrections
    ensures t in l.assertions && t.key == TargetKey(d.value) && t.sequence < d.sequence
  {
    hide Admitted, TableOk, Owners, Check;
    CorrectionRecorded(l, d);
    Admission(env, l, NewCorrection(d.value), d.sequence);
    var p := At(l, d.sequence - 1);
    CorrectionTarget(env, p, d.value);
    ShapedAt(l, d.sequence - 1);
    hide Valid;
    t := EntryByKey(p, TargetKey(d.value));
  }

  /** With each revision corrected once, a correction leads to the very next revision of its assertion. */
  lemma {:induction false} NothingBetween(env: Env, l: Ledger, c: Correction, t: Entry<Assertion>, e: Entry<Assertion>, s: Entry<Assertion>)
    requires Valid(env, l) && LaterOnlyCorrected(l) && CorrectedOnce(l)
    requires c in Values(l.corrections) && c.action == Correct && Names(c, e.key)
    requires t in l.assertions && e in l.assertions && s in l.assertions && t.key == TargetKey(c)
    ensures !(Precedes(t, s) && Precedes(s, e))
    decreases e.sequence, s.sequence
  {
    hide Valid, LaterOnlyCorrected, Names;
    if Precedes(t, s) && Precedes(s, e) {
      var d, p := PermittedFrom(env, l, t, s);
      if p.sequence < t.sequence {
        NothingBetween(env, l, d, p, s, t);
      } else if t.sequence < p.sequence {
        NothingBetween(env, l, c, t, e, p);
      } else {
        ValidShaped(env, l);
        SameEntry(l, p, t);
        SameNext(l, c, d, e, s);
      }
      assert false;
    }
  }

  lemma SameNext(l: Ledger, c: Correction, d: Correction, e: Entry<Assertion>, s: Entry<Assertion>)
    requires Shaped(l) && CorrectedOnce(l) && c in Values(l.corrections) && d in Values(l.corrections) && SameSubject(c, d)
    requires e in l.assertions && s in l.assertions && Names(c, e.key) && Names(d, s.key)
    ensures s == e
  {
    SameEntry(l, s, e);
  }

  lemma EarlierInStep(env: Env, l: Ledger, m: Ledger, c: Correction, t: Entry<Assertion>, e: Entry<Assertion>, m': Ledger)
    requires Valid(env, l) && LaterOnlyCorrected(l) && CorrectedOnce(l) && EarlierIn(l, m)
    requires c in Values(l.corrections) && e in l.assertions && Names(c, e.key)
    requires t in l.assertions && t.key == TargetKey(c) && Has(m.assertions, t.key)
    requires forall k :: Has(m'.assertions, k) <==> Has(m.assertions, k) || k == e.key
    ensures EarlierIn(l, m')
  {
    hide Valid, CorrectedOnce, Has, Names;
    ValidShaped(env, l);
    forall g, f | g in l.assertions && f in l.assertions && Precedes(f, g) && Has(m'.assertions, g.key)
      ensures Has(m'.assertions, f.key)
    {
      if !Has(m.assertions, g.key) {
        SameEntry(l, g, e);
        assert !IsFirst(l, e);
        NothingBetween(env, l, c, t, e, f);
        if f.sequence == t.sequence { SameEntry(l, f, t); }
      }
    }
  }

  lemma OrderKeptStep(l: Ledger, m: Ledger, e: Entry<Assertion>, added: Entry<Assertion>)
    requires Shaped(l) && EarlierIn(l, m) && OrderKept(l, m.assertions)
    requires e in l.assertions && !Has(m.assertions, e.key) && added.key == e.key
    ensures OrderKept(l, m.assertions + [added])
  {
    hide Shaped;
    var t := m.assertions + [added];
    forall i, j, g, f | 0 <= i < j < |t| && AtIndex(l, t, i, g) && AtIndex(l, t, j, f) && g.value.id == f.value.id
      ensures g.sequence < f.sequence
    {
      if j < |m.assertions| {
        assert AtIndex(l, m.assertions, i, g) && AtIndex(l, m.assertions, j, f);
      } else {
        SameEntry(l, f, e);
        assert Has(m.assertions, g.key);
        if f.sequence == g.sequence { SameEntry(l, f, g); }
        assert !Precedes(e, g);
      }
    }
  }

  /** One turn of the loop keeps the order of every assertion's revisions. */
  lemma ImportOneOrder(env: Env, l: Ledger, m: Ledger, pending: seq<Correction>, i: nat, m': Ledger)
    requires Progress(env, l, m, pending) && i < |pending|
    requires LaterOnlyCorrected(l) && CorrectedOnce(l) && EarlierIn(l, m) && OrderKept(l, m.assertions)
    requires Has(m.assertions, TargetKey(pending[i]))
    requires ImportOne(env, Content(env, l).assertions, m, pending[i]) == Ok(m')
    ensures EarlierIn(l, m') && OrderKept(l, m'.assertions)
  {
    hide Admitted, Owners, TableOk, Placed, HoldsDocuments, Content, Has, Knows, LaterOnlyCorrected, EarlierIn, OrderKept, ImportOne, CorrectedOnce;
    var c := pending[i];
    NotYetIn(env, l, m, pending, i);
    FromSource(env, l, m, pending);
    ImportOneShape(env, Content(env, l).assertions, m, c, m');
    ImportOneProgress(env, l, m, pending, i, m');
    if m'.assertions == m.assertions {
      EarlierInSame(l, m, m');
    } else {
      var x, s :| x in Content(env, l).assertions && Names(c, AssertionKey(x)) && m'.assertions == m.assertions + [Entry(AssertionKey(x), s, x)];
      var e := EntryOf(l.assertions, l.sequence, AssertionKey, x);
      InSource(env, l, m, pending, TargetKey(c));
      var t := EntryByKey(l, TargetKey(c));
      NewKey(env, m, m', Entry(AssertionKey(x), s, x));
      EarlierInStep(env, l, m, c, t, e, m');
      OrderKeptStep(l, m, e, Entry(AssertionKey(x), s, x));
    }
  }

  lemma EarlierInSame(l: Ledger, m: Ledger, m': Ledger)
    requires EarlierIn(l, m) && m'.assertions == m.assertions
    ensures EarlierIn(l, m')
  {
  }

  lemma NewKey(env: Env, m: Ledger, m': Ledger, e: Entry<Assertion>)
    requires Valid(env, m') && m'.assertions == m.assertions + [e]
    ensures !Has(m.assertions, e.key)
    ensures forall k :: Has(m'.assertions, k) <==> Has(m.assertions, k) || k == e.key
  {
    hide Admitted, Owners;
    assert forall i :: 0 <= i < |m.assertions| ==> m.assertions[i] == m'.assertions[i];
    assert m'.assertions[|m.assertions|] == e;
    forall k ensures Has(m'.assertions, k) <==> Has(m.assertions, k) || k == e.key { HasAdded(m.assertions, e, k); }
  }

  lemma {:induction false} LoopKeepsOrder(env: Env, l: Ledger, m: Ledger, pending: seq<Correction>, m': Ledger)
    requires Progress(env, l, m, pending)
    requires LaterOnlyCorrected(l) && CorrectedOnce(l) && EarlierIn(l, m) && OrderKept(l, m.assertions)
    requires ImportCorrections(env, Content(env, l).assertions, m, pending) == Ok(m')
    ensures OrderKept(l, m'.assertions)
    decreases |pending|
  {
    hide Progress, Content, Has, ImportOne, LaterOnlyCorrected, EarlierIn, OrderKept, CorrectedOnce;
    if pending != [] {
      var i := FirstEligible(m.assertions, pending).value;
      var m1 := ImportOne(env, Content(env, l).assertions, m, pending[i]).value;
      ImportOneProgress(env, l, m, pending, i, m1);
      ImportOneOrder(env, l, m, pending, i, m1);
      LoopKeepsOrder(env, l, m1, Without(pending, i), m');
    }
  }

  lemma BaseOrder(env: Env, l: Ledger, m: Ledger)
    requires Valid(env, l) && Valid(env, m)
    requires Values(m.assertions) == Unnamed(Content(env, l).assertions, Content(env, l).corrections)
    ensures EarlierIn(l, m) && OrderKept(l, m.assertions)
  {
    hide Admitted, Owners, SortedById, Unnamed, Has, TableOk;
    var c := Content(env, l);
    SortedMembers(env, l.assertions, l.sequence, AssertionKey, AssertionId);
    SortedMembers(env, l.corrections, l.sequence, CorrectionKey, CorrectionKey);
    forall e, f | e in l.assertions && f in l.assertions && Precedes(f, e) ensures !Has(m.assertions, e.key) {
      NamedNotInBase(env, l, m, c, f, e);
    }
    forall i, j, e, f | 0 <= i < j < |m.assertions| && AtIndex(l, m.assertions, i, e) && AtIndex(l, m.assertions, j, f) && e.value.id == f.value.id
      ensures e.sequence < f.sequence
    {
      KeyAt(m, i);
      KeyAt(m, j);
      if e.sequence == f.sequence { SameEntry(l, e, f); }
      assert !Precedes(e, f) && !Precedes(f, e);
    }
  }

  lemma KeyAt(m: Ledger, i: nat)
    requires Shaped(m) && i < |m.assertions|
    ensures Has(m.assertions, m.assertions[i].key)
    ensures forall j :: 0 <= j < |m.assertions| && j != i ==> m.assertions[j].key != m.assertions[i].key
  {
  }

  lemma NamedNotInBase(env: Env, l: Ledger, m: Ledger, c: ArchiveContent, f: Entry<Assertion>, e: Entry<Assertion>)
    requires Valid(env, l) && Valid(env, m) && e in l.assertions && f in l.assertions && Precedes(f, e)
    requires Values(m.assertions) == Unnamed(c.assertions, c.corrections)
    requires forall d :: d in Values(l.corrections) ==> d in c.corrections
    ensures !Has(m.assertions, e.key)
  {
    hide Admitted, Owners, Has, TableOk;
    var d := LaterPermitted(env, l, f, e);
    var k :| 0 <= k < |l.corrections| && l.corrections[k] == d;
    assert Values(l.corrections)[k] in c.corrections;
    var j :| 0 <= j < |c.corrections| && c.corrections[j] == d.value;
    HasValue(m.assertions, m.sequence, AssertionKey, e.key);
  }

  // ----- the archive exported again -----

  /** A table holding a sorted archive array sorts to that same array. */
  lemma SortsBack<T(!new)>(env: Env, t: Table<T>, m: nat, u: Table<T>, n: nat, keyOf: T -> string)
    requires StrictTotal(env.less) && TableOk(t, m, keyOf) && TableOk(u, n, keyOf)
    requires multiset(Values(u)) == multiset(Values(t))
    ensures SortedById(env, u, keyOf) == SortedById(env, t, keyOf)
  {
    var a, b := SortedById(env, t, keyOf), SortedById(env, u, keyOf);
    SortedStrictly(env, t, m, keyOf);
    SortedStrictly(env, u, n, keyOf);
    SortedMembers(env, t, m, keyOf, keyOf);
    SortedMembers(env, u, n, keyOf, keyOf);
    LessOneWay(env, keyOf);
    hide SortedById, StrictTotal, TableOk, Values, DistinctKeys;
    forall x ensures x in a <==> x in b {
      assert x in Values(t) <==> x in multiset(Values(t));
      assert x in Values(u) <==> x in multiset(Values(u));
    }
    SortedUnique(a, b, LessBy(env, keyOf));
  }

  lemma LessOneWay<T(!new)>(env: Env, keyOf: T -> string)
    requires StrictTotal(env.less)
    ensures forall x, y :: LessBy(env, keyOf)(x, y) ==> !LessBy(env, keyOf)(y, x)
  {
  }

  /** Same assertion, and the first was appended to the source before the second. */
  ghost predicate Earlier(l: Ledger, a: Assertion, b: Assertion) {
    a.id == b.id ==> exists e, f :: e in l.assertions && f in l.assertions && e.value == a && f.value == b && e.sequence < f.sequence
  }

  /** Ids in collation order, and revisions of one assertion in order of arrival. */
  ghost predicate InArchiveOrder(env: Env, l: Ledger, a: Assertion, b: Assertion) {
    env.less(a.id, b.id) || (a.id == b.id && Earlier(l, a, b))
  }

  lemma AssertionsSorted(env: Env, l: Ledger, t: Table<Assertion>)
    requires StrictTotal(env.less)
    requires forall i, j :: 0 <= i < j < |t| ==> Earlier(l, t[i].value, t[j].value)
    ensures var r := SortedById(env, t, AssertionId); forall i, j :: 0 <= i < j < |r| ==> InArchiveOrder(env, l, r[i], r[j])
  {
    hide Earlier;
    var lt := LessBy(env, AssertionId);
    var earlier := (a: Assertion, b: Assertion) => Earlier(l, a, b);
    SortStable(Values(t), lt, earlier);
    var r := SortedById(env, t, AssertionId);
    forall i, j | 0 <= i < j < |r| ensures InArchiveOrder(env, l, r[i], r[j]) {
      assert Before(lt, earlier, r[i], r[j]);
    }
  }

  lemma EarlierOneWay(l: Ledger, a: Assertion, b: Assertion)
    requires Shaped(l) && a.id == b.id && Earlier(l, a, b)
    ensures !Earlier(l, b, a)
  {
    hide TableOk;
    if Earlier(l, b, a) {
      var e, f :| e in l.assertions && f in l.assertions && e.value == a && f.value == b && e.sequence < f.sequence;
      var g, h :| g in l.assertions && h in l.assertions && g.value == b && h.value == a && g.sequence < h.sequence;
      SameValue(l, e, h);
      SameValue(l, f, g);
      assert false;
    }
  }

  lemma SameValue(l: Ledger, e: Entry<Assertion>, f: Entry<Assertion>)
    requires Shaped(l) && e in l.assertions && f in l.assertions && e.value == f.value
    ensures e == f
  {
  }

  lemma ArchiveOrderOneWay(env: Env, l: Ledger, a: Assertion, b: Assertion)
    requires Shaped(l) && StrictTotal(env.less) && InArchiveOrder(env, l, a, b)
    ensures !InArchiveOrder(env, l, b, a)
  {
    hide Earlier, TableOk;
    if a.id == b.id { EarlierOneWay(l, a, b); }
  }

  lemma SourceEarlier(l: Ledger, i: nat, j: nat)
    requires Shaped(l) && i < j < |l.assertions|
    ensures Earlier(l, l.assertions[i].value, l.assertions[j].value)
  {
    assert l.assertions[i] in l.assertions && l.assertions[j] in l.assertions;
  }

  lemma RebuiltEarlier(l: Ledger, m: Ledger, i: nat, j: nat)
    requires Shaped(l) && Shaped(m) && OrderKept(l, m.assertions) && i < j < |m.assertions|
    requires forall x :: x in Values(m.assertions) ==> x in Values(l.assertions)
    ensures Earlier(l, m.assertions[i].value, m.assertions[j].value)
  {
    hide OrderKept, TableOk;
    assert Values(m.assertions)[i] in Values(m.assertions) && Values(m.assertions)[j] in Values(m.assertions);
    KeyIs(m, i);
    KeyIs(m, j);
    var e := EntryOf(l.assertions, l.sequence, AssertionKey, m.assertions[i].value);
    var f := EntryOf(l.assertions, l.sequence, AssertionKey, m.assertions[j].value);
    assert AtIndex(l, m.assertions, i, e) && AtIndex(l, m.assertions, j, f);
    OrderKeptAt(l, m.assertions, i, j, e, f);
  }

  lemma KeyIs(m: Ledger, i: nat)
    requires Shaped(m) && i < |m.assertions|
    ensures m.assertions[i].key == AssertionKey(m.assertions[i].value)
  {
    assert m.assertions[i] in m.assertions;
  }

  lemma OrderKeptAt(l: Ledger, t: Table<Assertion>, i: nat, j: nat, e: Entry<Assertion>, f: Entry<Assertion>)
    requires OrderKept(l, t) && i < j && AtIndex(l, t, i, e) && AtIndex(l, t, j, f)
    ensures e.value.id == f.value.id ==> e.sequence < f.sequence
  {
  }

  lemma AssertionsSortBack(env: Env, l: Ledger, m: Ledger)
    requires StrictTotal(env.less) && Shaped(l) && Shaped(m) && OrderKept(l, m.assertions)
    requires multiset(Values(m.assertions)) == multiset(Values(l.assertions))
    ensures SortedById(env, m.assertions, AssertionId) == SortedById(env, l.assertions, AssertionId)
  {
    hide TableOk, Earlier, InArchiveOrder, StrictTotal, OrderKept;
    assert forall x :: x in Values(m.assertions) <==> x in multiset(Values(m.assertions));
    assert forall x :: x in Values(l.assertions) <==> x in multiset(Values(l.assertions));
    forall i, j | 0 <= i < j < |l.assertions| ensures Earlier(l, l.assertions[i].value, l.assertions[j].value) { SourceEarlier(l, i, j); }
    forall i, j | 0 <= i < j < |m.assertions| ensures Earlier(l, m.assertions[i].value, m.assertions[j].value) { RebuiltEarlier(l, m, i, j); }
    AssertionsSorted(env, l, l.assertions);
    AssertionsSorted(env, l, m.assertions);
    SortedMembers(env, l.assertions, l.sequence, AssertionKey, AssertionId);
    SortedMembers(env, m.assertions, m.sequence, AssertionKey, AssertionId);
    var order := (a: Assertion, b: Assertion) => InArchiveOrder(env, l, a, b);
    forall a, b | order(a, b) ensures !order(b, a) { ArchiveOrderOneWay(env, l, a, b); }
    SortedUnique(SortedById(env, m.assertions, AssertionId), SortedById(env, l.assertions, AssertionId), order);
  }

  /**
    When, besides, no revision is corrected twice, the rebuilt ledger exports the very archive it was imported from,
    at every snapshot of every valid ledger.
   */
  lemma ArchiveIdentity(env: Env, l: Ledger, n: nat)
    requires Valid(env, l) && n <= l.sequence && StrictTotal(env.less)
    requires LaterOnlyCorrected(At(l, n)) && ReplacementsPresent(At(l, n)) && NoDeadlock(At(l, n)) && CorrectedOnce(At(l, n))
    ensures var archive := Export(env, l, n).value;
            var r := Import(env, archive);
            r.Ok? && Export(env, r.value, r.value.sequence) == Ok(archive)
  {
    hide Valid, Progress, At, LaterOnlyCorrected, ReplacementsPresent, NoDeadlock, OrderPermits, CorrectedOnce, StrictTotal, Import, SameCollections, Content;
    var s := At(l, n);
    PrefixValid(env, l, n);
    CorrectedOrder(env, s);
    ImportSucceedsIff(env, s);
    var m := Import(env, Sealed(env, Content(env, s))).value;
    Rebuilt(env, s, m);
    ProgressValid(env, s, m, []);
    ImportedOrderKept(env, s);
    ContentSame(env, s, m);
    ValidShaped(env, m);
    AtNow(m);
  }

  lemma ImportedOrderKept(env: Env, l: Ledger)
    requires Valid(env, l) && LaterOnlyCorrected(l) && CorrectedOnce(l)
    ensures var r := Import(env, Sealed(env, Content(env, l))); r.Ok? ==> OrderKept(l, r.value.assertions)
  {
    hide Valid, Progress, LaterOnlyCorrected, CorrectedOnce, EarlierIn, OrderKept, SortedById, Has, HoldsDocuments, AppendAll;
    var c := Content(env, l);
    var m := BaseRebuilt(env, l);
    BaseProgress(env, l, m);
    BaseOrder(env, l, m);
    var r := ImportCorrections(env, c.assertions, m, c.corrections);
    assert Import(env, Sealed(env, c)) == r;
    if r.Ok? { LoopKeepsOrder(env, l, m, c.corrections, r.value); }
  }

  lemma ContentSame(env: Env, l: Ledger, m: Ledger)
    requires Valid(env, l) && Valid(env, m) && StrictTotal(env.less)
    requires SameCollections(l, m) && OrderKept(l, m.assertions)
    ensures Content(env, m) == Content(env, l)
  {
    hide Admitted, Owners, TableOk, OrderKept, SortedById, StrictTotal;
    SortsBack(env, l.entities, l.sequence, m.entities, m.sequence, EntityKey);
    SortsBack(env, l.agents, l.sequence, m.agents, m.sequence, AgentKey);
    SortsBack(env, l.activities, l.sequence, m.activities, m.sequence, ActivityKey);
    SortsBack(env, l.evidence, l.sequence, m.evidence, m.sequence, EvidenceKey);
    SortsBack(env, l.corrections, l.sequence, m.corrections, m.sequence, CorrectionKey);
    AssertionsSortBack(env, l, m);
  }
}
