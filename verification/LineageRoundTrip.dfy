/** When an import of an exported archive succeeds, and that it then rebuilds the same ledger. */
module LineageRoundTrip {
  import opened Wrappers
  import opened Sorting
  import opened LineageLedger
  import opened LineageArchive
  import opened LineageRebuild

  // ----- conditions on the exported ledger -----

  ghost predicate ReplacementsPresent(l: Ledger) {
    forall c :: c in Values(l.corrections) && NamesReplacement(c) ==> Has(l.assertions, ReplacementKey(c))
  }

  /** Corrections that wait for each other: each target is named, and only by corrections that also wait. */
  ghost predicate Deadlock(l: Ledger, waiting: set<Correction>) {
    && waiting != {}
    && (forall c :: c in waiting ==> c in Values(l.corrections) && NamedBy(Values(l.corrections), TargetKey(c)))
    && (forall c, d :: c in waiting && d in Values(l.corrections) && Names(d, TargetKey(c)) ==> d in waiting)
  }

  ghost predicate NoDeadlock(l: Ledger) {
    forall waiting :: !Deadlock(l, waiting)
  }

  // ----- the order of the pending loop, from keys alone -----

  /** The import has the archived assertion of this key: no correction names it, or one taken already does. */
  predicate Arrived(cs: seq<Correction>, taken: seq<Correction>, key: string) {
    !NamedBy(cs, key) || NamedBy(taken, key)
  }

  /** Index of the first correction whose target has arrived. */
  function FirstReady(cs: seq<Correction>, taken: seq<Correction>, pending: seq<Correction>): (r: Option<nat>)
    ensures r.Some? ==> r.value < |pending| && Arrived(cs, taken, TargetKey(pending[r.value]))
    ensures r.Some? ==> forall i :: 0 <= i < r.value ==> !Arrived(cs, taken, TargetKey(pending[i]))
    ensures r.None? ==> forall i :: 0 <= i < |pending| ==> !Arrived(cs, taken, TargetKey(pending[i]))
  {
    if pending == [] then None
    else if Arrived(cs, taken, TargetKey(pending[0])) then Some(0)
    else
      var r := FirstReady(cs, taken, pending[1..]);
      if r.None? then None else Some(r.value + 1)
  }

  /** `taken`, then the pending corrections in the order in which their turns come; no ledger is looked at. */
  function ImportOrder(cs: seq<Correction>, taken: seq<Correction>, pending: seq<Correction>): (r: seq<Correction>)
    ensures taken <= r
    decreases |pending|
  {
    var next := FirstReady(cs, taken, pending);
    if next.None? then taken else ImportOrder(cs, taken + [pending[next.value]], Without(pending, next.value))
  }

  /**
    The turn of `c` after those of `taken`: when it brings in an assertion while another assertion of the same id is in,
    it must be the `correct` that names that very id and revision.
   */
  ghost predicate TurnPermits(l: Ledger, cs: seq<Correction>, taken: seq<Correction>, c: Correction) {
    forall e, f :: Meets(l, cs, taken, c, e, f) ==> Permits(c, e.value.id, e.value.revision)
  }

  /** The correction brings `e` in and finds `f`, of the same id. */
  ghost predicate Meets(l: Ledger, cs: seq<Correction>, taken: seq<Correction>, c: Correction, e: Entry<Assertion>, f: Entry<Assertion>) {
    && e in l.assertions && f in l.assertions && e.value.id == f.value.id
    && Names(c, e.key) && !NamedBy(taken, e.key)
    && Arrived(cs, taken, f.key)
  }

  ghost predicate PermitsFrom(l: Ledger, cs: seq<Correction>, order: seq<Correction>, n: nat) {
    forall i :: n <= i < |order| ==> TurnPermits(l, cs, order[..i], order[i])
  }

  /** Every turn of the archive's import order is permitted. */
  ghost predicate OrderPermits(env: Env, l: Ledger) {
    var cs := Content(env, l).corrections;
    PermitsFrom(l, cs, ImportOrder(cs, [], cs), 0)
  }

  // ----- the state of the pending loop -----

  ghost predicate Progress(env: Env, l: Ledger, m: Ledger, pending: seq<Correction>) {
    var c := Content(env, l);
    && Valid(env, l) && Valid(env, m) && HoldsDocuments(c, m)
    && multiset(Values(m.corrections)) + multiset(pending) == multiset(c.corrections)
    && (forall x :: x in Values(m.assertions) ==> x in c.assertions)
    && Placed(c, m)
  }

  /** An archived assertion is in exactly when nothing names it or a correction already in does. */
  ghost predicate Placed(c: ArchiveContent, m: Ledger) {
    forall x :: x in c.assertions ==>
      (Has(m.assertions, AssertionKey(x)) <==>
        !NamedBy(c.corrections, AssertionKey(x)) || NamedBy(Values(m.corrections), AssertionKey(x)))
  }

  lemma NamedByAdded(cs: seq<Correction>, c: Correction, key: string)
    ensures NamedBy(cs + [c], key) <==> NamedBy(cs, key) || Names(c, key)
  {
    var ds := cs + [c];
    assert ds[|cs|] == c;
    if NamedBy(cs, key) { var i :| 0 <= i < |cs| && Names(cs[i], key); assert Names(ds[i], key); }
  }

  lemma NamedByMembers(a: seq<Correction>, b: seq<Correction>, key: string)
    requires forall c :: c in a ==> c in b
    ensures NamedBy(a, key) ==> NamedBy(b, key)
  {
    if NamedBy(a, key) {
      var i :| 0 <= i < |a| && Names(a[i], key);
      assert a[i] in b;
      var j :| 0 <= j < |b| && b[j] == a[i];
    }
  }

  lemma HasAdded<T>(t: Table<T>, e: Entry<T>, k: string)
    ensures Has(t + [e], k) <==> Has(t, k) || e.key == k
  {
    var u := t + [e];
    assert u[|t|] == e;
    if Has(t, k) { var i :| 0 <= i < |t| && t[i].key == k; assert u[i].key == k; }
  }

  lemma PendingMembers(a: multiset<Correction>, pending: seq<Correction>, i: nat, cs: seq<Correction>)
    requires i < |pending| && a + multiset(pending) == multiset(cs)
    ensures a + multiset{pending[i]} + multiset(Without(pending, i)) == multiset(cs)
    ensures pending[i] in cs
  {
    assert pending[i] in multiset(pending);
    assert pending[i] in multiset(cs);
  }

  /** The table grew by one archived assertion that the correction names. */
  ghost predicate Gained(xs: seq<Assertion>, c: Correction, t: Table<Assertion>, u: Table<Assertion>) {
    exists x, s :: x in xs && Names(c, AssertionKey(x)) && u == t + [Entry(AssertionKey(x), s, x)]
  }

  /** What one successful turn of the loop does to the ledger. */
  lemma ImportOneShape(env: Env, xs: seq<Assertion>, m: Ledger, c: Correction, m': Ledger)
    requires Valid(env, m) && ImportOne(env, xs, m, c) == Ok(m')
    ensures Valid(env, m')
    ensures Values(m'.corrections) == Values(m.corrections) + [c]
    ensures m'.entities == m.entities && m'.agents == m.agents && m'.activities == m.activities && m'.evidence == m.evidence
    ensures m'.assertions == m.assertions || Gained(xs, c, m.assertions, m'.assertions)
    ensures NamesReplacement(c) ==> Has(m'.assertions, ReplacementKey(c))
  {
    hide Valid, Check, Has;
    AppendKeepsValid(env, m, NewCorrection(c));
    var m1 := Extend(m, NewCorrection(c));
    ValuesAdded(m.corrections, Entry(CorrectionKey(c), m.sequence + 1, c));
    assert Append(env, m, NewCorrection(c)) == Ok(m1);
    if m' != m1 {
      var x := FindAssertion(xs, ReplacementKey(c)).value;
      AppendKeepsValid(env, m1, NewAssertion(x));
      HasAdded(m1.assertions, Entry(AssertionKey(x), m1.sequence + 1, x), ReplacementKey(c));
    }
  }

  lemma PlacedStep(c: ArchiveContent, m: Ledger, d: Correction, m': Ledger)
    requires Placed(c, m)
    requires d in c.corrections
    requires Values(m'.corrections) == Values(m.corrections) + [d]
    requires m'.assertions == m.assertions || Gained(c.assertions, d, m.assertions, m'.assertions)
    requires NamesReplacement(d) ==> Has(m'.assertions, ReplacementKey(d))
    ensures Placed(c, m')
    ensures forall x :: x in Values(m'.assertions) ==> x in Values(m.assertions) || x in c.assertions
  {
    hide Has;
    forall y | y in c.assertions
      ensures Has(m'.assertions, AssertionKey(y)) <==>
        !NamedBy(c.corrections, AssertionKey(y)) || NamedBy(Values(m'.corrections), AssertionKey(y))
    {
      NamedByAdded(Values(m.corrections), d, AssertionKey(y));
      if Names(d, AssertionKey(y)) { assert NamedBy(c.corrections, AssertionKey(y)); }
      if m'.assertions != m.assertions {
        var x, s :| x in c.assertions && Names(d, AssertionKey(x)) && m'.assertions == m.assertions + [Entry(AssertionKey(x), s, x)];
        HasAdded(m.assertions, Entry(AssertionKey(x), s, x), AssertionKey(y));
      }
    }
    if m'.assertions != m.assertions {
      var x, s :| x in c.assertions && Names(d, AssertionKey(x)) && m'.assertions == m.assertions + [Entry(AssertionKey(x), s, x)];
      ValuesAdded(m.assertions, Entry(AssertionKey(x), s, x));
    }
  }

  /** A successful turn keeps the loop's state, whatever the ledger. */
  lemma ImportOneProgress(env: Env, l: Ledger, m: Ledger, pending: seq<Correction>, i: nat, m': Ledger)
    requires Progress(env, l, m, pending) && i < |pending|
    requires ImportOne(env, Content(env, l).assertions, m, pending[i]) == Ok(m')
    ensures Progress(env, l, m', Without(pending, i))
    ensures Values(m'.corrections) == Values(m.corrections) + [pending[i]]
    ensures pending[i] in Content(env, l).corrections
  {
    hide Valid, Placed, Has, ImportOne, Content;
    var c := Content(env, l);
    ImportOneShape(env, c.assertions, m, pending[i], m');
    PendingMembers(multiset(Values(m.corrections)), pending, i, c.corrections);
    PlacedStep(c, m, pending[i], m');
  }

  // ----- when a turn succeeds -----

  lemma CorrectionChecked(env: Env, p: Ledger, m: Ledger, c: Correction)
    requires Check(env, p, NewCorrection(c)).None?
    requires Covers(p, m)
    requires Has(m.assertions, TargetKey(c)) && !Has(m.corrections, c.id)
    ensures Check(env, m, NewCorrection(c)).None?
  {
    hide Covers, CheckCorrectionContent, Has;
    assert CheckCorrection(env, p, c).None?;
    CorrectionTransfers(env, p, m, c);
  }

  lemma NotYetIn(env: Env, l: Ledger, m: Ledger, pending: seq<Correction>, i: nat)
    requires Progress(env, l, m, pending) && i < |pending|
    ensures pending[i] in Values(l.corrections)
    ensures !Has(m.corrections, pending[i].id)
  {
    hide Admitted, Owners, TableOk, Placed, HoldsDocuments;
    var cs := Content(env, l).corrections;
    SortedMembers(env, l.corrections, l.sequence, CorrectionKey, CorrectionKey);
    var all := Values(m.corrections) + pending;
    PendingMembers(multiset(Values(m.corrections)), pending, i, cs);
    DistinctKeysPermuted(cs, all, CorrectionKey);
    HasValue(m.corrections, m.sequence, CorrectionKey, pending[i].id);
    forall v | v in Values(m.corrections) ensures v.id != pending[i].id {
      var j :| 0 <= j < |m.corrections| && Values(m.corrections)[j] == v;
      assert CorrectionKey(all[j]) != CorrectionKey(all[|m.corrections| + i]);
    }
  }

  lemma CorrectionGoesIn(env: Env, l: Ledger, m: Ledger, pending: seq<Correction>, i: nat)
    requires Progress(env, l, m, pending) && i < |pending|
    requires Has(m.assertions, TargetKey(pending[i]))
    ensures Check(env, m, NewCorrection(pending[i])).None?
  {
    hide Admitted, Owners, TableOk, Placed, HoldsDocuments, Content, Covers, Check, Has, Knows;
    var c := pending[i];
    NotYetIn(env, l, m, pending, i);
    var e := EntryOf(l.corrections, l.sequence, CorrectionKey, c);
    assert Recorded(l, NewCorrection(c), e.sequence);
    Admission(env, l, NewCorrection(c), e.sequence);
    DocumentsKnown(env, l, m);
    CoversPrefix(l, e.sequence - 1, m);
    CorrectionChecked(env, At(l, e.sequence - 1), m, c);
  }

  lemma ReplacementChecked(env: Env, m: Ledger, x: Assertion)
    requires CheckAssertionContent(env, m, x).None?
    requires !Has(m.assertions, AssertionKey(x))
    ensures Check(env, m, NewAssertion(x)).None? <==>
      (HasRevisionOf(m.assertions, x.id) ==> HasPermission(m.corrections, x.id, x.revision))
  {
    hide CheckAssertionContent, Has, HasRevisionOf, HasPermission;
    assert Check(env, m, NewAssertion(x)) == CheckAssertion(env, m, x);
  }

  /** The values of the rebuilt table all come from the source. */
  lemma FromSource(env: Env, l: Ledger, m: Ledger, pending: seq<Correction>)
    requires Progress(env, l, m, pending)
    ensures forall x :: x in Values(m.assertions) ==> x in Values(l.assertions)
    ensures forall x :: x in Content(env, l).assertions <==> x in Values(l.assertions)
    ensures forall c :: c in Content(env, l).corrections <==> c in Values(l.corrections)
    ensures forall i :: 0 <= i < |m.assertions| ==> m.assertions[i].key == AssertionKey(m.assertions[i].value)
    ensures Knows(l, m)
  {
    hide Admitted, Owners, Placed, Has, SortedById;
    SortedMembers(env, l.assertions, l.sequence, AssertionKey, AssertionId);
    SortedMembers(env, l.corrections, l.sequence, CorrectionKey, CorrectionKey);
    DocumentsKnown(env, l, m);
  }

  lemma EntryByKey(l: Ledger, k: string) returns (e: Entry<Assertion>)
    requires Shaped(l) && Has(l.assertions, k)
    ensures e in l.assertions && e.key == k && AssertionKey(e.value) == k
  {
    var i :| 0 <= i < |l.assertions| && l.assertions[i].key == k;
    e := l.assertions[i];
  }

  /** The named assertion goes in right after its correction. */

  lemma KnowsSame(l: Ledger, m: Ledger, m': Ledger)
    requires Knows(l, m)
    requires m'.entities == m.entities && m'.agents == m.agents && m'.activities == m.activities && m'.evidence == m.evidence
    ensures Knows(l, m')
  {
  }

  lemma SameAssertion(l: Ledger, x: Assertion, e: Entry<Assertion>)
    requires Shaped(l) && e in l.assertions && x in Values(l.assertions) && AssertionKey(x) == e.key
    ensures x == e.value
  {
    var i :| 0 <= i < |l.assertions| && Values(l.assertions)[i] == x;
    assert l.assertions[i] in l.assertions;
  }

  lemma NamedSame(a: seq<Correction>, b: seq<Correction>, key: string)
    requires forall c :: c in a <==> c in b
    ensures NamedBy(a, key) <==> NamedBy(b, key)
  {
    NamedByMembers(a, b, key);
    NamedByMembers(b, a, key);
  }

  /** What the rebuilt ledger holds is what has arrived. */
  lemma HasArrived(env: Env, l: Ledger, m: Ledger, pending: seq<Correction>, e: Entry<Assertion>)
    requires Progress(env, l, m, pending) && e in l.assertions
    ensures Has(m.assertions, e.key) <==> Arrived(Content(env, l).corrections, Values(m.corrections), e.key)
    ensures e.key == AssertionKey(e.value) && e.value in Content(env, l).assertions && e.value in Values(l.assertions)
  {
    hide Admitted, Owners, HoldsDocuments, Has, SortedById, NamedBy;
    FromSource(env, l, m, pending);
    var i :| 0 <= i < |l.assertions| && l.assertions[i] == e;
    assert Values(l.assertions)[i] == e.value;
  }

  /** The loop and the order agree on whose turn it is. */
  lemma SameTurn(env: Env, l: Ledger, m: Ledger, pending: seq<Correction>)
    requires Progress(env, l, m, pending)
    ensures FirstReady(Content(env, l).corrections, Values(m.corrections), pending) == FirstEligible(m.assertions, pending)
  {
    hide Progress, Content, Has, Arrived;
    var cs := Content(env, l).corrections;
    ProgressValid(env, l, m, pending);
    hide Valid;
    forall i | 0 <= i < |pending| ensures Has(m.assertions, TargetKey(pending[i])) <==> Arrived(cs, Values(m.corrections), TargetKey(pending[i])) {
      NotYetIn(env, l, m, pending, i);
      var e := TargetKnown(env, l, pending[i]);
      HasArrived(env, l, m, pending, e);
    }
  }

  lemma RevisionsIn(env: Env, l: Ledger, m: Ledger, pending: seq<Correction>, id: string)
    requires Progress(env, l, m, pending)
    ensures HasRevisionOf(m.assertions, id) <==>
      exists f :: f in l.assertions && f.value.id == id && Arrived(Content(env, l).corrections, Values(m.corrections), f.key)
  {
    hide Admitted, Owners, TableOk, HoldsDocuments, Placed, Content, Arrived, Knows;
    FromSource(env, l, m, pending);
    if HasRevisionOf(m.assertions, id) {
      var i :| 0 <= i < |m.assertions| && m.assertions[i].value.id == id;
      assert Values(m.assertions)[i] in Values(m.assertions);
      var f := EntryOf(l.assertions, l.sequence, AssertionKey, m.assertions[i].value);
      HasArrived(env, l, m, pending, f);
    }
    if f :| f in l.assertions && f.value.id == id && Arrived(Content(env, l).corrections, Values(m.corrections), f.key) {
      HasArrived(env, l, m, pending, f);
      var i :| 0 <= i < |m.assertions| && m.assertions[i].key == f.key;
      assert Values(m.assertions)[i] in Values(m.assertions);
      SameAssertion(l, m.assertions[i].value, f);
    }
  }

  /** An assertion nothing taken so far names can only be permitted by the correction just taken. */
  lemma PermittedByTaken(m: Ledger, c: Correction, x: Assertion)
    requires x.id != "" && x.revision != "" && !NamedBy(Values(m.corrections), AssertionKey(x))
    ensures HasPermission(Extend(m, NewCorrection(c)).corrections, x.id, x.revision) <==> Permits(c, x.id, x.revision)
  {
    var t := Extend(m, NewCorrection(c)).corrections;
    assert t[|m.corrections|].value == c;
    forall i | 0 <= i < |m.corrections| ensures !Permits(t[i].value, x.id, x.revision) {
      assert Values(m.corrections)[i] == t[i].value;
      assert !Names(Values(m.corrections)[i], AssertionKey(x));
    }
  }

  /** The append of the assertion a correction has just named. */
  lemma NamedAppend(env: Env, l: Ledger, m: Ledger, pending: seq<Correction>, c: Correction, e: Entry<Assertion>)
    requires Progress(env, l, m, pending) && e in l.assertions && !Has(m.assertions, e.key)
    ensures Append(env, Extend(m, NewCorrection(c)), NewAssertion(e.value)).Ok? <==>
      (HasRevisionOf(m.assertions, e.value.id) ==> HasPermission(Extend(m, NewCorrection(c)).corrections, e.value.id, e.value.revision))
    ensures e.value.id != "" && e.value.revision != ""
  {
    hide Admitted, Owners, TableOk, Placed, HoldsDocuments, Content, Check, Has, Knows, CheckAssertionContent;
    var m1 := Extend(m, NewCorrection(c));
    FromSource(env, l, m, pending);
    HasArrived(env, l, m, pending, e);
    KnowsSame(l, m, m1);
    ContentFits(env, l, m, m1, e.value);
    IdentitiesOf(env, m1, e.value);
    ReplacementChecked(env, m1, e.value);
  }

  /** The content checks of an archived assertion only depend on the documents. */
  lemma ContentFits(env: Env, l: Ledger, m: Ledger, m1: Ledger, x: Assertion)
    requires Valid(env, l) && Shaped(m) && Knows(l, m) && x in Values(l.assertions)
    requires m1.entities == m.entities && m1.agents == m.agents && m1.activities == m.activities && m1.evidence == m.evidence
    ensures CheckAssertionContent(env, m1, x).None?
  {
    hide Valid, Knows, Shaped, CheckAssertionContent;
    ContentFitsRebuilt(env, l, m, x);
    AssertionTransfersSame(env, m, m1, x);
  }

  lemma AssertionTransfersSame(env: Env, m: Ledger, m1: Ledger, x: Assertion)
    requires m1.entities == m.entities && m1.agents == m.agents && m1.activities == m.activities && m1.evidence == m.evidence
    requires CheckAssertionContent(env, m, x).None?
    ensures CheckAssertionContent(env, m1, x).None?
  {
  }

  /** An eligible correction is imported exactly when what it names is in the snapshot and its turn is permitted. */
  lemma ImportOneIff(env: Env, l: Ledger, m: Ledger, pending: seq<Correction>, i: nat)
    requires Progress(env, l, m, pending) && i < |pending| && Has(m.assertions, TargetKey(pending[i]))
    ensures ImportOne(env, Content(env, l).assertions, m, pending[i]).Ok? <==>
      (NamesReplacement(pending[i]) ==> Has(l.assertions, ReplacementKey(pending[i])))
      && TurnPermits(l, Content(env, l).corrections, Values(m.corrections), pending[i])
  {
    hide Progress, Content, Has, Check, FindAssertion, TurnPermits, Names;
    var c := pending[i];
    CorrectionGoesIn(env, l, m, pending, i);
    if NamesReplacement(c) && !Has(m.assertions, ReplacementKey(c)) {
      if Has(l.assertions, ReplacementKey(c)) {
        NewReplacement(env, l, m, pending, i);
      } else {
        NoReplacement(env, l, m, pending, ReplacementKey(c));
      }
    } else {
      NothingNew(env, l, m, pending, i);
    }
  }

  lemma NoReplacement(env: Env, l: Ledger, m: Ledger, pending: seq<Correction>, key: string)
    requires Progress(env, l, m, pending) && !Has(l.assertions, key)
    ensures FindAssertion(Content(env, l).assertions, key).None?
  {
    hide Admitted, Owners, Placed, HoldsDocuments, Content;
    FromSource(env, l, m, pending);
    HasValue(l.assertions, l.sequence, AssertionKey, key);
  }

  /** The correction names an assertion that is not in yet. */
  lemma NewReplacement(env: Env, l: Ledger, m: Ledger, pending: seq<Correction>, i: nat)
    requires Progress(env, l, m, pending) && i < |pending| && NamesReplacement(pending[i])
    requires Has(l.assertions, ReplacementKey(pending[i])) && !Has(m.assertions, ReplacementKey(pending[i]))
    requires Check(env, m, NewCorrection(pending[i])).None?
    ensures ImportOne(env, Content(env, l).assertions, m, pending[i]).Ok? <==>
      TurnPermits(l, Content(env, l).corrections, Values(m.corrections), pending[i])
  {
    hide Admitted, Owners, TableOk, Placed, HoldsDocuments, Content, Check, Has, Knows, NamedBy, HasRevisionOf, HasPermission, Permits;
    var c, cs, taken := pending[i], Content(env, l).corrections, Values(m.corrections);
    var m1 := Extend(m, NewCorrection(c));
    FromSource(env, l, m, pending);
    var e := EntryByKey(l, ReplacementKey(c));
    HasArrived(env, l, m, pending, e);
    var x := FindAssertion(Content(env, l).assertions, e.key).value;
    SameAssertion(l, x, e);
    NamedAppend(env, l, m, pending, c, e);
    PermittedByTaken(m, c, x);
    RevisionsIn(env, l, m, pending, x.id);
    OnlyThatOne(l, cs, taken, c, e);
  }

  /** A turn that names one assertion is about that assertion alone. */
  lemma OnlyThatOne(l: Ledger, cs: seq<Correction>, taken: seq<Correction>, c: Correction, e: Entry<Assertion>)
    requires Shaped(l) && e in l.assertions && Names(c, e.key) && !NamedBy(taken, e.key)
    ensures TurnPermits(l, cs, taken, c) <==>
      ((exists f :: f in l.assertions && f.value.id == e.value.id && Arrived(cs, taken, f.key)) ==> Permits(c, e.value.id, e.value.revision))
  {
    hide Arrived, NamedBy, Permits;
    if f :| f in l.assertions && f.value.id == e.value.id && Arrived(cs, taken, f.key) {
      assert Meets(l, cs, taken, c, e, f);
    }
    forall g, f | Meets(l, cs, taken, c, g, f) ensures g == e && f.value.id == e.value.id && Arrived(cs, taken, f.key) && f in l.assertions { }
  }

  /** The correction names nothing, or an assertion that is in already. */
  lemma NothingNew(env: Env, l: Ledger, m: Ledger, pending: seq<Correction>, i: nat)
    requires Progress(env, l, m, pending) && i < |pending|
    requires NamesReplacement(pending[i]) ==> Has(m.assertions, ReplacementKey(pending[i]))
    ensures NamesReplacement(pending[i]) ==> Has(l.assertions, ReplacementKey(pending[i]))
    ensures TurnPermits(l, Content(env, l).corrections, Values(m.corrections), pending[i])
  {
    hide Admitted, Owners, TableOk, Placed, HoldsDocuments, Content, Knows, Has, NamedBy;
    var c, cs, taken := pending[i], Content(env, l).corrections, Values(m.corrections);
    FromSource(env, l, m, pending);
    NotYetIn(env, l, m, pending, i);
    if NamesReplacement(c) { InSource(env, l, m, pending, ReplacementKey(c)); }
    forall e, f | Meets(l, cs, taken, c, e, f) ensures false {
      HasArrived(env, l, m, pending, e);
      NamedMember(cs, c, e.key);
      assert false;
    }
  }

  lemma NamedMember(cs: seq<Correction>, c: Correction, key: string)
    requires c in cs && Names(c, key)
    ensures NamedBy(cs, key)
  {
  }

  lemma InSource(env: Env, l: Ledger, m: Ledger, pending: seq<Correction>, key: string)
    requires Progress(env, l, m, pending) && Has(m.assertions, key)
    ensures Has(l.assertions, key)
  {
    hide Admitted, Owners, TableOk, Placed, HoldsDocuments, Content;
    FromSource(env, l, m, pending);
    var i :| 0 <= i < |m.assertions| && m.assertions[i].key == key;
    assert Values(m.assertions)[i] in Values(m.assertions);
    var t := EntryOf(l.assertions, l.sequence, AssertionKey, m.assertions[i].value);
  }

  // ----- the loop -----

  lemma TargetKnown(env: Env, l: Ledger, c: Correction) returns (e: Entry<Assertion>)
    requires Valid(env, l) && c in Values(l.corrections)
    ensures e in l.assertions && e.key == TargetKey(c) && AssertionKey(e.value) == e.key && e.value in Values(l.assertions)
  {
    hide Admitted, Owners, TableOk, Check;
    var d := EntryOf(l.corrections, l.sequence, CorrectionKey, c);
    assert Recorded(l, NewCorrection(c), d.sequence);
    Admission(env, l, NewCorrection(c), d.sequence);
    var p := At(l, d.sequence - 1);
    CorrectionTarget(env, p, c);
    ShapedAt(l, d.sequence - 1);
    e := EntryByKey(p, TargetKey(c));
    var i :| 0 <= i < |l.assertions| && l.assertions[i] == e;
    assert Values(l.assertions)[i] == e.value;
  }

  lemma CorrectionTarget(env: Env, p: Ledger, c: Correction)
    requires Check(env, p, NewCorrection(c)).None?
    ensures Has(p.assertions, TargetKey(c))
  {
    hide CheckCorrectionContent;
    assert CheckCorrection(env, p, c).None?;
  }

  /** A pending correction that is not eligible is blocked by corrections that are pending too. */
  lemma BlockedByPending(env: Env, l: Ledger, m: Ledger, pending: seq<Correction>, c: Correction)
    requires Progress(env, l, m, pending) && c in Values(l.corrections)
    requires !Has(m.assertions, TargetKey(c))
    ensures NamedBy(Values(l.corrections), TargetKey(c))
    ensures forall d :: d in Values(l.corrections) && Names(d, TargetKey(c)) ==> d in pending
  {
    hide Valid, HoldsDocuments, Has, Names;
    var content := Content(env, l);
    FromSource(env, l, m, pending);
    hide Content;
    var e := TargetKnown(env, l, c);
    assert e.value in content.assertions;
    assert NamedBy(content.corrections, e.key) && !NamedBy(Values(m.corrections), e.key);
    NamedByMembers(content.corrections, Values(l.corrections), e.key);
    forall d | d in Values(l.corrections) && Names(d, e.key) ensures d in pending {
      assert d in multiset(content.corrections);
      assert d in multiset(Values(m.corrections)) || d in multiset(pending);
      assert d !in Values(m.corrections);
    }
  }

  /** If nothing is eligible, the pending corrections all wait for each other. */
  lemma StuckIsDeadlock(env: Env, l: Ledger, m: Ledger, pending: seq<Correction>)
    requires Progress(env, l, m, pending) && pending != []
    requires forall i :: 0 <= i < |pending| ==> !Has(m.assertions, TargetKey(pending[i]))
    ensures !NoDeadlock(l)
  {
    hide Progress, Has, Names, NamedBy, Content;
    var waiting := set c | c in pending;
    assert pending[0] in waiting;
    forall c | c in waiting
      ensures c in Values(l.corrections) && NamedBy(Values(l.corrections), TargetKey(c))
      ensures forall d :: d in Values(l.corrections) && Names(d, TargetKey(c)) ==> d in waiting
    {
      var i :| 0 <= i < |pending| && pending[i] == c;
      NotYetIn(env, l, m, pending, i);
      BlockedByPending(env, l, m, pending, c);
    }
    assert Deadlock(l, waiting);
  }

  /** Whatever the turns, a loop that ends leaves a valid ledger with nothing pending. */
  lemma {:induction false} ImportKeepsValid(env: Env, l: Ledger, m: Ledger, pending: seq<Correction>, m': Ledger)
    requires Progress(env, l, m, pending)
    requires ImportCorrections(env, Content(env, l).assertions, m, pending) == Ok(m')
    ensures Progress(env, l, m', []) && Valid(env, m')
    decreases |pending|
  {
    hide Progress, Content, Has, ImportOne;
    if pending == [] {
      ProgressValid(env, l, m, pending);
    } else {
      var i := FirstEligible(m.assertions, pending).value;
      var m1 := ImportOne(env, Content(env, l).assertions, m, pending[i]).value;
      ImportOneProgress(env, l, m, pending, i, m1);
      ImportKeepsValid(env, l, m1, Without(pending, i), m');
    }
  }

  /** The loop ends well exactly when every turn still to come is permitted. */
  lemma {:induction false} LoopIff(env: Env, l: Ledger, m: Ledger, pending: seq<Correction>)
    requires Progress(env, l, m, pending) && ReplacementsPresent(l) && NoDeadlock(l)
    ensures var cs := Content(env, l).corrections;
      ImportCorrections(env, Content(env, l).assertions, m, pending).Ok?
      <==> PermitsFrom(l, cs, ImportOrder(cs, Values(m.corrections), pending), |m.corrections|)
    decreases |pending|
  {
    hide Progress, ReplacementsPresent, NoDeadlock, ImportOne, Content, Has, TurnPermits, Arrived;
    var xs, cs, taken := Content(env, l).assertions, Content(env, l).corrections, Values(m.corrections);
    SameTurn(env, l, m, pending);
    if pending != [] {
      var next := FirstEligible(m.assertions, pending);
      if next.None? {
        StuckIsDeadlock(env, l, m, pending);
        assert false;
      } else {
        var i := next.value;
        var r := ImportOne(env, xs, m, pending[i]);
        var order := ImportOrder(cs, taken + [pending[i]], Without(pending, i));
        assert order == ImportOrder(cs, taken, pending);
        PermitsHere(l, cs, taken, pending[i], order);
        PresentFor(env, l, m, pending, i);
        ImportOneIff(env, l, m, pending, i);
        if r.Ok? {
          ImportOneProgress(env, l, m, pending, i, r.value);
          LoopIff(env, l, r.value, Without(pending, i));
        }
      }
    }
  }

  lemma PermitsHere(l: Ledger, cs: seq<Correction>, taken: seq<Correction>, c: Correction, order: seq<Correction>)
    requires taken + [c] <= order
    ensures PermitsFrom(l, cs, order, |taken|) <==> TurnPermits(l, cs, taken, c) && PermitsFrom(l, cs, order, |taken| + 1)
  {
    hide TurnPermits;
    assert order[..|taken|] == taken && order[|taken|] == c;
  }

  lemma PresentFor(env: Env, l: Ledger, m: Ledger, pending: seq<Correction>, i: nat)
    requires Progress(env, l, m, pending) && ReplacementsPresent(l) && i < |pending|
    ensures NamesReplacement(pending[i]) ==> Has(l.assertions, ReplacementKey(pending[i]))
  {
    hide Progress, Has;
    NotYetIn(env, l, m, pending, i);
  }

  // ----- imports that stop -----

  /** A correction whose named assertion is missing stops the import. */
  lemma {:induction false} MissingStops(env: Env, l: Ledger, m: Ledger, pending: seq<Correction>, c: Correction)
    requires Progress(env, l, m, pending) && c in pending
    requires NamesReplacement(c) && !Has(l.assertions, ReplacementKey(c))
    ensures ImportCorrections(env, Content(env, l).assertions, m, pending).Err?
    decreases |pending|
  {
    hide Progress, Content, Has;
    var xs := Content(env, l).assertions;
    var next := FirstEligible(m.assertions, pending);
    if next.Some? {
      var i := next.value;
      var r := ImportOne(env, xs, m, pending[i]);
      if r.Ok? {
        ImportOneProgress(env, l, m, pending, i, r.value);
        if pending[i] == c {
          NothingToReplace(env, l, m, pending, i, r.value);
        } else {
          assert c in multiset(pending);
          assert c in multiset(Without(pending, i));
          MissingStops(env, l, r.value, Without(pending, i), c);
        }
      }
    }
  }

  lemma NothingToReplace(env: Env, l: Ledger, m: Ledger, pending: seq<Correction>, i: nat, m': Ledger)
    requires Progress(env, l, m, pending) && i < |pending|
    requires ImportOne(env, Content(env, l).assertions, m, pending[i]) == Ok(m')
    requires NamesReplacement(pending[i])
    ensures Has(l.assertions, ReplacementKey(pending[i]))
  {
    hide Admitted, Owners, TableOk, ImportOne, Content, Placed, HoldsDocuments;
    ImportOneProgress(env, l, m, pending, i, m');
    ImportOneShape(env, Content(env, l).assertions, m, pending[i], m');
    FromSource(env, l, m', Without(pending, i));
    var k :| 0 <= k < |m'.assertions| && m'.assertions[k].key == ReplacementKey(pending[i]);
    assert Values(m'.assertions)[k] in Values(m'.assertions);
    HasValue(l.assertions, l.sequence, AssertionKey, ReplacementKey(pending[i]));
  }

  /** Corrections that wait for each other are never eligible, so the import stops. */
  lemma {:induction false} DeadlockStops(env: Env, l: Ledger, m: Ledger, pending: seq<Correction>, waiting: set<Correction>)
    requires Progress(env, l, m, pending) && Deadlock(l, waiting)
    requires forall c :: c in waiting ==> c in pending && !Has(m.assertions, TargetKey(c))
    ensures ImportCorrections(env, Content(env, l).assertions, m, pending).Err?
    decreases |pending|
  {
    hide Progress, Content, Has;
    var xs := Content(env, l).assertions;
    assert pending != [] by { var c :| c in waiting; assert c in pending; }
    var next := FirstEligible(m.assertions, pending);
    if next.Some? {
      var i := next.value;
      var d := pending[i];
      var r := ImportOne(env, xs, m, d);
      if r.Ok? {
        ImportOneProgress(env, l, m, pending, i, r.value);
        forall c | c in waiting ensures c in Without(pending, i) && !Has(r.value.assertions, TargetKey(c)) {
          assert c in multiset(pending);
          assert c in multiset(Without(pending, i));
          StillBlocked(env, l, m, pending, i, r.value, waiting, c);
        }
        DeadlockStops(env, l, r.value, Without(pending, i), waiting);
      }
    }
  }

  lemma StillBlocked(env: Env, l: Ledger, m: Ledger, pending: seq<Correction>, i: nat, m': Ledger, waiting: set<Correction>, c: Correction)
    requires Progress(env, l, m, pending) && i < |pending| && Deadlock(l, waiting) && c in waiting
    requires !Has(m.assertions, TargetKey(c)) && pending[i] !in waiting
    requires ImportOne(env, Content(env, l).assertions, m, pending[i]) == Ok(m')
    ensures !Has(m'.assertions, TargetKey(c))
  {
    hide Progress, Content, Has, ImportOne;
    assert Valid(env, m) by { assert Progress(env, l, m, pending); ProgressValid(env, l, m, pending); }
    NotYetIn(env, l, m, pending, i);
    ImportOneShape(env, Content(env, l).assertions, m, pending[i], m');
    if m'.assertions != m.assertions {
      var x, s :| x in Content(env, l).assertions && Names(pending[i], AssertionKey(x)) && m'.assertions == m.assertions + [Entry(AssertionKey(x), s, x)];
      HasAdded(m.assertions, Entry(AssertionKey(x), s, x), TargetKey(c));
    }
  }

  lemma ProgressValid(env: Env, l: Ledger, m: Ledger, pending: seq<Correction>)
    requires Progress(env, l, m, pending)
    ensures Valid(env, m) && Valid(env, l)
  {
  }

  // ----- the theorem -----

  lemma BaseProgress(env: Env, l: Ledger, m: Ledger)
    requires Valid(env, l) && Valid(env, m) && HoldsDocuments(Content(env, l), m)
    requires Values(m.assertions) == Unnamed(Content(env, l).assertions, Content(env, l).corrections) && m.corrections == []
    ensures Progress(env, l, m, Content(env, l).corrections)
  {
    hide Admitted, Owners, TableOk, HoldsDocuments, SortedById, Unnamed, Has;
    var c := Content(env, l);
    assert multiset(Values(m.corrections)) + multiset(c.corrections) == multiset(c.corrections);
    forall k ensures Has(m.assertions, k) <==> exists x :: x in Values(m.assertions) && AssertionKey(x) == k {
      HasValue(m.assertions, m.sequence, AssertionKey, k);
    }
    assert Placed(c, m);
  }

  /** The same six collections, disregarding order, under the same snapshot number. */
  ghost predicate SameCollections(l: Ledger, m: Ledger) {
    && m.sequence == l.sequence
    && multiset(Values(m.entities)) == multiset(Values(l.entities))
    && multiset(Values(m.agents)) == multiset(Values(l.agents))
    && multiset(Values(m.activities)) == multiset(Values(l.activities))
    && multiset(Values(m.evidence)) == multiset(Values(l.evidence))
    && multiset(Values(m.assertions)) == multiset(Values(l.assertions))
    && multiset(Values(m.corrections)) == multiset(Values(l.corrections))
  }

  lemma OnceEach<T(!new)>(a: seq<T>, keyOf: T -> string, x: T)
    requires DistinctKeys(a, keyOf)
    ensures multiset(a)[x] == if x in a then 1 else 0
  {
    assert x in a <==> x in multiset(a);
    if multiset(a)[x] >= 2 {
      TwoOccurrences(a, x);
      assert false;
    }
  }

  lemma SameMultiset<T(!new)>(a: seq<T>, b: seq<T>, keyOf: T -> string)
    requires DistinctKeys(a, keyOf) && DistinctKeys(b, keyOf)
    requires forall x :: x in a <==> x in b
    ensures multiset(a) == multiset(b)
  {
    forall x ensures multiset(a)[x] == multiset(b)[x] {
      OnceEach(a, keyOf, x);
      OnceEach(b, keyOf, x);
    }
  }

  lemma AllIn(env: Env, l: Ledger, m: Ledger)
    requires Progress(env, l, m, [])
    ensures forall x :: x in Values(m.assertions) <==> x in Values(l.assertions)
    ensures multiset(Values(m.corrections)) == multiset(Values(l.corrections))
  {
    hide Admitted, Owners, HoldsDocuments, SortedById, Has;
    var c := Content(env, l);
    FromSource(env, l, m, []);
    SortedMembers(env, l.corrections, l.sequence, CorrectionKey, CorrectionKey);
    assert multiset(Values(m.corrections)) == multiset(c.corrections);
    forall x | x in Values(l.assertions) ensures x in Values(m.assertions) {
      assert forall d :: d in c.corrections ==> d in multiset(Values(m.corrections));
      NamedByMembers(c.corrections, Values(m.corrections), AssertionKey(x));
      assert Has(m.assertions, AssertionKey(x));
      HasValue(m.assertions, m.sequence, AssertionKey, AssertionKey(x));
      var y :| y in Values(m.assertions) && AssertionKey(y) == AssertionKey(x);
      GetValue(l.assertions, l.sequence, AssertionKey, x);
      GetValue(l.assertions, l.sequence, AssertionKey, y);
    }
  }

  lemma Rebuilt(env: Env, l: Ledger, m: Ledger)
    requires Progress(env, l, m, [])
    ensures SameCollections(l, m)
  {
    hide Admitted, TableOk, Placed, SortedById, Owners, Visible;
    AllIn(env, l, m);
    ValuesDistinct(l.assertions, l.sequence, AssertionKey);
    ValuesDistinct(m.assertions, m.sequence, AssertionKey);
    SameMultiset(Values(m.assertions), Values(l.assertions), AssertionKey);
    SortedMembers(env, l.agents, l.sequence, AgentKey, AgentKey);
    SortedMembers(env, l.entities, l.sequence, EntityKey, EntityKey);
    SortedMembers(env, l.activities, l.sequence, ActivityKey, ActivityKey);
    SortedMembers(env, l.evidence, l.sequence, EvidenceKey, EvidenceKey);
    SnapshotCounts(l, l.sequence);
    SnapshotCounts(m, m.sequence);
    AtNow(l);
    AtNow(m);
    hide At;
    assert |l.assertions| == |multiset(Values(l.assertions))| && |m.assertions| == |multiset(Values(m.assertions))|;
    assert |l.corrections| == |multiset(Values(l.corrections))| && |m.corrections| == |multiset(Values(m.corrections))|;
    assert |l.agents| == |multiset(Values(l.agents))| && |m.agents| == |multiset(Values(m.agents))|;
    assert |l.entities| == |multiset(Values(l.entities))| && |m.entities| == |multiset(Values(m.entities))|;
    assert |l.activities| == |multiset(Values(l.activities))| && |m.activities| == |multiset(Values(m.activities))|;
    assert |l.evidence| == |multiset(Values(l.evidence))| && |m.evidence| == |multiset(Values(m.evidence))|;
  }

  /**
    The archive of any valid ledger imports exactly when every named replacement is there, no corrections wait for each
    other, and every turn of the import order is permitted.
   */
  lemma ImportSucceedsIff(env: Env, l: Ledger)
    requires Valid(env, l)
    ensures var r := Import(env, Sealed(env, Content(env, l)));
      && (r.Ok? <==> ReplacementsPresent(l) && NoDeadlock(l) && OrderPermits(env, l))
      && (r.Ok? ==> Progress(env, l, r.value, []))
  {
    hide Valid, Progress, PermitsFrom, ImportOrder, SortedById, Has, HoldsDocuments, AppendAll;
    var c := Content(env, l);
    var m := BaseRebuilt(env, l);
    BaseProgress(env, l, m);
    var r := ImportCorrections(env, c.assertions, m, c.corrections);
    assert Import(env, Sealed(env, c)) == r;
    FromSource(env, l, m, c.corrections);
    if !ReplacementsPresent(l) {
      var d :| d in Values(l.corrections) && NamesReplacement(d) && !Has(l.assertions, ReplacementKey(d));
      MissingStops(env, l, m, c.corrections, d);
    } else if !NoDeadlock(l) {
      var waiting :| Deadlock(l, waiting);
      forall d | d in waiting ensures d in c.corrections && !Has(m.assertions, TargetKey(d)) {
        WaitingBlocked(env, l, m, d);
      }
      DeadlockStops(env, l, m, c.corrections, waiting);
    } else {
      LoopIff(env, l, m, c.corrections);
    }
    if r.Ok? { ImportKeepsValid(env, l, m, c.corrections, r.value); }
  }

  lemma WaitingBlocked(env: Env, l: Ledger, m: Ledger, d: Correction)
    requires Progress(env, l, m, Content(env, l).corrections) && m.corrections == []
    requires d in Values(l.corrections) && NamedBy(Values(l.corrections), TargetKey(d))
    ensures !Has(m.assertions, TargetKey(d))
  {
    hide Valid, HoldsDocuments, Has, SortedById;
    var c := Content(env, l);
    FromSource(env, l, m, c.corrections);
    var e := TargetKnown(env, l, d);
    NamedByMembers(Values(l.corrections), c.corrections, e.key);
    assert e.value in c.assertions;
  }

  /**
    Archive round trip, for every snapshot of every valid ledger: the import of the export succeeds exactly when every
    named replacement is in the snapshot, no corrections wait for each other and every turn of the import order is
    permitted; then it holds the same six collections under the same snapshot number.
   */
  lemma RoundTrip(env: Env, l: Ledger, n: nat)
    requires Valid(env, l) && n <= l.sequence
    ensures Export(env, l, n).Ok?
    ensures var r := Import(env, Export(env, l, n).value);
      && (r.Ok? <==> ReplacementsPresent(At(l, n)) && NoDeadlock(At(l, n)) && OrderPermits(env, At(l, n)))
      && (r.Ok? ==> Valid(env, r.value) && SameCollections(At(l, n), r.value))
  {
    hide Valid, Progress, At, Import, Content;
    PrefixValid(env, l, n);
    ImportSucceedsIff(env, At(l, n));
    var r := Import(env, Sealed(env, Content(env, At(l, n))));
    if r.Ok? {
      Rebuilt(env, At(l, n), r.value);
      ProgressValid(env, At(l, n), r.value, []);
    }
  }
}
