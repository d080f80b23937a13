/**
  The plain discipline on histories under which an archive always comes back: each replacement is appended after the one
  correction that names it, and a `correct` stays with its assertion.
 */
module LineageDiscipline {
  import opened Wrappers
  import opened Sorting
  import opened LineageLedger
  import opened LineageArchive
  import opened LineageRebuild
  import opened LineageRoundTrip
  import opened LineageCorrected
  import opened LineageOrder
  import opened LineageIdentity

  /** The correction's replacement was appended, and after it. */
  ghost predicate ReplacedLater(l: Ledger, d: Entry<Correction>) {
    NamesReplacement(d.value) ==> exists e :: e in l.assertions && e.key == ReplacementKey(d.value) && d.sequence < e.sequence
  }

  /** No other correction names the same replacement. */
  ghost predicate NamedOnce(l: Ledger, d: Entry<Correction>) {
    NamesReplacement(d.value) ==> forall f :: f in l.corrections && Names(f.value, ReplacementKey(d.value)) ==> f == d
  }

  /** A `correct` names another revision of the assertion it corrects. */
  ghost predicate KeepsAssertion(l: Ledger, d: Entry<Correction>) {
    d.value.action == Correct && NamesReplacement(d.value) ==>
      forall t, e :: t in l.assertions && e in l.assertions && t.key == TargetKey(d.value) && e.key == ReplacementKey(d.value) ==> t.value.id == e.value.id
  }

  ghost predicate Discipline(l: Ledger) {
    forall d :: d in l.corrections ==> ReplacedLater(l, d) && NamedOnce(l, d) && KeepsAssertion(l, d)
  }

  lemma EntryOfCorrection(l: Ledger, c: Correction) returns (d: Entry<Correction>)
    requires c in Values(l.corrections)
    ensures d in l.corrections && d.value == c
  {
    var i :| 0 <= i < |l.corrections| && Values(l.corrections)[i] == c;
    d := l.corrections[i];
  }

  lemma NamerIsPermitter(env: Env, l: Ledger, d: Entry<Correction>, e: Entry<Assertion>)
    requires Valid(env, l) && Discipline(l) && d in l.corrections && e in l.assertions && Names(d.value, e.key) && !IsFirst(l, e)
    ensures Permits(d.value, e.value.id, e.value.revision)
    ensures forall t :: t in l.assertions && t.key == TargetKey(d.value) ==> t.value.id == e.value.id
  {
    hide Valid, ReplacedLater;
    var f :| f in l.assertions && f.value.id == e.value.id && f.sequence < e.sequence;
    var p := LaterPermitted(env, l, f, e);
    assert NamedOnce(l, d) && KeepsAssertion(l, d);
    assert p == d;
  }

  lemma LaterCorrected(env: Env, l: Ledger)
    requires Valid(env, l) && Discipline(l)
    ensures LaterOnlyCorrected(l)
  {
    hide Valid, Discipline, IsFirst, Names, Permits;
    forall c, e | c in Values(l.corrections) && e in l.assertions && Names(c, e.key) && !IsFirst(l, e)
      ensures Permits(c, e.value.id, e.value.revision)
      ensures forall t :: t in l.assertions && t.key == TargetKey(c) ==> t.value.id == e.value.id
    {
      var d := EntryOfCorrection(l, c);
      NamerIsPermitter(env, l, d, e);
    }
  }

  lemma AllPresent(l: Ledger)
    requires Discipline(l)
    ensures ReplacementsPresent(l)
  {
    hide NamedOnce, KeepsAssertion;
    forall c | c in Values(l.corrections) && NamesReplacement(c) ensures Has(l.assertions, ReplacementKey(c)) {
      var d := EntryOfCorrection(l, c);
      assert ReplacedLater(l, d);
    }
  }

  /** A correction that waits was appended after one that also waits. */
  lemma WaitsForEarlier(env: Env, l: Ledger, waiting: set<Correction>, d: Entry<Correction>) returns (f: Entry<Correction>)
    requires Valid(env, l) && Discipline(l) && Deadlock(l, waiting) && d in l.corrections && d.value in waiting
    ensures f in l.corrections && f.value in waiting && f.sequence < d.sequence
  {
    hide Admitted, Owners, Check, NamedOnce, KeepsAssertion;
    var t := TargetEarlier(env, l, d);
    var cs := Values(l.corrections);
    assert NamedBy(cs, TargetKey(d.value));
    var i :| 0 <= i < |cs| && Names(cs[i], TargetKey(d.value));
    f := l.corrections[i];
    assert cs[i] in cs && f.value == cs[i];
    assert ReplacedLater(l, f);
    var e :| e in l.assertions && e.key == ReplacementKey(f.value) && f.sequence < e.sequence;
    SameEntry(l, e, t);
  }

  lemma {:induction false} WaitersLater(env: Env, l: Ledger, waiting: set<Correction>, n: nat)
    requires Valid(env, l) && Discipline(l) && Deadlock(l, waiting)
    ensures forall d :: d in l.corrections && d.value in waiting ==> d.sequence >= n
  {
    hide Valid, Discipline, Deadlock;
    if n > 0 {
      WaitersLater(env, l, waiting, n - 1);
      forall d | d in l.corrections && d.value in waiting ensures d.sequence >= n {
        var f := WaitsForEarlier(env, l, waiting, d);
      }
    } else {
      forall d | d in l.corrections && d.value in waiting ensures d.sequence >= 0 { SequencePositive(env, l, d); }
    }
  }

  lemma SequencePositive(env: Env, l: Ledger, d: Entry<Correction>)
    requires Valid(env, l) && d in l.corrections
    ensures 1 <= d.sequence <= l.sequence
  {
    hide Admitted, Owners, Check;
  }

  lemma NobodyWaits(env: Env, l: Ledger)
    requires Valid(env, l) && Discipline(l)
    ensures NoDeadlock(l)
  {
    hide Valid, Discipline;
    forall waiting ensures !Deadlock(l, waiting) {
      if Deadlock(l, waiting) {
        WaitersLater(env, l, waiting, l.sequence + 1);
        NoneWaiting(env, l, waiting);
      }
    }
  }

  lemma NoneWaiting(env: Env, l: Ledger, waiting: set<Correction>)
    requires Valid(env, l) && forall d :: d in l.corrections && d.value in waiting ==> d.sequence >= l.sequence + 1
    ensures !Deadlock(l, waiting)
  {
    hide Valid;
    forall c | c in waiting ensures c !in Values(l.corrections) {
      if c in Values(l.corrections) {
        var d := EntryOfCorrection(l, c);
        SequencePositive(env, l, d);
      }
    }
  }

  /**
    Under the discipline the import of an export never throws, its loop never runs out of eligible corrections, and the
    result holds the same six collections under the same snapshot number.
   */
  lemma DisciplineRoundTrip(env: Env, l: Ledger, n: nat)
    requires Valid(env, l) && n <= l.sequence && Discipline(At(l, n))
    ensures Export(env, l, n).Ok?
    ensures var r := Import(env, Export(env, l, n).value);
      r.Ok? && Valid(env, r.value) && SameCollections(At(l, n), r.value)
  {
    hide Valid, At, Import, Discipline, Export, SameCollections, LaterOnlyCorrected, ReplacementsPresent, NoDeadlock, OrderPermits;
    PrefixValid(env, l, n);
    LaterCorrected(env, At(l, n));
    CorrectedOrder(env, At(l, n));
    AllPresent(At(l, n));
    NobodyWaits(env, At(l, n));
    RoundTrip(env, l, n);
  }

  /** No assertion revision is corrected twice, by whatever action. */
  ghost predicate OneCorrectionEach(l: Ledger) {
    forall c, d :: c in Values(l.corrections) && d in Values(l.corrections) && Corrects(d, c.assertionId, c.assertionRevision) ==> c == d
  }

  lemma OneStatus(env: Env, l: Ledger, n: nat, id: string, revision: string, m: Ledger)
    requires Valid(env, l) && n <= l.sequence && StrictTotal(env.less) && OneCorrectionEach(At(l, n))
    requires Import(env, Export(env, l, n).value) == Ok(m)
    ensures StatusAt(m, id, revision, m.sequence) == StatusAt(l, id, revision, n)
  {
    hide Valid, Import, Export, StatusAt, StrictTotal;
    if c :| c in l.corrections && c.sequence <= n && Corrects(c.value, id, revision) {
      var newest := NewestExists(l, id, revision, n, c);
      StatusAfterImport(env, l, n, id, revision, newest);
      var d :| LastById(env, At(l, n), id, revision, d) && Decides(l, n, id, revision, newest, m, d);
      var v := NewestValue(l, n, id, revision, newest);
      LastIsHere(env, At(l, n), id, revision, d);
      assert v == d;
    } else {
      UncorrectedStaysActive(env, l, n, id, revision);
    }
  }

  lemma LastIsHere(env: Env, l: Ledger, id: string, revision: string, c: Correction)
    requires LastById(env, l, id, revision, c)
    ensures c in Values(l.corrections) && Corrects(c, id, revision)
  {
  }

  /** When, besides, no revision is corrected twice, every assertion revision has the same status before and after. */
  lemma StatusesSurvive(env: Env, l: Ledger, n: nat)
    requires Valid(env, l) && n <= l.sequence && StrictTotal(env.less) && Discipline(At(l, n)) && OneCorrectionEach(At(l, n))
    ensures var r := Import(env, Export(env, l, n).value);
      r.Ok? && forall id, revision :: StatusAt(r.value, id, revision, r.value.sequence) == StatusAt(l, id, revision, n)
  {
    hide Valid, At, Import, Discipline, Export, SameCollections, StatusAt, StrictTotal, OneCorrectionEach;
    DisciplineRoundTrip(env, l, n);
    var m := Import(env, Export(env, l, n).value).value;
    forall id, revision ensures StatusAt(m, id, revision, m.sequence) == StatusAt(l, id, revision, n) { OneStatus(env, l, n, id, revision, m); }
  }
}
