/** Ledgers whose later revisions are only named by their own corrections: their import order is always permitted. */
module LineageCorrected {
  import opened Wrappers
  import opened Sorting
  import opened LineageLedger
  import opened LineageArchive
  import opened LineageRebuild
  import opened LineageRoundTrip

  ghost predicate IsFirst(l: Ledger, e: Entry<Assertion>) {
    forall f :: f in l.assertions && f.value.id == e.value.id ==> e.sequence <= f.sequence
  }

  /** Every correction that names a later revision is a `correct` of an earlier revision of that very assertion. */
  ghost predicate LaterOnlyCorrected(l: Ledger) {
    forall c, e :: c in Values(l.corrections) && e in l.assertions && Names(c, e.key) && !IsFirst(l, e) ==>
      && Permits(c, e.value.id, e.value.revision)
      && (forall t :: t in l.assertions && t.key == TargetKey(c) ==> t.value.id == e.value.id)
  }

  /** Whenever a revision has arrived, so has the first revision of its assertion. */
  ghost predicate FirstsArrived(l: Ledger, cs: seq<Correction>, taken: seq<Correction>) {
    forall e, f :: e in l.assertions && f in l.assertions && e.value.id == f.value.id && IsFirst(l, f) && Arrived(cs, taken, e.key)
      ==> Arrived(cs, taken, f.key)
  }

  lemma FirstOrNamed(env: Env, l: Ledger, cs: seq<Correction>, e: Entry<Assertion>, f: Entry<Assertion>)
    requires Valid(env, l) && e in l.assertions && f in l.assertions && e.value.id == f.value.id && IsFirst(l, f)
    requires forall c :: c in Values(l.corrections) ==> c in cs
    ensures e == f || NamedBy(cs, e.key)
  {
    hide Admitted, Owners;
    if e != f {
      var c := LaterPermitted(env, l, f, e);
      var k :| 0 <= k < |l.corrections| && l.corrections[k] == c;
      assert Values(l.corrections)[k] in cs;
    }
  }

  lemma FirstsAtStart(env: Env, l: Ledger, cs: seq<Correction>)
    requires Valid(env, l) && forall c :: c in Values(l.corrections) ==> c in cs
    ensures FirstsArrived(l, cs, [])
  {
    hide Valid, NamedBy, IsFirst;
    NoneNamed();
    forall e, f | e in l.assertions && f in l.assertions && e.value.id == f.value.id && IsFirst(l, f) && Arrived(cs, [], e.key)
      ensures Arrived(cs, [], f.key)
    {
      FirstOrNamed(env, l, cs, e, f);
    }
  }

  lemma NoneNamed()
    ensures forall key :: !NamedBy([], key)
  {
  }

  /** A first revision meets no other revision of its assertion; a later one is permitted by what names it. */
  lemma TurnIsPermitted(l: Ledger, cs: seq<Correction>, taken: seq<Correction>, c: Correction)
    requires FirstsArrived(l, cs, taken) && LaterOnlyCorrected(l) && c in Values(l.corrections) && c in cs
    ensures TurnPermits(l, cs, taken, c)
  {
    hide IsFirst, NamedBy, Permits, Names;
    forall e, f | Meets(l, cs, taken, c, e, f) ensures Permits(c, e.value.id, e.value.revision) {
      NamedMember(cs, c, e.key);
    }
  }

  lemma FirstsArrivedStep(l: Ledger, cs: seq<Correction>, taken: seq<Correction>, c: Correction, t: Entry<Assertion>)
    requires Shaped(l) && FirstsArrived(l, cs, taken) && LaterOnlyCorrected(l) && c in Values(l.corrections)
    requires t in l.assertions && t.key == TargetKey(c) && Arrived(cs, taken, t.key)
    ensures FirstsArrived(l, cs, taken + [c])
  {
    hide NamedBy, TableOk, Names;
    forall key ensures NamedBy(taken + [c], key) <==> NamedBy(taken, key) || Names(c, key) { NamedByAdded(taken, c, key); }
    forall g, f | g in l.assertions && f in l.assertions && g.value.id == f.value.id && IsFirst(l, f) && Arrived(cs, taken + [c], g.key)
      ensures Arrived(cs, taken + [c], f.key)
    {
      if !Arrived(cs, taken, g.key) {
        if IsFirst(l, g) { SameEntry(l, f, g); } else { assert t.value.id == f.value.id; }
      }
    }
  }

  lemma SameEntry(l: Ledger, e: Entry<Assertion>, f: Entry<Assertion>)
    requires Shaped(l) && e in l.assertions && f in l.assertions && (e.key == f.key || e.sequence == f.sequence)
    ensures e == f
  {
  }

  /** By induction over the import order: no turn meets the permission check without its permission. */
  lemma {:induction false} CorrectedPermits(env: Env, l: Ledger, cs: seq<Correction>, taken: seq<Correction>, pending: seq<Correction>)
    requires Valid(env, l) && LaterOnlyCorrected(l) && FirstsArrived(l, cs, taken)
    requires forall c :: c in pending ==> c in Values(l.corrections) && c in cs
    ensures PermitsFrom(l, cs, ImportOrder(cs, taken, pending), |taken|)
    decreases |pending|
  {
    hide Valid, LaterOnlyCorrected, FirstsArrived, TurnPermits, Arrived;
    var next := FirstReady(cs, taken, pending);
    if next.Some? {
      var c, rest := pending[next.value], Without(pending, next.value);
      forall d | d in rest ensures d in pending { assert d in multiset(rest); }
      var t := TargetKnown(env, l, c);
      ValidShaped(env, l);
      hide Shaped;
      TurnIsPermitted(l, cs, taken, c);
      FirstsArrivedStep(l, cs, taken, c, t);
      CorrectedPermits(env, l, cs, taken + [c], rest);
      PermitsHere(l, cs, taken, c, ImportOrder(cs, taken + [c], rest));
    }
  }

  /** A history that names later revisions only by their own corrections meets the order's condition. */
  lemma CorrectedOrder(env: Env, l: Ledger)
    requires Valid(env, l) && LaterOnlyCorrected(l)
    ensures OrderPermits(env, l)
  {
    hide Admitted, Owners, LaterOnlyCorrected, PermitsFrom, ImportOrder, FirstsArrived, SortedById;
    var cs := Content(env, l).corrections;
    SortedMembers(env, l.corrections, l.sequence, CorrectionKey, CorrectionKey);
    FirstsAtStart(env, l, cs);
    CorrectedPermits(env, l, cs, [], cs);
  }
}
