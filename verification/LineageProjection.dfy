/** Lossy projections and the receipt that accounts for every omission. */
module LineageProjection {
  import opened Wrappers
  import opened Sorting
  import opened Text
  import opened LineageLedger
  import opened LineageArchive
  import opened LineageRebuild
  import opened LineageRoundTrip

  datatype Capabilities = Capabilities(entityKinds: seq<EntityKind>, relationshipKinds: seq<Relationship>, assertionKinds: seq<AssertionKind>,
                                       preservesEvidence: bool, preservesCorrections: bool)

  datatype Reason = UnsupportedEntityKind | UnsupportedRelationshipKind | UnsupportedAssertionKind | EvidenceOmitted | CorrectionsOmitted
  datatype LossItem = LossItem(path: string, reason: Reason, canonicalDigest: string)
  datatype Projection = Projection(sourceDigest: string, entities: seq<Entity>, assertions: seq<Assertion>, evidence: seq<Evidence>,
                                   corrections: seq<Correction>, digest: string, lossless: bool, losses: seq<LossItem>)

  function ReasonName(r: Reason): string {
    match r
    case UnsupportedEntityKind => "unsupported-entity-kind"
    case UnsupportedRelationshipKind => "unsupported-relationship-kind"
    case UnsupportedAssertionKind => "unsupported-assertion-kind"
    case EvidenceOmitted => "evidence-omitted"
    case CorrectionsOmitted => "corrections-omitted"
  }

  function LessLoss(env: Env): (LossItem, LossItem) -> bool {
    (a: LossItem, b: LossItem) => if a.path != b.path then env.less(a.path, b.path) else env.less(ReasonName(a.reason), ReasonName(b.reason))
  }

  function EntityPath(i: nat): string { "/entities/" + Decimal(i) }
  function AssertionPath(i: nat): string { "/assertions/" + Decimal(i) }

  predicate EntityKept(caps: Capabilities, x: Entity) {
    x.kind in caps.entityKinds
  }

  function Kept(xs: seq<Entity>, caps: Capabilities): seq<Entity> {
    Filter(xs, x => EntityKept(caps, x))
  }

  function EntityLoss(env: Env, x: Entity, i: nat): LossItem {
    LossItem(EntityPath(i), UnsupportedEntityKind, env.digest(OfEntity(x)))
  }

  function EntityLosses(env: Env, caps: Capabilities, xs: seq<Entity>, i: nat): seq<LossItem> {
    if xs == [] then [] else (if EntityKept(caps, xs[0]) then [] else [EntityLoss(env, xs[0], i)]) + EntityLosses(env, caps, xs[1..], i + 1)
  }

  predicate HasId(xs: seq<Entity>, id: string) {
    exists i :: 0 <= i < |xs| && xs[i].id == id
  }

  /** Why an assertion is left out, given the entities that were kept. */
  function AssertionReason(caps: Capabilities, kept: seq<Entity>, x: Assertion): Option<Reason> {
    if x.relationship !in caps.relationshipKinds then Some(UnsupportedRelationshipKind)
    else if x.assertionKind !in caps.assertionKinds then Some(UnsupportedAssertionKind)
    else if !HasId(kept, x.sourceEntityId) || !HasId(kept, x.targetEntityId) then Some(UnsupportedEntityKind)
    else None
  }

  function KeptAssertions(caps: Capabilities, kept: seq<Entity>, xs: seq<Assertion>): seq<Assertion> {
    Filter(xs, x => AssertionReason(caps, kept, x).None?)
  }

  function AssertionLosses(env: Env, caps: Capabilities, kept: seq<Entity>, xs: seq<Assertion>, i: nat): seq<LossItem> {
    if xs == [] then []
    else
      var reason := AssertionReason(caps, kept, xs[0]);
      (if reason.None? then [] else [LossItem(AssertionPath(i), reason.value, env.digest(OfAssertion(xs[0])))])
      + AssertionLosses(env, caps, kept, xs[1..], i + 1)
  }

  /** Some kept assertion refers to this evidence revision. */
  predicate Referenced(xs: seq<Assertion>, key: string) {
    exists i, j :: 0 <= i < |xs| && 0 <= j < |xs[i].evidence| && ReferenceKey(xs[i].evidence[j]) == key
  }

  predicate RefersToEvidence(xs: seq<Assertion>) {
    exists i :: 0 <= i < |xs| && xs[i].evidence != []
  }

  predicate HasAssertionId(xs: seq<Assertion>, id: string) {
    exists i :: 0 <= i < |xs| && xs[i].id == id
  }

  function Losses(env: Env, caps: Capabilities, c: ArchiveContent): seq<LossItem> {
    var entities := Kept(c.entities, caps);
    var assertions := KeptAssertions(caps, entities, c.assertions);
    EntityLosses(env, caps, c.entities, 0) + AssertionLosses(env, caps, entities, c.assertions, 0)
    + (if !caps.preservesEvidence && RefersToEvidence(assertions)
       then [LossItem("/evidence", EvidenceOmitted, env.digest(OfEvidence(c.evidence)))] else [])
    + (if !caps.preservesCorrections && c.corrections != []
       then [LossItem("/corrections", CorrectionsOmitted, env.digest(OfCorrections(c.corrections)))] else [])
  }

  function ProjectContent(env: Env, caps: Capabilities, c: ArchiveContent): Projection {
    var entities := Kept(c.entities, caps);
    var assertions := KeptAssertions(caps, entities, c.assertions);
    var evidence := if caps.preservesEvidence then Filter(c.evidence, x => Referenced(assertions, EvidenceKey(x))) else [];
    var corrections := if caps.preservesCorrections then Filter(c.corrections, (x: Correction) => HasAssertionId(assertions, x.assertionId)) else [];
    var losses := Losses(env, caps, c);
    Projection(env.digest(OfArchive(c)), entities, assertions, evidence, corrections,
               env.digest(OfProjection(entities, assertions, evidence, corrections)), losses == [], Sort(losses, LessLoss(env)))
  }

  function Project(env: Env, l: Ledger, caps: Capabilities, snapshot: int): Result<Projection, Code> {
    var archive :- Export(env, l, snapshot);
    Ok(ProjectContent(env, caps, archive.content))
  }

  // ----- accounting -----

  /** The receipt's items for one path. */
  function LossesAt(losses: seq<LossItem>, path: string): seq<LossItem> {
    Filter(losses, (x: LossItem) => x.path == path)
  }

  lemma AtConcat(a: seq<LossItem>, b: seq<LossItem>, path: string)
    ensures LossesAt(a + b, path) == LossesAt(a, path) + LossesAt(b, path)
  {
    FilterConcat(a, b, (x: LossItem) => x.path == path);
  }

  lemma AtNone(losses: seq<LossItem>, path: string)
    requires forall x :: x in losses ==> x.path != path
    ensures LossesAt(losses, path) == []
  {
    FilterNone(losses, (x: LossItem) => x.path == path);
  }

  lemma EntityPathsApart(i: nat, j: nat)
    ensures EntityPath(i) == EntityPath(j) <==> i == j
    ensures AssertionPath(i) == AssertionPath(j) <==> i == j
    ensures EntityPath(i) != AssertionPath(j) && EntityPath(i) != "/evidence" && EntityPath(i) != "/corrections"
    ensures AssertionPath(i) != "/evidence" && AssertionPath(i) != "/corrections"
  {
    hide Decimal;
    var a, b := EntityPath(i), EntityPath(j);
    assert a[|"/entities/"|..] == Decimal(i) && b[|"/entities/"|..] == Decimal(j);
    var c, d := AssertionPath(i), AssertionPath(j);
    assert c[|"/assertions/"|..] == Decimal(i) && d[|"/assertions/"|..] == Decimal(j);
    if a == b || c == d { DecimalInjective(i, j); }
    assert a[2] == 'n' && c[1] == 'a' && "/evidence"[2] == 'v' && "/corrections"[1] == 'c' && a[1] == 'e';
  }

  lemma OneAt(item: seq<LossItem>, own: string, path: string)
    requires |item| <= 1 && forall x :: x in item ==> x.path == own
    ensures LossesAt(item, path) == if own == path then item else []
  {
    if |item| == 1 {
      assert item[0] in item && item == [item[0]] && item[1..] == [];
      assert LossesAt(item, path) == (if item[0].path == path then [item[0]] else []) + LossesAt(item[1..], path);
      assert [item[0]] + [] == [item[0]];
    }
  }

  ghost predicate AnEntityPath(path: string) {
    exists j :: path == EntityPath(j)
  }

  ghost predicate AnAssertionPath(path: string) {
    exists j :: path == AssertionPath(j)
  }

  lemma {:induction false} EntityLossPaths(env: Env, caps: Capabilities, xs: seq<Entity>, i: nat)
    ensures forall x :: x in EntityLosses(env, caps, xs, i) ==> AnEntityPath(x.path)
    decreases |xs|
  {
    if xs != [] { EntityLossPaths(env, caps, xs[1..], i + 1); }
  }

  lemma {:induction false} AssertionLossPaths(env: Env, caps: Capabilities, kept: seq<Entity>, xs: seq<Assertion>, i: nat)
    ensures forall x :: x in AssertionLosses(env, caps, kept, xs, i) ==> AnAssertionPath(x.path)
    decreases |xs|
  {
    hide AssertionReason;
    if xs != [] { AssertionLossPaths(env, caps, kept, xs[1..], i + 1); }
  }

  lemma {:induction false} EntityLossesAt(env: Env, caps: Capabilities, xs: seq<Entity>, from: nat, i: nat)
    ensures LossesAt(EntityLosses(env, caps, xs, from), EntityPath(i))
         == if from <= i < from + |xs| && !EntityKept(caps, xs[i - from]) then [EntityLoss(env, xs[i - from], i)] else []
    decreases |xs|
  {
    hide EntityPath, LossesAt, EntityKept;
    if xs == [] {
      AtNone([], EntityPath(i));
    } else {
      EntityLossesAt(env, caps, xs[1..], from + 1, i);
      EntityPathsApart(from, i);
      var head := if EntityKept(caps, xs[0]) then [] else [EntityLoss(env, xs[0], from)];
      OneAt(head, EntityPath(from), EntityPath(i));
      AtConcat(head, EntityLosses(env, caps, xs[1..], from + 1), EntityPath(i));
    }
  }

  function AssertionLoss(env: Env, caps: Capabilities, kept: seq<Entity>, x: Assertion, i: nat): seq<LossItem> {
    var reason := AssertionReason(caps, kept, x);
    if reason.None? then [] else [LossItem(AssertionPath(i), reason.value, env.digest(OfAssertion(x)))]
  }

  lemma {:induction false} AssertionLossesAt(env: Env, caps: Capabilities, kept: seq<Entity>, xs: seq<Assertion>, from: nat, i: nat)
    ensures LossesAt(AssertionLosses(env, caps, kept, xs, from), AssertionPath(i))
         == if from <= i < from + |xs| then AssertionLoss(env, caps, kept, xs[i - from], i) else []
    decreases |xs|
  {
    hide AssertionPath, AssertionReason, LossesAt;
    if xs == [] {
      AtNone([], AssertionPath(i));
    } else {
      var head, tail := AssertionLoss(env, caps, kept, xs[0], from), AssertionLosses(env, caps, kept, xs[1..], from + 1);
      AssertionLossesAt(env, caps, kept, xs[1..], from + 1, i);
      OneAt(head, AssertionPath(from), AssertionPath(i));
      AtConcat(head, tail, AssertionPath(i));
      assert AssertionLosses(env, caps, kept, xs, from) == head + tail;
      EntityPathsApart(from, i);
      hide AssertionLoss, AssertionLosses;
      if i == from {
        assert LossesAt(tail, AssertionPath(i)) == [];
      } else if from < i < from + |xs| {
        assert xs[1..][i - from - 1] == xs[i - from];
      }
    }
  }

  /** Losses come out of the sort as they went in, path by path. */
  lemma ReceiptAt(env: Env, caps: Capabilities, c: ArchiveContent, path: string)
    requires |LossesAt(Losses(env, caps, c), path)| <= 1
    ensures LossesAt(ProjectContent(env, caps, c).losses, path) == LossesAt(Losses(env, caps, c), path)
  {
    hide Losses;
    FilterReordered(Losses(env, caps, c), Sort(Losses(env, caps, c), LessLoss(env)), (x: LossItem) => x.path == path);
  }

  /** The collective items for evidence and corrections concern no other path. */
  lemma OthersApart(env: Env, caps: Capabilities, c: ArchiveContent, path: string)
    requires path != "/evidence" && path != "/corrections"
    ensures var kept := Kept(c.entities, caps);
      LossesAt(Losses(env, caps, c), path) == LossesAt(EntityLosses(env, caps, c.entities, 0), path)
                                              + LossesAt(AssertionLosses(env, caps, kept, c.assertions, 0), path)
  {
    hide EntityLosses, AssertionLosses, KeptAssertions, RefersToEvidence;
    var kept := Kept(c.entities, caps);
    var assertions := KeptAssertions(caps, kept, c.assertions);
    var a, b := EntityLosses(env, caps, c.entities, 0), AssertionLosses(env, caps, kept, c.assertions, 0);
    var e := if !caps.preservesEvidence && RefersToEvidence(assertions) then [LossItem("/evidence", EvidenceOmitted, env.digest(OfEvidence(c.evidence)))] else [];
    var f := if !caps.preservesCorrections && c.corrections != [] then [LossItem("/corrections", CorrectionsOmitted, env.digest(OfCorrections(c.corrections)))] else [];
    AtNone(e, path);
    AtNone(f, path);
    AtConcat(a, b, path);
    AtConcat(a + b, e, path);
    AtConcat(a + b + e, f, path);
  }

  lemma EntityReceipt(env: Env, caps: Capabilities, c: ArchiveContent, i: nat)
    requires i < |c.entities|
    ensures LossesAt(ProjectContent(env, caps, c).losses, EntityPath(i)) == if EntityKept(caps, c.entities[i]) then [] else [EntityLoss(env, c.entities[i], i)]
  {
    hide EntityLosses, AssertionLosses, LossesAt, Losses, ProjectContent, EntityPath, AssertionPath, Kept, EntityKept, EntityLoss;
    var kept := Kept(c.entities, caps);
    var b := AssertionLosses(env, caps, kept, c.assertions, 0);
    EntityLossesAt(env, caps, c.entities, 0, i);
    AssertionLossPaths(env, caps, kept, c.assertions, 0);
    forall j ensures EntityPath(i) != AssertionPath(j) && EntityPath(i) != "/evidence" && EntityPath(i) != "/corrections" { EntityPathsApart(i, j); }
    AtNone(b, EntityPath(i));
    EntityPathsApart(i, 0);
    OthersApart(env, caps, c, EntityPath(i));
    ReceiptAt(env, caps, c, EntityPath(i));
  }

  /** Each archived entity is kept, or the receipt has exactly its loss item. */
  lemma EntityAccounted(env: Env, caps: Capabilities, c: ArchiveContent, i: nat)
    requires i < |c.entities|
    ensures var p := ProjectContent(env, caps, c);
      && (c.entities[i] in p.entities <==> c.entities[i].kind in caps.entityKinds)
      && LossesAt(p.losses, EntityPath(i)) == if c.entities[i] in p.entities then [] else [EntityLoss(env, c.entities[i], i)]
  {
    EntityReceipt(env, caps, c, i);
    hide Losses, LossesAt, KeptAssertions, EntityPath, EntityLoss;
  }

  lemma AssertionReceipt(env: Env, caps: Capabilities, c: ArchiveContent, i: nat)
    requires i < |c.assertions|
    ensures LossesAt(ProjectContent(env, caps, c).losses, AssertionPath(i)) == AssertionLoss(env, caps, Kept(c.entities, caps), c.assertions[i], i)
  {
    hide EntityLosses, AssertionLosses, LossesAt, Losses, ProjectContent, EntityPath, AssertionPath, Kept, EntityKept;
    var kept := Kept(c.entities, caps);
    var a := EntityLosses(env, caps, c.entities, 0);
    EntityLossPaths(env, caps, c.entities, 0);
    AssertionLossesAt(env, caps, kept, c.assertions, 0, i);
    forall j ensures AssertionPath(i) != EntityPath(j) && AssertionPath(i) != "/evidence" && AssertionPath(i) != "/corrections" {
      EntityPathsApart(j, i);
      EntityPathsApart(i, j);
    }
    AtNone(a, AssertionPath(i));
    EntityPathsApart(i, 0);
    OthersApart(env, caps, c, AssertionPath(i));
    assert |AssertionLoss(env, caps, kept, c.assertions[i], i)| <= 1;
    hide AssertionLoss;
    ReceiptAt(env, caps, c, AssertionPath(i));
  }

  /** Each archived assertion is kept, or the receipt has exactly its loss item; a kept one has both endpoints kept. */
  lemma AssertionAccounted(env: Env, caps: Capabilities, c: ArchiveContent, i: nat)
    requires i < |c.assertions|
    ensures var p, x := ProjectContent(env, caps, c), c.assertions[i];
      && (x in p.assertions <==> x.relationship in caps.relationshipKinds && x.assertionKind in caps.assertionKinds
                                 && HasId(p.entities, x.sourceEntityId) && HasId(p.entities, x.targetEntityId))
      && LossesAt(p.losses, AssertionPath(i)) == AssertionLoss(env, caps, p.entities, x, i)
      && (x in p.assertions <==> LossesAt(p.losses, AssertionPath(i)) == [])
  {
    AssertionReceipt(env, caps, c, i);
    hide Losses, LossesAt, Kept, HasId, AssertionPath;
  }

  // ----- when nothing is lost -----

  ghost predicate AllKept(p: Projection, c: ArchiveContent) {
    && (forall x :: x in c.entities ==> x in p.entities)
    && (forall x :: x in c.assertions ==> x in p.assertions)
    && (forall x :: x in c.corrections ==> x in p.corrections)
    && (forall x :: x in c.evidence && Referenced(c.assertions, EvidenceKey(x)) ==> x in p.evidence)
  }

  /** Every correction's assertion id is the id of an archived assertion. */
  ghost predicate CorrectionsPlaced(c: ArchiveContent) {
    forall x :: x in c.corrections ==> HasAssertionId(c.assertions, x.assertionId)
  }

  lemma {:induction false} NoEntityLoss(env: Env, caps: Capabilities, xs: seq<Entity>, i: nat)
    ensures EntityLosses(env, caps, xs, i) == [] <==> forall x :: x in xs ==> EntityKept(caps, x)
    decreases |xs|
  {
    if xs != [] {
      assert xs == [xs[0]] + xs[1..];
      NoEntityLoss(env, caps, xs[1..], i + 1);
    }
  }

  lemma {:induction false} NoAssertionLoss(env: Env, caps: Capabilities, kept: seq<Entity>, xs: seq<Assertion>, i: nat)
    ensures AssertionLosses(env, caps, kept, xs, i) == [] <==> forall x :: x in xs ==> AssertionReason(caps, kept, x).None?
    decreases |xs|
  {
    if xs != [] {
      assert xs == [xs[0]] + xs[1..];
      hide AssertionReason;
      NoAssertionLoss(env, caps, kept, xs[1..], i + 1);
    }
  }

  lemma {:induction false} FilterAll<T(!new)>(xs: seq<T>, keep: T -> bool)
    requires forall x :: x in xs ==> keep(x)
    ensures Filter(xs, keep) == xs
  {
    if xs != [] {
      assert xs == [xs[0]] + xs[1..];
      FilterAll(xs[1..], keep);
    }
  }

  /** Every evidence reference of an archived assertion leads to an archived evidence item. */
  ghost predicate EvidencePresent(c: ArchiveContent) {
    forall x, r :: x in c.assertions && r in x.evidence ==> EvidenceFound(c, r)
  }

  ghost predicate EvidenceFound(c: ArchiveContent, r: EvidenceReference) {
    exists e :: e in c.evidence && EvidenceKey(e) == ReferenceKey(r)
  }

  lemma ReferencedMember(xs: seq<Assertion>, x: Assertion, r: EvidenceReference)
    requires x in xs && r in x.evidence
    ensures Referenced(xs, ReferenceKey(r))
  {
    var i :| 0 <= i < |xs| && xs[i] == x;
    var j :| 0 <= j < |x.evidence| && x.evidence[j] == r;
  }

  lemma EvidenceNotOmitted(env: Env, caps: Capabilities, c: ArchiveContent)
    requires EvidencePresent(c) && AllKept(ProjectContent(env, caps, c), c)
    ensures caps.preservesEvidence || !RefersToEvidence(KeptAssertions(caps, Kept(c.entities, caps), c.assertions))
  {
    hide Losses, AssertionReason, Kept;
    var assertions := KeptAssertions(caps, Kept(c.entities, caps), c.assertions);
    if RefersToEvidence(assertions) {
      var i :| 0 <= i < |assertions| && assertions[i].evidence != [];
      var x := assertions[i];
      var r := x.evidence[0];
      assert x in assertions && x in c.assertions && r in x.evidence;
      ReferencedMember(c.assertions, x, r);
      assert EvidenceFound(c, r);
      var e :| e in c.evidence && EvidenceKey(e) == ReferenceKey(r);
      assert e in ProjectContent(env, caps, c).evidence;
    }
  }

  lemma KeptMeansLossless(env: Env, caps: Capabilities, c: ArchiveContent)
    requires EvidencePresent(c) && AllKept(ProjectContent(env, caps, c), c)
    ensures Losses(env, caps, c) == []
  {
    var kept := Kept(c.entities, caps);
    NoEntityLoss(env, caps, c.entities, 0);
    NoAssertionLoss(env, caps, kept, c.assertions, 0);
    EvidenceNotOmitted(env, caps, c);
    hide EntityLosses, AssertionLosses, AssertionReason, RefersToEvidence, HasAssertionId, Referenced;
    assert |c.corrections| > 0 ==> c.corrections[0] in ProjectContent(env, caps, c).corrections;
  }

  lemma LosslessKeeps(env: Env, caps: Capabilities, c: ArchiveContent)
    requires Losses(env, caps, c) == []
    ensures AllKept(ProjectContent(env, caps, c), c) <==> CorrectionsPlaced(c)
  {
    var kept := Kept(c.entities, caps);
    NoEntityLoss(env, caps, c.entities, 0);
    NoAssertionLoss(env, caps, kept, c.assertions, 0);
    FilterAll(c.entities, x => EntityKept(caps, x));
    FilterAll(c.assertions, x => AssertionReason(caps, kept, x).None?);
    assert kept == c.entities && KeptAssertions(caps, kept, c.assertions) == c.assertions;
    NothingReferenced(c.assertions);
    hide Losses, EntityLosses, AssertionLosses, AssertionReason, RefersToEvidence, HasAssertionId, Referenced;
  }

  lemma NothingReferenced(xs: seq<Assertion>)
    ensures RefersToEvidence(xs) || forall k :: !Referenced(xs, k)
  {
  }

  /**
    A receipt is lossless exactly when everything is kept, provided every correction names the id of an archived
    assertion; without that proviso a lossless receipt hides a dropped correction.
   */
  lemma LosslessIff(env: Env, caps: Capabilities, c: ArchiveContent)
    requires EvidencePresent(c)
    ensures var p := ProjectContent(env, caps, c);
      && (AllKept(p, c) ==> p.lossless)
      && (p.lossless ==> (AllKept(p, c) <==> CorrectionsPlaced(c)))
  {
    hide AllKept, Losses, EvidencePresent, CorrectionsPlaced;
    if AllKept(ProjectContent(env, caps, c), c) { KeptMeansLossless(env, caps, c); }
    if Losses(env, caps, c) == [] { LosslessKeeps(env, caps, c); }
  }

  lemma {:induction false} ReferencesPresent(t: Table<Evidence>, refs: seq<EvidenceReference>)
    requires CheckReferences(t, refs).None?
    ensures forall r :: r in refs ==> Has(t, ReferenceKey(r))
  {
    if refs != [] {
      assert refs == [refs[0]] + refs[1..];
      ReferencesPresent(t, refs[1..]);
    }
  }

  lemma ContentReferences(env: Env, p: Ledger, x: Assertion)
    requires CheckAssertionContent(env, p, x).None?
    ensures forall r :: r in x.evidence ==> Has(p.evidence, ReferenceKey(r))
  {
    hide CheckReferences;
    ReferencesPresent(p.evidence, x.evidence);
  }

  /** In the archive of a valid ledger every evidence reference leads to an item. */
  lemma ArchiveEvidencePresent(env: Env, l: Ledger)
    requires Valid(env, l)
    ensures EvidencePresent(Content(env, l))
  {
    hide Admitted, Owners, TableOk, Check, CheckAssertionContent, Has, SortedById;
    SortedMembers(env, l.assertions, l.sequence, AssertionKey, AssertionId);
    SortedMembers(env, l.evidence, l.sequence, EvidenceKey, EvidenceKey);
    var c := Content(env, l);
    forall x, r | x in c.assertions && r in x.evidence ensures EvidenceFound(c, r) {
      var e := EntryOf(l.assertions, l.sequence, AssertionKey, x);
      AssertionAdmission(env, l, e);
      AssertionChecked(env, At(l, e.sequence - 1), x);
      ContentReferences(env, At(l, e.sequence - 1), x);
      VisibleHas(l.evidence, l.sequence, EvidenceKey, e.sequence - 1, ReferenceKey(r));
      var v :| v in Values(l.evidence) && EvidenceKey(v) == ReferenceKey(r);
      assert v in c.evidence;
    }
  }

  lemma VisibleHas<T(!new)>(t: Table<T>, n: nat, keyOf: T -> string, s: nat, k: string)
    requires TableOk(t, n, keyOf) && Has(Visible(t, s), k)
    ensures exists v :: v in Values(t) && keyOf(v) == k
  {
    var u := Visible(t, s);
    var i :| 0 <= i < |u| && u[i].key == k;
    assert u[i] in t;
    var j :| 0 <= j < |t| && t[j] == u[i];
    assert Values(t)[j] in Values(t);
  }

  /** Projection accounting, for every snapshot of every valid ledger and every set of capabilities. */
  lemma ProjectionLossless(env: Env, l: Ledger, caps: Capabilities, n: nat)
    requires Valid(env, l) && n <= l.sequence
    ensures var c := Content(env, At(l, n));
      && Project(env, l, caps, n) == Ok(ProjectContent(env, caps, c))
      && (AllKept(ProjectContent(env, caps, c), c) ==> ProjectContent(env, caps, c).lossless)
      && (ProjectContent(env, caps, c).lossless ==> (AllKept(ProjectContent(env, caps, c), c) <==> CorrectionsPlaced(c)))
  {
    hide Valid, At, Content, ProjectContent, AllKept, CorrectionsPlaced, EvidencePresent;
    PrefixValid(env, l, n);
    ArchiveEvidencePresent(env, At(l, n));
    LosslessIff(env, caps, Content(env, At(l, n)));
  }

  /** A projection of a snapshot, its receipt included, is the same after any further appends. */
  lemma ProjectionStable(env: Env, l: Ledger, events: seq<Event>, caps: Capabilities, n: nat)
    requires n <= l.sequence
    ensures Project(env, Replay(env, l, events), caps, n) == Project(env, l, caps, n) && Project(env, l, caps, n).Ok?
  {
    hide At, Replay, Content, ProjectContent;
    ReplayKeepsSnapshots(env, l, events, n);
  }

  // ----- what a projection holds -----

  /** The kept assertions have one with a reference to this evidence revision. */
  ghost predicate RefersTo(xs: seq<Assertion>, e: Evidence) {
    exists x, r :: x in xs && r in x.evidence && r.evidenceId + "@" + r.revision == e.id + "@" + e.revision
  }

  ghost predicate OfKept(xs: seq<Assertion>, c: Correction) {
    exists x :: x in xs && x.id == c.assertionId
  }

  ghost predicate EndKept(xs: seq<Entity>, id: string) {
    exists x :: x in xs && x.id == id
  }

  /** Both kinds are supported and both ends are kept. */
  ghost predicate Carried(caps: Capabilities, kept: seq<Entity>, x: Assertion) {
    x.relationship in caps.relationshipKinds && x.assertionKind in caps.assertionKinds && EndKept(kept, x.sourceEntityId) && EndKept(kept, x.targetEntityId)
  }

  /** What of the archive is kept, item by item. */
  ghost predicate KeepsExactly(caps: Capabilities, c: ArchiveContent, p: Projection) {
    && (forall x :: x in p.entities <==> x in c.entities && x.kind in caps.entityKinds)
    && (forall x :: x in p.assertions <==> x in c.assertions && Carried(caps, p.entities, x))
    && (forall e :: e in p.evidence <==> caps.preservesEvidence && e in c.evidence && RefersTo(p.assertions, e))
    && (forall d :: d in p.corrections <==> caps.preservesCorrections && d in c.corrections && OfKept(p.assertions, d))
  }

  lemma ReferencedAgrees(xs: seq<Assertion>, e: Evidence)
    ensures Referenced(xs, EvidenceKey(e)) <==> RefersTo(xs, e)
  {
    if Referenced(xs, EvidenceKey(e)) {
      var i, j :| 0 <= i < |xs| && 0 <= j < |xs[i].evidence| && ReferenceKey(xs[i].evidence[j]) == EvidenceKey(e);
      assert xs[i] in xs && xs[i].evidence[j] in xs[i].evidence;
    }
    if x, r :| x in xs && r in x.evidence && r.evidenceId + "@" + r.revision == e.id + "@" + e.revision { ReferencedMember(xs, x, r); }
  }

  lemma KeptIdsAgree(entities: seq<Entity>, assertions: seq<Assertion>, id: string)
    ensures HasId(entities, id) <==> EndKept(entities, id)
    ensures HasAssertionId(assertions, id) <==> exists x :: x in assertions && x.id == id
  {
    if x :| x in entities && x.id == id { var i :| 0 <= i < |entities| && entities[i] == x; }
    if x :| x in assertions && x.id == id { var i :| 0 <= i < |assertions| && assertions[i] == x; }
  }

  lemma OfKeptAgrees(xs: seq<Assertion>, c: Correction)
    ensures HasAssertionId(xs, c.assertionId) <==> OfKept(xs, c)
  {
    KeptIdsAgree([], xs, c.assertionId);
  }

  /** The receipt's items for all the evidence, and for all the corrections. */
  ghost predicate CollectiveItems(env: Env, caps: Capabilities, c: ArchiveContent, p: Projection) {
    && LossesAt(p.losses, "/evidence") == (if !caps.preservesEvidence && (exists x :: x in p.assertions && |x.evidence| > 0)
                                           then [LossItem("/evidence", EvidenceOmitted, env.digest(OfEvidence(c.evidence)))] else [])
    && LossesAt(p.losses, "/corrections") == (if !caps.preservesCorrections && |c.corrections| > 0
                                              then [LossItem("/corrections", CorrectionsOmitted, env.digest(OfCorrections(c.corrections)))] else [])
  }

  /** A receipt is lossless exactly when it has no item; its digests are those of the archive and of what was kept. */
  ghost predicate Stamped(env: Env, c: ArchiveContent, p: Projection) {
    && (p.lossless <==> |p.losses| == 0)
    && p.sourceDigest == env.digest(OfArchive(c))
    && p.digest == env.digest(OfProjection(p.entities, p.assertions, p.evidence, p.corrections))
  }

  lemma EntitiesKept(caps: Capabilities, c: ArchiveContent, x: Entity)
    ensures x in Kept(c.entities, caps) <==> x in c.entities && x.kind in caps.entityKinds
  {
  }

  lemma AssertionsKept(caps: Capabilities, kept: seq<Entity>, xs: seq<Assertion>, x: Assertion)
    ensures x in KeptAssertions(caps, kept, xs) <==> x in xs && Carried(caps, kept, x)
  {
    KeptIdsAgree(kept, [], x.sourceEntityId);
    KeptIdsAgree(kept, [], x.targetEntityId);
    hide HasId, EndKept;
  }

  lemma EvidenceKept(xs: seq<Assertion>, items: seq<Evidence>, e: Evidence)
    ensures e in Filter(items, x => Referenced(xs, EvidenceKey(x))) <==> e in items && RefersTo(xs, e)
  {
    ReferencedAgrees(xs, e);
    hide Referenced, RefersTo, EvidenceKey;
  }

  lemma CorrectionsKept(xs: seq<Assertion>, items: seq<Correction>, d: Correction)
    ensures d in Filter(items, (x: Correction) => HasAssertionId(xs, x.assertionId)) <==> d in items && OfKept(xs, d)
  {
    OfKeptAgrees(xs, d);
    hide HasAssertionId, OfKept;
  }

  lemma KeepsByItem(env: Env, caps: Capabilities, c: ArchiveContent)
    ensures KeepsExactly(caps, c, ProjectContent(env, caps, c))
  {
    hide Losses, RefersTo, OfKept, EndKept, Carried, Kept, KeptAssertions, Filter, Sort, LossesAt;
    var p := ProjectContent(env, caps, c);
    forall x ensures x in p.entities <==> x in c.entities && x.kind in caps.entityKinds { EntitiesKept(caps, c, x); }
    forall x ensures x in p.assertions <==> x in c.assertions && Carried(caps, p.entities, x) { AssertionsKept(caps, p.entities, c.assertions, x); }
    forall e ensures e in p.evidence <==> caps.preservesEvidence && e in c.evidence && RefersTo(p.assertions, e) { EvidenceKept(p.assertions, c.evidence, e); }
    forall d ensures d in p.corrections <==> caps.preservesCorrections && d in c.corrections && OfKept(p.assertions, d) {
      CorrectionsKept(p.assertions, c.corrections, d);
    }
  }

  lemma RefersAgrees(xs: seq<Assertion>)
    ensures RefersToEvidence(xs) <==> exists x :: x in xs && |x.evidence| > 0
  {
    if x :| x in xs && |x.evidence| > 0 { var i :| 0 <= i < |xs| && xs[i] == x; }
  }

  lemma AtFour(a: seq<LossItem>, b: seq<LossItem>, e: seq<LossItem>, f: seq<LossItem>, path: string)
    requires LossesAt(a, path) == [] && LossesAt(b, path) == []
    ensures LossesAt(a + b + e + f, path) == LossesAt(e, path) + LossesAt(f, path)
  {
    AtConcat(a, b, path);
    AtConcat(a + b, e, path);
    AtConcat(a + b + e, f, path);
    hide LossesAt;
    assert [] + LossesAt(e, path) == LossesAt(e, path);
  }

  /** The two collective items are the last two of the losses; no other item has their paths. */
  lemma CollectiveAt(env: Env, caps: Capabilities, c: ArchiveContent)
    ensures var kept := KeptAssertions(caps, Kept(c.entities, caps), c.assertions);
      && LossesAt(Losses(env, caps, c), "/evidence") == (if !caps.preservesEvidence && RefersToEvidence(kept)
                                                         then [LossItem("/evidence", EvidenceOmitted, env.digest(OfEvidence(c.evidence)))] else [])
      && LossesAt(Losses(env, caps, c), "/corrections") == (if !caps.preservesCorrections && c.corrections != []
                                                            then [LossItem("/corrections", CorrectionsOmitted, env.digest(OfCorrections(c.corrections)))] else [])
  {
    hide EntityLosses, AssertionLosses, KeptAssertions, RefersToEvidence, LossesAt, EntityPath, AssertionPath, Kept;
    var entities := Kept(c.entities, caps);
    var kept := KeptAssertions(caps, entities, c.assertions);
    var a, b := EntityLosses(env, caps, c.entities, 0), AssertionLosses(env, caps, entities, c.assertions, 0);
    var e := if !caps.preservesEvidence && RefersToEvidence(kept) then [LossItem("/evidence", EvidenceOmitted, env.digest(OfEvidence(c.evidence)))] else [];
    var f := if !caps.preservesCorrections && c.corrections != [] then [LossItem("/corrections", CorrectionsOmitted, env.digest(OfCorrections(c.corrections)))] else [];
    EntityLossPaths(env, caps, c.entities, 0);
    AssertionLossPaths(env, caps, entities, c.assertions, 0);
    forall j ensures EntityPath(j) != "/evidence" && EntityPath(j) != "/corrections" && AssertionPath(j) != "/evidence" && AssertionPath(j) != "/corrections" {
      EntityPathsApart(j, j);
    }
    PathsApart();
    AtNone(a, "/evidence");
    AtNone(b, "/evidence");
    AtNone(a, "/corrections");
    AtNone(b, "/corrections");
    AtFour(a, b, e, f, "/evidence");
    AtFour(a, b, e, f, "/corrections");
    OneAt(e, "/evidence", "/evidence");
    OneAt(e, "/evidence", "/corrections");
    OneAt(f, "/corrections", "/evidence");
    OneAt(f, "/corrections", "/corrections");
    assert Losses(env, caps, c) == a + b + e + f;
  }

  lemma PathsApart()
    ensures "/evidence" != "/corrections"
  {
    assert "/evidence"[1] != "/corrections"[1];
  }

  lemma CollectiveItemsRight(env: Env, caps: Capabilities, c: ArchiveContent)
    ensures CollectiveItems(env, caps, c, ProjectContent(env, caps, c))
  {
    hide ProjectContent, Losses, LossesAt, RefersToEvidence, KeptAssertions, Kept;
    var p := ProjectContent(env, caps, c);
    ProjectedAssertions(env, caps, c);
    CollectiveAt(env, caps, c);
    ReceiptAt(env, caps, c, "/evidence");
    ReceiptAt(env, caps, c, "/corrections");
    RefersAgrees(p.assertions);
  }

  lemma ProjectedAssertions(env: Env, caps: Capabilities, c: ArchiveContent)
    ensures ProjectContent(env, caps, c).assertions == KeptAssertions(caps, Kept(c.entities, caps), c.assertions)
  {
    hide Losses, Kept, KeptAssertions;
  }

  lemma StampedRight(env: Env, caps: Capabilities, c: ArchiveContent)
    ensures Stamped(env, c, ProjectContent(env, caps, c))
  {
    hide Losses, Kept, KeptAssertions;
  }

  /** What a projection keeps, item by item, what its receipt says collectively, and its digests. */
  lemma ProjectionMeans(env: Env, caps: Capabilities, c: ArchiveContent)
    ensures var p := ProjectContent(env, caps, c); KeepsExactly(caps, c, p) && CollectiveItems(env, caps, c, p) && Stamped(env, c, p)
  {
    hide KeepsExactly, CollectiveItems, Stamped, ProjectContent;
    KeepsByItem(env, caps, c);
    CollectiveItemsRight(env, caps, c);
    StampedRight(env, caps, c);
  }

  /** The one item for an assertion that is left out: its place, the first reason that applies, its digest. */
  ghost predicate ItemFor(env: Env, caps: Capabilities, x: Assertion, i: nat, item: LossItem) {
    && (exists digits :: IsNumeral(digits) && Value(digits) == i && item.path == "/assertions/" + digits)
    && item.canonicalDigest == env.digest(OfAssertion(x))
    && (x.relationship !in caps.relationshipKinds ==> item.reason.UnsupportedRelationshipKind?)
    && (x.relationship in caps.relationshipKinds && x.assertionKind !in caps.assertionKinds ==> item.reason.UnsupportedAssertionKind?)
    && (x.relationship in caps.relationshipKinds && x.assertionKind in caps.assertionKinds ==> item.reason.UnsupportedEntityKind?)
  }

  ghost predicate EntityItemFor(env: Env, x: Entity, i: nat, item: LossItem) {
    && (exists digits :: IsNumeral(digits) && Value(digits) == i && item.path == "/entities/" + digits)
    && item.canonicalDigest == env.digest(OfEntity(x)) && item.reason.UnsupportedEntityKind?
  }

  lemma LossSays(env: Env, caps: Capabilities, kept: seq<Entity>, x: Assertion, i: nat)
    ensures forall item :: item in AssertionLoss(env, caps, kept, x, i) ==> ItemFor(env, caps, x, i, item)
    ensures |AssertionLoss(env, caps, kept, x, i)| <= 1
  {
    ValueOfDecimal(i);
    hide Decimal, Value, HasId, IsNumeral;
  }

  lemma EntityLossSays(env: Env, x: Entity, i: nat)
    ensures EntityItemFor(env, x, i, EntityLoss(env, x, i))
  {
    ValueOfDecimal(i);
    hide Decimal, Value, IsNumeral;
  }

  /** The receipt's item for an entity or assertion that is left out, and no item for one that is kept. */
  lemma ReceiptMeans(env: Env, caps: Capabilities, c: ArchiveContent)
    ensures var p := ProjectContent(env, caps, c);
      && (forall i :: 0 <= i < |c.entities| && c.entities[i] !in p.entities ==> exists item :: item in p.losses && EntityItemFor(env, c.entities[i], i, item))
      && (forall i :: 0 <= i < |c.assertions| && c.assertions[i] !in p.assertions ==> exists item :: item in p.losses && ItemFor(env, caps, c.assertions[i], i, item))
  {
    var p := ProjectContent(env, caps, c);
    hide ProjectContent, ItemFor, EntityItemFor, EntityLoss, AssertionLoss, HasId;
    forall i | 0 <= i < |c.entities| && c.entities[i] !in p.entities
      ensures exists item :: item in p.losses && EntityItemFor(env, c.entities[i], i, item)
    {
      EntityAccounted(env, caps, c, i);
      EntityLossSays(env, c.entities[i], i);
      assert EntityLoss(env, c.entities[i], i) in LossesAt(p.losses, EntityPath(i));
    }
    forall i | 0 <= i < |c.assertions| && c.assertions[i] !in p.assertions
      ensures exists item :: item in p.losses && ItemFor(env, caps, c.assertions[i], i, item)
    {
      AssertionAccounted(env, caps, c, i);
      LossSays(env, caps, p.entities, c.assertions[i], i);
      assert LossesAt(p.losses, AssertionPath(i))[0] in LossesAt(p.losses, AssertionPath(i));
    }
  }

  ghost predicate IsReason(r: Reason, name: string) {
    && (r.UnsupportedEntityKind? ==> name == "unsupported-entity-kind")
    && (r.UnsupportedRelationshipKind? ==> name == "unsupported-relationship-kind")
    && (r.UnsupportedAssertionKind? ==> name == "unsupported-assertion-kind")
    && (r.EvidenceOmitted? ==> name == "evidence-omitted") && (r.CorrectionsOmitted? ==> name == "corrections-omitted")
  }

  /** By path, then by the name of the reason. */
  ghost predicate ListedBefore(env: Env, a: LossItem, b: LossItem) {
    env.less(a.path, b.path) || (a.path == b.path && exists x, y :: IsReason(a.reason, x) && IsReason(b.reason, y) && env.less(x, y))
  }

  lemma LossOrderWeak(env: Env)
    requires StrictTotal(env.less)
    ensures StrictWeak(LessLoss(env))
  {
    hide ReasonName, StrictTotal, StrictWeak;
    var byReason := (a: LossItem, b: LossItem) => if ReasonName(a.reason) != ReasonName(b.reason) then env.less(ReasonName(a.reason), ReasonName(b.reason)) else false;
    var never := (a: LossItem, b: LossItem) => false;
    assert StrictWeak(never) by { NeverWeak(never); }
    RefinedWeak(byReason, (a: LossItem) => ReasonName(a.reason), env.less, never);
    TotalIrreflexive(env);
    RefinedWeak(LessLoss(env), (a: LossItem) => a.path, env.less, byReason);
  }

  lemma NeverWeak(never: (LossItem, LossItem) -> bool)
    requires forall a, b :: !never(a, b)
    ensures StrictWeak(never)
  {
  }

  lemma TotalIrreflexive(env: Env)
    requires StrictTotal(env.less)
    ensures forall x :: !env.less(x, x)
  {
  }

  lemma ListedAgrees(env: Env, a: LossItem, b: LossItem)
    requires StrictTotal(env.less) && ListedBefore(env, a, b)
    ensures LessLoss(env)(a, b)
  {
  }

  /** No item of a receipt comes before an earlier one. */
  lemma LossesOrdered(env: Env, caps: Capabilities, c: ArchiveContent, i: nat, j: nat)
    requires StrictTotal(env.less) && i < j < |ProjectContent(env, caps, c).losses|
    ensures !ListedBefore(env, ProjectContent(env, caps, c).losses[j], ProjectContent(env, caps, c).losses[i])
  {
    hide Losses, Kept, KeptAssertions, LessLoss, ListedBefore;
    var losses := ProjectContent(env, caps, c).losses;
    var always := (a: LossItem, b: LossItem) => true;
    LossOrderWeak(env);
    SortStable(Losses(env, caps, c), LessLoss(env), always);
    assert Before(LessLoss(env), always, losses[i], losses[j]);
    if ListedBefore(env, losses[j], losses[i]) { ListedAgrees(env, losses[j], losses[i]); }
  }
}
