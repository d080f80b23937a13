/** What each append asks of its record and of the ledger, fact by fact, and what it leaves behind. */
module LineageRules {
  import opened Wrappers
  import opened LineageLedger
  import opened LineageRebuild

  // ----- facts about a record alone -----

  /** White space and line ends of ECMAScript, by code point. */
  predicate Blank(c: char) {
    var n := c as int;
    9 <= n <= 13 || n == 32 || n == 160 || n == 5760 || 8192 <= n <= 8202 || n == 8232 || n == 8233 || n == 8239 || n == 8287
    || n == 12288 || n == 65279
  }

  /** Not empty, and trimming changes nothing. */
  ghost predicate Identity(s: string) {
    |s| > 0 && !Blank(s[0]) && !Blank(s[|s| - 1])
  }

  predicate DigitAt(s: string, i: nat) {
    i < |s| && '0' <= s[i] <= '9'
  }

  /** `YYYY-MM-DDThh:mm:ssZ`, with or without milliseconds, that the date parser reads. */
  ghost predicate Timestamp(env: Env, s: string) {
    && (|s| == 20 || (|s| == 24 && s[19] == '.' && DigitAt(s, 20) && DigitAt(s, 21) && DigitAt(s, 22)))
    && UpToSeconds(s) && s[|s| - 1] == 'Z' && env.parsesDate(s)
  }

  predicate UpToSeconds(s: string)
    requires |s| >= 19
  {
    && DigitAt(s, 0) && DigitAt(s, 1) && DigitAt(s, 2) && DigitAt(s, 3) && s[4] == '-' && DigitAt(s, 5) && DigitAt(s, 6)
    && s[7] == '-' && DigitAt(s, 8) && DigitAt(s, 9) && s[10] == 'T' && DigitAt(s, 11) && DigitAt(s, 12) && s[13] == ':'
    && DigitAt(s, 14) && DigitAt(s, 15) && s[16] == ':' && DigitAt(s, 17) && DigitAt(s, 18)
  }

  lemma ShortShape(s: string)
    ensures MatchesShape(s, "dddd-dd-ddTdd:dd:ddZ") <==> |s| == 20 && UpToSeconds(s) && s[19] == 'Z'
  {
  }

  lemma LongShape(s: string)
    ensures MatchesShape(s, "dddd-dd-ddTdd:dd:dd.dddZ")
      <==> |s| == 24 && s[19] == '.' && DigitAt(s, 20) && DigitAt(s, 21) && DigitAt(s, 22) && UpToSeconds(s) && s[23] == 'Z'
  {
  }

  /** The member is there and is not the empty text. */
  ghost predicate Given(o: Option<string>) {
    exists s :: o == Some(s) && |s| > 0
  }

  lemma IdentityAgrees(s: string)
    ensures IsIdentity(s) <==> Identity(s)
  {
    forall c: char ensures IsSpace(c) <==> Blank(c) { BlankAgrees(c); }
  }

  lemma BlankAgrees(c: char)
    ensures IsSpace(c) <==> Blank(c)
  {
    assert '\U{000B}' as int == 11 && '\U{000C}' as int == 12 && '\t' as int == 9 && '\n' as int == 10 && '\r' as int == 13;
  }

  lemma TimestampAgrees(env: Env, s: string)
    ensures IsTimestamp(env, s) <==> Timestamp(env, s)
  {
    ShortShape(s);
    LongShape(s);
    hide MatchesShape, UpToSeconds;
  }

  lemma GivenAgrees(o: Option<string>)
    ensures Truthy(o) <==> Given(o)
  {
    assert o.Some? && o.value != "" ==> o == Some(o.value);
  }

  // ----- facts about the ledger -----

  /** The table holds this value under this key. */
  ghost predicate Stored<T(!new)>(t: Table<T>, key: string, value: T) {
    exists e :: e in t && e.key == key && e.value == value
  }

  ghost predicate Known<T(!new)>(t: Table<T>, key: string) {
    exists value :: Stored(t, key, value)
  }

  lemma KnownAgrees<T(!new)>(t: Table<T>, key: string)
    ensures Has(t, key) <==> Known(t, key)
    ensures Has(t, key) ==> Get(t, key).Some? && Stored(t, key, Get(t, key).value)
  {
    if Has(t, key) {
      assert Stored(t, key, Get(t, key).value);
    }
    if value :| Stored(t, key, value) {
      var e :| e in t && e.key == key && e.value == value;
      var i :| 0 <= i < |t| && t[i] == e;
      assert t[i].key == key;
    }
  }

  lemma OnlyOne<T(!new)>(t: Table<T>, n: nat, keyOf: T -> string, key: string)
    requires TableOk(t, n, keyOf)
    ensures forall value :: Stored(t, key, value) <==> Get(t, key) == Some(value)
  {
    KnownAgrees(t, key);
    forall value | Stored(t, key, value) ensures Get(t, key) == Some(value) {
      assert Known(t, key);
      var e :| e in t && e.key == key && e.value == value;
      var i :| 0 <= i < |t| && t[i] == e;
      var f :| f in t && f.key == key && f.value == Get(t, key).value;
      var j :| 0 <= j < |t| && t[j] == f;
      assert i == j;
    }
  }

  // ----- entities, agents, activities, evidence -----

  ghost predicate EntityNamed(x: Entity) {
    Identity(x.id)
  }

  ghost predicate EntityVersioned(x: Entity) {
    Identity(x.schemaId) && Identity(x.schemaVersion)
  }

  ghost predicate EntityAccepted(env: Env, l: Ledger, x: Entity) {
    EntityNamed(x) && !x.kind.OtherKind? && EntityVersioned(x) && Timestamp(env, x.createdAt) && !Known(l.entities, x.id)
  }

  ghost predicate EntityRefused(env: Env, l: Ledger, x: Entity, code: Code) {
    match code
    case IdentityRequired => !EntityNamed(x) || (!x.kind.OtherKind? && !EntityVersioned(x))
    case ValueInvalid => EntityNamed(x) && (x.kind.OtherKind? || (EntityVersioned(x) && !Timestamp(env, x.createdAt)))
    case IdentityDuplicate =>
      EntityNamed(x) && !x.kind.OtherKind? && EntityVersioned(x) && Timestamp(env, x.createdAt) && Known(l.entities, x.id)
    case _ => false
  }

  lemma EntityVerdict(env: Env, l: Ledger, x: Entity)
    ensures CheckEntity(env, l, x).None? <==> EntityAccepted(env, l, x)
    ensures forall code :: CheckEntity(env, l, x) == Some(code) <==> EntityRefused(env, l, x, code)
  {
    IdentityAgrees(x.id);
    IdentityAgrees(x.schemaId);
    IdentityAgrees(x.schemaVersion);
    TimestampAgrees(env, x.createdAt);
    KnownAgrees(l.entities, x.id);
    hide IsIdentity, Identity, IsTimestamp, Timestamp, Has, Known;
  }

  ghost predicate AgentAccepted(l: Ledger, x: Agent) {
    Identity(x.id) && Identity(x.name) && !Known(l.agents, x.id)
  }

  ghost predicate AgentRefused(l: Ledger, x: Agent, code: Code) {
    match code
    case IdentityRequired => !Identity(x.id) || !Identity(x.name)
    case IdentityDuplicate => Identity(x.id) && Identity(x.name) && Known(l.agents, x.id)
    case _ => false
  }

  lemma AgentVerdict(l: Ledger, x: Agent)
    ensures CheckAgent(l, x).None? <==> AgentAccepted(l, x)
    ensures forall code :: CheckAgent(l, x) == Some(code) <==> AgentRefused(l, x, code)
  {
    IdentityAgrees(x.id);
    IdentityAgrees(x.name);
    KnownAgrees(l.agents, x.id);
    hide IsIdentity, Identity, Has, Known;
  }

  ghost predicate ActivityTimed(env: Env, x: Activity) {
    Timestamp(env, x.startedAt) && (Given(x.endedAt) ==> Timestamp(env, x.endedAt.value))
  }

  ghost predicate ActivityStaffed(l: Ledger, x: Activity) {
    forall agent :: agent in x.agentIds ==> Known(l.agents, agent)
  }

  ghost predicate ActivityAccepted(env: Env, l: Ledger, x: Activity) {
    Identity(x.id) && ActivityTimed(env, x) && ActivityStaffed(l, x) && !Known(l.activities, x.id)
  }

  ghost predicate ActivityRefused(env: Env, l: Ledger, x: Activity, code: Code) {
    match code
    case IdentityRequired => !Identity(x.id)
    case ValueInvalid => Identity(x.id) && !ActivityTimed(env, x)
    case AgentDangling => Identity(x.id) && ActivityTimed(env, x) && !ActivityStaffed(l, x)
    case IdentityDuplicate => Identity(x.id) && ActivityTimed(env, x) && ActivityStaffed(l, x) && Known(l.activities, x.id)
    case _ => false
  }

  lemma StaffedAgrees(l: Ledger, x: Activity)
    ensures (exists i :: 0 <= i < |x.agentIds| && !Has(l.agents, x.agentIds[i])) <==> !ActivityStaffed(l, x)
  {
    forall agent ensures Has(l.agents, agent) <==> Known(l.agents, agent) { KnownAgrees(l.agents, agent); }
    hide Has, Known;
    if agent :| agent in x.agentIds && !Known(l.agents, agent) {
      var i :| 0 <= i < |x.agentIds| && x.agentIds[i] == agent;
    }
  }

  lemma TimedAgrees(env: Env, x: Activity)
    ensures ActivityTimed(env, x) <==> IsTimestamp(env, x.startedAt) && (Truthy(x.endedAt) ==> IsTimestamp(env, x.endedAt.value))
  {
    TimestampAgrees(env, x.startedAt);
    GivenAgrees(x.endedAt);
    if x.endedAt.Some? { TimestampAgrees(env, x.endedAt.value); }
    hide IsTimestamp, Timestamp;
  }

  lemma ActivityVerdict(env: Env, l: Ledger, x: Activity)
    ensures CheckActivity(env, l, x).None? <==> ActivityAccepted(env, l, x)
    ensures forall code :: CheckActivity(env, l, x) == Some(code) <==> ActivityRefused(env, l, x, code)
  {
    IdentityAgrees(x.id);
    TimedAgrees(env, x);
    StaffedAgrees(l, x);
    KnownAgrees(l.activities, x.id);
    hide IsIdentity, Identity, IsTimestamp, Has, Known, Truthy, ActivityTimed, ActivityStaffed;
  }

  ghost predicate EvidenceNamed(x: Evidence) {
    Identity(x.id) && Identity(x.revision) && Identity(x.locator)
  }

  /** Where the item carries its payload, the stated digest is the payload's. */
  ghost predicate EvidenceDigested(env: Env, x: Evidence) {
    forall payload :: x.payload == Some(payload) ==> x.digest == env.digest(OfPayload(payload))
  }

  ghost predicate EvidenceAccepted(env: Env, l: Ledger, x: Evidence) {
    EvidenceNamed(x) && Timestamp(env, x.capturedAt) && EvidenceDigested(env, x) && !Known(l.evidence, x.id + "@" + x.revision)
  }

  ghost predicate EvidenceRefused(env: Env, l: Ledger, x: Evidence, code: Code) {
    match code
    case IdentityRequired => !EvidenceNamed(x)
    case ValueInvalid => EvidenceNamed(x) && !Timestamp(env, x.capturedAt)
    case EvidenceDigestMismatch => EvidenceNamed(x) && Timestamp(env, x.capturedAt) && !EvidenceDigested(env, x)
    case IdentityDuplicate =>
      EvidenceNamed(x) && Timestamp(env, x.capturedAt) && EvidenceDigested(env, x) && Known(l.evidence, x.id + "@" + x.revision)
    case _ => false
  }

  lemma EvidenceKeyText(x: Evidence)
    ensures EvidenceKey(x) == x.id + "@" + x.revision
  {
  }

  lemma DigestedAgrees(env: Env, x: Evidence)
    ensures EvidenceDigested(env, x) <==> !(x.payload.Some? && env.digest(OfPayload(x.payload.value)) != x.digest)
  {
    if x.payload.Some? { assert x.payload == Some(x.payload.value); }
  }

  lemma EvidenceVerdict(env: Env, l: Ledger, x: Evidence)
    ensures CheckEvidence(env, l, x).None? <==> EvidenceAccepted(env, l, x)
    ensures forall code :: CheckEvidence(env, l, x) == Some(code) <==> EvidenceRefused(env, l, x, code)
  {
    IdentityAgrees(x.id);
    IdentityAgrees(x.revision);
    IdentityAgrees(x.locator);
    TimestampAgrees(env, x.capturedAt);
    KnownAgrees(l.evidence, x.id + "@" + x.revision);
    EvidenceKeyText(x);
    DigestedAgrees(env, x);
    hide IsIdentity, Identity, IsTimestamp, Timestamp, Has, Known, EvidenceKey, EvidenceDigested;
  }

  // ----- assertions -----

  ghost predicate AssertionNamed(x: Assertion) {
    Identity(x.id) && Identity(x.revision) && Identity(x.method_) && Identity(x.schemaId) && Identity(x.schemaVersion)
  }

  ghost predicate AssertionValued(env: Env, x: Assertion) {
    Timestamp(env, x.assertedAt) && !x.relationship.OtherRelationship? && x.confidence.Finite? && 0.0 <= x.confidence.value <= 1.0
  }

  ghost predicate OfContent(kind: EntityKind) {
    kind.Dataset? || kind.DatasetRevision? || kind.Record? || kind.Field? || kind.Chunk?
  }

  /** The kinds of source and target that each restricted relationship asks for. */
  ghost predicate Typed(r: Relationship, source: EntityKind, target: EntityKind) {
    && (r.FieldDerivedFrom? ==> source.Field? && target.Field?)
    && (r.ChunkOf? ==> source.Chunk? && (target.Record? || target.Distribution?))
    && (r.IndexedFrom? ==> source.Index? && (target.Distribution? || OfContent(target)))
    && (r.EmbeddedFrom? ==> source.EmbeddingSet? && OfContent(target))
    && (r.GraphDerivedFrom? ==> source.GraphArtifact? && (target.Dataset? || target.DatasetRevision? || target.Index? || target.EmbeddingSet?))
    && (r.CommunityDerivedFrom? ==> source.CommunityArtifact? && target.GraphArtifact?)
    && (r.RevisionOf? ==> source.DatasetRevision? && target.Dataset?)
    && (r.DistributedAs? ==> (source.Dataset? || source.DatasetRevision?) && target.Distribution?)
  }

  lemma TypedAgrees(r: Relationship, source: EntityKind, target: EntityKind)
    ensures EndpointsAllowed(r, source, target) <==> Typed(r, source, target)
  {
  }

  ghost predicate EndsKnown(l: Ledger, x: Assertion) {
    Known(l.entities, x.sourceEntityId) && Known(l.entities, x.targetEntityId)
  }

  ghost predicate EndsTyped(l: Ledger, x: Assertion) {
    forall source, target :: Stored(l.entities, x.sourceEntityId, source) && Stored(l.entities, x.targetEntityId, target)
      ==> Typed(x.relationship, source.kind, target.kind)
  }

  ghost predicate ProducerKnown(l: Ledger, x: Assertion) {
    Given(x.producingActivityId) ==> Known(l.activities, x.producingActivityId.value)
  }

  ghost predicate ReferenceKnown(l: Ledger, r: EvidenceReference) {
    Known(l.evidence, r.evidenceId + "@" + r.revision)
  }

  /** The evidence revision is there, with the digest and, if the reference gives one, the locator of the reference. */
  ghost predicate ReferenceFits(l: Ledger, r: EvidenceReference) {
    exists item :: Stored(l.evidence, r.evidenceId + "@" + r.revision, item) && item.digest == r.digest
      && (Given(r.locator) ==> r.locator == Some(item.locator))
  }

  ghost predicate ReferencesFit(l: Ledger, x: Assertion) {
    forall i :: 0 <= i < |x.evidence| ==> ReferenceFits(l, x.evidence[i])
  }

  /** The first reference that does not fit, and whether its item is there at all. */
  ghost predicate FirstMisfit(l: Ledger, refs: seq<EvidenceReference>, known: bool) {
    exists i :: 0 <= i < |refs| && !ReferenceFits(l, refs[i]) && (ReferenceKnown(l, refs[i]) <==> known)
      && forall j :: 0 <= j < i ==> ReferenceFits(l, refs[j])
  }

  /** An assertion of this id is there already. */
  ghost predicate HasRevision(l: Ledger, id: string) {
    exists e :: e in l.assertions && e.value.id == id
  }

  /** A `correct` names this very revision as the replacement. */
  ghost predicate Granted(l: Ledger, x: Assertion) {
    exists d :: d in l.corrections && d.value.action.Correct?
      && d.value.replacementAssertionId == Some(x.id) && d.value.replacementRevision == Some(x.revision)
  }

  /** All that precedes the look at the evidence. */
  ghost predicate Grounded(l: Ledger, x: Assertion) {
    && EndsKnown(l, x) && EndsTyped(l, x) && Known(l.agents, x.issuerAgentId) && ProducerKnown(l, x)
    && (x.assertionKind.Observed? ==> Given(x.producingActivityId))
  }

  ghost predicate Evidenced(l: Ledger, x: Assertion) {
    (x.assertionKind.Observed? ==> |x.evidence| > 0) && ReferencesFit(l, x)
  }

  ghost predicate AssertionAccepted(env: Env, l: Ledger, x: Assertion) {
    && AssertionNamed(x) && AssertionValued(env, x) && Grounded(l, x) && Evidenced(l, x)
    && !Known(l.assertions, x.id + "@" + x.revision)
    && (HasRevision(l, x.id) ==> Granted(l, x))
  }

  ghost predicate AssertionRefused(env: Env, l: Ledger, x: Assertion, code: Code) {
    match code
    case IdentityRequired => !AssertionNamed(x)
    case ValueInvalid => AssertionNamed(x) && !AssertionValued(env, x)
    case _ => AssertionNamed(x) && AssertionValued(env, x) && if Grounded(l, x) then SupportRefused(l, x, code) else GroundRefused(l, x, code)
  }

  ghost predicate GroundRefused(l: Ledger, x: Assertion, code: Code) {
    var ends := EndsKnown(l, x) && EndsTyped(l, x);
    match code
    case IdentityDangling => !EndsKnown(l, x) || (ends && Known(l.agents, x.issuerAgentId) && !ProducerKnown(l, x))
    case TypeDirectionInvalid => EndsKnown(l, x) && !EndsTyped(l, x)
    case AgentDangling => ends && !Known(l.agents, x.issuerAgentId)
    case ActivityRequired =>
      ends && Known(l.agents, x.issuerAgentId) && ProducerKnown(l, x) && x.assertionKind.Observed? && !Given(x.producingActivityId)
    case _ => false
  }

  ghost predicate SupportRefused(l: Ledger, x: Assertion, code: Code) {
    match code
    case EvidenceDangling => (x.assertionKind.Observed? && |x.evidence| == 0) || FirstMisfit(l, x.evidence, false)
    case EvidenceDigestMismatch => FirstMisfit(l, x.evidence, true)
    case IdentityDuplicate => Evidenced(l, x) && Known(l.assertions, x.id + "@" + x.revision)
    case CorrectionInvalid =>
      Evidenced(l, x) && !Known(l.assertions, x.id + "@" + x.revision) && HasRevision(l, x.id) && !Granted(l, x)
    case _ => false
  }

  lemma EndsAgree(l: Ledger, x: Assertion)
    requires Shaped(l)
    ensures var source, target := Get(l.entities, x.sourceEntityId), Get(l.entities, x.targetEntityId);
      && (source.Some? && target.Some? <==> EndsKnown(l, x))
      && (source.Some? && target.Some? ==> (EndpointsAllowed(x.relationship, source.value.kind, target.value.kind) <==> EndsTyped(l, x)))
  {
    var source, target := Get(l.entities, x.sourceEntityId), Get(l.entities, x.targetEntityId);
    KnownAgrees(l.entities, x.sourceEntityId);
    KnownAgrees(l.entities, x.targetEntityId);
    OnlyOne(l.entities, l.sequence, EntityKey, x.sourceEntityId);
    OnlyOne(l.entities, l.sequence, EntityKey, x.targetEntityId);
    hide Stored, Known, EndpointsAllowed, Typed, TableOk;
    if source.Some? && target.Some? { TypedAgrees(x.relationship, source.value.kind, target.value.kind); }
  }

  lemma ReferenceAgrees(l: Ledger, r: EvidenceReference)
    requires Shaped(l)
    ensures var item := Get(l.evidence, ReferenceKey(r));
      && (item.None? <==> !ReferenceKnown(l, r))
      && (ReferenceFits(l, r) <==> item.Some? && item.value.digest == r.digest && (Truthy(r.locator) ==> r.locator.value == item.value.locator))
  {
    assert ReferenceKey(r) == r.evidenceId + "@" + r.revision;
    KnownAgrees(l.evidence, ReferenceKey(r));
    OnlyOne(l.evidence, l.sequence, EvidenceKey, ReferenceKey(r));
    GivenAgrees(r.locator);
    hide Stored, Known, TableOk, ReferenceKey, Truthy, Given;
    assert Given(r.locator) ==> r.locator.Some?;
  }

  lemma {:induction false} ReferencesAgree(l: Ledger, refs: seq<EvidenceReference>)
    requires Shaped(l)
    ensures CheckReferences(l.evidence, refs).None? <==> forall i :: 0 <= i < |refs| ==> ReferenceFits(l, refs[i])
    ensures forall code :: CheckReferences(l.evidence, refs) == Some(code) <==>
      (code == EvidenceDangling && FirstMisfit(l, refs, false)) || (code == EvidenceDigestMismatch && FirstMisfit(l, refs, true))
    decreases |refs|
  {
    hide ReferenceFits, ReferenceKnown, TableOk;
    if refs != [] {
      ReferenceAgrees(l, refs[0]);
      ReferencesAgree(l, refs[1..]);
      hide ReferenceKey, Truthy;
      if ReferenceFits(l, refs[0]) {
        MisfitLater(l, refs, false);
        MisfitLater(l, refs, true);
        assert forall i :: 0 < i < |refs| ==> refs[i] == refs[1..][i - 1];
      } else {
        assert FirstMisfit(l, refs, ReferenceKnown(l, refs[0]));
        OneMisfit(l, refs);
      }
    }
  }

  lemma MisfitLater(l: Ledger, refs: seq<EvidenceReference>, known: bool)
    requires refs != [] && ReferenceFits(l, refs[0])
    ensures FirstMisfit(l, refs, known) <==> FirstMisfit(l, refs[1..], known)
  {
    hide ReferenceFits, ReferenceKnown;
    var rest := refs[1..];
    if FirstMisfit(l, rest, known) {
      var i :| 0 <= i < |rest| && !ReferenceFits(l, rest[i]) && (ReferenceKnown(l, rest[i]) <==> known) && forall j :: 0 <= j < i ==> ReferenceFits(l, rest[j]);
      assert refs[i + 1] == rest[i];
      forall j | 0 <= j < i + 1 ensures ReferenceFits(l, refs[j]) { assert j > 0 ==> refs[j] == rest[j - 1]; }
    }
    if FirstMisfit(l, refs, known) {
      var i :| 0 <= i < |refs| && !ReferenceFits(l, refs[i]) && (ReferenceKnown(l, refs[i]) <==> known) && forall j :: 0 <= j < i ==> ReferenceFits(l, refs[j]);
      assert rest[i - 1] == refs[i];
      forall j | 0 <= j < i - 1 ensures ReferenceFits(l, rest[j]) { assert rest[j] == refs[j + 1]; }
    }
  }

  lemma OneMisfit(l: Ledger, refs: seq<EvidenceReference>)
    requires refs != [] && !ReferenceFits(l, refs[0])
    ensures !FirstMisfit(l, refs, !ReferenceKnown(l, refs[0]))
  {
    hide ReferenceFits, ReferenceKnown;
  }

  lemma PermissionAgrees(l: Ledger, x: Assertion)
    ensures HasRevisionOf(l.assertions, x.id) <==> HasRevision(l, x.id)
    ensures HasPermission(l.corrections, x.id, x.revision) <==> Granted(l, x)
  {
    if e :| e in l.assertions && e.value.id == x.id {
      var i :| 0 <= i < |l.assertions| && l.assertions[i] == e;
    }
    if d :| d in l.corrections && Permits(d.value, x.id, x.revision) {
      var i :| 0 <= i < |l.corrections| && l.corrections[i] == d;
    }
    if HasPermission(l.corrections, x.id, x.revision) {
      var i :| 0 <= i < |l.corrections| && Permits(l.corrections[i].value, x.id, x.revision);
      assert l.corrections[i] in l.corrections;
    }
  }

  lemma NamedAgrees(x: Assertion)
    ensures AssertionNamed(x) <==>
      IsIdentity(x.id) && IsIdentity(x.revision) && IsIdentity(x.method_) && IsIdentity(x.schemaId) && IsIdentity(x.schemaVersion)
  {
    IdentityAgrees(x.id);
    IdentityAgrees(x.revision);
    IdentityAgrees(x.method_);
    IdentityAgrees(x.schemaId);
    IdentityAgrees(x.schemaVersion);
    hide Identity, IsIdentity;
  }

  lemma GroundAgrees(l: Ledger, x: Assertion)
    requires Shaped(l)
    ensures Known(l.agents, x.issuerAgentId) <==> Has(l.agents, x.issuerAgentId)
    ensures ProducerKnown(l, x) <==> (Truthy(x.producingActivityId) ==> Has(l.activities, x.producingActivityId.value))
    ensures Given(x.producingActivityId) <==> Truthy(x.producingActivityId)
  {
    KnownAgrees(l.agents, x.issuerAgentId);
    GivenAgrees(x.producingActivityId);
    hide Shaped, Has, Known;
    if x.producingActivityId.Some? { KnownAgrees(l.activities, x.producingActivityId.value); }
  }

  /** What the content checks find, in the facts' own terms. */
  lemma ContentVerdict(env: Env, l: Ledger, x: Assertion)
    requires Shaped(l)
    ensures var v := CheckAssertionContent(env, l, x);
      if v.None? then AssertionNamed(x) && AssertionValued(env, x) && Grounded(l, x) && Evidenced(l, x)
      else AssertionRefused(env, l, x, v.value) && !v.value.IdentityDuplicate? && !v.value.CorrectionInvalid?
  {
    hide AssertionNamed, IsIdentity, IsTimestamp, Timestamp, EndsKnown, EndsTyped, EndpointsAllowed, Has, Known, Truthy, Given, CheckReferences,
         FirstMisfit, ReferenceFits, ReferencesFit, Shaped, ProducerKnown, Get, Stored, Identity;
    NamedAgrees(x);
    TimestampAgrees(env, x.assertedAt);
    EndsAgree(l, x);
    GroundAgrees(l, x);
    ReferencesVerdict(l, x);
  }

  lemma ReferencesVerdict(l: Ledger, x: Assertion)
    requires Shaped(l)
    ensures var v := CheckReferences(l.evidence, x.evidence);
      && (v.None? <==> ReferencesFit(l, x))
      && (v.Some? ==> (v.value == EvidenceDangling && FirstMisfit(l, x.evidence, false)) || (v.value == EvidenceDigestMismatch && FirstMisfit(l, x.evidence, true)))
  {
    hide CheckReferences, ReferenceFits, FirstMisfit, Shaped;
    ReferencesAgree(l, x.evidence);
  }

  lemma FitsAll(l: Ledger, x: Assertion)
    ensures ReferencesFit(l, x) <==> forall i :: 0 <= i < |x.evidence| ==> ReferenceFits(l, x.evidence[i])
  {
  }

  /** Two different first misfits cannot be, and there is none when all fit. */
  lemma OneVerdict(l: Ledger, refs: seq<EvidenceReference>)
    ensures !(FirstMisfit(l, refs, false) && FirstMisfit(l, refs, true))
    ensures (forall i :: 0 <= i < |refs| ==> ReferenceFits(l, refs[i])) ==> !FirstMisfit(l, refs, false) && !FirstMisfit(l, refs, true)
  {
    hide ReferenceFits, ReferenceKnown;
    if FirstMisfit(l, refs, false) {
      var i :| 0 <= i < |refs| && !ReferenceFits(l, refs[i]) && !ReferenceKnown(l, refs[i]) && forall j :: 0 <= j < i ==> ReferenceFits(l, refs[j]);
      forall k | 0 <= k < |refs| && !ReferenceFits(l, refs[k]) && forall j :: 0 <= j < k ==> ReferenceFits(l, refs[j]) ensures k == i { }
    }
  }

  lemma AssertionSound(env: Env, l: Ledger, x: Assertion)
    requires Shaped(l)
    ensures var v := CheckAssertion(env, l, x); if v.None? then AssertionAccepted(env, l, x) else AssertionRefused(env, l, x, v.value)
  {
    hide CheckAssertionContent, AssertionNamed, AssertionValued, Grounded, GroundRefused, Evidenced, FirstMisfit, Has, Known, HasRevisionOf,
         HasPermission, HasRevision, Granted, AssertionKey, Shaped;
    ContentVerdict(env, l, x);
    AssertionKeyText(x);
    KnownAgrees(l.assertions, x.id + "@" + x.revision);
    PermissionAgrees(l, x);
  }

  lemma AssertionKeyText(x: Assertion)
    ensures AssertionKey(x) == x.id + "@" + x.revision
  {
  }

  /** No record is both accepted and refused, or refused with two codes. */
  lemma AssertionOneVerdict(env: Env, l: Ledger, x: Assertion, code: Code)
    requires AssertionRefused(env, l, x, code)
    ensures !AssertionAccepted(env, l, x)
    ensures forall other :: AssertionRefused(env, l, x, other) ==> other == code
  {
    OneVerdict(l, x.evidence);
    FitsAll(l, x);
    hide AssertionNamed, AssertionValued, EndsKnown, EndsTyped, ProducerKnown, Given, FirstMisfit, ReferencesFit, Known, HasRevision, Granted;
  }

  lemma AssertionVerdict(env: Env, l: Ledger, x: Assertion)
    requires Shaped(l)
    ensures CheckAssertion(env, l, x).None? <==> AssertionAccepted(env, l, x)
    ensures forall code :: CheckAssertion(env, l, x) == Some(code) <==> AssertionRefused(env, l, x, code)
  {
    hide CheckAssertion, AssertionAccepted, AssertionRefused, Shaped;
    AssertionSound(env, l, x);
    forall code | AssertionRefused(env, l, x, code) ensures !AssertionAccepted(env, l, x) && CheckAssertion(env, l, x) == Some(code) {
      AssertionOneVerdict(env, l, x, code);
    }
  }

  // ----- corrections -----

  ghost predicate CorrectionNamed(c: Correction) {
    Identity(c.id) && Identity(c.reason)
  }

  ghost predicate TargetKnownHere(l: Ledger, c: Correction) {
    Known(l.assertions, c.assertionId + "@" + c.assertionRevision)
  }

  ghost predicate OfCorrectionActivity(l: Ledger, c: Correction) {
    exists activity :: Stored(l.activities, c.activityId, activity) && activity.kind == "correction"
  }

  /** A retraction names no replacement, the other actions name one in full, and a supersession names another assertion. */
  ghost predicate Replaces(c: Correction) {
    && (c.action.Retract? ==> !Given(c.replacementAssertionId) && !Given(c.replacementRevision))
    && (!c.action.Retract? ==> Given(c.replacementAssertionId) && Given(c.replacementRevision))
    && (c.action.Supersede? ==> c.replacementAssertionId != Some(c.assertionId))
  }

  ghost predicate CorrectionAccepted(env: Env, l: Ledger, c: Correction) {
    && CorrectionNamed(c) && Timestamp(env, c.recordedAt) && TargetKnownHere(l, c) && Known(l.agents, c.issuerAgentId)
    && OfCorrectionActivity(l, c) && Replaces(c) && !Known(l.corrections, c.id)
  }

  ghost predicate CorrectionRefused(env: Env, l: Ledger, c: Correction, code: Code) {
    match code
    case IdentityRequired => !CorrectionNamed(c)
    case ValueInvalid => CorrectionNamed(c) && !Timestamp(env, c.recordedAt)
    case IdentityDangling => CorrectionNamed(c) && Timestamp(env, c.recordedAt) && !TargetKnownHere(l, c)
    case AgentDangling => CorrectionNamed(c) && Timestamp(env, c.recordedAt) && TargetKnownHere(l, c) && !Known(l.agents, c.issuerAgentId)
    case CorrectionInvalid =>
      CorrectionNamed(c) && Timestamp(env, c.recordedAt) && TargetKnownHere(l, c) && Known(l.agents, c.issuerAgentId)
      && !(OfCorrectionActivity(l, c) && Replaces(c))
    case IdentityDuplicate =>
      CorrectionNamed(c) && Timestamp(env, c.recordedAt) && TargetKnownHere(l, c) && Known(l.agents, c.issuerAgentId)
      && OfCorrectionActivity(l, c) && Replaces(c) && Known(l.corrections, c.id)
    case _ => false
  }

  lemma ActivityAgrees(l: Ledger, c: Correction)
    requires Shaped(l)
    ensures var activity := Get(l.activities, c.activityId);
      activity.Some? && activity.value.kind == "correction" <==> OfCorrectionActivity(l, c)
  {
    OnlyOne(l.activities, l.sequence, ActivityKey, c.activityId);
    hide Stored, TableOk;
  }

  lemma ReplacesAgrees(c: Correction)
    ensures Replaces(c) <==>
      !(c.action == Retract && (Truthy(c.replacementAssertionId) || Truthy(c.replacementRevision)))
      && !(c.action != Retract && !NamesReplacement(c))
      && !(c.replacementAssertionId == Some(c.assertionId) && c.action == Supersede)
  {
    GivenAgrees(c.replacementAssertionId);
    GivenAgrees(c.replacementRevision);
    hide Truthy, Given;
  }

  lemma CorrectionSound(env: Env, l: Ledger, c: Correction)
    requires Shaped(l)
    ensures var v := CheckCorrection(env, l, c); if v.None? then CorrectionAccepted(env, l, c) else CorrectionRefused(env, l, c, v.value)
  {
    hide IsIdentity, CorrectionNamed, IsTimestamp, Timestamp, Has, Known, OfCorrectionActivity, Truthy, TargetKey, NamesReplacement, Replaces,
         Shaped, TargetKnownHere, Get, Identity, Stored;
    TimestampAgrees(env, c.recordedAt);
    PlaceAgrees(l, c);
    KnownAgrees(l.agents, c.issuerAgentId);
    KnownAgrees(l.corrections, c.id);
    ActivityAgrees(l, c);
    ReplacesAgrees(c);
  }

  lemma PlaceAgrees(l: Ledger, c: Correction)
    ensures Has(l.assertions, TargetKey(c)) <==> TargetKnownHere(l, c)
    ensures CorrectionNamed(c) <==> IsIdentity(c.id) && IsIdentity(c.reason)
  {
    assert TargetKey(c) == c.assertionId + "@" + c.assertionRevision;
    KnownAgrees(l.assertions, c.assertionId + "@" + c.assertionRevision);
    IdentityAgrees(c.id);
    IdentityAgrees(c.reason);
    hide TargetKey, Has, Known, IsIdentity, Identity;
  }

  lemma CorrectionVerdict(env: Env, l: Ledger, c: Correction)
    requires Shaped(l)
    ensures CheckCorrection(env, l, c).None? <==> CorrectionAccepted(env, l, c)
    ensures forall code :: CheckCorrection(env, l, c) == Some(code) <==> CorrectionRefused(env, l, c, code)
  {
    CorrectionSound(env, l, c);
    hide CheckCorrection, CorrectionNamed, Timestamp, TargetKnownHere, Known, OfCorrectionActivity, Replaces, Shaped;
  }

  // ----- every append, every stored entry -----

  /** The record meets every demand of its append. */
  ghost predicate Accepted(env: Env, l: Ledger, x: Event) {
    match x
    case NewEntity(y) => EntityAccepted(env, l, y)
    case NewAgent(y) => AgentAccepted(l, y)
    case NewActivity(y) => ActivityAccepted(env, l, y)
    case NewEvidence(y) => EvidenceAccepted(env, l, y)
    case NewAssertion(y) => AssertionAccepted(env, l, y)
    case NewCorrection(y) => CorrectionAccepted(env, l, y)
  }

  /** The first demand it does not meet is answered with this code. */
  ghost predicate Refused(env: Env, l: Ledger, x: Event, code: Code) {
    match x
    case NewEntity(y) => EntityRefused(env, l, y, code)
    case NewAgent(y) => AgentRefused(l, y, code)
    case NewActivity(y) => ActivityRefused(env, l, y, code)
    case NewEvidence(y) => EvidenceRefused(env, l, y, code)
    case NewAssertion(y) => AssertionRefused(env, l, y, code)
    case NewCorrection(y) => CorrectionRefused(env, l, y, code)
  }

  /** The record stands at the end of its collection under its key and the next number, and nothing else has changed. */
  ghost predicate Adds(l: Ledger, x: Event, m: Ledger) {
    var n := l.sequence + 1;
    match x
    case NewEntity(y) => m == l.(sequence := n, entities := l.entities + [Entry(y.id, n, y)])
    case NewAgent(y) => m == l.(sequence := n, agents := l.agents + [Entry(y.id, n, y)])
    case NewActivity(y) => m == l.(sequence := n, activities := l.activities + [Entry(y.id, n, y)])
    case NewEvidence(y) => m == l.(sequence := n, evidence := l.evidence + [Entry(y.id + "@" + y.revision, n, y)])
    case NewAssertion(y) => m == l.(sequence := n, assertions := l.assertions + [Entry(y.id + "@" + y.revision, n, y)])
    case NewCorrection(y) => m == l.(sequence := n, corrections := l.corrections + [Entry(y.id, n, y)])
  }

  lemma Verdict(env: Env, l: Ledger, x: Event)
    requires Shaped(l)
    ensures Check(env, l, x).None? <==> Accepted(env, l, x)
    ensures forall code :: Check(env, l, x) == Some(code) <==> Refused(env, l, x, code)
  {
    hide Shaped, CheckEntity, CheckAgent, CheckActivity, CheckEvidence, CheckAssertion, CheckCorrection, EntityAccepted, AgentAccepted,
         ActivityAccepted, EvidenceAccepted, AssertionAccepted, CorrectionAccepted, EntityRefused, AgentRefused, ActivityRefused, EvidenceRefused,
         AssertionRefused, CorrectionRefused;
    match x
    case NewEntity(y) => EntityVerdict(env, l, y);
    case NewAgent(y) => AgentVerdict(l, y);
    case NewActivity(y) => ActivityVerdict(env, l, y);
    case NewEvidence(y) => EvidenceVerdict(env, l, y);
    case NewAssertion(y) => AssertionVerdict(env, l, y);
    case NewCorrection(y) => CorrectionVerdict(env, l, y);
  }

  /**
    An append succeeds exactly when the record meets every demand, and then adds that very record and nothing else;
    otherwise it answers the code of the first demand that is not met.
   */
  lemma AppendExactly(env: Env, l: Ledger, x: Event)
    requires Shaped(l)
    ensures Append(env, l, x).Ok? <==> Accepted(env, l, x)
    ensures Append(env, l, x).Ok? ==> Adds(l, x, Append(env, l, x).value)
    ensures forall code :: Append(env, l, x) == Err(code) <==> Refused(env, l, x, code)
  {
    hide Shaped, Check, Accepted, Refused;
    Verdict(env, l, x);
  }

  /**
    Referential closure: in a valid ledger every stored record met every demand when it was appended, against what was
    there before it: its references lead to earlier entries of the right kind and content.
   */
  lemma Closed(env: Env, l: Ledger, x: Event, s: nat)
    requires Valid(env, l) && Recorded(l, x, s)
    ensures 1 <= s <= l.sequence && Accepted(env, At(l, s - 1), x)
  {
    hide Check, Accepted, Owners, At, Recorded;
    Admission(env, l, x, s);
    ShapedAt(l, s - 1);
    Verdict(env, At(l, s - 1), x);
  }

  /** The same at every snapshot: what an entry of the snapshot refers to lies before that entry, inside the snapshot. */
  lemma SnapshotClosed(env: Env, l: Ledger, n: nat, x: Event, s: nat)
    requires Valid(env, l) && n <= l.sequence && Recorded(At(l, n), x, s)
    ensures 1 <= s <= n && Accepted(env, At(l, s - 1), x)
  {
    hide Valid, Accepted, Recorded, At;
    AtSequence(l, n);
    PrefixValid(env, l, n);
    Closed(env, At(l, n), x, s);
    AtAt(l, n, s - 1);
  }

  lemma AtSequence(l: Ledger, n: nat)
    ensures At(l, n).sequence == n
  {
  }

  /** What an append call answers and leaves: the number of the added record, or the code of the demand not met. */
  ghost predicate Answers(env: Env, before: Ledger, x: Event, after: Ledger, r: Result<nat, Code>) {
    match r
    case Ok(n) => Accepted(env, before, x) && Adds(before, x, after) && n == before.sequence + 1
    case Err(code) => Refused(env, before, x, code) && after == before
  }

  lemma AnswersAppend(env: Env, before: Ledger, x: Event, after: Ledger, r: Result<nat, Code>)
    requires Shaped(before)
    ensures Answers(env, before, x, after, r) <==>
      match Append(env, before, x)
      case Ok(l) => after == l && r == Ok(l.sequence)
      case Err(code) => after == before && r == Err(code)
  {
    hide Shaped, Accepted, Refused, Append;
    AppendExactly(env, before, x);
    hide Adds;
    if Append(env, before, x).Ok? { AddsOne(before, x, Append(env, before, x).value, after); }
  }

  lemma AddsOne(l: Ledger, x: Event, m: Ledger, m': Ledger)
    requires Adds(l, x, m)
    ensures Adds(l, x, m') <==> m' == m
    ensures m.sequence == l.sequence + 1
  {
  }
}
