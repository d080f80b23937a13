/**
  The append-only lineage ledger: its records, the checks of every append, and
  the invariant that each stored entry was admissible when it was appended.
 */
module LineageLedger {
  import opened Wrappers
  import opened CanonicalJson
  import opened Sorting

  datatype Code =
    | IdentityRequired | IdentityDuplicate | IdentityDangling | TypeDirectionInvalid
    | EvidenceDangling | EvidenceDigestMismatch | ActivityRequired | AgentDangling
    | ValueInvalid | CorrectionInvalid | TraversalLimitExceeded | CursorInvalid | SnapshotUnavailable

  /** `OtherKind` and `OtherRelationship` are the strings outside the contract's lists. */
  datatype EntityKind =
    | Dataset | DatasetRevision | Distribution | Record | Field | Chunk | Index | EmbeddingSet
    | GraphArtifact | CommunityArtifact | ProcessingPlan | Run | OtherKind(name: string)

  datatype Relationship =
    | DerivedFrom | FieldDerivedFrom | ExtractedFrom | ChunkOf | IndexedFrom | EmbeddedFrom
    | GraphDerivedFrom | CommunityDerivedFrom | RevisionOf | DistributedAs | JoinInfluence
    | FilterInfluence | AggregationInfluence | OrderingInfluence | SimilarityInfluence
    | OtherRelationship(name: string)

  datatype AssertionKind = Declared | Observed
  datatype Action = Correct | Retract | Supersede
  datatype Status = Active | Corrected | Retracted | Superseded

  /** A JavaScript number as far as the confidence check can tell. */
  datatype Confidence = NotFinite | Finite(value: real)

  datatype Entity = Entity(id: string, kind: EntityKind, schemaId: string, schemaVersion: string, revision: Option<string>,
                           datasetId: Option<string>, createdAt: string, attributes: Option<Json>)
  datatype Agent = Agent(id: string, kind: string, name: string, version: Option<string>)
  datatype Activity = Activity(id: string, kind: string, planId: Option<string>, runId: Option<string>, startedAt: string,
                               endedAt: Option<string>, agentIds: seq<string>)
  datatype Evidence = Evidence(id: string, revision: string, locator: string, digest: string, mediaType: Option<string>,
                               privacy: string, capturedAt: string, payload: Option<Json>)
  datatype EvidenceReference = EvidenceReference(evidenceId: string, revision: string, digest: string, locator: Option<string>)
  datatype Assertion = Assertion(id: string, revision: string, relationship: Relationship, assertionKind: AssertionKind,
                                 sourceEntityId: string, targetEntityId: string, issuerAgentId: string,
                                 producingActivityId: Option<string>, method_: string, evidence: seq<EvidenceReference>,
                                 confidence: Confidence, privacy: string, schemaId: string, schemaVersion: string,
                                 assertedAt: string)
  datatype Correction = Correction(id: string, assertionId: string, assertionRevision: string, action: Action,
                                   issuerAgentId: string, activityId: string, reason: string, recordedAt: string,
                                   replacementAssertionId: Option<string>, replacementRevision: Option<string>)

  /** One entry of a JavaScript `Map`, in insertion order, with the ledger's revision wrapper inside. */
  datatype Entry<T> = Entry(key: string, sequence: nat, value: T)
  type Table<T> = seq<Entry<T>>

  datatype Ledger = Ledger(sequence: nat, entities: Table<Entity>, agents: Table<Agent>, activities: Table<Activity>,
                           evidence: Table<Evidence>, assertions: Table<Assertion>, corrections: Table<Correction>)

  const Empty := Ledger(0, [], [], [], [], [], [])

  /** Everything `computeLineageDigest` is applied to. */
  datatype Digestible =
    | OfPayload(payload: Json) | OfEntity(entity: Entity) | OfAssertion(assertion: Assertion)
    | OfEvidence(evidence: seq<Evidence>) | OfCorrections(corrections: seq<Correction>)
    | OfArchive(content: ArchiveContent) | OfRequest(request: Request, snapshot: int)
    | OfProjection(entities: seq<Entity>, assertions: seq<Assertion>, evidenceItems: seq<Evidence>, correctionItems: seq<Correction>)

  datatype ArchiveContent = ArchiveContent(contract: string, schemaVersion: string, snapshot: int, entities: seq<Entity>,
                                           agents: seq<Agent>, activities: seq<Activity>, evidence: seq<Evidence>,
                                           assertions: seq<Assertion>, corrections: seq<Correction>)

  datatype Direction = Upstream | Downstream | Both

  /** A traversal request without the `snapshot` and `cursor` members, which the fingerprint leaves out. */
  datatype Request = Request(startEntityIds: seq<string>, direction: Direction, entityKinds: Option<seq<EntityKind>>,
                             relationshipKinds: Option<seq<Relationship>>, assertionKinds: Option<seq<AssertionKind>>,
                             maximumDepth: int, maximumResults: int, pageSize: int, includeEvidence: bool)

  /** Library calls the ledger relies on: date parsing, the content digest and the collation of strings. */
  datatype Env = Env(parsesDate: string -> bool, digest: Digestible -> string, less: (string, string) -> bool)

  // ----- tables -----

  predicate Has<T>(t: Table<T>, k: string) {
    exists i :: 0 <= i < |t| && t[i].key == k
  }

  function Get<T>(t: Table<T>, k: string): (r: Option<T>)
    ensures r.None? <==> !Has(t, k)
    ensures r.Some? ==> exists e :: e in t && e.key == k && e.value == r.value
  {
    if t == [] then None
    else if t[0].key == k then
      assert t[0] in t;
      Some(t[0].value)
    else
      assert t == [t[0]] + t[1..];
      Get(t[1..], k)
  }

  function Values<T>(t: Table<T>): (vs: seq<T>)
    ensures |vs| == |t| && forall i :: 0 <= i < |t| ==> vs[i] == t[i].value
  {
    seq(|t|, i requires 0 <= i < |t| => t[i].value)
  }

  /** What was appended up to a snapshot. */
  function Visible<T(!new)>(t: Table<T>, snapshot: int): (r: Table<T>)
    ensures forall e :: e in r <==> e in t && e.sequence <= snapshot
  {
    if t == [] then []
    else
      var last := t[|t| - 1];
      assert t == t[..|t| - 1] + [last];
      Visible(t[..|t| - 1], snapshot) + (if last.sequence <= snapshot then [last] else [])
  }

  /** Keys are distinct and sequence numbers increase from at least 1 to at most the counter. */
  ghost predicate TableOk<T(!new)>(t: Table<T>, sequence: nat, keyOf: T -> string) {
    && (forall i, j :: 0 <= i < j < |t| ==> t[i].sequence < t[j].sequence)
    && (forall i, j :: 0 <= i < j < |t| ==> t[i].key != t[j].key)
    && (forall e :: e in t ==> 1 <= e.sequence <= sequence && e.key == keyOf(e.value))
  }

  predicate Owns<T>(t: Table<T>, s: nat) {
    exists i :: 0 <= i < |t| && t[i].sequence == s
  }

  // ----- keys and field checks -----

  function Join(id: string, revision: string): string {
    id + "@" + revision
  }

  function EntityKey(x: Entity): string { x.id }
  function AgentKey(x: Agent): string { x.id }
  function ActivityKey(x: Activity): string { x.id }
  function EvidenceKey(x: Evidence): string { Join(x.id, x.revision) }
  function AssertionKey(x: Assertion): string { Join(x.id, x.revision) }
  function CorrectionKey(x: Correction): string { x.id }
  function TargetKey(c: Correction): string { Join(c.assertionId, c.assertionRevision) }
  function ReferenceKey(r: EvidenceReference): string { Join(r.evidenceId, r.revision) }

  predicate Truthy(o: Option<string>) {
    o.Some? && o.value != ""
  }

  predicate NamesReplacement(c: Correction) {
    Truthy(c.replacementAssertionId) && Truthy(c.replacementRevision)
  }

  function ReplacementKey(c: Correction): string
    requires NamesReplacement(c)
  {
    Join(c.replacementAssertionId.value, c.replacementRevision.value)
  }

  /** The correction grants this revision of this assertion. */
  predicate Permits(c: Correction, id: string, revision: string) {
    c.action == Correct && c.replacementAssertionId == Some(id) && c.replacementRevision == Some(revision)
  }

  predicate IsSpace(c: char) {
    c in " \t\n\r\U{000B}\U{000C}\U{00A0}\U{1680}\U{2028}\U{2029}\U{202F}\U{205F}\U{3000}\U{FEFF}" || '\U{2000}' <= c <= '\U{200A}'
  }

  predicate IsIdentity(s: string) {
    s != "" && !IsSpace(s[0]) && !IsSpace(s[|s| - 1])
  }

  predicate MatchesShape(s: string, shape: string) {
    |s| == |shape| && forall i :: 0 <= i < |s| ==> if shape[i] == 'd' then '0' <= s[i] <= '9' else s[i] == shape[i]
  }

  predicate IsTimestamp(env: Env, s: string) {
    && (MatchesShape(s, "dddd-dd-ddTdd:dd:ddZ") || MatchesShape(s, "dddd-dd-ddTdd:dd:dd.dddZ"))
    && env.parsesDate(s)
  }

  /** Kinds the relationship allows at its source and target, when it restricts them. */
  predicate EndpointsAllowed(r: Relationship, source: EntityKind, target: EntityKind) {
    match r
    case FieldDerivedFrom => source == Field && target == Field
    case ChunkOf => source == Chunk && target in {Record, Distribution}
    case IndexedFrom => source == Index && target in {Dataset, DatasetRevision, Distribution, Record, Field, Chunk}
    case EmbeddedFrom => source == EmbeddingSet && target in {Dataset, DatasetRevision, Record, Field, Chunk}
    case GraphDerivedFrom => source == GraphArtifact && target in {Dataset, DatasetRevision, Index, EmbeddingSet}
    case CommunityDerivedFrom => source == CommunityArtifact && target == GraphArtifact
    case RevisionOf => source == DatasetRevision && target == Dataset
    case DistributedAs => source in {Dataset, DatasetRevision} && target == Distribution
    case _ => true
  }

  // ----- the checks of each append: fields, then references, then the key, and last a further revision's permission -----

  function CheckEntity(env: Env, l: Ledger, x: Entity): Option<Code> {
    if !IsIdentity(x.id) then Some(IdentityRequired)
    else if x.kind.OtherKind? then Some(ValueInvalid)
    else if !IsIdentity(x.schemaId) || !IsIdentity(x.schemaVersion) then Some(IdentityRequired)
    else if !IsTimestamp(env, x.createdAt) then Some(ValueInvalid)
    else if Has(l.entities, x.id) then Some(IdentityDuplicate)
    else None
  }

  function CheckAgent(l: Ledger, x: Agent): Option<Code> {
    if !IsIdentity(x.id) || !IsIdentity(x.name) then Some(IdentityRequired)
    else if Has(l.agents, x.id) then Some(IdentityDuplicate)
    else None
  }

  function CheckActivity(env: Env, l: Ledger, x: Activity): Option<Code> {
    if !IsIdentity(x.id) then Some(IdentityRequired)
    else if !IsTimestamp(env, x.startedAt) then Some(ValueInvalid)
    else if Truthy(x.endedAt) && !IsTimestamp(env, x.endedAt.value) then Some(ValueInvalid)
    else if exists i :: 0 <= i < |x.agentIds| && !Has(l.agents, x.agentIds[i]) then Some(AgentDangling)
    else if Has(l.activities, x.id) then Some(IdentityDuplicate)
    else None
  }

  function CheckEvidence(env: Env, l: Ledger, x: Evidence): Option<Code> {
    if !IsIdentity(x.id) || !IsIdentity(x.revision) || !IsIdentity(x.locator) then Some(IdentityRequired)
    else if !IsTimestamp(env, x.capturedAt) then Some(ValueInvalid)
    else if x.payload.Some? && env.digest(OfPayload(x.payload.value)) != x.digest then Some(EvidenceDigestMismatch)
    else if Has(l.evidence, EvidenceKey(x)) then Some(IdentityDuplicate)
    else None
  }

  function CheckReferences(t: Table<Evidence>, refs: seq<EvidenceReference>): Option<Code> {
    if refs == [] then None
    else
      var item := Get(t, ReferenceKey(refs[0]));
      if item.None? then Some(EvidenceDangling)
      else if item.value.digest != refs[0].digest then Some(EvidenceDigestMismatch)
      else if Truthy(refs[0].locator) && refs[0].locator.value != item.value.locator then Some(EvidenceDigestMismatch)
      else CheckReferences(t, refs[1..])
  }

  /** Every check of `appendAssertion` except uniqueness and the permission for a further revision. */
  function CheckAssertionContent(env: Env, l: Ledger, x: Assertion): Option<Code> {
    if !IsIdentity(x.id) || !IsIdentity(x.revision) || !IsIdentity(x.method_) || !IsIdentity(x.schemaId) || !IsIdentity(x.schemaVersion)
    then Some(IdentityRequired)
    else if !IsTimestamp(env, x.assertedAt) then Some(ValueInvalid)
    else if x.relationship.OtherRelationship? then Some(ValueInvalid)
    else if x.confidence.NotFinite? || x.confidence.value < 0.0 || x.confidence.value > 1.0 then Some(ValueInvalid)
    else
      var source, target := Get(l.entities, x.sourceEntityId), Get(l.entities, x.targetEntityId);
      if source.None? || target.None? then Some(IdentityDangling)
      else if !EndpointsAllowed(x.relationship, source.value.kind, target.value.kind) then Some(TypeDirectionInvalid)
      else if !Has(l.agents, x.issuerAgentId) then Some(AgentDangling)
      else if Truthy(x.producingActivityId) && !Has(l.activities, x.producingActivityId.value) then Some(IdentityDangling)
      else if x.assertionKind == Observed && !Truthy(x.producingActivityId) then Some(ActivityRequired)
      else if x.assertionKind == Observed && x.evidence == [] then Some(EvidenceDangling)
      else CheckReferences(l.evidence, x.evidence)
  }

  predicate HasRevisionOf(t: Table<Assertion>, id: string) {
    exists i :: 0 <= i < |t| && t[i].value.id == id
  }

  predicate HasPermission(t: Table<Correction>, id: string, revision: string) {
    exists i :: 0 <= i < |t| && Permits(t[i].value, id, revision)
  }

  function CheckAssertion(env: Env, l: Ledger, x: Assertion): Option<Code> {
    var content := CheckAssertionContent(env, l, x);
    if content.Some? then content
    else if Has(l.assertions, AssertionKey(x)) then Some(IdentityDuplicate)
    else if HasRevisionOf(l.assertions, x.id) && !HasPermission(l.corrections, x.id, x.revision) then Some(CorrectionInvalid)
    else None
  }

  /** Every check of `appendCorrection` that does not look at the assertions or the uniqueness of the id. */
  function CheckCorrectionContent(env: Env, l: Ledger, x: Correction): Option<Code> {
    if !Has(l.agents, x.issuerAgentId) then Some(AgentDangling)
    else
      var activity := Get(l.activities, x.activityId);
      if activity.None? || activity.value.kind != "correction" then Some(CorrectionInvalid)
      else if x.action == Retract && (Truthy(x.replacementAssertionId) || Truthy(x.replacementRevision)) then Some(CorrectionInvalid)
      else if x.action != Retract && !NamesReplacement(x) then Some(CorrectionInvalid)
      else if x.replacementAssertionId == Some(x.assertionId) && x.action == Supersede then Some(CorrectionInvalid)
      else None
  }

  function CheckCorrection(env: Env, l: Ledger, x: Correction): Option<Code> {
    if !IsIdentity(x.id) || !IsIdentity(x.reason) then Some(IdentityRequired)
    else if !IsTimestamp(env, x.recordedAt) then Some(ValueInvalid)
    else if !Has(l.assertions, TargetKey(x)) then Some(IdentityDangling)
    else
      var content := CheckCorrectionContent(env, l, x);
      if content.Some? then content
      else if Has(l.corrections, x.id) then Some(IdentityDuplicate)
      else None
  }

  // ----- the appends -----

  function Added<T>(l: Ledger, t: Table<T>, k: string, x: T): Table<T> {
    t + [Entry(k, l.sequence + 1, x)]
  }

  datatype Event = NewEntity(entity: Entity) | NewAgent(agent: Agent) | NewActivity(activity: Activity)
                 | NewEvidence(evidence: Evidence) | NewAssertion(assertion: Assertion) | NewCorrection(correction: Correction)

  function Check(env: Env, l: Ledger, e: Event): Option<Code> {
    match e
    case NewEntity(x) => CheckEntity(env, l, x)
    case NewAgent(x) => CheckAgent(l, x)
    case NewActivity(x) => CheckActivity(env, l, x)
    case NewEvidence(x) => CheckEvidence(env, l, x)
    case NewAssertion(x) => CheckAssertion(env, l, x)
    case NewCorrection(x) => CheckCorrection(env, l, x)
  }

  function Extend(l: Ledger, e: Event): Ledger {
    var l' := l.(sequence := l.sequence + 1);
    match e
    case NewEntity(x) => l'.(entities := Added(l, l.entities, EntityKey(x), x))
    case NewAgent(x) => l'.(agents := Added(l, l.agents, AgentKey(x), x))
    case NewActivity(x) => l'.(activities := Added(l, l.activities, ActivityKey(x), x))
    case NewEvidence(x) => l'.(evidence := Added(l, l.evidence, EvidenceKey(x), x))
    case NewAssertion(x) => l'.(assertions := Added(l, l.assertions, AssertionKey(x), x))
    case NewCorrection(x) => l'.(corrections := Added(l, l.corrections, CorrectionKey(x), x))
  }

  /** One append: rejected with the first failing check's code, or recorded under the next sequence number. */
  function Append(env: Env, l: Ledger, e: Event): Result<Ledger, Code> {
    var failure := Check(env, l, e);
    if failure.Some? then Err(failure.value) else Ok(Extend(l, e))
  }

  /** A run of append calls; a rejected one leaves the ledger as it was. */
  function Replay(env: Env, l: Ledger, events: seq<Event>): Ledger
    decreases |events|
  {
    if events == [] then l
    else
      var r := Append(env, l, events[0]);
      Replay(env, if r.Ok? then r.value else l, events[1..])
  }

  // ----- the invariant -----

  /** The ledger as it stood at a snapshot. */
  function At(l: Ledger, n: nat): Ledger {
    Ledger(n, Visible(l.entities, n), Visible(l.agents, n), Visible(l.activities, n),
           Visible(l.evidence, n), Visible(l.assertions, n), Visible(l.corrections, n))
  }

  ghost predicate Shaped(l: Ledger) {
    && TableOk(l.entities, l.sequence, EntityKey)
    && TableOk(l.agents, l.sequence, AgentKey)
    && TableOk(l.activities, l.sequence, ActivityKey)
    && TableOk(l.evidence, l.sequence, EvidenceKey)
    && TableOk(l.assertions, l.sequence, AssertionKey)
    && TableOk(l.corrections, l.sequence, CorrectionKey)
  }

  /** How many tables hold an entry with this sequence number. */
  function Owners(l: Ledger, s: nat): nat {
    (if Owns(l.entities, s) then 1 else 0) + (if Owns(l.agents, s) then 1 else 0)
    + (if Owns(l.activities, s) then 1 else 0) + (if Owns(l.evidence, s) then 1 else 0)
    + (if Owns(l.assertions, s) then 1 else 0) + (if Owns(l.corrections, s) then 1 else 0)
  }

  /** The event is stored under this sequence number. */
  ghost predicate Recorded(l: Ledger, x: Event, s: nat) {
    match x
    case NewEntity(y) => Entry(EntityKey(y), s, y) in l.entities
    case NewAgent(y) => Entry(AgentKey(y), s, y) in l.agents
    case NewActivity(y) => Entry(ActivityKey(y), s, y) in l.activities
    case NewEvidence(y) => Entry(EvidenceKey(y), s, y) in l.evidence
    case NewAssertion(y) => Entry(AssertionKey(y), s, y) in l.assertions
    case NewCorrection(y) => Entry(CorrectionKey(y), s, y) in l.corrections
  }

  /** Every entry passed its check against exactly what was appended before it. */
  ghost predicate Admitted(check: (Ledger, Event) -> Option<Code>, l: Ledger) {
    forall x, s: nat :: Recorded(l, x, s) ==> 1 <= s <= l.sequence && check(At(l, s - 1), x).None?
  }

  function Checker(env: Env): (Ledger, Event) -> Option<Code> {
    (l, x) => Check(env, l, x)
  }

  /** The ledger's invariant; the sequence numbers 1 to the counter each belong to exactly one table. */
  ghost predicate Valid(env: Env, l: Ledger) {
    && Shaped(l)
    && (forall s :: 1 <= s <= l.sequence ==> Owners(l, s) == 1)
    && Admitted(Checker(env), l)
  }

  lemma ValidShaped(env: Env, l: Ledger)
    requires Valid(env, l)
    ensures Shaped(l)
  {
  }

  // ----- prefixes -----

  lemma {:induction false} VisibleAll<T(!new)>(t: Table<T>, n: int)
    requires forall e :: e in t ==> e.sequence <= n
    ensures Visible(t, n) == t
  {
    if t != [] {
      var init, last := t[..|t| - 1], t[|t| - 1];
      assert t == init + [last];
      VisibleAll(init, n);
    }
  }

  lemma VisibleAdded<T(!new)>(t: Table<T>, e: Entry<T>, n: int)
    ensures Visible(t + [e], n) == Visible(t, n) + (if e.sequence <= n then [e] else [])
  {
    assert (t + [e])[..|t|] == t;
  }

  lemma {:induction false} VisibleVisible<T(!new)>(t: Table<T>, m: int, n: int)
    requires n <= m
    ensures Visible(Visible(t, m), n) == Visible(t, n)
  {
    if t != [] {
      var init, last := t[..|t| - 1], t[|t| - 1];
      VisibleVisible(init, m, n);
      if last.sequence <= m {
        VisibleAdded(Visible(init, m), last, n);
      } else {
        assert Visible(init, m) + [] == Visible(init, m);
      }
    }
  }

  /** A visible table is a prefix, because sequence numbers increase. */
  lemma {:induction false} VisiblePrefix<T(!new)>(t: Table<T>, n: int)
    requires forall i, j :: 0 <= i < j < |t| ==> t[i].sequence < t[j].sequence
    ensures Visible(t, n) <= t
  {
    if t != [] {
      var init, last := t[..|t| - 1], t[|t| - 1];
      assert t == init + [last];
      VisiblePrefix(init, n);
      if last.sequence <= n {
        VisibleAll(init, n);
      }
    }
  }

  lemma AtAt(l: Ledger, m: nat, n: nat)
    requires n <= m
    ensures At(At(l, m), n) == At(l, n)
  {
    VisibleVisible(l.entities, m, n);
    VisibleVisible(l.agents, m, n);
    VisibleVisible(l.activities, m, n);
    VisibleVisible(l.evidence, m, n);
    VisibleVisible(l.assertions, m, n);
    VisibleVisible(l.corrections, m, n);
  }

  lemma AtNow(l: Ledger)
    requires Shaped(l)
    ensures At(l, l.sequence) == l
  {
    VisibleAll(l.entities, l.sequence);
    VisibleAll(l.agents, l.sequence);
    VisibleAll(l.activities, l.sequence);
    VisibleAll(l.evidence, l.sequence);
    VisibleAll(l.assertions, l.sequence);
    VisibleAll(l.corrections, l.sequence);
  }

  lemma VisibleExtended<T(!new)>(t: Table<T>, e: Entry<T>, n: int)
    requires n < e.sequence
    ensures Visible(t + [e], n) == Visible(t, n)
  {
    VisibleAdded(t, e, n);
    assert Visible(t, n) + [] == Visible(t, n);
  }

  /** Appending changes no earlier snapshot. */
  lemma AtExtend(l: Ledger, x: Event, n: nat)
    requires n <= l.sequence
    ensures At(Extend(l, x), n) == At(l, n)
  {
    hide Visible;
    var s := l.sequence + 1;
    match x
    case NewEntity(y) => VisibleExtended(l.entities, Entry(EntityKey(y), s, y), n);
    case NewAgent(y) => VisibleExtended(l.agents, Entry(AgentKey(y), s, y), n);
    case NewActivity(y) => VisibleExtended(l.activities, Entry(ActivityKey(y), s, y), n);
    case NewEvidence(y) => VisibleExtended(l.evidence, Entry(EvidenceKey(y), s, y), n);
    case NewAssertion(y) => VisibleExtended(l.assertions, Entry(AssertionKey(y), s, y), n);
    case NewCorrection(y) => VisibleExtended(l.corrections, Entry(CorrectionKey(y), s, y), n);
  }

  lemma OwnsAdded<T>(t: Table<T>, e: Entry<T>, s: nat)
    ensures Owns(t + [e], s) <==> Owns(t, s) || s == e.sequence
  {
    var u := t + [e];
    assert u[|t|] == e;
    if Owns(t, s) { var i :| 0 <= i < |t| && t[i].sequence == s; assert u[i].sequence == s; }
  }

  lemma NotYetOwned(l: Ledger)
    requires Shaped(l)
    ensures Owners(l, l.sequence + 1) == 0
  {
    assert forall e: Entry<Entity> :: e in l.entities ==> e.sequence <= l.sequence;
  }

  lemma OwnersExtend(l: Ledger, x: Event, s: nat)
    requires Shaped(l)
    requires s <= l.sequence + 1
    ensures s <= l.sequence ==> Owners(Extend(l, x), s) == Owners(l, s)
    ensures s == l.sequence + 1 ==> Owners(Extend(l, x), s) == 1
  {
    var q := l.sequence + 1;
    NotYetOwned(l);
    hide Owns, TableOk;
    match x
    case NewEntity(y) => OwnsAdded(l.entities, Entry(EntityKey(y), q, y), s);
    case NewAgent(y) => OwnsAdded(l.agents, Entry(AgentKey(y), q, y), s);
    case NewActivity(y) => OwnsAdded(l.activities, Entry(ActivityKey(y), q, y), s);
    case NewEvidence(y) => OwnsAdded(l.evidence, Entry(EvidenceKey(y), q, y), s);
    case NewAssertion(y) => OwnsAdded(l.assertions, Entry(AssertionKey(y), q, y), s);
    case NewCorrection(y) => OwnsAdded(l.corrections, Entry(CorrectionKey(y), q, y), s);
  }

  lemma TableAdded<T(!new)>(t: Table<T>, sequence: nat, keyOf: T -> string, x: T)
    requires TableOk(t, sequence, keyOf)
    requires !Has(t, keyOf(x))
    ensures TableOk(t + [Entry(keyOf(x), sequence + 1, x)], sequence + 1, keyOf)
  {
    var u := t + [Entry(keyOf(x), sequence + 1, x)];
    assert forall i :: 0 <= i < |t| ==> t[i] in t;
  }

  lemma TableGrows<T(!new)>(t: Table<T>, sequence: nat, keyOf: T -> string)
    requires TableOk(t, sequence, keyOf)
    ensures TableOk(t, sequence + 1, keyOf)
  {
  }

  /** The key the event would be stored under is free. */
  predicate Unused(l: Ledger, x: Event) {
    match x
    case NewEntity(y) => !Has(l.entities, EntityKey(y))
    case NewAgent(y) => !Has(l.agents, AgentKey(y))
    case NewActivity(y) => !Has(l.activities, ActivityKey(y))
    case NewEvidence(y) => !Has(l.evidence, EvidenceKey(y))
    case NewAssertion(y) => !Has(l.assertions, AssertionKey(y))
    case NewCorrection(y) => !Has(l.corrections, CorrectionKey(y))
  }

  lemma CheckedUnused(env: Env, l: Ledger, x: Event)
    requires Check(env, l, x).None?
    ensures Unused(l, x)
  {
  }

  lemma ShapedExtend(l: Ledger, x: Event)
    requires Shaped(l)
    requires Unused(l, x)
    ensures Shaped(Extend(l, x))
  {
    hide TableOk;
    TableGrows(l.entities, l.sequence, EntityKey);
    TableGrows(l.agents, l.sequence, AgentKey);
    TableGrows(l.activities, l.sequence, ActivityKey);
    TableGrows(l.evidence, l.sequence, EvidenceKey);
    TableGrows(l.assertions, l.sequence, AssertionKey);
    TableGrows(l.corrections, l.sequence, CorrectionKey);
    match x
    case NewEntity(y) => TableAdded(l.entities, l.sequence, EntityKey, y);
    case NewAgent(y) => TableAdded(l.agents, l.sequence, AgentKey, y);
    case NewActivity(y) => TableAdded(l.activities, l.sequence, ActivityKey, y);
    case NewEvidence(y) => TableAdded(l.evidence, l.sequence, EvidenceKey, y);
    case NewAssertion(y) => TableAdded(l.assertions, l.sequence, AssertionKey, y);
    case NewCorrection(y) => TableAdded(l.corrections, l.sequence, CorrectionKey, y);
  }

  lemma AdmittedExtend(check: (Ledger, Event) -> Option<Code>, l: Ledger, x: Event)
    requires Shaped(l) && Admitted(check, l)
    requires check(l, x).None?
    ensures Admitted(check, Extend(l, x))
  {
    hide TableOk, At;
    var l' := Extend(l, x);
    forall y, s: nat | Recorded(l', y, s) ensures 1 <= s <= l'.sequence && check(At(l', s - 1), y).None? {
      if Recorded(l, y, s) {
        AtExtend(l, x, s - 1);
      } else {
        assert y == x && s == l'.sequence;
        AtExtend(l, x, l.sequence);
        AtNow(l);
      }
    }
  }

  /** Every successful append keeps the invariant; with it, every reachable ledger is valid. */
  lemma AppendKeepsValid(env: Env, l: Ledger, x: Event)
    requires Valid(env, l)
    ensures Append(env, l, x).Ok? ==> Valid(env, Append(env, l, x).value)
  {
    if Check(env, l, x).None? {
      CheckedUnused(env, l, x);
      ShapedExtend(l, x);
      AdmittedExtend(Checker(env), l, x);
      forall s | 1 <= s <= l.sequence + 1 ensures Owners(Extend(l, x), s) == 1 {
        OwnersExtend(l, x, s);
      }
    }
  }

  lemma {:induction false} ReplayValid(env: Env, l: Ledger, events: seq<Event>)
    requires Valid(env, l)
    ensures Valid(env, Replay(env, l, events))
    decreases |events|
  {
    hide Valid, Check;
    if events != [] {
      AppendKeepsValid(env, l, events[0]);
      var r := Append(env, l, events[0]);
      ReplayValid(env, if r.Ok? then r.value else l, events[1..]);
    }
  }

  lemma OwnersAt(l: Ledger, n: nat, s: nat)
    requires s <= n
    ensures Owners(At(l, n), s) == Owners(l, s)
  {
    assert forall t: Table<Entity> :: Owns(t, s) <==> exists e :: e in t && e.sequence == s;
    assert forall t: Table<Agent> :: Owns(t, s) <==> exists e :: e in t && e.sequence == s;
    assert forall t: Table<Activity> :: Owns(t, s) <==> exists e :: e in t && e.sequence == s;
    assert forall t: Table<Evidence> :: Owns(t, s) <==> exists e :: e in t && e.sequence == s;
    assert forall t: Table<Assertion> :: Owns(t, s) <==> exists e :: e in t && e.sequence == s;
    assert forall t: Table<Correction> :: Owns(t, s) <==> exists e :: e in t && e.sequence == s;
  }

  lemma TableAt<T(!new)>(t: Table<T>, sequence: nat, keyOf: T -> string, n: nat)
    requires TableOk(t, sequence, keyOf)
    ensures TableOk(Visible(t, n), n, keyOf)
  {
    VisiblePrefix(t, n);
  }

  lemma ShapedAt(l: Ledger, n: nat)
    requires Shaped(l)
    ensures Shaped(At(l, n))
  {
    TableAt(l.entities, l.sequence, EntityKey, n);
    TableAt(l.agents, l.sequence, AgentKey, n);
    TableAt(l.activities, l.sequence, ActivityKey, n);
    TableAt(l.evidence, l.sequence, EvidenceKey, n);
    TableAt(l.assertions, l.sequence, AssertionKey, n);
    TableAt(l.corrections, l.sequence, CorrectionKey, n);
  }

  lemma AdmittedAt(check: (Ledger, Event) -> Option<Code>, l: Ledger, n: nat)
    requires Admitted(check, l)
    ensures Admitted(check, At(l, n))
  {
    forall x, s: nat | Recorded(At(l, n), x, s) ensures 1 <= s <= n && check(At(At(l, n), s - 1), x).None? {
      assert Recorded(l, x, s) && s <= n;
      AtAt(l, n, s - 1);
    }
  }

  /** Every snapshot of a valid ledger is itself a valid ledger: prefixes are referentially closed. */
  lemma PrefixValid(env: Env, l: Ledger, n: nat)
    requires Valid(env, l)
    requires n <= l.sequence
    ensures Valid(env, At(l, n))
  {
    ShapedAt(l, n);
    AdmittedAt(Checker(env), l, n);
    forall s | 1 <= s <= n ensures Owners(At(l, n), s) == 1 {
      OwnersAt(l, n, s);
    }
  }

  /** No run of appends, accepted or rejected, changes what an earlier snapshot holds. */
  lemma {:induction false} ReplayKeepsSnapshots(env: Env, l: Ledger, events: seq<Event>, n: nat)
    requires n <= l.sequence
    ensures At(Replay(env, l, events), n) == At(l, n)
    ensures l.sequence <= Replay(env, l, events).sequence
    decreases |events|
  {
    hide At, Check;
    if events != [] {
      AtExtend(l, events[0], n);
      var r := Append(env, l, events[0]);
      ReplayKeepsSnapshots(env, if r.Ok? then r.value else l, events[1..], n);
    }
  }

  // ----- sequence numbers -----

  lemma CountStep<T(!new)>(t: Table<T>, m: nat, keyOf: T -> string, n: nat)
    requires TableOk(t, m, keyOf)
    ensures |Visible(t, n + 1)| == |Visible(t, n)| + (if Owns(t, n + 1) then 1 else 0)
  {
    VisibleCount(t, n);
  }

  lemma {:induction false} VisibleCount<T(!new)>(t: Table<T>, n: nat)
    requires forall i, j :: 0 <= i < j < |t| ==> t[i].sequence < t[j].sequence
    ensures |Visible(t, n + 1)| == |Visible(t, n)| + (if Owns(t, n + 1) then 1 else 0)
  {
    if t != [] {
      var init, last := t[..|t| - 1], t[|t| - 1];
      assert t == init + [last];
      VisibleCount(init, n);
      OwnsAdded(init, last, n + 1);
    }
  }

  function Entries(l: Ledger): nat {
    |l.entities| + |l.agents| + |l.activities| + |l.evidence| + |l.assertions| + |l.corrections|
  }

  lemma VisibleNone<T(!new)>(t: Table<T>, n: nat, keyOf: T -> string)
    requires TableOk(t, n, keyOf)
    ensures Visible(t, 0) == []
  {
    var v := Visible(t, 0);
    assert forall i :: 0 <= i < |v| ==> v[i] in t;
  }

  /** A snapshot number is the number of entries the snapshot holds. */
  lemma {:induction false} SnapshotCounts(l: Ledger, n: nat)
    requires Shaped(l) && n <= l.sequence
    requires forall s :: 1 <= s <= l.sequence ==> Owners(l, s) == 1
    ensures Entries(At(l, n)) == n
  {
    hide Visible, TableOk, Owns;
    if n == 0 {
      VisibleNone(l.entities, l.sequence, EntityKey);
      VisibleNone(l.agents, l.sequence, AgentKey);
      VisibleNone(l.activities, l.sequence, ActivityKey);
      VisibleNone(l.evidence, l.sequence, EvidenceKey);
      VisibleNone(l.assertions, l.sequence, AssertionKey);
      VisibleNone(l.corrections, l.sequence, CorrectionKey);
    } else {
      SnapshotCounts(l, n - 1);
      assert Owners(l, n) == 1;
      CountStep(l.entities, l.sequence, EntityKey, n - 1);
      CountStep(l.agents, l.sequence, AgentKey, n - 1);
      CountStep(l.activities, l.sequence, ActivityKey, n - 1);
      CountStep(l.evidence, l.sequence, EvidenceKey, n - 1);
      CountStep(l.assertions, l.sequence, AssertionKey, n - 1);
      CountStep(l.corrections, l.sequence, CorrectionKey, n - 1);
    }
  }
}
