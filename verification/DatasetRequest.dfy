/** Ingest plans, batches, checkpoints and receipts, their canonical digests and the keys derived from them. */
module DatasetRequest {
  import opened Wrappers
  import opened Sorting
  import opened CanonicalJson
  import Utf8

  const CONTRACT := "fortemi.dataset-ingest/v1"
  const SCHEMA_VERSION := "1.0.0"

  /** A value the caller holds: object keys are distinct. */
  type Held = j: Json | WellFormed(j) witness Null

  datatype Scope = Scope(tenant: string, dataset: string, sourceBinding: string, stream: string, partition: Option<string>)

  datatype Checkpoint = Checkpoint(contract: string, schemaVersion: string, scope: Scope, opaqueText: string, sequence: int)

  datatype Mode = Full | Snapshot | Incremental
  datatype RejectionMode = FailFast | BoundedReject | DeadLetter
  datatype RejectionPolicy = RejectionPolicy(mode: RejectionMode, maxRejectedRecords: int)
  datatype Reconciliation = Reconciliation(enabled: bool, maxTombstones: int)

  datatype Plan = Plan(
    contract: string, schemaVersion: string, planId: string, planDigest: string, sourceRevision: string,
    configurationDigest: string, transformationDigest: string, destination: Scope, mode: Mode,
    rejectionPolicy: RejectionPolicy, reconciliation: Reconciliation)

  datatype Mutation =
    | Upsert(logicalId: string, revision: string, digest: string, value: Held, locator: Option<string>)
    | Tombstone(logicalId: string, revision: string, digest: string, locator: Option<string>)

  datatype Enumeration = Enumeration(complete: bool, approvalId: Option<string>)

  datatype Batch = Batch(
    contract: string, schemaVersion: string, sequence: int, idempotencyKey: Option<string>, mutations: seq<Mutation>,
    checkpointBefore: Option<Checkpoint>, checkpointAfter: Checkpoint, enumeration: Option<Enumeration>)

  datatype Rejection = Rejection(logicalIdDigest: string, locator: Option<string>, code: string, message: string)

  datatype Effect = Effect(tombstone: bool, logicalId: string, revision: string, digest: string)

  datatype Receipt = Receipt(
    runId: string, idempotencyKey: string, requestDigest: string, planId: string, planDigest: string,
    sourceRevision: string, destination: Scope, mode: Mode, degraded: bool, effects: seq<Effect>,
    acceptedRecords: nat, rejectedRecords: nat, rejections: seq<Rejection>, outputDigest: string,
    checkpointBefore: Option<Checkpoint>, checkpointAfter: Checkpoint)

  /** The hash and the collation the run uses. */
  datatype Env = Env(hash: string -> string, less: (string, string) -> bool)

  /** The hash has no collisions and the collation orders all strings. */
  ghost predicate Sound(env: Env) {
    (forall a, b :: env.hash(a) == env.hash(b) ==> a == b) && StrictTotal(env.less)
  }

  function Digest(env: Env, j: Held): string {
    env.hash(Canonical(env.less, j))
  }

  /** Digests agree exactly on values that are the same JSON. */
  lemma DigestsAgree(env: Env, a: Held, b: Held)
    requires Sound(env)
    ensures Digest(env, a) == Digest(env, b) <==> Meaning(a) == Meaning(b)
  {
    TextDeterminesValue(env.less, a, b);
    hide Canonical, Meaning, StrictTotal;
  }

  // ----- objects with optional members -----

  /** The member names of one kind of object. */
  type Names = ns: seq<string> | Distinct(ns) witness []

  type Values = seq<Option<Held>>

  /** The members that are not `undefined`, in order. */
  function Present(names: seq<string>, values: Values): (r: seq<Member>)
    requires |names| == |values|
    ensures forall m :: m in r ==> WellFormed(m.value) && m.key in names
  {
    if names == [] then []
    else
      var rest := Present(names[1..], values[1..]);
      match values[0]
      case None => rest
      case Some(v) => [Member(names[0], v)] + rest
  }

  lemma {:induction false} PresentDistinct(names: seq<string>, values: Values)
    requires Distinct(names) && |names| == |values|
    ensures DistinctMembers(Present(names, values))
  {
    if names != [] {
      PresentDistinct(names[1..], values[1..]);
      assert names[0] !in names[1..];
    }
  }

  function Object(names: Names, values: Values): Held
    requires |names| == |values|
  {
    PresentDistinct(names, values);
    Obj(Present(names, values))
  }

  /** What a member means, if it is there. */
  function Field(d: Datum, name: string): Option<Datum> {
    if d.ObjValue? && name in d.members then Some(d.members[name]) else None
  }

  function MeaningOf(v: Option<Held>): Option<Datum> {
    match v
    case None => None
    case Some(j) => Some(Meaning(j))
  }

  lemma {:induction false} PresentField(names: seq<string>, values: Values, i: nat)
    requires Distinct(names) && |names| == |values| && i < |names|
    ensures Field(ObjValue(MemberMap(Present(names, values))), names[i]) == MeaningOf(values[i])
    decreases |names|
  {
    hide Meaning;
    assert names[0] !in names[1..];
    if i == 0 {
      AbsentField(names[1..], values[1..], names[0]);
    } else {
      PresentField(names[1..], values[1..], i - 1);
    }
    if values[0].Some? { assert Present(names, values)[1..] == Present(names[1..], values[1..]); }
  }

  lemma {:induction false} AbsentField(names: seq<string>, values: Values, name: string)
    requires |names| == |values| && name !in names
    ensures name !in MemberMap(Present(names, values))
    decreases |names|
  {
    hide Meaning;
    if names != [] {
      AbsentField(names[1..], values[1..], name);
      if values[0].Some? { assert Present(names, values)[1..] == Present(names[1..], values[1..]); }
    }
  }

  lemma FieldOf(names: Names, values: Values, i: nat)
    requires |names| == |values| && i < |names|
    ensures Field(Meaning(Object(names, values)), names[i]) == MeaningOf(values[i])
  {
    PresentField(names, values, i);
    hide MemberMap, Present;
  }

  /** Objects of one kind that mean the same agree member by member. */
  lemma SameField(names: Names, a: Values, b: Values, i: nat)
    requires |names| == |a| == |b| && i < |names| && Meaning(Object(names, a)) == Meaning(Object(names, b))
    ensures MeaningOf(a[i]) == MeaningOf(b[i])
  {
    hide Meaning, Object;
    FieldOf(names, a, i);
    FieldOf(names, b, i);
  }

  // ----- the entities as JSON -----

  const SCOPE_NAMES: Names := ["tenant", "dataset", "sourceBinding", "stream", "partition"]
  const CHECKPOINT_NAMES: Names := ["contract", "schemaVersion", "scope", "opaque", "sequence"]
  const POLICY_NAMES: Names := ["mode", "maxRejectedRecords"]
  const RECONCILIATION_NAMES: Names := ["enabled", "maxTombstones"]
  const PLAN_NAMES: Names :=
    ["contract", "schemaVersion", "planId", "planDigest", "sourceRevision", "configurationDigest", "transformationDigest",
     "destination", "mode", "rejectionPolicy", "reconciliation"]
  const MUTATION_NAMES: Names := ["operation", "logicalId", "revision", "digest", "value", "locator"]
  const ENUMERATION_NAMES: Names := ["complete", "approvalId"]
  const BATCH_NAMES: Names :=
    ["contract", "schemaVersion", "sequence", "idempotencyKey", "mutations", "checkpointBefore", "checkpointAfter", "enumeration"]
  const REQUEST_NAMES: Names := ["plan", "batch"]
  const KEY_NAMES: Names :=
    ["contract", "planId", "planDigest", "sourceRevision", "configurationDigest", "transformationDigest", "destination", "mode",
     "sequence", "checkpointBefore", "checkpointAfter", "mutations"]
  const EFFECT_NAMES: Names := ["operation", "logicalId", "revision", "digest"]

  function TextOf(s: string): Option<Held> {
    Some(Str(s))
  }

  function NumberOf(n: int): Option<Held> {
    Some(Num(n))
  }

  function OptionalText(o: Option<string>): Option<Held> {
    if o.None? then None else TextOf(o.value)
  }

  function ScopeValues(s: Scope): Values {
    [TextOf(s.tenant), TextOf(s.dataset), TextOf(s.sourceBinding), TextOf(s.stream), OptionalText(s.partition)]
  }

  function ScopeJson(s: Scope): Held {
    Object(SCOPE_NAMES, ScopeValues(s))
  }

  function CheckpointValues(c: Checkpoint): Values {
    [TextOf(c.contract), TextOf(c.schemaVersion), Some(ScopeJson(c.scope)), TextOf(c.opaqueText), NumberOf(c.sequence)]
  }

  function CheckpointJson(c: Checkpoint): Held {
    Object(CHECKPOINT_NAMES, CheckpointValues(c))
  }

  function OptionalCheckpoint(o: Option<Checkpoint>): Option<Held> {
    if o.None? then None else Some(CheckpointJson(o.value))
  }

  function ModeText(m: Mode): string {
    match m
    case Full => "full"
    case Snapshot => "snapshot"
    case Incremental => "incremental"
  }

  function RejectionModeText(m: RejectionMode): string {
    match m
    case FailFast => "fail-fast"
    case BoundedReject => "bounded-reject"
    case DeadLetter => "dlq"
  }

  function PolicyJson(p: RejectionPolicy): Held {
    Object(POLICY_NAMES, [TextOf(RejectionModeText(p.mode)), NumberOf(p.maxRejectedRecords)])
  }

  function ReconciliationJson(r: Reconciliation): Held {
    Object(RECONCILIATION_NAMES, [Some(Bool(r.enabled)), NumberOf(r.maxTombstones)])
  }

  function PlanValues(p: Plan): Values {
    [TextOf(p.contract), TextOf(p.schemaVersion), TextOf(p.planId), TextOf(p.planDigest), TextOf(p.sourceRevision),
     TextOf(p.configurationDigest), TextOf(p.transformationDigest), Some(ScopeJson(p.destination)), TextOf(ModeText(p.mode)),
     Some(PolicyJson(p.rejectionPolicy)), Some(ReconciliationJson(p.reconciliation))]
  }

  function PlanJson(p: Plan): Held {
    Object(PLAN_NAMES, PlanValues(p))
  }

  function OperationText(tombstone: bool): string {
    if tombstone then "tombstone" else "upsert"
  }

  function MutationValues(m: Mutation): Values {
    [TextOf(OperationText(m.Tombstone?)), TextOf(m.logicalId), TextOf(m.revision), TextOf(m.digest),
     if m.Upsert? then Some(m.value) else None, OptionalText(m.locator)]
  }

  function MutationJson(m: Mutation): Held {
    Object(MUTATION_NAMES, MutationValues(m))
  }

  function MutationJsons(ms: seq<Mutation>): seq<Held> {
    if ms == [] then [] else [MutationJson(ms[0])] + MutationJsons(ms[1..])
  }

  function MutationsJson(ms: seq<Mutation>): Option<Held> {
    Some(Arr(MutationJsons(ms)))
  }

  function EnumerationJson(o: Option<Enumeration>): Option<Held> {
    if o.None? then None else Some(Object(ENUMERATION_NAMES, [Some(Bool(o.value.complete)), OptionalText(o.value.approvalId)]))
  }

  function BatchValues(b: Batch): Values {
    [TextOf(b.contract), TextOf(b.schemaVersion), NumberOf(b.sequence), OptionalText(b.idempotencyKey),
     MutationsJson(b.mutations), OptionalCheckpoint(b.checkpointBefore), Some(CheckpointJson(b.checkpointAfter)),
     EnumerationJson(b.enumeration)]
  }

  function BatchJson(b: Batch): Held {
    Object(BATCH_NAMES, BatchValues(b))
  }

  /** What `requestDigest` covers. */
  function RequestJson(p: Plan, b: Batch): Held {
    Object(REQUEST_NAMES, [Some(PlanJson(p)), Some(BatchJson(b))])
  }

  function RequestDigest(env: Env, p: Plan, b: Batch): string {
    Digest(env, RequestJson(p, b))
  }

  /** The same canonical content: equal but for the member order of mutation values. */
  ghost predicate SameRequest(p: Plan, b: Batch, p': Plan, b': Batch) {
    Meaning(RequestJson(p, b)) == Meaning(RequestJson(p', b'))
  }

  /** Request digests agree exactly on requests with the same canonical content. */
  lemma RequestDigestsAgree(env: Env, p: Plan, b: Batch, p': Plan, b': Batch)
    requires Sound(env)
    ensures RequestDigest(env, p, b) == RequestDigest(env, p', b') <==> SameRequest(p, b, p', b')
  {
    hide RequestJson, Meaning;
    DigestsAgree(env, RequestJson(p, b), RequestJson(p', b'));
  }

  lemma NumbersAgree(a: int, b: int)
    requires MeaningOf(NumberOf(a)) == MeaningOf(NumberOf(b))
    ensures a == b
  {
  }

  lemma TextsAgree(a: string, b: string)
    requires MeaningOf(TextOf(a)) == MeaningOf(TextOf(b))
    ensures a == b
  {
  }

  lemma OptionalTextsAgree(a: Option<string>, b: Option<string>)
    requires MeaningOf(OptionalText(a)) == MeaningOf(OptionalText(b))
    ensures a == b
  {
  }

  /** Requests with the same content are for the same place in the stream. */
  lemma SameRequestSameSequence(p: Plan, b: Batch, p': Plan, b': Batch)
    requires SameRequest(p, b, p', b')
    ensures b.sequence == b'.sequence
  {
    hide Object, Meaning, BatchValues, PlanJson, TextOf, NumberOf, MeaningOf, Distinct;
    SameField(REQUEST_NAMES, [Some(PlanJson(p)), Some(BatchJson(b))], [Some(PlanJson(p')), Some(BatchJson(b'))], 1);
    SameBatchSameSequence(b, b');
  }

  lemma SameBatchSameSequence(b: Batch, b': Batch)
    requires MeaningOf(Some(BatchJson(b))) == MeaningOf(Some(BatchJson(b')))
    ensures b.sequence == b'.sequence
  {
    hide Object, Meaning, NumberOf, TextOf, OptionalText, MutationsJson, OptionalCheckpoint, CheckpointJson, EnumerationJson, Distinct;
    SameField(BATCH_NAMES, BatchValues(b), BatchValues(b'), 2);
    NumbersAgree(b.sequence, b'.sequence);
  }

  lemma SameScope(a: Scope, b: Scope)
    requires Meaning(ScopeJson(a)) == Meaning(ScopeJson(b))
    ensures a == b
  {
    var fs, gs := ScopeValues(a), ScopeValues(b);
    hide Meaning, Object, MeaningOf, OptionalText, TextOf, Distinct;
    SameField(SCOPE_NAMES, fs, gs, 0);
    SameField(SCOPE_NAMES, fs, gs, 1);
    SameField(SCOPE_NAMES, fs, gs, 2);
    SameField(SCOPE_NAMES, fs, gs, 3);
    SameField(SCOPE_NAMES, fs, gs, 4);
    TextsAgree(a.tenant, b.tenant);
    TextsAgree(a.dataset, b.dataset);
    TextsAgree(a.sourceBinding, b.sourceBinding);
    TextsAgree(a.stream, b.stream);
    OptionalTextsAgree(a.partition, b.partition);
  }

  lemma SameCheckpoint(a: Checkpoint, b: Checkpoint)
    requires Meaning(CheckpointJson(a)) == Meaning(CheckpointJson(b))
    ensures a == b
  {
    var fs, gs := CheckpointValues(a), CheckpointValues(b);
    hide Meaning, Object, TextOf, NumberOf, ScopeValues, ScopeJson, Distinct;
    SameField(CHECKPOINT_NAMES, fs, gs, 0);
    SameField(CHECKPOINT_NAMES, fs, gs, 1);
    SameField(CHECKPOINT_NAMES, fs, gs, 2);
    SameField(CHECKPOINT_NAMES, fs, gs, 3);
    SameField(CHECKPOINT_NAMES, fs, gs, 4);
    TextsAgree(a.contract, b.contract);
    TextsAgree(a.schemaVersion, b.schemaVersion);
    SameScope(a.scope, b.scope);
    TextsAgree(a.opaqueText, b.opaqueText);
    NumbersAgree(a.sequence, b.sequence);
  }

  /** Requests with the same content are for the same destination. */
  lemma SameRequestSameDestination(p: Plan, b: Batch, p': Plan, b': Batch)
    requires SameRequest(p, b, p', b')
    ensures p.destination == p'.destination
  {
    hide Object, Meaning, BatchJson, TextOf, NumberOf, Distinct, PlanJson;
    SameField(REQUEST_NAMES, [Some(PlanJson(p)), Some(BatchJson(b))], [Some(PlanJson(p')), Some(BatchJson(b'))], 0);
    SamePlanSameDestination(p, p');
  }

  lemma SamePlanSameDestination(p: Plan, p': Plan)
    requires Meaning(PlanJson(p)) == Meaning(PlanJson(p'))
    ensures p.destination == p'.destination
  {
    hide Object, Meaning, NumberOf, TextOf, ScopeJson, PolicyJson, ReconciliationJson, ModeText, Distinct;
    SameField(PLAN_NAMES, PlanValues(p), PlanValues(p'), 7);
    SameScope(p.destination, p'.destination);
  }

  function CheckpointText(env: Env, c: Checkpoint): string {
    Canonical(env.less, CheckpointJson(c))
  }

  /** Two checkpoints have the same canonical text exactly when they are equal. */
  lemma CheckpointTextsAgree(env: Env, a: Checkpoint, b: Checkpoint)
    requires Sound(env)
    ensures CheckpointText(env, a) == CheckpointText(env, b) <==> a == b
  {
    hide Canonical, Meaning, CheckpointJson, StrictTotal;
    TextDeterminesValue(env.less, CheckpointJson(a), CheckpointJson(b));
    if Meaning(CheckpointJson(a)) == Meaning(CheckpointJson(b)) { SameCheckpoint(a, b); }
  }

  // ----- keys -----

  /** `datasetDestinationScopeKey`. */
  function ScopeKey(s: Scope): string {
    Utf8.EncodeComponent(s.tenant) + "/" + (Utf8.EncodeComponent(s.dataset) + "/" + (Utf8.EncodeComponent(s.sourceBinding)
      + "/" + (Utf8.EncodeComponent(s.stream) + "/" + Utf8.EncodeComponent(s.partition.GetOr("")))))
  }

  /** How many characters come before the first slash. */
  function SlashAt(s: string): nat {
    if s == "" || s[0] == '/' then 0 else 1 + SlashAt(s[1..])
  }

  lemma {:induction false} SlashAfter(a: string, x: string)
    requires '/' !in a
    ensures SlashAt(a + "/" + x) == |a|
  {
    if a != "" {
      assert (a + "/" + x)[1..] == a[1..] + "/" + x;
      SlashAfter(a[1..], x);
    }
  }

  lemma SplitAtSlash(a: string, x: string, b: string, y: string)
    requires '/' !in a && '/' !in b && a + "/" + x == b + "/" + y
    ensures a == b && x == y
  {
    SlashAfter(a, x);
    SlashAfter(b, y);
    var s := a + "/" + x;
    assert s == b + "/" + y;
    assert a == s[..|a|] && b == s[..|b|] && x == s[|a| + 1..] && y == s[|b| + 1..];
  }

  lemma SplitComponent(a: string, x: string, b: string, y: string)
    requires Utf8.EncodeComponent(a) + "/" + x == Utf8.EncodeComponent(b) + "/" + y
    ensures a == b && x == y
  {
    Utf8.ComponentHasNoSlash(a);
    Utf8.ComponentHasNoSlash(b);
    SplitAtSlash(Utf8.EncodeComponent(a), x, Utf8.EncodeComponent(b), y);
    Utf8.ComponentInjective(a, b);
  }

  /** Scope keys agree exactly on scopes that are equal once an absent partition is read as the empty one. */
  lemma ScopeKeysAgree(a: Scope, b: Scope)
    ensures ScopeKey(a) == ScopeKey(b) <==> a.(partition := None) == b.(partition := None) && a.partition.GetOr("") == b.partition.GetOr("")
  {
    if ScopeKey(a) == ScopeKey(b) {
      hide Utf8.EncodeComponent;
      var a4, b4 := Utf8.EncodeComponent(a.partition.GetOr("")), Utf8.EncodeComponent(b.partition.GetOr(""));
      var a3, b3 := Utf8.EncodeComponent(a.stream) + "/" + a4, Utf8.EncodeComponent(b.stream) + "/" + b4;
      var a2, b2 := Utf8.EncodeComponent(a.sourceBinding) + "/" + a3, Utf8.EncodeComponent(b.sourceBinding) + "/" + b3;
      var a1, b1 := Utf8.EncodeComponent(a.dataset) + "/" + a2, Utf8.EncodeComponent(b.dataset) + "/" + b2;
      SplitComponent(a.tenant, a1, b.tenant, b1);
      SplitComponent(a.dataset, a2, b.dataset, b2);
      SplitComponent(a.sourceBinding, a3, b.sourceBinding, b3);
      SplitComponent(a.stream, a4, b.stream, b4);
      Utf8.ComponentInjective(a.partition.GetOr(""), b.partition.GetOr(""));
    }
  }

  function KeyValues(p: Plan, b: Batch): Values {
    [TextOf(CONTRACT), TextOf(p.planId), TextOf(p.planDigest), TextOf(p.sourceRevision), TextOf(p.configurationDigest),
     TextOf(p.transformationDigest), Some(ScopeJson(p.destination)), TextOf(ModeText(p.mode)), NumberOf(b.sequence),
     OptionalCheckpoint(b.checkpointBefore), Some(CheckpointJson(b.checkpointAfter)), MutationsJson(b.mutations)]
  }

  function KeyJson(p: Plan, b: Batch): Held {
    Object(KEY_NAMES, KeyValues(p, b))
  }

  /** `deriveDatasetIngestIdempotencyKey`: the caller's key unless it is absent or empty. */
  function IdempotencyKey(env: Env, p: Plan, b: Batch): string {
    if b.idempotencyKey.GetOr("") != "" then b.idempotencyKey.value else Digest(env, KeyJson(p, b))
  }
}
