/** Which requests have one digest, and which one key, said of their fields. */
module DatasetContent {
  import opened Wrappers
  import opened Sorting
  import opened CanonicalJson
  import opened DatasetRequest

  // ----- objects -----

  ghost predicate Alike(a: Values, b: Values) {
    |a| == |b| && forall i :: 0 <= i < |a| ==> MeaningOf(a[i]) == MeaningOf(b[i])
  }

  lemma {:induction false} SameMembers(names: seq<string>, a: Values, b: Values)
    requires |names| == |a| && Alike(a, b)
    ensures MemberMap(Present(names, a)) == MemberMap(Present(names, b))
    decreases |names|
  {
    hide Meaning;
    if names != [] {
      assert MeaningOf(a[0]) == MeaningOf(b[0]);
      SameMembers(names[1..], a[1..], b[1..]);
      if a[0].Some? {
        assert Present(names, a)[1..] == Present(names[1..], a[1..]);
        assert Present(names, b)[1..] == Present(names[1..], b[1..]);
      }
    }
  }

  /** Objects of one kind mean the same exactly when they agree member by member. */
  lemma ObjectsAgree(names: Names, a: Values, b: Values)
    requires |names| == |a| == |b|
    ensures Meaning(Object(names, a)) == Meaning(Object(names, b)) <==> Alike(a, b)
  {
    if Meaning(Object(names, a)) == Meaning(Object(names, b)) {
      hide Meaning, Object, MeaningOf;
      forall i | 0 <= i < |a| ensures MeaningOf(a[i]) == MeaningOf(b[i]) { SameField(names, a, b, i); }
    }
    if Alike(a, b) { SameMembers(names, a, b); }
  }

  lemma TextsIff(a: string, b: string)
    ensures MeaningOf(TextOf(a)) == MeaningOf(TextOf(b)) <==> a == b
  {
  }

  lemma OptionalTextsIff(a: Option<string>, b: Option<string>)
    ensures MeaningOf(OptionalText(a)) == MeaningOf(OptionalText(b)) <==> a == b
  {
  }

  lemma NumbersIff(a: int, b: int)
    ensures MeaningOf(NumberOf(a)) == MeaningOf(NumberOf(b)) <==> a == b
  {
  }

  lemma CheckpointsIff(a: Option<Checkpoint>, b: Option<Checkpoint>)
    ensures MeaningOf(OptionalCheckpoint(a)) == MeaningOf(OptionalCheckpoint(b)) <==> a == b
  {
    hide Meaning, CheckpointJson;
    if a.Some? && b.Some? && Meaning(CheckpointJson(a.value)) == Meaning(CheckpointJson(b.value)) { SameCheckpoint(a.value, b.value); }
  }

  lemma ScopesIff(a: Scope, b: Scope)
    ensures MeaningOf(Some(ScopeJson(a))) == MeaningOf(Some(ScopeJson(b))) <==> a == b
  {
    hide Meaning, ScopeJson;
    if Meaning(ScopeJson(a)) == Meaning(ScopeJson(b)) { SameScope(a, b); }
  }

  lemma ModesIff(a: Mode, b: Mode)
    ensures MeaningOf(TextOf(ModeText(a))) == MeaningOf(TextOf(ModeText(b))) <==> a == b
  {
    TextsIff(ModeText(a), ModeText(b));
    assert "full"[0] == 'f' && "snapshot"[0] == 's' && "incremental"[0] == 'i';
  }

  lemma PoliciesIff(a: RejectionPolicy, b: RejectionPolicy)
    ensures MeaningOf(Some(PolicyJson(a))) == MeaningOf(Some(PolicyJson(b))) <==> a == b
  {
    var fs, gs := [TextOf(RejectionModeText(a.mode)), NumberOf(a.maxRejectedRecords)], [TextOf(RejectionModeText(b.mode)), NumberOf(b.maxRejectedRecords)];
    TextsIff(RejectionModeText(a.mode), RejectionModeText(b.mode));
    NumbersIff(a.maxRejectedRecords, b.maxRejectedRecords);
    ModeTextsDiffer(a.mode, b.mode);
    ObjectsAgree(POLICY_NAMES, fs, gs);
    hide Meaning, Object, TextOf, NumberOf, RejectionModeText, Distinct;
    assert Alike(fs, gs) <==> MeaningOf(fs[0]) == MeaningOf(gs[0]) && MeaningOf(fs[1]) == MeaningOf(gs[1]);
  }

  lemma ModeTextsDiffer(a: RejectionMode, b: RejectionMode)
    ensures RejectionModeText(a) == RejectionModeText(b) <==> a == b
  {
    assert "fail-fast"[0] == 'f' && "bounded-reject"[0] == 'b' && "dlq"[0] == 'd';
  }

  lemma ReconciliationsIff(a: Reconciliation, b: Reconciliation)
    ensures MeaningOf(Some(ReconciliationJson(a))) == MeaningOf(Some(ReconciliationJson(b))) <==> a == b
  {
    var fs, gs := [Some(Bool(a.enabled)), NumberOf(a.maxTombstones)], [Some(Bool(b.enabled)), NumberOf(b.maxTombstones)];
    NumbersIff(a.maxTombstones, b.maxTombstones);
    ObjectsAgree(RECONCILIATION_NAMES, fs, gs);
    assert MeaningOf(fs[0]) == MeaningOf(gs[0]) <==> a.enabled == b.enabled;
    hide Meaning, Object, NumberOf, Distinct;
    assert Alike(fs, gs) <==> MeaningOf(fs[0]) == MeaningOf(gs[0]) && MeaningOf(fs[1]) == MeaningOf(gs[1]);
  }

  lemma Eleven(a: Values, b: Values)
    requires |a| == |b| == 11
    ensures Alike(a, b) <==>
      && MeaningOf(a[0]) == MeaningOf(b[0]) && MeaningOf(a[1]) == MeaningOf(b[1]) && MeaningOf(a[2]) == MeaningOf(b[2])
      && MeaningOf(a[3]) == MeaningOf(b[3]) && MeaningOf(a[4]) == MeaningOf(b[4]) && MeaningOf(a[5]) == MeaningOf(b[5])
      && MeaningOf(a[6]) == MeaningOf(b[6]) && MeaningOf(a[7]) == MeaningOf(b[7]) && MeaningOf(a[8]) == MeaningOf(b[8])
      && MeaningOf(a[9]) == MeaningOf(b[9]) && MeaningOf(a[10]) == MeaningOf(b[10])
  {
    hide MeaningOf;
  }

  /** Plans are digested field by field. */
  lemma PlansIff(a: Plan, b: Plan)
    ensures Meaning(PlanJson(a)) == Meaning(PlanJson(b)) <==> a == b
  {
    hide Meaning, Object, MeaningOf, TextOf, ScopeJson, PolicyJson, ReconciliationJson, ModeText, Distinct, Alike;
    var fs, gs := PlanValues(a), PlanValues(b);
    ObjectsAgree(PLAN_NAMES, fs, gs);
    Eleven(fs, gs);
    TextsIff(a.contract, b.contract);
    TextsIff(a.schemaVersion, b.schemaVersion);
    TextsIff(a.planId, b.planId);
    TextsIff(a.planDigest, b.planDigest);
    TextsIff(a.sourceRevision, b.sourceRevision);
    TextsIff(a.configurationDigest, b.configurationDigest);
    TextsIff(a.transformationDigest, b.transformationDigest);
    ScopesIff(a.destination, b.destination);
    ModesIff(a.mode, b.mode);
    PoliciesIff(a.rejectionPolicy, b.rejectionPolicy);
    ReconciliationsIff(a.reconciliation, b.reconciliation);
  }

  // ----- mutations -----

  /** The same operation on the same record, with values that are the same JSON. */
  ghost predicate SameMutation(a: Mutation, b: Mutation) {
    && (a.Tombstone? <==> b.Tombstone?) && a.logicalId == b.logicalId && a.revision == b.revision && a.digest == b.digest
    && a.locator == b.locator && (a.Upsert? && b.Upsert? ==> Meaning(a.value) == Meaning(b.value))
  }

  ghost predicate SameMutations(a: seq<Mutation>, b: seq<Mutation>) {
    |a| == |b| && forall i :: 0 <= i < |a| ==> SameMutation(a[i], b[i])
  }

  lemma MutationsIff(a: Mutation, b: Mutation)
    ensures Meaning(MutationJson(a)) == Meaning(MutationJson(b)) <==> SameMutation(a, b)
  {
    var fs, gs := MutationValues(a), MutationValues(b);
    assert "tombstone" != "upsert" by { assert "tombstone"[0] != "upsert"[0]; }
    TextsIff(OperationText(a.Tombstone?), OperationText(b.Tombstone?));
    TextsIff(a.logicalId, b.logicalId);
    TextsIff(a.revision, b.revision);
    TextsIff(a.digest, b.digest);
    OptionalTextsIff(a.locator, b.locator);
    hide Meaning, Object, TextOf, OptionalText, Distinct;
    ObjectsAgree(MUTATION_NAMES, fs, gs);
    Six(fs, gs);
  }

  lemma Six(a: Values, b: Values)
    requires |a| == |b| == 6
    ensures Alike(a, b) <==>
      && MeaningOf(a[0]) == MeaningOf(b[0]) && MeaningOf(a[1]) == MeaningOf(b[1]) && MeaningOf(a[2]) == MeaningOf(b[2])
      && MeaningOf(a[3]) == MeaningOf(b[3]) && MeaningOf(a[4]) == MeaningOf(b[4]) && MeaningOf(a[5]) == MeaningOf(b[5])
  {
    hide MeaningOf;
  }

  lemma {:induction false} MutationListsIff(a: seq<Mutation>, b: seq<Mutation>)
    ensures Meanings(MutationJsons(a)) == Meanings(MutationJsons(b)) <==> SameMutations(a, b)
    decreases |a|
  {
    hide Meaning, MutationJson, SameMutation;
    JsonsLength(a);
    JsonsLength(b);
    if |a| == |b| && a != [] {
      MutationsIff(a[0], b[0]);
      MutationListsIff(a[1..], b[1..]);
      var x, y := Meanings(MutationJsons(a)), Meanings(MutationJsons(b));
      assert MutationJsons(a)[1..] == MutationJsons(a[1..]) && MutationJsons(b)[1..] == MutationJsons(b[1..]);
      assert x == y <==> x[0] == y[0] && x[1..] == y[1..];
      assert SameMutations(a, b) <==> SameMutation(a[0], b[0]) && SameMutations(a[1..], b[1..]) by { SplitFirst(a, b); }
    }
  }

  lemma {:induction false} JsonsLength(ms: seq<Mutation>)
    ensures |MutationJsons(ms)| == |ms|
  {
    hide MutationJson;
    if ms != [] { JsonsLength(ms[1..]); }
  }

  lemma SplitFirst(a: seq<Mutation>, b: seq<Mutation>)
    requires |a| == |b| && a != []
    ensures SameMutations(a, b) <==> SameMutation(a[0], b[0]) && SameMutations(a[1..], b[1..])
  {
    hide SameMutation;
    if SameMutation(a[0], b[0]) && SameMutations(a[1..], b[1..]) {
      forall i | 0 <= i < |a| ensures SameMutation(a[i], b[i]) { assert i > 0 ==> a[i] == a[1..][i - 1] && b[i] == b[1..][i - 1]; }
    }
  }

  // ----- batches and requests -----

  lemma EnumerationsIff(a: Option<Enumeration>, b: Option<Enumeration>)
    ensures MeaningOf(EnumerationJson(a)) == MeaningOf(EnumerationJson(b)) <==> a == b
  {
    if a.Some? && b.Some? {
      var fs, gs := [Some(Bool(a.value.complete)), OptionalText(a.value.approvalId)], [Some(Bool(b.value.complete)), OptionalText(b.value.approvalId)];
      OptionalTextsIff(a.value.approvalId, b.value.approvalId);
      ObjectsAgree(ENUMERATION_NAMES, fs, gs);
      assert MeaningOf(fs[0]) == MeaningOf(gs[0]) <==> a.value.complete == b.value.complete;
      hide Meaning, Object, OptionalText, Distinct;
      assert Alike(fs, gs) <==> MeaningOf(fs[0]) == MeaningOf(gs[0]) && MeaningOf(fs[1]) == MeaningOf(gs[1]);
    }
  }

  /** The same batch but for the member order of mutation values. */
  ghost predicate SameBatch(a: Batch, b: Batch) {
    a.(mutations := []) == b.(mutations := []) && SameMutations(a.mutations, b.mutations)
  }

  lemma Eight(a: Values, b: Values)
    requires |a| == |b| == 8
    ensures Alike(a, b) <==>
      && MeaningOf(a[0]) == MeaningOf(b[0]) && MeaningOf(a[1]) == MeaningOf(b[1]) && MeaningOf(a[2]) == MeaningOf(b[2])
      && MeaningOf(a[3]) == MeaningOf(b[3]) && MeaningOf(a[4]) == MeaningOf(b[4]) && MeaningOf(a[5]) == MeaningOf(b[5])
      && MeaningOf(a[6]) == MeaningOf(b[6]) && MeaningOf(a[7]) == MeaningOf(b[7])
  {
    hide MeaningOf;
  }

  lemma MutationArraysIff(a: seq<Mutation>, b: seq<Mutation>)
    ensures MeaningOf(MutationsJson(a)) == MeaningOf(MutationsJson(b)) <==> SameMutations(a, b)
  {
    MutationListsIff(a, b);
    hide Meanings, SameMutations, MutationJsons;
  }

  lemma CheckpointJsonsIff(a: Checkpoint, b: Checkpoint)
    ensures MeaningOf(Some(CheckpointJson(a))) == MeaningOf(Some(CheckpointJson(b))) <==> a == b
  {
    hide Meaning, CheckpointJson;
    if Meaning(CheckpointJson(a)) == Meaning(CheckpointJson(b)) { SameCheckpoint(a, b); }
  }

  lemma BatchesIff(a: Batch, b: Batch)
    ensures Meaning(BatchJson(a)) == Meaning(BatchJson(b)) <==> SameBatch(a, b)
  {
    hide Meaning, Object, MeaningOf, TextOf, NumberOf, OptionalText, MutationsJson, OptionalCheckpoint, CheckpointJson, EnumerationJson, Distinct, Alike,
         SameMutations;
    var fs, gs := BatchValues(a), BatchValues(b);
    ObjectsAgree(BATCH_NAMES, fs, gs);
    Eight(fs, gs);
    TextsIff(a.contract, b.contract);
    TextsIff(a.schemaVersion, b.schemaVersion);
    NumbersIff(a.sequence, b.sequence);
    OptionalTextsIff(a.idempotencyKey, b.idempotencyKey);
    MutationArraysIff(a.mutations, b.mutations);
    CheckpointsIff(a.checkpointBefore, b.checkpointBefore);
    CheckpointJsonsIff(a.checkpointAfter, b.checkpointAfter);
    EnumerationsIff(a.enumeration, b.enumeration);
  }

  /** Requests have the same content exactly when plan and batch are the same, field by field. */
  lemma SameRequestMeans(p: Plan, b: Batch, p': Plan, b': Batch)
    ensures SameRequest(p, b, p', b') <==> p == p' && SameBatch(b, b')
  {
    hide Meaning, Object, PlanJson, BatchJson, SameBatch, Distinct;
    var fs, gs := [Some(PlanJson(p)), Some(BatchJson(b))], [Some(PlanJson(p')), Some(BatchJson(b'))];
    ObjectsAgree(REQUEST_NAMES, fs, gs);
    PlansIff(p, p');
    BatchesIff(b, b');
    assert Alike(fs, gs) <==> MeaningOf(fs[0]) == MeaningOf(gs[0]) && MeaningOf(fs[1]) == MeaningOf(gs[1]);
  }

  /** With an injective hash, request digests agree exactly on requests that are the same field by field. */
  lemma DigestMeans(env: Env, p: Plan, b: Batch, p': Plan, b': Batch)
    requires Sound(env)
    ensures RequestDigest(env, p, b) == RequestDigest(env, p', b') <==> p == p' && SameBatch(b, b')
  {
    hide Sound, RequestDigest, SameRequest, SameBatch;
    RequestDigestsAgree(env, p, b, p', b');
    SameRequestMeans(p, b, p', b');
  }

  // ----- keys -----

  /** The fields a derived key covers: contract, schema version, policy, reconciliation and enumeration are not among them. */
  ghost predicate SameKeyed(p: Plan, b: Batch, p': Plan, b': Batch) {
    && p.planId == p'.planId && p.planDigest == p'.planDigest && p.sourceRevision == p'.sourceRevision
    && p.configurationDigest == p'.configurationDigest && p.transformationDigest == p'.transformationDigest
    && p.destination == p'.destination && p.mode == p'.mode
    && b.sequence == b'.sequence && b.checkpointBefore == b'.checkpointBefore && b.checkpointAfter == b'.checkpointAfter
    && SameMutations(b.mutations, b'.mutations)
  }

  lemma Twelve(a: Values, b: Values)
    requires |a| == |b| == 12
    ensures Alike(a, b) <==> Alike(a[..11], b[..11]) && MeaningOf(a[11]) == MeaningOf(b[11])
  {
    hide MeaningOf;
    if Alike(a[..11], b[..11]) && MeaningOf(a[11]) == MeaningOf(b[11]) {
      forall i | 0 <= i < 12 ensures MeaningOf(a[i]) == MeaningOf(b[i]) { assert i < 11 ==> a[i] == a[..11][i] && b[i] == b[..11][i]; }
    }
  }

  lemma KeysIff(p: Plan, b: Batch, p': Plan, b': Batch)
    ensures Meaning(KeyJson(p, b)) == Meaning(KeyJson(p', b')) <==> SameKeyed(p, b, p', b')
  {
    hide Meaning, Object, MeaningOf, TextOf, NumberOf, OptionalCheckpoint, CheckpointJson, MutationsJson, ScopeJson, ModeText, Distinct, Alike,
         SameMutations;
    var fs, gs := KeyValues(p, b), KeyValues(p', b');
    ObjectsAgree(KEY_NAMES, fs, gs);
    Twelve(fs, gs);
    Eleven(fs[..11], gs[..11]);
    TextsIff(p.planId, p'.planId);
    TextsIff(p.planDigest, p'.planDigest);
    TextsIff(p.sourceRevision, p'.sourceRevision);
    TextsIff(p.configurationDigest, p'.configurationDigest);
    TextsIff(p.transformationDigest, p'.transformationDigest);
    ScopesIff(p.destination, p'.destination);
    ModesIff(p.mode, p'.mode);
    NumbersIff(b.sequence, b'.sequence);
    CheckpointsIff(b.checkpointBefore, b'.checkpointBefore);
    CheckpointJsonsIff(b.checkpointAfter, b'.checkpointAfter);
    MutationArraysIff(b.mutations, b'.mutations);
  }

  /** The caller gave a key that is not empty. */
  ghost predicate OwnKey(b: Batch, key: string) {
    b.idempotencyKey == Some(key) && |key| > 0
  }

  /** The key is the caller's own, or else is shared, with an injective hash, exactly by batches alike in the fields it covers. */
  lemma KeyMeans(env: Env, p: Plan, b: Batch, p': Plan, b': Batch)
    requires Sound(env)
    ensures forall key :: OwnKey(b, key) ==> IdempotencyKey(env, p, b) == key
    ensures (forall key :: !OwnKey(b, key) && !OwnKey(b', key)) ==>
      (IdempotencyKey(env, p, b) == IdempotencyKey(env, p', b') <==> SameKeyed(p, b, p', b'))
  {
    hide Sound, Digest, KeyJson, Meaning, SameKeyed;
    DigestsAgree(env, KeyJson(p, b), KeyJson(p', b'));
    KeysIff(p, b, p', b');
    assert b.idempotencyKey.Some? && b.idempotencyKey.value != "" ==> OwnKey(b, b.idempotencyKey.value);
    assert b'.idempotencyKey.Some? && b'.idempotencyKey.value != "" ==> OwnKey(b', b'.idempotencyKey.value);
  }
}
