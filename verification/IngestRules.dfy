/** What the batch executor demands, answers and records, said of the request and the committed state themselves. */
module IngestRules {
  import opened Wrappers
  import opened Sorting
  import opened CanonicalJson
  import opened DatasetRequest
  import opened IngestStore
  import opened DatasetIngest

  // ----- before the transaction -----

  ghost predicate OfContract(plan: Plan, batch: Batch) {
    plan.contract == "fortemi.dataset-ingest/v1" && batch.contract == "fortemi.dataset-ingest/v1"
  }

  /** Plan and batch are of the contract, in versions of its first major; else the call is refused with the code for which. */
  lemma ContractMeans(plan: Plan, batch: Batch)
    ensures ContractRefusal(plan, batch) ==
      if !OfContract(plan, batch) then Some(ContractUnsupported)
      else if !(FirstMajor(plan.schemaVersion) && FirstMajor(batch.schemaVersion)) then Some(SchemaUnsupported)
      else None
  {
    FirstMajorAgrees(plan.schemaVersion);
    FirstMajorAgrees(batch.schemaVersion);
    hide SupportedSchema, FirstMajor;
  }

  // ----- the checks on a batch -----

  /** Why a checkpoint does not belong to the destination. */
  ghost predicate Foreign(c: Checkpoint, destination: Scope, code: Code) {
    match code
    case ContractUnsupported => c.contract != "fortemi.dataset-ingest/v1"
    case CheckpointVersionUnsupported => c.contract == "fortemi.dataset-ingest/v1" && !FirstMajor(c.schemaVersion)
    case CheckpointScopeMismatch => c.contract == "fortemi.dataset-ingest/v1" && FirstMajor(c.schemaVersion) && !OneScope(c.scope, destination)
    case _ => false
  }

  lemma ForeignAgrees(c: Checkpoint, destination: Scope)
    ensures forall code :: ScopeRefusal(c, destination) == Some(code) <==> Foreign(c, destination, code)
  {
    OneScopeAgrees(c.scope, destination);
    FirstMajorAgrees(c.schemaVersion);
    hide ScopeKey, OneScope, SupportedSchema, FirstMajor;
  }

  /** The batch starts at the committed checkpoint, and that is the destination's. */
  ghost predicate Starts(plan: Plan, batch: Batch, current: Option<Checkpoint>) {
    batch.checkpointBefore == current && (current.Some? ==> BelongsTo(current.value, plan.destination))
  }

  ghost predicate StartRefused(plan: Plan, batch: Batch, current: Option<Checkpoint>, code: Code) {
    var foreign := batch.checkpointBefore.Some? && !BelongsTo(batch.checkpointBefore.value, plan.destination);
    if foreign then Foreign(batch.checkpointBefore.value, plan.destination, code)
    else code == CheckpointMismatch && batch.checkpointBefore != current
  }

  lemma StartAgrees(env: Env, plan: Plan, batch: Batch, current: Option<Checkpoint>)
    requires Sound(env)
    ensures BeforeRefusal(env, plan, batch, current).None? <==> Starts(plan, batch, current)
    ensures forall code :: BeforeRefusal(env, plan, batch, current) == Some(code) <==> StartRefused(plan, batch, current, code)
  {
    hide CheckpointText, ScopeRefusal, BelongsTo, Foreign, Sound;
    if batch.checkpointBefore.Some? {
      BelongsAgrees(batch.checkpointBefore.value, plan.destination);
      ForeignAgrees(batch.checkpointBefore.value, plan.destination);
      if current.Some? { CheckpointTextsAgree(env, current.value, batch.checkpointBefore.value); }
    }
  }

  function Reached(current: Option<Checkpoint>): int {
    if current.None? then 0 else current.value.sequence
  }

  ghost predicate Advances(plan: Plan, batch: Batch, current: Option<Checkpoint>) {
    && BelongsTo(batch.checkpointAfter, plan.destination)
    && batch.checkpointAfter.sequence == batch.sequence && batch.sequence == Reached(current) + 1
  }

  /** The first demand on the checkpoint after that is not met. */
  ghost predicate AdvanceRefused(plan: Plan, batch: Batch, current: Option<Checkpoint>, code: Code) {
    var after := batch.checkpointAfter;
    if !BelongsTo(after, plan.destination) then Foreign(after, plan.destination, code)
    else if after.sequence != batch.sequence then code == BatchOutOfOrder
    else if current.Some? && after.sequence <= current.value.sequence then code == CheckpointRegression
    else code == BatchOutOfOrder && batch.sequence != Reached(current) + 1
  }

  lemma AdvanceAgrees(plan: Plan, batch: Batch, current: Option<Checkpoint>)
    ensures AfterRefusal(plan, batch, current).None? <==> Advances(plan, batch, current)
    ensures forall code :: AfterRefusal(plan, batch, current) == Some(code) <==> AdvanceRefused(plan, batch, current, code)
  {
    hide ScopeRefusal, BelongsTo, Foreign;
    BelongsAgrees(batch.checkpointAfter, plan.destination);
    ForeignAgrees(batch.checkpointAfter, plan.destination);
  }

  /** The first demand on a batch with tombstones that is not met. */
  ghost predicate TombstonesRefused(plan: Plan, batch: Batch, code: Code) {
    var complete := exists e :: batch.enumeration == Some(e) && e.complete;
    && (exists m :: m in batch.mutations && m.Tombstone?)
    && match code
       case ReconciliationNotEnabled => !plan.reconciliation.enabled
       case ReconciliationIncomplete => plan.reconciliation.enabled && !complete
       case ReconciliationApprovalRequired =>
         plan.reconciliation.enabled && complete && |TombstonePlaces(batch.mutations)| > plan.reconciliation.maxTombstones
         && batch.enumeration.Some? && batch.enumeration.value.approvalId in {None, Some("")}
       case _ => false
  }

  lemma TombstonesAgree(plan: Plan, batch: Batch)
    ensures TombstoneRefusal(plan, batch).None? <==> TombstonesAllowed(plan, batch)
    ensures forall code :: TombstoneRefusal(plan, batch) == Some(code) <==> TombstonesRefused(plan, batch, code)
  {
    TombstoneCount(batch.mutations);
    hide Tombstones, TombstonePlaces;
    assert (exists m :: m in batch.mutations && m.Tombstone?) <==> !(forall m :: m in batch.mutations ==> m.Upsert?);
    if batch.enumeration.Some? { assert batch.enumeration == Some(batch.enumeration.value); }
  }

  /** The checks on a batch, in order: where it starts, where it ends, its tombstones. */
  ghost predicate BatchRefused(plan: Plan, batch: Batch, current: Option<Checkpoint>, code: Code) {
    if !Starts(plan, batch, current) then StartRefused(plan, batch, current, code)
    else if !Advances(plan, batch, current) then AdvanceRefused(plan, batch, current, code)
    else TombstonesRefused(plan, batch, code)
  }

  lemma RefusalMeans(env: Env, plan: Plan, batch: Batch, current: Option<Checkpoint>)
    requires Sound(env)
    ensures Refusal(env, plan, batch, current).None? <==> Starts(plan, batch, current) && Advances(plan, batch, current) && TombstonesAllowed(plan, batch)
    ensures forall code :: Refusal(env, plan, batch, current) == Some(code) <==> BatchRefused(plan, batch, current, code)
  {
    hide BeforeRefusal, AfterRefusal, TombstoneRefusal, Starts, Advances, TombstonesAllowed, StartRefused, AdvanceRefused, TombstonesRefused, Sound;
    StartAgrees(env, plan, batch, current);
    AdvanceAgrees(plan, batch, current);
    TombstonesAgree(plan, batch);
  }

  // ----- screening -----

  /** The rejections of the first `n` mutations. */
  function RefusedAmong(q: Request, n: nat): seq<Mutation>
    requires n <= |q.batch.mutations|
  {
    Filter(q.batch.mutations[..n], Refused(q))
  }

  /** The policy would stop the run at the mutation after the first `i`. */
  ghost predicate Intolerable(q: Request, i: nat, code: Code) {
    && i < |q.batch.mutations| && q.attempt.validate(q.batch.mutations[i]).Some?
    && if q.plan.rejectionPolicy.mode.FailFast? then code == RecordRejected
       else code == RejectionLimitExceeded && |RefusedAmong(q, i)| + 1 > q.plan.rejectionPolicy.maxRejectedRecords
  }

  /** After `i` mutations without incident the run stops: the signal is seen raised, or the policy is at its end. */
  ghost predicate StopsAt(q: Request, i: nat, code: Code) {
    && i <= |q.batch.mutations| && NeverAborted(q, i) && Tolerates(q, |RefusedAmong(q, i)|)
    && if q.attempt.aborted(1 + i) then code == IngestCancelled else Intolerable(q, i, code)
  }

  lemma ScreenStep(env: Env, q: Request, i: nat)
    requires i < |q.batch.mutations| && Screen(env, q, i).Ok?
    ensures match Screen(env, q, i + 1)
            case Ok(_) => forall code :: !StopsAt(q, i, code)
            case Err(code) => StopsAt(q, i, code)
  {
    ScreenExact(env, q, i);
    hide RejectionOf, Filter, Refused, Accepted, NeverAborted;
  }

  lemma {:induction false} ScreenStops(env: Env, q: Request, n: nat)
    requires n <= |q.batch.mutations| && Screen(env, q, n).Err?
    ensures exists i :: 0 <= i < n && StopsAt(q, i, Screen(env, q, n).error)
  {
    hide ScreenOne, StopsAt;
    if n > 0 {
      if Screen(env, q, n - 1).Err? {
        ScreenStops(env, q, n - 1);
      } else {
        ScreenStep(env, q, n - 1);
      }
    }
  }

  /** A rejection names its record by a digest and carries the validator's code and a fixed message, and nothing of the value. */
  ghost predicate Rejects(env: Env, q: Request, m: Mutation, r: Rejection) {
    && q.attempt.validate(m) == Some(r.code)
    && r.logicalIdDigest == Digest(env, Str(m.logicalId))
    && r.locator == (if m.locator == Some("") then None else m.locator)
    && r.message == "Record rejected by validation policy"
  }

  ghost predicate AllRejected(env: Env, q: Request, ms: seq<Mutation>, rs: seq<Rejection>) {
    |rs| == |ms| && forall i :: 0 <= i < |ms| ==> Rejects(env, q, ms[i], rs[i])
  }

  lemma RejectionSays(env: Env, q: Request, m: Mutation, code: string)
    requires q.attempt.validate(m) == Some(code)
    ensures Rejects(env, q, m, RejectionOf(env, m, code))
  {
    hide Digest;
  }

  lemma {:induction false} ScreenRejects(env: Env, q: Request, n: nat)
    requires n <= |q.batch.mutations| && Screen(env, q, n).Ok?
    ensures AllRejected(env, q, RefusedAmong(q, n), Screen(env, q, n).value.rejections)
  {
    hide RejectionOf, Filter, Accepted, Refused, Rejects;
    if n > 0 {
      ScreenRejects(env, q, n - 1);
      SiftOne(q, n - 1);
      var m := q.batch.mutations[n - 1];
      var failure := q.attempt.validate(m);
      if failure.Some? { RejectionSays(env, q, m, failure.value); }
    } else {
      SiftNone(q);
    }
  }

  /**
    Screening: it goes through exactly when the signal is never seen raised and the policy tolerates the refused mutations,
    with the others accepted in order and a rejection for each refused one; else it stops at the first incident with its code.
   */
  lemma ScreeningMeans(env: Env, q: Request)
    ensures var n := |q.batch.mutations|;
      match Screening(env, q)
      case Ok(screened) =>
        NeverAborted(q, n + 1) && Tolerates(q, |RefusedAmong(q, n)|)
        && screened.accepted == Filter(q.batch.mutations, Accepted(q)) && AllRejected(env, q, RefusedAmong(q, n), screened.rejections)
      case Err(code) => exists i :: StopsAt(q, i, code)
    ensures NeverAborted(q, |q.batch.mutations| + 1) && Tolerates(q, |RefusedAmong(q, |q.batch.mutations|)|) ==> Screening(env, q).Ok?
  {
    hide Filter, Screen, Tolerates, Rejects, Accepted, Refused;
    var ms := q.batch.mutations;
    ScreenExact(env, q, |ms|);
    assert ms[..|ms|] == ms;
    var s := Screen(env, q, |ms|);
    if s.Ok? {
      ScreenRejects(env, q, |ms|);
      if q.attempt.aborted(1 + |ms|) { assert StopsAt(q, |ms|, IngestCancelled); }
    } else {
      ScreenStops(env, q, |ms|);
    }
  }

  // ----- the commit -----

  /** No cancel check from the first on finds the signal raised, up to the one before the commit. */
  ghost predicate Uncancelled(q: Request) {
    forall i :: 1 <= i <= |q.batch.mutations| + 2 ==> !q.attempt.aborted(i)
  }

  /**
    A batch is committed exactly when its key is new to the scope, it starts and ends as the stream demands, its tombstones
    are allowed, the policy tolerates what the validator refuses, no check finds the signal raised and the hook succeeds.
   */
  lemma CommitsExactly(env: Env, q: Request, s: State)
    requires Sound(env)
    ensures Commits(env, q, s) <==>
      && KeyOf(env, q) !in s.receipts
      && Starts(q.plan, q.batch, s.checkpoint) && Advances(q.plan, q.batch, s.checkpoint) && TombstonesAllowed(q.plan, q.batch)
      && Tolerates(q, |RefusedAmong(q, |q.batch.mutations|)|) && Uncancelled(q) && !q.attempt.beforeCommitFails
  {
    hide KeyOf, Refusal, Screening, Starts, Advances, TombstonesAllowed, Tolerates, RefusedAmong, Sound;
    RefusalMeans(env, q.plan, q.batch, s.checkpoint);
    ScreeningMeans(env, q);
  }

  /** What a receipt records of the request it is for. */
  ghost predicate ReceiptSays(env: Env, q: Request, screened: Screened, r: Receipt) {
    && r.runId == q.attempt.runId && r.idempotencyKey == KeyOf(env, q) && r.requestDigest == DigestOf(env, q)
    && r.planId == q.plan.planId && r.planDigest == q.plan.planDigest && r.sourceRevision == q.plan.sourceRevision
    && r.destination == q.plan.destination && r.mode == q.plan.mode
    && (r.degraded <==> |screened.rejections| > 0) && r.acceptedRecords == |screened.accepted| && r.rejectedRecords == |screened.rejections|
    && r.rejections == screened.rejections && EffectsOf(r.effects, screened.accepted)
    && r.checkpointBefore == q.batch.checkpointBefore && r.checkpointAfter == q.batch.checkpointAfter
  }

  lemma ReceiptMeans(env: Env, q: Request, screened: Screened)
    ensures ReceiptSays(env, q, screened, ReceiptOf(env, q, screened))
  {
    ReceiptCounts(env, q, screened);
    hide Effects, KeyOf, DigestOf, EffectJsons, Digest, EffectsOf;
  }

  /** The state after an attempt, and the code of one that fails. */
  ghost predicate AttemptSays(env: Env, q: Request, s: State, o: Outcome<State, Receipt, Code>) {
    if KeyOf(env, q) in s.receipts then
      if s.receipts[KeyOf(env, q)].requestDigest == DigestOf(env, q) then o == Commit(s, s.receipts[KeyOf(env, q)]) else o == Abort(IdempotencyConflict)
    else if !(Starts(q.plan, q.batch, s.checkpoint) && Advances(q.plan, q.batch, s.checkpoint) && TombstonesAllowed(q.plan, q.batch)) then
      o.Abort? && BatchRefused(q.plan, q.batch, s.checkpoint, o.error)
    else if Screening(env, q).Err? then o.Abort? && exists i :: StopsAt(q, i, o.error)
    else if q.attempt.beforeCommitFails then o == Abort(HookFailed)
    else if q.attempt.aborted(|q.batch.mutations| + 2) then o == Abort(IngestCancelled)
    else
      && o.Commit? && ReceiptSays(env, q, Screening(env, q).value, o.value)
      && o.state.records == Apply(s.records, Screening(env, q).value.accepted)
      && o.state.receipts == s.receipts[KeyOf(env, q) := o.value]
      && o.state.checkpoint == Some(q.batch.checkpointAfter)
  }

  /** What an attempt at a batch, run on a committed state, answers and leaves. */
  lemma AttemptMeans(env: Env, q: Request, s: State)
    requires Sound(env)
    ensures AttemptSays(env, q, s, Outcomes(IngestOperation(env, q), 0, s))
  {
    var op := IngestOperation(env, q);
    hide KeyOf, DigestOf, Apply, Sound, Refusal, Screening, ReceiptOf, ReceiptSays, Starts, Advances, TombstonesAllowed, BatchRefused, StopsAt;
    RefusalMeans(env, q.plan, q.batch, s.checkpoint);
    ScreenedStops(env, q);
    if Screening(env, q).Ok? {
      ReceiptMeans(env, q, Screening(env, q).value);
      ReceiptKey(env, q, Screening(env, q).value);
    }
    match Begin(env, q, s)
    case Going(d) => assert op.stretches[1](d) == Finish(env, q, d);
    case Returned(d, v) =>
    case Threw(e) =>
  }

  lemma ScreenedStops(env: Env, q: Request)
    ensures Screening(env, q).Err? ==> exists i :: StopsAt(q, i, Screening(env, q).error)
  {
    hide Screening, StopsAt;
    ScreeningMeans(env, q);
  }

  lemma ReceiptKey(env: Env, q: Request, screened: Screened)
    ensures ReceiptOf(env, q, screened).idempotencyKey == KeyOf(env, q)
  {
  }
}
