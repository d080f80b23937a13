/** A scope in which a retry with another rejection limit conflicts, although its batch is the one that was committed. */
module IngestExamples {
  import opened Wrappers
  import opened Sorting
  import opened CanonicalJson
  import opened DatasetRequest
  import opened IngestStore
  import opened DatasetIngest

  // ----- changing the rejection limit of a request -----

  /** The same request under a plan that tolerates another number of rejected records. */
  function WithLimit(q: Request, limit: int): Request {
    q.(plan := q.plan.(rejectionPolicy := q.plan.rejectionPolicy.(maxRejectedRecords := limit)))
  }

  lemma SamePolicySameLimit(p: RejectionPolicy, p': RejectionPolicy)
    requires Meaning(PolicyJson(p)) == Meaning(PolicyJson(p'))
    ensures p.maxRejectedRecords == p'.maxRejectedRecords
  {
    hide Meaning, Object, MeaningOf, TextOf, NumberOf, Distinct;
    SameField(POLICY_NAMES, [TextOf(RejectionModeText(p.mode)), NumberOf(p.maxRejectedRecords)],
              [TextOf(RejectionModeText(p'.mode)), NumberOf(p'.maxRejectedRecords)], 1);
    NumbersAgree(p.maxRejectedRecords, p'.maxRejectedRecords);
  }

  lemma SamePlanSameLimit(p: Plan, p': Plan)
    requires Meaning(PlanJson(p)) == Meaning(PlanJson(p'))
    ensures p.rejectionPolicy.maxRejectedRecords == p'.rejectionPolicy.maxRejectedRecords
  {
    hide Object, Meaning, NumberOf, TextOf, ScopeJson, PolicyJson, ReconciliationJson, ModeText, Distinct;
    SameField(PLAN_NAMES, PlanValues(p), PlanValues(p'), 9);
    SamePolicySameLimit(p.rejectionPolicy, p'.rejectionPolicy);
  }

  lemma SameRequestSameLimit(p: Plan, b: Batch, p': Plan, b': Batch)
    requires SameRequest(p, b, p', b')
    ensures p.rejectionPolicy.maxRejectedRecords == p'.rejectionPolicy.maxRejectedRecords
  {
    hide Object, Meaning, BatchJson, TextOf, NumberOf, Distinct, PlanJson;
    SameField(REQUEST_NAMES, [Some(PlanJson(p)), Some(BatchJson(b))], [Some(PlanJson(p')), Some(BatchJson(b'))], 0);
    SamePlanSameLimit(p, p');
  }

  /** The idempotency key leaves the rejection policy out, the request digest does not. */
  lemma LimitChangesDigestOnly(env: Env, q: Request, limit: int)
    requires Sound(env) && limit != q.plan.rejectionPolicy.maxRejectedRecords
    ensures KeyOf(env, WithLimit(q, limit)) == KeyOf(env, q) && DigestOf(env, WithLimit(q, limit)) != DigestOf(env, q)
  {
    hide Digest, Object, Sound, SameRequest, RequestDigest, TextOf, NumberOf, OptionalCheckpoint, CheckpointJson, MutationsJson, ScopeJson;
    var q' := WithLimit(q, limit);
    assert KeyJson(q'.plan, q'.batch) == KeyJson(q.plan, q.batch);
    RequestDigestsAgree(env, q'.plan, q'.batch, q.plan, q.batch);
    if SameRequest(q'.plan, q'.batch, q.plan, q.batch) { SameRequestSameLimit(q'.plan, q'.batch, q.plan, q.batch); }
  }

  /** Once a request is committed, the same batch under a plan with another rejection limit conflicts with it. */
  lemma OtherLimitConflicts(env: Env, q: Request, limit: int, s: State)
    requires Sound(env) && limit != q.plan.rejectionPolicy.maxRejectedRecords
    requires Resolve(env, q, s).Some? && Resolve(env, q, s).value.requestDigest == DigestOf(env, q)
    ensures Outcomes(IngestOperation(env, WithLimit(q, limit)), 0, s) == Abort(IdempotencyConflict)
    ensures Resolve(env, WithLimit(q, limit), s) == Resolve(env, q, s)
  {
    hide Sound, KeyOf, DigestOf, WithLimit, IngestOperation, Outcomes;
    LimitChangesDigestOnly(env, q, limit);
    ConflictExactly(env, WithLimit(q, limit), s);
  }

  // ----- a first batch, retried -----

  const SCOPE := Scope("t", "d", "b", "s", None)
  const PLAN := Plan(CONTRACT, SCHEMA_VERSION, "p", "pd", "r", "c", "x", SCOPE, Full, RejectionPolicy(BoundedReject, 0), Reconciliation(false, 0))
  const BATCH := Batch(CONTRACT, SCHEMA_VERSION, 1, None, [Upsert("a", "1", "h", Null, None)], None,
                       Checkpoint(CONTRACT, SCHEMA_VERSION, SCOPE, "o", 1), None)

  /** A run that accepts everything and is never cancelled. */
  function Calm(runId: string): Attempt {
    Attempt(runId, m => None, n => false, false, false)
  }

  const FIRST := Request(PLAN, BATCH, Calm("run"))

  lemma FirstCommits(env: Env)
    requires Sound(env)
    ensures Commits(env, FIRST, NOTHING)
  {
    assert Follows(PLAN, BATCH, None) && TombstonesAllowed(PLAN, BATCH) by { hide ScopeKey; }
    hide Sound, KeyOf, Refusal, Follows, TombstonesAllowed;
    assert Screening(env, FIRST).Ok? by { FirstScreened(env); }
    PassesExactly(env, PLAN, BATCH, None);
    assert NOTHING.receipts == map[];
  }

  lemma FirstScreened(env: Env)
    ensures Screening(env, FIRST).Ok?
  {
    assert Screen(env, FIRST, 0).Ok?;
    assert ScreenOne(env, FIRST, 0, Screened([], [])).Ok?;
  }

  /**
    The first batch of a scope is committed; retried with room for one rejected record it is refused as a conflict, and
    resolving the retry then returns the receipt of the first run.
   */
  lemma RetryConflicts(env: Env)
    requires Sound(env)
    ensures var first := Outcomes(IngestOperation(env, FIRST), 0, NOTHING);
      && first.Commit?
      && Outcomes(IngestOperation(env, WithLimit(FIRST, 1)), 0, first.state) == Abort(IdempotencyConflict)
      && Resolve(env, WithLimit(FIRST, 1), first.state) == Some(first.value)
  {
    hide Sound, Outcomes, IngestOperation, Commits, KeyOf, DigestOf;
    FirstCommits(env);
    RunAlone(env, FIRST, NOTHING);
    var first := Outcomes(IngestOperation(env, FIRST), 0, NOTHING);
    OtherLimitConflicts(env, FIRST, 1, first.state);
  }
}
