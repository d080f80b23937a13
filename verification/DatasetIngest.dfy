/**
  The batch executor: what one attempt does to a scope's committed state, and the history of accepted batches that
  every committed state stands for.
 */
module DatasetIngest {
  import opened Wrappers
  import opened Sorting
  import opened CanonicalJson
  import opened DatasetRequest
  import opened IngestStore

  /** The error codes, and the caller's own error from a hook. */
  datatype Code =
    | ContractUnsupported | SchemaUnsupported | IdempotencyConflict | CheckpointScopeMismatch | CheckpointVersionUnsupported
    | CheckpointRegression | CheckpointMismatch | BatchOutOfOrder | RecordRejected | RejectionLimitExceeded
    | ReconciliationNotEnabled | ReconciliationIncomplete | ReconciliationApprovalRequired | IngestCancelled | HookFailed

  datatype Record = Record(logicalId: string, revision: string, digest: string, value: Option<Held>, tombstoned: bool)

  datatype State = State(records: map<string, Record>, receipts: map<string, Receipt>, checkpoint: Option<Checkpoint>)

  const NOTHING := State(map[], map[], None)

  /**
    What differs from one attempt at a batch to the next: the run id, the caller's validator (`Some(code)` rejects), at
    which of its checks the abort signal is found raised, and which hooks fail.
   */
  datatype Attempt = Attempt(
    runId: string, validate: Mutation -> Option<string>, aborted: nat -> bool, beforeCommitFails: bool, afterCommitFails: bool)

  datatype Request = Request(plan: Plan, batch: Batch, attempt: Attempt)

  function KeyOf(env: Env, q: Request): string {
    IdempotencyKey(env, q.plan, q.batch)
  }

  function DigestOf(env: Env, q: Request): string {
    RequestDigest(env, q.plan, q.batch)
  }

  // ----- the checks, in the order the executor makes them -----

  predicate SupportedSchema(version: string) {
    "1." <= version
  }

  /** `assertContract`. */
  function ContractRefusal(plan: Plan, batch: Batch): Option<Code> {
    if plan.contract != CONTRACT || batch.contract != CONTRACT then Some(ContractUnsupported)
    else if !SupportedSchema(plan.schemaVersion) || !SupportedSchema(batch.schemaVersion) then Some(SchemaUnsupported)
    else None
  }

  /** `assertCheckpointScope`. */
  function ScopeRefusal(c: Checkpoint, scope: Scope): Option<Code> {
    if c.contract != CONTRACT then Some(ContractUnsupported)
    else if !SupportedSchema(c.schemaVersion) then Some(CheckpointVersionUnsupported)
    else if ScopeKey(c.scope) != ScopeKey(scope) then Some(CheckpointScopeMismatch)
    else None
  }

  function BeforeRefusal(env: Env, plan: Plan, batch: Batch, current: Option<Checkpoint>): Option<Code> {
    match batch.checkpointBefore
    case None => if current.Some? then Some(CheckpointMismatch) else None
    case Some(before) =>
      var refusal := ScopeRefusal(before, plan.destination);
      if refusal.Some? then refusal
      else if current.None? || CheckpointText(env, current.value) != CheckpointText(env, before) then Some(CheckpointMismatch)
      else None
  }

  function AfterRefusal(plan: Plan, batch: Batch, current: Option<Checkpoint>): Option<Code> {
    var refusal := ScopeRefusal(batch.checkpointAfter, plan.destination);
    var reached := if current.None? then 0 else current.value.sequence;
    if refusal.Some? then refusal
    else if batch.checkpointAfter.sequence != batch.sequence then Some(BatchOutOfOrder)
    else if current.Some? && batch.checkpointAfter.sequence <= reached then Some(CheckpointRegression)
    else if batch.sequence != reached + 1 then Some(BatchOutOfOrder)
    else None
  }

  function Tombstones(ms: seq<Mutation>): nat {
    if ms == [] then 0 else Tombstones(ms[..|ms| - 1]) + (if ms[|ms| - 1].Tombstone? then 1 else 0)
  }

  function TombstoneRefusal(plan: Plan, batch: Batch): Option<Code> {
    var tombstones := Tombstones(batch.mutations);
    if tombstones == 0 then None
    else if !plan.reconciliation.enabled then Some(ReconciliationNotEnabled)
    else if batch.enumeration.None? || !batch.enumeration.value.complete then Some(ReconciliationIncomplete)
    else if tombstones > plan.reconciliation.maxTombstones && batch.enumeration.value.approvalId.GetOr("") == "" then Some(ReconciliationApprovalRequired)
    else None
  }

  function Refusal(env: Env, plan: Plan, batch: Batch, current: Option<Checkpoint>): Option<Code> {
    var before := BeforeRefusal(env, plan, batch, current);
    if before.Some? then before
    else
      var after := AfterRefusal(plan, batch, current);
      if after.Some? then after else TombstoneRefusal(plan, batch)
  }

  /** Accepted mutations and rejections so far. */
  datatype Screened = Screened(accepted: seq<Mutation>, rejections: seq<Rejection>)

  function RejectionOf(env: Env, m: Mutation, code: string): Rejection {
    Rejection(Digest(env, Str(m.logicalId)), if m.locator.GetOr("") == "" then None else m.locator, code, "Record rejected by validation policy")
  }

  /** One mutation: a cancel check, the validator, then the plan's rejection policy. */
  function ScreenOne(env: Env, q: Request, i: nat, soFar: Screened): Result<Screened, Code>
    requires i < |q.batch.mutations|
  {
    var m := q.batch.mutations[i];
    if q.attempt.aborted(1 + i) then Err(IngestCancelled)
    else
      match q.attempt.validate(m)
      case None => Ok(soFar.(accepted := soFar.accepted + [m]))
      case Some(code) =>
        if q.plan.rejectionPolicy.mode.FailFast? then Err(RecordRejected)
        else
          var rejections := soFar.rejections + [RejectionOf(env, m, code)];
          if |rejections| > q.plan.rejectionPolicy.maxRejectedRecords then Err(RejectionLimitExceeded)
          else Ok(soFar.(rejections := rejections))
  }

  /** The first `n` mutations, one after another. */
  function Screen(env: Env, q: Request, n: nat): Result<Screened, Code>
    requires n <= |q.batch.mutations|
  {
    if n == 0 then Ok(Screened([], []))
    else
      match Screen(env, q, n - 1)
      case Err(e) => Err(e)
      case Ok(soFar) => ScreenOne(env, q, n - 1, soFar)
  }

  /** The whole loop and the cancel check after it. */
  function Screening(env: Env, q: Request): Result<Screened, Code> {
    var n := |q.batch.mutations|;
    match Screen(env, q, n)
    case Err(e) => Err(e)
    case Ok(screened) => if q.attempt.aborted(1 + n) then Err(IngestCancelled) else Ok(screened)
  }

  function RecordOf(m: Mutation): Record {
    match m
    case Upsert(id, revision, digest, value, _) => Record(id, revision, digest, Some(value), false)
    case Tombstone(id, revision, digest, _) => Record(id, revision, digest, None, true)
  }

  function Apply(records: map<string, Record>, ms: seq<Mutation>): map<string, Record> {
    if ms == [] then records else Apply(records, ms[..|ms| - 1])[ms[|ms| - 1].logicalId := RecordOf(ms[|ms| - 1])]
  }

  function Effects(ms: seq<Mutation>): (r: seq<Effect>)
    ensures |r| == |ms|
  {
    if ms == [] then []
    else Effects(ms[..|ms| - 1]) + [Effect(ms[|ms| - 1].Tombstone?, ms[|ms| - 1].logicalId, ms[|ms| - 1].revision, ms[|ms| - 1].digest)]
  }

  function EffectJson(e: Effect): Held {
    Object(EFFECT_NAMES, [TextOf(OperationText(e.tombstone)), TextOf(e.logicalId), TextOf(e.revision), TextOf(e.digest)])
  }

  function EffectJsons(es: seq<Effect>): seq<Held> {
    if es == [] then [] else [EffectJson(es[0])] + EffectJsons(es[1..])
  }

  function ReceiptOf(env: Env, q: Request, screened: Screened): Receipt {
    var effects := Effects(screened.accepted);
    Receipt(q.attempt.runId, KeyOf(env, q), DigestOf(env, q), q.plan.planId, q.plan.planDigest, q.plan.sourceRevision,
            q.plan.destination, q.plan.mode, screened.rejections != [], effects, |screened.accepted|, |screened.rejections|,
            screened.rejections, Digest(env, Arr(EffectJsons(effects))), q.batch.checkpointBefore, q.batch.checkpointAfter)
  }

  // ----- the transaction, as two stretches around the wait for the `beforeCommit` hook -----

  function Begin(env: Env, q: Request, s: State): Progress<State, Receipt, Code> {
    var key := KeyOf(env, q);
    if key in s.receipts then
      if s.receipts[key].requestDigest != DigestOf(env, q) then Threw(IdempotencyConflict) else Returned(s, s.receipts[key])
    else
      match Refusal(env, q.plan, q.batch, s.checkpoint)
      case Some(code) => Threw(code)
      case None =>
        match Screening(env, q)
        case Err(code) => Threw(code)
        case Ok(screened) => Going(s.(records := Apply(s.records, screened.accepted)))
  }

  /** The commit refuses when the hook fails or the signal is raised by then. */
  function CommitRefusal(q: Request): Option<Code> {
    if q.attempt.beforeCommitFails then Some(HookFailed)
    else if q.attempt.aborted(2 + |q.batch.mutations|) then Some(IngestCancelled)
    else None
  }

  function Finish(env: Env, q: Request, s: State): Progress<State, Receipt, Code> {
    match Screening(env, q)
    case Err(code) => Threw(code)
    case Ok(screened) =>
      match CommitRefusal(q)
      case Some(code) => Threw(code)
      case None =>
        var receipt := ReceiptOf(env, q, screened);
        Returned(s.(receipts := s.receipts[receipt.idempotencyKey := receipt], checkpoint := Some(q.batch.checkpointAfter)), receipt)
  }

  function IngestOperation(env: Env, q: Request): Operation<State, Receipt, Code> {
    Operation([(s: State) => Begin(env, q, s), (s: State) => Finish(env, q, s)], (s: State) => ReceiptOf(env, q, Screened([], [])))
  }

  /** `executeBatch` after its transaction: the `afterCommit` hook can still fail it. */
  function Answer(q: Request, outcome: Outcome<State, Receipt, Code>): Result<Receipt, Code> {
    match outcome
    case Abort(code) => Err(code)
    case Commit(_, receipt) => if q.attempt.afterCommitFails then Err(HookFailed) else Ok(receipt)
  }

  /** `resolveAmbiguousCommit` on a scope's committed state. */
  function Resolve(env: Env, q: Request, s: State): Option<Receipt> {
    var key := KeyOf(env, q);
    if key in s.receipts then Some(s.receipts[key]) else None
  }

  // ----- what passing the checks means -----

  /** A version of the first major. */
  ghost predicate FirstMajor(version: string) {
    |version| >= 2 && version[0] == '1' && version[1] == '.'
  }

  /** The same scope, an absent partition read as the empty one. */
  ghost predicate OneScope(a: Scope, b: Scope) {
    && a.tenant == b.tenant && a.dataset == b.dataset && a.sourceBinding == b.sourceBinding && a.stream == b.stream
    && (a.partition == b.partition || (a.partition.GetOr("") == "" && b.partition.GetOr("") == ""))
  }

  /** A checkpoint of this contract, in a version of its first major, for this destination. */
  ghost predicate BelongsTo(c: Checkpoint, destination: Scope) {
    c.contract == "fortemi.dataset-ingest/v1" && FirstMajor(c.schemaVersion) && OneScope(c.scope, destination)
  }

  lemma OneScopeAgrees(a: Scope, b: Scope)
    ensures OneScope(a, b) <==> ScopeKey(a) == ScopeKey(b)
  {
    hide ScopeKey;
    ScopeKeysAgree(a, b);
  }

  lemma FirstMajorAgrees(version: string)
    ensures SupportedSchema(version) <==> FirstMajor(version)
  {
    assert "1." <= version <==> |version| >= 2 && version[0] == '1' && version[1] == '.';
  }

  lemma BelongsAgrees(c: Checkpoint, destination: Scope)
    ensures ScopeRefusal(c, destination).None? <==> BelongsTo(c, destination)
  {
    OneScopeAgrees(c.scope, destination);
    FirstMajorAgrees(c.schemaVersion);
    hide ScopeKey, OneScope, SupportedSchema, FirstMajor;
  }

  /** The stream's own conditions on a batch, given the committed checkpoint. */
  ghost predicate Follows(plan: Plan, batch: Batch, current: Option<Checkpoint>) {
    && batch.checkpointBefore == current
    && batch.checkpointAfter.sequence == batch.sequence
    && batch.sequence == (if current.None? then 0 else current.value.sequence) + 1
    && (current.Some? ==> BelongsTo(current.value, plan.destination))
    && BelongsTo(batch.checkpointAfter, plan.destination)
  }

  /** Where the tombstones are. */
  function TombstonePlaces(ms: seq<Mutation>): set<nat> {
    set i: nat | i < |ms| && ms[i].Tombstone?
  }

  /** A batch with tombstones needs a plan that reconciles, a complete enumeration, and approval beyond the plan's limit. */
  ghost predicate TombstonesAllowed(plan: Plan, batch: Batch) {
    (forall m :: m in batch.mutations ==> m.Upsert?)
    || (plan.reconciliation.enabled && batch.enumeration.Some? && batch.enumeration.value.complete
        && (|TombstonePlaces(batch.mutations)| <= plan.reconciliation.maxTombstones || batch.enumeration.value.approvalId.GetOr("") != ""))
  }

  lemma {:induction false} TombstoneCount(ms: seq<Mutation>)
    ensures Tombstones(ms) == |TombstonePlaces(ms)|
    ensures Tombstones(ms) == 0 <==> forall m :: m in ms ==> m.Upsert?
  {
    if ms != [] {
      var n := |ms| - 1;
      TombstoneCount(ms[..n]);
      LastPlace(ms, n);
      hide TombstonePlaces;
      assert forall m :: m in ms <==> m in ms[..n] || m == ms[n];
      assert ms[n] in ms;
    }
  }

  lemma LastPlace(ms: seq<Mutation>, n: nat)
    requires |ms| == n + 1
    ensures |TombstonePlaces(ms)| == |TombstonePlaces(ms[..n])| + (if ms[n].Tombstone? then 1 else 0)
    ensures ms == ms[..n] + [ms[n]]
  {
    assert TombstonePlaces(ms) == TombstonePlaces(ms[..n]) + (if ms[n].Tombstone? then {n} else {});
  }

  /** A batch passes the checks exactly when it extends the committed checkpoint by one and its tombstones are allowed. */
  lemma PassesExactly(env: Env, plan: Plan, batch: Batch, current: Option<Checkpoint>)
    requires Sound(env)
    ensures Refusal(env, plan, batch, current).None? <==> Follows(plan, batch, current) && TombstonesAllowed(plan, batch)
  {
    hide CheckpointText, ScopeRefusal, BelongsTo, Sound, TombstonePlaces;
    TombstoneCount(batch.mutations);
    hide Tombstones;
    BelongsAgrees(batch.checkpointAfter, plan.destination);
    if batch.checkpointBefore.Some? { BelongsAgrees(batch.checkpointBefore.value, plan.destination); }
    if batch.checkpointBefore.Some? && current.Some? { CheckpointTextsAgree(env, current.value, batch.checkpointBefore.value); }
  }

  predicate Accepts(q: Request, m: Mutation) {
    q.attempt.validate(m).None?
  }

  function Accepted(q: Request): Mutation -> bool {
    (m: Mutation) => Accepts(q, m)
  }

  function Refused(q: Request): Mutation -> bool {
    (m: Mutation) => !Accepts(q, m)
  }

  /** The rejection policy tolerates this many rejections. */
  predicate Tolerates(q: Request, rejected: nat) {
    rejected == 0 || (!q.plan.rejectionPolicy.mode.FailFast? && rejected <= q.plan.rejectionPolicy.maxRejectedRecords)
  }

  ghost predicate NeverAborted(q: Request, n: nat) {
    forall i :: 1 <= i <= n ==> !q.attempt.aborted(i)
  }

  /** What the loop has accepted and rejected after `n` mutations, when it gets that far. */
  ghost predicate Sifted(q: Request, n: nat, screened: Screened)
    requires n <= |q.batch.mutations|
  {
    && screened.accepted == Filter(q.batch.mutations[..n], Accepted(q))
    && |screened.rejections| == |Filter(q.batch.mutations[..n], Refused(q))|
  }

  lemma SiftOne(q: Request, n: nat)
    requires n < |q.batch.mutations|
    ensures var ms, m := q.batch.mutations, q.batch.mutations[n];
      && Filter(ms[..n + 1], Accepted(q)) == Filter(ms[..n], Accepted(q)) + (if Accepts(q, m) then [m] else [])
      && Filter(ms[..n + 1], Refused(q)) == Filter(ms[..n], Refused(q)) + (if Accepts(q, m) then [] else [m])
  {
    var ms := q.batch.mutations;
    assert ms[..n + 1] == ms[..n] + [ms[n]];
    FilterConcat(ms[..n], [ms[n]], Refused(q));
    FilterConcat(ms[..n], [ms[n]], Accepted(q));
    FilterOne(ms[n], Refused(q));
    FilterOne(ms[n], Accepted(q));
  }

  /** The loop goes through exactly when no check finds the signal raised and the policy tolerates the rejected ones. */
  lemma {:induction false} ScreenExact(env: Env, q: Request, n: nat)
    requires n <= |q.batch.mutations|
    ensures Screen(env, q, n).Ok? <==> NeverAborted(q, n) && Tolerates(q, |Filter(q.batch.mutations[..n], Refused(q))|)
    ensures Screen(env, q, n).Ok? ==> Sifted(q, n, Screen(env, q, n).value)
  {
    hide RejectionOf, Filter, Accepted, Refused;
    if n > 0 {
      ScreenExact(env, q, n - 1);
      SiftOne(q, n - 1);
      assert NeverAborted(q, n) <==> NeverAborted(q, n - 1) && !q.attempt.aborted(n);
      hide NeverAborted;
    } else {
      SiftNone(q);
    }
  }

  lemma SiftNone(q: Request)
    ensures Filter(q.batch.mutations[..0], Accepted(q)) == [] && Filter(q.batch.mutations[..0], Refused(q)) == []
  {
  }

  /** Mutation `i` is the last one for this record. */
  ghost predicate LastFor(ms: seq<Mutation>, id: string, i: int) {
    0 <= i < |ms| && ms[i].logicalId == id && forall k :: i < k < |ms| ==> ms[k].logicalId != id
  }

  /** The stored record says what the mutation says: an upsert with its value, a tombstone without one. */
  ghost predicate Records(r: Record, m: Mutation) {
    && r.logicalId == m.logicalId && r.revision == m.revision && r.digest == m.digest
    && (r.tombstoned <==> m.Tombstone?) && r.value == (if m.Upsert? then Some(m.value) else None)
  }

  lemma RecordOfSays(m: Mutation)
    ensures Records(RecordOf(m), m)
  {
  }

  /** After a batch a record with a mutation is that of its last one. */
  lemma {:induction false} LastWriteWins(records: map<string, Record>, ms: seq<Mutation>, id: string, i: nat)
    requires LastFor(ms, id, i)
    ensures id in Apply(records, ms) && Records(Apply(records, ms)[id], ms[i])
    decreases |ms|
  {
    hide Records, RecordOf;
    var n := |ms| - 1;
    if i == n {
      RecordOfSays(ms[n]);
    } else {
      LastWriteWins(records, ms[..n], id, i);
    }
  }

  /** A record without a mutation is as before. */
  lemma {:induction false} UntouchedStays(records: map<string, Record>, ms: seq<Mutation>, id: string)
    requires forall i :: 0 <= i < |ms| ==> ms[i].logicalId != id
    ensures (id in Apply(records, ms) <==> id in records) && (id in records ==> Apply(records, ms)[id] == records[id])
  {
    hide RecordOf;
    if ms != [] { UntouchedStays(records, ms[..|ms| - 1], id); }
  }

  lemma {:induction false} EffectsAre(ms: seq<Mutation>)
    ensures forall i :: 0 <= i < |ms| ==> Effects(ms)[i] == Effect(ms[i].Tombstone?, ms[i].logicalId, ms[i].revision, ms[i].digest)
  {
    if ms != [] { EffectsAre(ms[..|ms| - 1]); }
  }

  /** The receipt's effects name the accepted mutations in order. */
  ghost predicate EffectsOf(es: seq<Effect>, ms: seq<Mutation>) {
    |es| == |ms| && forall i :: 0 <= i < |ms| ==> es[i] == Effect(ms[i].Tombstone?, ms[i].logicalId, ms[i].revision, ms[i].digest)
  }

  lemma ReceiptCounts(env: Env, q: Request, screened: Screened)
    ensures var r := ReceiptOf(env, q, screened);
      && r.acceptedRecords == |screened.accepted| && r.rejectedRecords == |r.rejections| && r.rejections == screened.rejections
      && (r.degraded <==> screened.rejections != []) && EffectsOf(r.effects, screened.accepted)
  {
    EffectsAre(screened.accepted);
    hide Effects, KeyOf, DigestOf, EffectJsons, Digest;
  }

  /** A screened batch's receipt counts every mutation once, lists the accepted ones in order and is degraded exactly when some were rejected. */
  lemma ReceiptAccounts(env: Env, q: Request)
    requires Screening(env, q).Ok?
    ensures var r := ReceiptOf(env, q, Screening(env, q).value);
      && r.acceptedRecords + r.rejectedRecords == |q.batch.mutations| && r.rejectedRecords == |r.rejections|
      && (r.degraded <==> r.rejectedRecords > 0) && EffectsOf(r.effects, Filter(q.batch.mutations, Accepted(q)))
  {
    var ms := q.batch.mutations;
    hide Filter, Screen, ReceiptOf, EffectsOf, Accepted, Refused, Tolerates;
    ScreenExact(env, q, |ms|);
    assert ms[..|ms|] == ms;
    Partitioned(q);
    ReceiptCounts(env, q, Screening(env, q).value);
  }

  lemma Partitioned(q: Request)
    ensures |Filter(q.batch.mutations, Accepted(q))| + |Filter(q.batch.mutations, Refused(q))| == |q.batch.mutations|
  {
    FilterPartition(q.batch.mutations, Accepted(q), Refused(q));
  }

  // ----- the history behind a state -----

  /** One accepted batch. */
  datatype Entry = Entry(request: Request, screened: Screened)

  function EntryReceipt(env: Env, e: Entry): Receipt {
    ReceiptOf(env, e.request, e.screened)
  }

  /** The state after the accepted batches of a history, in order. */
  function Replay(env: Env, h: seq<Entry>): State {
    if h == [] then NOTHING
    else
      var s, e := Replay(env, h[..|h| - 1]), h[|h| - 1];
      var receipt := EntryReceipt(env, e);
      State(Apply(s.records, e.screened.accepted), s.receipts[receipt.idempotencyKey := receipt], Some(receipt.checkpointAfter))
  }

  function CheckpointAt(h: seq<Entry>, n: nat): Option<Checkpoint>
    requires n <= |h|
  {
    if n == 0 then None else Some(h[n - 1].request.batch.checkpointAfter)
  }

  /** Entry `i` is number `i + 1` of the stream, starts where the one before ended and has its own idempotency key. */
  ghost predicate Linked(env: Env, h: seq<Entry>, i: nat)
    requires i < |h|
  {
    var e := h[i];
    && e.request.batch.checkpointBefore == CheckpointAt(h, i)
    && e.request.batch.checkpointAfter.sequence == e.request.batch.sequence == i + 1
    && e.screened.accepted == Filter(e.request.batch.mutations, Accepted(e.request))
    && |e.screened.rejections| == |Filter(e.request.batch.mutations, Refused(e.request))|
    && Tolerates(e.request, |e.screened.rejections|)
    && TombstonesAllowed(e.request.plan, e.request.batch)
    && BelongsTo(e.request.batch.checkpointAfter, e.request.plan.destination)
    && forall k :: 0 <= k < i ==> KeyOf(env, h[k].request) != KeyOf(env, e.request)
  }

  ghost predicate Chain(env: Env, h: seq<Entry>) {
    forall i :: 0 <= i < |h| ==> Linked(env, h, i)
  }

  /** The attempt is new to the state and gets through to its commit. */
  ghost predicate Commits(env: Env, q: Request, s: State) {
    KeyOf(env, q) !in s.receipts && Refusal(env, q.plan, q.batch, s.checkpoint).None? && Screening(env, q).Ok? && CommitRefusal(q).None?
  }

  /** The history after one more attempt. */
  ghost function Extend(env: Env, h: seq<Entry>, q: Request): seq<Entry> {
    if Commits(env, q, Replay(env, h)) then h + [Entry(q, Screening(env, q).value)] else h
  }

  lemma StateOf(env: Env, h: seq<Entry>)
    ensures Replay(env, h).checkpoint == CheckpointAt(h, |h|)
  {
  }

  ghost predicate OwnReceipts(env: Env, h: seq<Entry>, s: State) {
    && (forall key :: key in s.receipts ==> exists i :: 0 <= i < |h| && KeyOf(env, h[i].request) == key)
    && forall i :: 0 <= i < |h| ==> KeyOf(env, h[i].request) in s.receipts && s.receipts[KeyOf(env, h[i].request)] == EntryReceipt(env, h[i])
  }

  /** A state's receipts are exactly its history's, each under its own key. */
  lemma {:induction false} ReceiptsOf(env: Env, h: seq<Entry>)
    requires Chain(env, h)
    ensures OwnReceipts(env, h, Replay(env, h))
  {
    hide KeyOf, DigestOf, Apply, Effects, TombstonesAllowed, Tolerates, Filter, EffectJsons, Digest;
    if h != [] {
      var n := |h| - 1;
      ChainPrefix(env, h, n);
      ReceiptsOf(env, h[..n]);
      assert Linked(env, h, n);
      ReceiptsGrow(env, h, Replay(env, h[..n]), Replay(env, h));
    }
  }

  lemma ReceiptsGrow(env: Env, h: seq<Entry>, s: State, s': State)
    requires h != [] && OwnReceipts(env, h[..|h| - 1], s)
    requires s'.receipts == s.receipts[KeyOf(env, h[|h| - 1].request) := EntryReceipt(env, h[|h| - 1])]
    requires forall k :: 0 <= k < |h| - 1 ==> KeyOf(env, h[k].request) != KeyOf(env, h[|h| - 1].request)
    ensures OwnReceipts(env, h, s')
  {
    hide KeyOf, EntryReceipt;
    var n, key := |h| - 1, KeyOf(env, h[|h| - 1].request);
    forall k | k in s'.receipts ensures exists i :: 0 <= i < |h| && KeyOf(env, h[i].request) == k {
      if k != key {
        var i :| 0 <= i < n && KeyOf(env, h[..n][i].request) == k;
        assert KeyOf(env, h[i].request) == k;
      }
    }
    forall i | 0 <= i < n
      ensures KeyOf(env, h[i].request) in s'.receipts && s'.receipts[KeyOf(env, h[i].request)] == EntryReceipt(env, h[i])
    {
      assert h[..n][i] == h[i];
    }
  }

  lemma ChainPrefix(env: Env, h: seq<Entry>, n: nat)
    requires Chain(env, h) && n <= |h|
    ensures Chain(env, h[..n])
  {
    hide KeyOf, Tolerates, TombstonesAllowed, Filter;
    forall i | 0 <= i < n ensures Linked(env, h[..n], i) { assert Linked(env, h, i); }
  }

  /** What a run of the operation alone leads to. */
  lemma RunAlone(env: Env, q: Request, s: State)
    ensures var o := Outcomes(IngestOperation(env, q), 0, s);
      match o
      case Commit(s', r) => r.requestDigest == DigestOf(env, q) && Resolve(env, q, s') == Some(r) && (s' == s || Commits(env, q, s))
      case Abort(_) => !Commits(env, q, s)
    ensures Commits(env, q, s) ==> Outcomes(IngestOperation(env, q), 0, s) == Finished1(env, q, s)
  {
    var op := IngestOperation(env, q);
    hide Refusal, Screening, KeyOf, DigestOf, CommitRefusal, Apply, Effects;
    match Begin(env, q, s)
    case Going(d) => assert op.stretches[1](d) == Finish(env, q, d);
    case Returned(d, v) =>
    case Threw(e) =>
  }

  /** The commit of an attempt that gets through. */
  ghost function Finished1(env: Env, q: Request, s: State): Outcome<State, Receipt, Code>
    requires Screening(env, q).Ok?
  {
    var screened := Screening(env, q).value;
    var receipt := ReceiptOf(env, q, screened);
    Commit(State(Apply(s.records, screened.accepted), s.receipts[receipt.idempotencyKey := receipt], Some(receipt.checkpointAfter)), receipt)
  }

  /** What a committing attempt's request and screening satisfy. */
  lemma CommittedRequest(env: Env, q: Request, s: State)
    requires Sound(env) && Commits(env, q, s)
    ensures Follows(q.plan, q.batch, s.checkpoint) && TombstonesAllowed(q.plan, q.batch)
    ensures var screened := Screening(env, q).value;
      Sifted(q, |q.batch.mutations|, screened) && Tolerates(q, |screened.rejections|)
  {
    hide KeyOf, Tolerates, TombstonesAllowed, Follows, Filter, Screen, Sound, Refusal;
    PassesExactly(env, q.plan, q.batch, s.checkpoint);
    ScreenExact(env, q, |q.batch.mutations|);
  }

  lemma NewKey(env: Env, h: seq<Entry>, q: Request)
    requires Chain(env, h) && Commits(env, q, Replay(env, h))
    ensures forall k :: 0 <= k < |h| ==> KeyOf(env, h[k].request) != KeyOf(env, q)
  {
    hide Replay, KeyOf, Chain, Refusal, Screening, CommitRefusal, EntryReceipt;
    ReceiptsOf(env, h);
  }

  /** What the stream's place alone asks of a new entry. */
  lemma NewPlace(env: Env, h: seq<Entry>, q: Request)
    requires Chain(env, h) && Follows(q.plan, q.batch, Replay(env, h).checkpoint)
    ensures q.batch.checkpointBefore == CheckpointAt(h, |h|)
    ensures q.batch.checkpointAfter.sequence == q.batch.sequence == |h| + 1
    ensures BelongsTo(q.batch.checkpointAfter, q.plan.destination)
  {
    hide Replay, Chain, BelongsTo;
    StateOf(env, h);
    SequenceAt(env, h);
  }

  lemma NewLink(env: Env, h: seq<Entry>, q: Request)
    requires Sound(env) && Chain(env, h) && Commits(env, q, Replay(env, h))
    ensures Linked(env, h + [Entry(q, Screening(env, q).value)], |h|)
  {
    hide Replay, Sound, KeyOf, Chain, Tolerates, TombstonesAllowed, Filter, Follows, Refusal, Screening, CommitRefusal;
    CommittedRequest(env, q, Replay(env, h));
    NewPlace(env, h, q);
    NewKey(env, h, q);
    hide Commits;
    var ms := q.batch.mutations;
    assert ms[..|ms|] == ms;
    var h' := h + [Entry(q, Screening(env, q).value)];
    assert forall k :: 0 <= k < |h| ==> h'[k] == h[k];
    assert CheckpointAt(h', |h|) == CheckpointAt(h, |h|);
  }

  /** An attempt that commits adds a properly linked entry. */
  lemma ExtendChain(env: Env, h: seq<Entry>, q: Request)
    requires Sound(env) && Chain(env, h)
    ensures Chain(env, Extend(env, h, q))
  {
    hide KeyOf, Tolerates, TombstonesAllowed, Filter, Replay, Sound, Commits;
    if Commits(env, q, Replay(env, h)) {
      NewLink(env, h, q);
      var h' := Extend(env, h, q);
      forall i | 0 <= i < |h| ensures Linked(env, h', i) {
        assert Linked(env, h, i);
        assert forall k :: 0 <= k <= i ==> h'[k] == h[k];
      }
    }
  }

  lemma SequenceAt(env: Env, h: seq<Entry>)
    requires Chain(env, h)
    ensures CheckpointAt(h, |h|).Some? ==> CheckpointAt(h, |h|).value.sequence == |h|
    ensures CheckpointAt(h, |h|).None? <==> h == []
  {
    hide KeyOf, Tolerates, TombstonesAllowed, Filter;
    if h != [] { assert Linked(env, h, |h| - 1); }
  }

  /** Running an attempt alone on a history's state leaves the state of the extended history. */
  lemma AttemptExtends(env: Env, h: seq<Entry>, q: Request)
    ensures After(IngestOperation(env, q), Replay(env, h)) == Replay(env, Extend(env, h, q))
  {
    var s := Replay(env, h);
    RunAlone(env, q, s);
    if Commits(env, q, s) {
      var h' := Extend(env, h, q);
      assert h'[..|h'| - 1] == h;
    }
    hide IngestOperation, Outcomes, Commits, ReceiptOf, Apply;
  }

  /**
    An attempt ends in a conflict exactly when the scope resolves its key to the receipt of a request with other content:
    `resolveAmbiguousCommit` then returns a receipt that is not the attempt's own.
   */
  lemma ConflictExactly(env: Env, q: Request, s: State)
    ensures Outcomes(IngestOperation(env, q), 0, s) == Abort(IdempotencyConflict)
      <==> Resolve(env, q, s).Some? && Resolve(env, q, s).value.requestDigest != DigestOf(env, q)
  {
    var op := IngestOperation(env, q);
    hide KeyOf, DigestOf, Apply, Effects;
    RefusalIsNoConflict(env, q, s.checkpoint);
    ScreenIsNoConflict(env, q, |q.batch.mutations|);
    hide Refusal, Screen;
    match Begin(env, q, s)
    case Going(d) => assert op.stretches[1](d) == Finish(env, q, d);
    case Returned(d, v) =>
    case Threw(e) =>
  }

  lemma RefusalIsNoConflict(env: Env, q: Request, current: Option<Checkpoint>)
    ensures Refusal(env, q.plan, q.batch, current) != Some(IdempotencyConflict)
  {
    hide ScopeKey, CheckpointText;
  }

  lemma {:induction false} ScreenIsNoConflict(env: Env, q: Request, n: nat)
    requires n <= |q.batch.mutations|
    ensures Screen(env, q, n) != Err(IdempotencyConflict)
  {
    hide RejectionOf;
    if n > 0 { ScreenIsNoConflict(env, q, n - 1); }
  }
}
