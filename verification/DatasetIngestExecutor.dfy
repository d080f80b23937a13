/**
  The executor as it runs: drafts, loops and maps updated in place, each method proved against the functions whose
  properties the other ingest modules prove. Waiting between calls is the subject of the store's step system.
 */
module DatasetIngestExecution {
  import opened Wrappers
  import opened CanonicalJson
  import opened DatasetRequest
  import opened IngestStore
  import opened DatasetIngest

  /** A draft of one scope's state. */
  class DatasetIngestTransaction {
    var records: map<string, Record>
    var receipts: map<string, Receipt>
    var checkpoint: Option<Checkpoint>

    function Draft(): State
      reads this
    {
      State(records, receipts, checkpoint)
    }

    constructor (state: State)
      ensures Draft() == state
    {
      records, receipts, checkpoint := state.records, state.receipts, state.checkpoint;
    }

    method SetRecord(record: Record)
      modifies this`records
      ensures records == old(records)[record.logicalId := record]
    {
      records := records[record.logicalId := record];
    }

    method SetReceipt(receipt: Receipt)
      modifies this`receipts
      ensures receipts == old(receipts)[receipt.idempotencyKey := receipt]
    {
      receipts := receipts[receipt.idempotencyKey := receipt];
    }

    method SetCheckpoint(c: Checkpoint)
      modifies this`checkpoint
      ensures checkpoint == Some(c)
    {
      checkpoint := Some(c);
    }
  }

  /** What the first stretch hands on: a replayed receipt, or the screened mutations to commit. */
  datatype Begun = Replayed(receipt: Receipt) | Prepared(screened: Screened)

  datatype RunState = CommittedRun | DegradedRun | CancelledRun | FailedRun

  datatype RunAttempt = RunAttempt(runId: string, state: RunState, verified: bool, idempotencyKey: string, errorCode: Option<Code>)

  /** The transaction from draft to outcome: the operation's stretches one after the other. */
  function Transaction(env: Env, q: Request, s: State): Outcome<State, Receipt, Code> {
    match Begin(env, q, s)
    case Threw(e) => Abort(e)
    case Returned(s', v) => Commit(s', v)
    case Going(d) =>
      match Finish(env, q, d)
      case Threw(e) => Abort(e)
      case Returned(s', v) => Commit(s', v)
      case Going(d') => Commit(d', ReceiptOf(env, q, Screened([], [])))
  }

  lemma TransactionIsOperation(env: Env, q: Request, s: State)
    ensures Outcomes(IngestOperation(env, q), 0, s) == Transaction(env, q, s)
  {
    var op := IngestOperation(env, q);
    hide Refusal, Screening, KeyOf, DigestOf, CommitRefusal, Apply, ReceiptOf;
    match Begin(env, q, s)
    case Going(d) => assert op.stretches[1](d) == Finish(env, q, d);
    case Returned(d, v) =>
    case Threw(e) =>
  }

  /** How an attempt ends: cancelled before its transaction, or as its operation does on the scope's state. */
  function Ending(env: Env, q: Request, s: State): Outcome<State, Receipt, Code> {
    if q.attempt.aborted(0) then Abort(IngestCancelled) else Outcomes(IngestOperation(env, q), 0, s)
  }

  /** The last-attempt entry an attempt leaves. */
  function AttemptLeft(env: Env, q: Request, outcome: Outcome<State, Receipt, Code>): RunAttempt {
    match Answer(q, outcome)
    case Ok(receipt) => RunAttempt(receipt.runId, if receipt.degraded then DegradedRun else CommittedRun, true, KeyOf(env, q), None)
    case Err(code) =>
      RunAttempt(q.attempt.runId, if code == IngestCancelled then CancelledRun else FailedRun, false, KeyOf(env, q),
                 if code == HookFailed then None else Some(code))
  }

  /** The store's committed states, and the executor's last attempt and last success for each scope. */
  datatype Books = Books(scopes: map<string, State>, attempts: map<string, RunAttempt>, successes: map<string, Receipt>)

  function StateIn(scopes: map<string, State>, scopeKey: string): State {
    if scopeKey in scopes then scopes[scopeKey] else NOTHING
  }

  /** The books after an attempt whose transaction ended this way. */
  function Booked(env: Env, q: Request, b: Books, outcome: Outcome<State, Receipt, Code>): Books {
    var scope := ScopeKey(q.plan.destination);
    var attempts := b.attempts[scope := AttemptLeft(env, q, outcome)];
    match outcome
    case Commit(s, receipt) => Books(b.scopes[scope := s], attempts, b.successes[scope := receipt])
    case Abort(_) => Books(b.scopes, attempts, b.successes)
  }

  class DatasetIngestExecutor {
    /** The store's committed states. */
    var scopes: map<string, State>
    var attempts: map<string, RunAttempt>
    var successes: map<string, Receipt>

    constructor ()
      ensures Current() == Books(map[], map[], map[])
    {
      scopes, attempts, successes := map[], map[], map[];
    }

    function Current(): Books
      reads this
    {
      Books(scopes, attempts, successes)
    }

    /** The screening loop with its cancel checks. */
    method ScreenAll(env: Env, q: Request) returns (r: Result<Screened, Code>)
      ensures r == Screening(env, q)
    {
      var accepted: seq<Mutation> := [];
      var rejections: seq<Rejection> := [];
      var ms := q.batch.mutations;
      var i := 0;
      while i < |ms|
        invariant 0 <= i <= |ms|
        invariant Screen(env, q, i) == Ok(Screened(accepted, rejections))
      {
        ScreenFails(env, q, i + 1);
        if q.attempt.aborted(1 + i) { return Err(IngestCancelled); }
        var failure := q.attempt.validate(ms[i]);
        if failure.None? {
          accepted := accepted + [ms[i]];
        } else {
          var rejection := RejectionOf(env, ms[i], failure.value);
          if q.plan.rejectionPolicy.mode.FailFast? { return Err(RecordRejected); }
          rejections := rejections + [rejection];
          if |rejections| > q.plan.rejectionPolicy.maxRejectedRecords { return Err(RejectionLimitExceeded); }
        }
        i := i + 1;
      }
      if q.attempt.aborted(1 + |ms|) { return Err(IngestCancelled); }
      return Ok(Screened(accepted, rejections));
    }

    /** The transaction up to the wait for `beforeCommit`; a prepared draft goes on to the commit. */
    method BeginRun(env: Env, q: Request, transaction: DatasetIngestTransaction) returns (r: Result<Begun, Code>)
      modifies transaction`records
      ensures match Begin(env, q, old(transaction.Draft()))
              case Threw(code) => r == Err(code)
              case Returned(s, receipt) => r == Ok(Replayed(receipt)) && transaction.Draft() == s
              case Going(d) => r.Ok? && r.value.Prepared? && transaction.Draft() == d && Screening(env, q) == Ok(r.value.screened)
    {
      hide KeyOf, DigestOf, Refusal;
      var key := KeyOf(env, q);
      if key in transaction.receipts {
        var prior := transaction.receipts[key];
        if prior.requestDigest != DigestOf(env, q) { return Err(IdempotencyConflict); }
        return Ok(Replayed(prior));
      }
      var refusal := Refusal(env, q.plan, q.batch, transaction.checkpoint);
      if refusal.Some? { return Err(refusal.value); }
      var screened := ScreenAll(env, q);
      if screened.Err? { return Err(screened.error); }
      WriteRecords(transaction, screened.value.accepted);
      return Ok(Prepared(screened.value));
    }

    /** The commit. */
    method FinishRun(env: Env, q: Request, screened: Screened, transaction: DatasetIngestTransaction) returns (r: Result<Receipt, Code>)
      requires Screening(env, q) == Ok(screened)
      modifies transaction`receipts, transaction`checkpoint
      ensures match Finish(env, q, old(transaction.Draft()))
              case Threw(code) => r == Err(code)
              case Returned(s, receipt) => r == Ok(receipt) && transaction.Draft() == s
              case Going(_) => false
    {
      hide Screening, ReceiptOf;
      var receipt := ReceiptOf(env, q, screened);
      if q.attempt.beforeCommitFails { return Err(HookFailed); }
      if q.attempt.aborted(2 + |q.batch.mutations|) { return Err(IngestCancelled); }
      transaction.SetReceipt(receipt);
      transaction.SetCheckpoint(q.batch.checkpointAfter);
      return Ok(receipt);
    }

    /** The transaction body on a draft. */
    method RunTransaction(env: Env, q: Request, transaction: DatasetIngestTransaction) returns (r: Result<Receipt, Code>)
      modifies transaction
      ensures match Outcomes(IngestOperation(env, q), 0, old(transaction.Draft()))
              case Commit(s, receipt) => r == Ok(receipt) && transaction.Draft() == s
              case Abort(code) => r == Err(code)
    {
      TransactionIsOperation(env, q, transaction.Draft());
      hide Outcomes, IngestOperation, Begin, Finish, Screening, ReceiptOf;
      var begun := BeginRun(env, q, transaction);
      if begun.Err? { return Err(begun.error); }
      if begun.value.Replayed? { return Ok(begun.value.receipt); }
      r := FinishRun(env, q, begun.value.screened, transaction);
    }

    method WriteRecords(transaction: DatasetIngestTransaction, accepted: seq<Mutation>)
      modifies transaction`records
      ensures transaction.records == Apply(old(transaction.records), accepted)
    {
      var i := 0;
      while i < |accepted|
        invariant 0 <= i <= |accepted|
        invariant transaction.records == Apply(old(transaction.records), accepted[..i])
      {
        transaction.SetRecord(RecordOf(accepted[i]));
        assert accepted[..i + 1][..i] == accepted[..i];
        i := i + 1;
      }
      assert accepted[..i] == accepted;
    }

    /** The store's part of an attempt: a draft of the scope's state that replaces it when the transaction commits. */
    method Transact(env: Env, q: Request, scope: string) returns (outcome: Outcome<State, Receipt, Code>)
      modifies this`scopes
      ensures outcome == Ending(env, q, StateIn(old(scopes), scope))
      ensures scopes == (if outcome.Commit? then old(scopes)[scope := outcome.state] else old(scopes))
    {
      hide Outcomes, IngestOperation;
      if q.attempt.aborted(0) { return Abort(IngestCancelled); }
      var transaction := new DatasetIngestTransaction(StateIn(scopes, scope));
      var result := RunTransaction(env, q, transaction);
      if result.Err? { return Abort(result.error); }
      scopes := scopes[scope := transaction.Draft()];
      outcome := Commit(transaction.Draft(), result.value);
    }

    /** The receipt is in: record it, then the `afterCommit` hook. */
    method Succeed(env: Env, q: Request, scope: string, s: State, receipt: Receipt) returns (r: Result<Receipt, Code>)
      modifies this`attempts, this`successes
      ensures r == Answer(q, Commit(s, receipt))
      ensures successes == old(successes)[scope := receipt]
      ensures attempts == old(attempts)[scope := AttemptLeft(env, q, Commit(s, receipt))]
    {
      hide KeyOf;
      successes := successes[scope := receipt];
      attempts := attempts[scope := RunAttempt(receipt.runId, if receipt.degraded then DegradedRun else CommittedRun, true, KeyOf(env, q), None)];
      if q.attempt.afterCommitFails {
        attempts := attempts[scope := RunAttempt(q.attempt.runId, FailedRun, false, KeyOf(env, q), None)];
        return Err(HookFailed);
      }
      return Ok(receipt);
    }

    method Fail(env: Env, q: Request, scope: string, code: Code)
      modifies this`attempts
      ensures attempts == old(attempts)[scope := AttemptLeft(env, q, Abort(code))]
    {
      attempts := attempts[scope := RunAttempt(q.attempt.runId, if code == IngestCancelled then CancelledRun else FailedRun, false,
        KeyOf(env, q), if code == HookFailed then None else Some(code))];
    }

    /** `executeBatch`. */
    method ExecuteBatch(env: Env, q: Request) returns (r: Result<Receipt, Code>)
      modifies this
      ensures match ContractRefusal(q.plan, q.batch)
              case Some(code) => r == Err(code) && Current() == old(Current())
              case None =>
                var outcome := Ending(env, q, StateIn(old(scopes), ScopeKey(q.plan.destination)));
                r == Answer(q, outcome) && Current() == Booked(env, q, old(Current()), outcome)
    {
      var refusal := ContractRefusal(q.plan, q.batch);
      if refusal.Some? { return Err(refusal.value); }
      hide Ending, ScopeKey, AttemptLeft, ContractRefusal, StateIn;
      var scope := ScopeKey(q.plan.destination);
      var outcome := Transact(env, q, scope);
      match outcome
      case Commit(s, receipt) => r := Succeed(env, q, scope, s, receipt);
      case Abort(code) =>
        Fail(env, q, scope, code);
        r := Err(code);
    }

    /** `resolveAmbiguousCommit`. */
    method ResolveAmbiguousCommit(env: Env, q: Request) returns (r: Option<Receipt>)
      ensures r == Resolve(env, q, StateIn(scopes, ScopeKey(q.plan.destination)))
    {
      var scope := ScopeKey(q.plan.destination);
      var key := KeyOf(env, q);
      if scope in scopes && key in scopes[scope].receipts {
        r := Some(scopes[scope].receipts[key]);
      } else {
        r := None;
      }
    }
  }

  /** Once the loop fails it stays failed. */
  lemma {:induction false} ScreenFails(env: Env, q: Request, n: nat)
    requires n <= |q.batch.mutations|
    ensures Screen(env, q, n).Err? ==> Screen(env, q, |q.batch.mutations|) == Screen(env, q, n)
    decreases |q.batch.mutations| - n
  {
    hide ScreenOne;
    if n < |q.batch.mutations| { ScreenFails(env, q, n + 1); }
  }
}
