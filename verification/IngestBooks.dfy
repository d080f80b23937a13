/** What an attempt answers and what the executor's books hold afterwards, and what a receipt's output digest vouches for. */
module IngestBooks {
  import opened Wrappers
  import opened CanonicalJson
  import opened DatasetRequest
  import opened DatasetContent
  import opened IngestStore
  import opened DatasetIngest
  import opened IngestRules
  import opened DatasetIngestExecution

  // ----- answers and books -----

  /** What the attempt did to its scope's state: nothing when cancelled at once, and otherwise what its operation does. */
  ghost predicate Attempted(env: Env, q: Request, s: State, o: Outcome<State, Receipt, Code>) {
    if q.attempt.aborted(0) then o == Abort(IngestCancelled) else AttemptSays(env, q, s, o)
  }

  /** The entry of a failed attempt: cancelled or failed, unverified, with the code unless the error is a hook's. */
  ghost predicate FailedEntry(env: Env, q: Request, code: Code, entry: RunAttempt) {
    && entry.runId == q.attempt.runId && entry.idempotencyKey == KeyOf(env, q) && entry.verified == false
    && entry.state == (if code.IngestCancelled? then CancelledRun else FailedRun)
    && (entry.errorCode.Some? <==> !code.HookFailed?) && (entry.errorCode.Some? ==> entry.errorCode.value == code)
  }

  /** The entry of a successful attempt has the receipt's run id, which on a replay is the first run's, and its state. */
  ghost predicate SucceededEntry(env: Env, q: Request, receipt: Receipt, entry: RunAttempt) {
    && entry.runId == receipt.runId && entry.idempotencyKey == KeyOf(env, q) && entry.verified && entry.errorCode == None
    && entry.state == (if receipt.degraded then DegradedRun else CommittedRun)
  }

  ghost predicate OnlyChanges<V>(before: map<string, V>, after: map<string, V>, key: string, value: V) {
    after.Keys == before.Keys + {key} && after[key] == value && forall k :: k in before && k != key ==> after[k] == before[k]
  }

  /** The answer and the books after an attempt: only its own scope's entries change, and its state only by a commit. */
  ghost predicate BooksSay(env: Env, q: Request, scope: string, b: Books, o: Outcome<State, Receipt, Code>, r: Result<Receipt, Code>, b': Books) {
    && (exists entry :: OnlyChanges(b.attempts, b'.attempts, scope, entry) && EntrySays(env, q, o, entry))
    && match o
       case Abort(code) => r == Err(code) && b'.scopes == b.scopes && b'.successes == b.successes
       case Commit(s, receipt) =>
         && r == (if q.attempt.afterCommitFails then Err(HookFailed) else Ok(receipt))
         && OnlyChanges(b.scopes, b'.scopes, scope, s) && OnlyChanges(b.successes, b'.successes, scope, receipt)
  }

  ghost predicate EntrySays(env: Env, q: Request, o: Outcome<State, Receipt, Code>, entry: RunAttempt) {
    match o
    case Abort(code) => FailedEntry(env, q, code, entry)
    case Commit(_, receipt) => if q.attempt.afterCommitFails then FailedEntry(env, q, HookFailed, entry) else SucceededEntry(env, q, receipt, entry)
  }

  lemma EntryOf(env: Env, q: Request, o: Outcome<State, Receipt, Code>)
    ensures EntrySays(env, q, o, AttemptLeft(env, q, o))
  {
    hide KeyOf;
  }

  lemma UpdateSays<V>(before: map<string, V>, key: string, value: V)
    ensures OnlyChanges(before, before[key := value], key, value)
  {
  }

  /** What an executed batch answers and books, on any books. */
  lemma BooksMean(env: Env, q: Request, b: Books)
    requires Sound(env)
    ensures var scope := ScopeKey(q.plan.destination);
      var o := Ending(env, q, StateIn(b.scopes, scope));
      && Attempted(env, q, if scope in b.scopes then b.scopes[scope] else State(map[], map[], None), o)
      && BooksSay(env, q, scope, b, o, Answer(q, o), Booked(env, q, b, o))
  {
    hide Sound, ScopeKey, AttemptSays, Outcomes, IngestOperation, KeyOf, AttemptLeft, EntrySays, OnlyChanges;
    var scope := ScopeKey(q.plan.destination);
    var s := StateIn(b.scopes, scope);
    AttemptMeans(env, q, s);
    var o := Ending(env, q, s);
    EntryOf(env, q, o);
    UpdateSays(b.attempts, scope, AttemptLeft(env, q, o));
    if o.Commit? {
      UpdateSays(b.scopes, scope, o.state);
      UpdateSays(b.successes, scope, o.value);
    }
  }

  // ----- the output digest -----

  lemma EffectsIff(a: Effect, b: Effect)
    ensures Meaning(EffectJson(a)) == Meaning(EffectJson(b)) <==> a == b
  {
    var fs := [TextOf(OperationText(a.tombstone)), TextOf(a.logicalId), TextOf(a.revision), TextOf(a.digest)];
    var gs := [TextOf(OperationText(b.tombstone)), TextOf(b.logicalId), TextOf(b.revision), TextOf(b.digest)];
    assert "tombstone" != "upsert" by { assert "tombstone"[0] != "upsert"[0]; }
    TextsIff(OperationText(a.tombstone), OperationText(b.tombstone));
    TextsIff(a.logicalId, b.logicalId);
    TextsIff(a.revision, b.revision);
    TextsIff(a.digest, b.digest);
    hide Meaning, Object, TextOf;
    ObjectsAgree(EFFECT_NAMES, fs, gs);
    Four(fs, gs);
  }

  lemma Four(a: Values, b: Values)
    requires |a| == |b| == 4
    ensures Alike(a, b) <==>
      && MeaningOf(a[0]) == MeaningOf(b[0]) && MeaningOf(a[1]) == MeaningOf(b[1])
      && MeaningOf(a[2]) == MeaningOf(b[2]) && MeaningOf(a[3]) == MeaningOf(b[3])
  {
    hide MeaningOf;
  }

  lemma {:induction false} EffectsLength(es: seq<Effect>)
    ensures |EffectJsons(es)| == |es|
  {
    hide EffectJson;
    if es != [] { EffectsLength(es[1..]); }
  }

  lemma {:induction false} EffectListsIff(a: seq<Effect>, b: seq<Effect>)
    ensures Meanings(EffectJsons(a)) == Meanings(EffectJsons(b)) <==> a == b
    decreases |a|
  {
    hide Meaning, EffectJson;
    EffectsLength(a);
    EffectsLength(b);
    if |a| == |b| && a != [] {
      EffectsIff(a[0], b[0]);
      EffectListsIff(a[1..], b[1..]);
      var x, y := Meanings(EffectJsons(a)), Meanings(EffectJsons(b));
      assert EffectJsons(a)[1..] == EffectJsons(a[1..]) && EffectJsons(b)[1..] == EffectJsons(b[1..]);
      assert x == y <==> x[0] == y[0] && x[1..] == y[1..];
      assert a == [a[0]] + a[1..] && b == [b[0]] + b[1..];
    }
  }

  /** With an injective hash, output digests agree exactly on receipts with the same effects in the same order. */
  lemma OutputMeans(env: Env, q: Request, s: Screened, q': Request, s': Screened)
    requires Sound(env)
    ensures ReceiptOf(env, q, s).outputDigest == ReceiptOf(env, q', s').outputDigest <==> ReceiptOf(env, q, s).effects == ReceiptOf(env, q', s').effects
  {
    hide Sound, Digest, EffectJsons, Meanings, KeyOf, DigestOf, Effects;
    DigestsAgree(env, Arr(EffectJsons(Effects(s.accepted))), Arr(EffectJsons(Effects(s'.accepted))));
    EffectListsIff(Effects(s.accepted), Effects(s'.accepted));
  }
}
