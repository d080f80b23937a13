/**
  Every interleaving of ingest attempts: each scope always holds the state of a history of accepted batches, each batch
  is applied at most once, and every answer a caller gets agrees with that history.
 */
module IngestHistory {
  import opened Wrappers
  import opened Sorting
  import opened DatasetRequest
  import opened IngestStore
  import opened DatasetIngest

  type Calls = seq<Call<State, Receipt, Code>>

  function ScopeOf(q: Request): string {
    ScopeKey(q.plan.destination)
  }

  /** Every call of the store is one of the executor's, in the order of the requests. */
  ghost predicate Issued(env: Env, reqs: seq<Request>, calls: Calls) {
    |reqs| == |calls| && forall i :: 0 <= i < |calls| ==> IssuedAs(env, reqs[i], calls[i])
  }

  ghost predicate IssuedAs(env: Env, q: Request, c: Call<State, Receipt, Code>) {
    c.operation == IngestOperation(env, q) && c.scope == ScopeOf(q)
  }

  /** The accepted batches of a scope among the first `n` requests, each attempted after the ones before it. */
  ghost function HistoryOf(env: Env, reqs: seq<Request>, scope: string, n: nat): seq<Entry>
    requires n <= |reqs|
  {
    if n == 0 then []
    else
      var h := HistoryOf(env, reqs, scope, n - 1);
      if ScopeOf(reqs[n - 1]) == scope then Extend(env, h, reqs[n - 1]) else h
  }

  lemma {:induction false} HistoryChains(env: Env, reqs: seq<Request>, scope: string, n: nat)
    requires Sound(env) && n <= |reqs|
    ensures Chain(env, HistoryOf(env, reqs, scope, n))
  {
    hide Sound, Extend, Linked;
    if n > 0 {
      HistoryChains(env, reqs, scope, n - 1);
      ExtendChain(env, HistoryOf(env, reqs, scope, n - 1), reqs[n - 1]);
    }
  }

  lemma ExtendGrows(env: Env, h: seq<Entry>, q: Request)
    ensures h <= Extend(env, h, q)
  {
    hide Commits, Screening, Replay;
  }

  lemma HistoryStep(env: Env, reqs: seq<Request>, scope: string, n: nat)
    requires 0 < n <= |reqs|
    ensures HistoryOf(env, reqs, scope, n - 1) <= HistoryOf(env, reqs, scope, n)
  {
    hide Extend, ScopeOf;
    ExtendGrows(env, HistoryOf(env, reqs, scope, n - 1), reqs[n - 1]);
  }

  /** Later requests only add to a scope's history. */
  lemma {:induction false} HistoryGrows(env: Env, reqs: seq<Request>, scope: string, m: nat, n: nat)
    requires m <= n <= |reqs|
    ensures HistoryOf(env, reqs, scope, m) <= HistoryOf(env, reqs, scope, n)
  {
    hide HistoryOf;
    if m < n {
      HistoryGrows(env, reqs, scope, m, n - 1);
      HistoryStep(env, reqs, scope, n);
    }
  }

  /** The serial run of the calls leaves the state of the history. */
  lemma {:induction false} SerialIsHistory(env: Env, reqs: seq<Request>, calls: Calls, scope: string, n: nat)
    requires Issued(env, reqs, calls) && n <= |calls|
    ensures Serial(calls, scope, n, NOTHING) == Replay(env, HistoryOf(env, reqs, scope, n))
  {
    hide Replay, Extend, After, IngestOperation, ScopeOf;
    if n > 0 {
      SerialIsHistory(env, reqs, calls, scope, n - 1);
      assert IssuedAs(env, reqs[n - 1], calls[n - 1]);
      AttemptExtends(env, HistoryOf(env, reqs, scope, n - 1), reqs[n - 1]);
    } else {
      EmptyHistory(env);
    }
  }

  lemma EmptyHistory(env: Env)
    ensures Replay(env, []) == NOTHING
  {
  }

  // ----- the committed state -----

  /** How many batches a state has accepted, by its checkpoint. */
  function Reach(s: State): int {
    if s.checkpoint.None? then 0 else s.checkpoint.value.sequence
  }

  predicate HasReceipt(s: State, key: string, sequence: int) {
    key in s.receipts && s.receipts[key].checkpointAfter.sequence == sequence
  }

  ghost predicate Numbered(s: State, sequence: int) {
    exists key :: HasReceipt(s, key, sequence)
  }

  /** Exactly one receipt for each sequence number up to the checkpoint's. */
  ghost predicate OnePerNumber(s: State) {
    && |s.receipts| == Reach(s)
    && (forall key :: key in s.receipts ==> s.receipts[key].idempotencyKey == key && 1 <= s.receipts[key].checkpointAfter.sequence <= Reach(s))
    && (forall n :: 1 <= n <= Reach(s) ==> Numbered(s, n))
    && (forall key, other, n :: HasReceipt(s, key, n) && HasReceipt(s, other, n) ==> key == other)
  }

  /** Each receipt starts at the checkpoint where the one before it ended; the last one ends at the current checkpoint. */
  ghost predicate ReceiptsChained(s: State) {
    && (forall key :: HasReceipt(s, key, 1) ==> s.receipts[key].checkpointBefore == None)
    && (forall key, next, n, n' :: HasReceipt(s, key, n) && HasReceipt(s, next, n') && n' == n + 1 ==> s.receipts[next].checkpointBefore == Some(s.receipts[key].checkpointAfter))
    && (forall key :: HasReceipt(s, key, Reach(s)) ==> s.checkpoint == Some(s.receipts[key].checkpointAfter))
  }

  ghost predicate Committed(s: State) {
    OnePerNumber(s) && ReceiptsChained(s)
  }

  /** The history is that of the state's receipts. */
  lemma {:induction false} ReceiptCount(env: Env, h: seq<Entry>)
    requires Chain(env, h)
    ensures |Replay(env, h).receipts| == |h|
  {
    hide KeyOf, DigestOf, EntryReceipt, Chain;
    if h != [] {
      ChainPrefix(env, h, |h| - 1);
      ReceiptCount(env, h[..|h| - 1]);
      LastKeyIsNew(env, h);
      hide Replay;
      LastReceipt(env, h);
    }
  }

  lemma LastKeyIsNew(env: Env, h: seq<Entry>)
    requires Chain(env, h) && h != []
    ensures KeyOf(env, h[|h| - 1].request) !in Replay(env, h[..|h| - 1]).receipts
  {
    hide KeyOf, EntryReceipt, Replay, Chain, TombstonesAllowed, Tolerates, Filter;
    var n := |h| - 1;
    ChainPrefix(env, h, n);
    ReceiptsOf(env, h[..n]);
    LinkAt(env, h, n);
    assert forall i :: 0 <= i < n ==> h[..n][i] == h[i];
  }

  lemma LastReceipt(env: Env, h: seq<Entry>)
    requires h != []
    ensures var n := |h| - 1;
      Replay(env, h).receipts == Replay(env, h[..n]).receipts[KeyOf(env, h[n].request) := EntryReceipt(env, h[n])]
  {
    hide *;
    ReceiptIs(env, h[|h| - 1]);
    ReplayAdds(env, h);
  }

  lemma ReplayAdds(env: Env, h: seq<Entry>)
    requires h != []
    ensures var before, receipt := Replay(env, h[..|h| - 1]).receipts, EntryReceipt(env, h[|h| - 1]);
      Replay(env, h).receipts == before[receipt.idempotencyKey := receipt]
  {
    hide KeyOf, DigestOf, EntryReceipt, Apply;
  }

  lemma ReceiptIs(env: Env, e: Entry)
    ensures var r := EntryReceipt(env, e);
      && r.idempotencyKey == KeyOf(env, e.request) && r.requestDigest == DigestOf(env, e.request)
      && r.checkpointBefore == e.request.batch.checkpointBefore && r.checkpointAfter == e.request.batch.checkpointAfter
  {
  }

  /** Which entry a receipt is of. */
  ghost predicate Holds(env: Env, h: seq<Entry>, s: State, key: string, i: int) {
    0 <= i < |h| && KeyOf(env, h[i].request) == key && key in s.receipts && s.receipts[key] == EntryReceipt(env, h[i])
      && s.receipts[key].checkpointAfter.sequence == i + 1 && s.receipts[key].checkpointBefore == CheckpointAt(h, i)
      && s.receipts[key].checkpointAfter == h[i].request.batch.checkpointAfter && s.receipts[key].idempotencyKey == key
  }

  lemma EntryHeld(env: Env, h: seq<Entry>, i: nat)
    requires Chain(env, h) && i < |h|
    ensures Holds(env, h, Replay(env, h), KeyOf(env, h[i].request), i)
  {
    hide Replay, KeyOf, DigestOf, EntryReceipt, Chain, Tolerates, TombstonesAllowed, Filter;
    ReceiptsOf(env, h);
    ReceiptIs(env, h[i]);
    assert Linked(env, h, i) by {
      LinkAt(env, h, i);
    }
  }

  lemma LinkAt(env: Env, h: seq<Entry>, i: nat)
    requires Chain(env, h) && i < |h|
    ensures Linked(env, h, i)
  {
    hide Linked;
  }

  lemma KeyHeld(env: Env, h: seq<Entry>, key: string) returns (i: nat)
    requires Chain(env, h) && key in Replay(env, h).receipts
    ensures Holds(env, h, Replay(env, h), key, i)
  {
    hide Replay, KeyOf, EntryReceipt, Chain, Holds;
    ReceiptsOf(env, h);
    i :| 0 <= i < |h| && KeyOf(env, h[i].request) == key;
    EntryHeld(env, h, i);
  }

  /** Receipts and entries pair up. */
  ghost predicate Paired(env: Env, h: seq<Entry>, s: State) {
    && |s.receipts| == |h| && Reach(s) == |h| && s.checkpoint == CheckpointAt(h, |h|)
    && (forall i: nat :: i < |h| ==> Holds(env, h, s, KeyOf(env, h[i].request), i))
    && (forall key :: key in s.receipts ==> exists i :: Holds(env, h, s, key, i))
  }

  lemma HeldNumber(env: Env, h: seq<Entry>, s: State, key: string, i: int)
    requires Holds(env, h, s, key, i)
    ensures 0 <= i && key in s.receipts && s.receipts[key].checkpointAfter.sequence == i + 1
  {
    hide KeyOf, EntryReceipt, CheckpointAt;
  }

  lemma HoldsAt(env: Env, h: seq<Entry>, s: State, key: string, n: int)
    requires Paired(env, h, s) && HasReceipt(s, key, n)
    ensures n >= 1 && Holds(env, h, s, key, n - 1)
  {
    hide KeyOf, EntryReceipt, Reach, CheckpointAt, Holds;
    var i :| Holds(env, h, s, key, i);
    hide Paired;
    HeldNumber(env, h, s, key, i);
  }

  lemma OnceEach(env: Env, h: seq<Entry>, s: State)
    requires Paired(env, h, s)
    ensures OnePerNumber(s)
  {
    hide KeyOf, EntryReceipt, Reach;
    assert |s.receipts| == Reach(s) == |h|;
    forall n: nat | 1 <= n <= Reach(s) ensures Numbered(s, n) {
      assert Holds(env, h, s, KeyOf(env, h[n - 1].request), n - 1);
      assert HasReceipt(s, KeyOf(env, h[n - 1].request), n);
    }
    forall key, other, n | HasReceipt(s, key, n) && HasReceipt(s, other, n) ensures key == other { HeldOnce(env, h, s, key, other, n); }
    forall key | key in s.receipts ensures s.receipts[key].idempotencyKey == key && 1 <= s.receipts[key].checkpointAfter.sequence <= Reach(s) {
      var i :| Holds(env, h, s, key, i);
    }
    hide Paired, Holds, HasReceipt;
  }

  lemma HeldOnce(env: Env, h: seq<Entry>, s: State, key: string, other: string, n: int)
    requires Paired(env, h, s) && HasReceipt(s, key, n) && HasReceipt(s, other, n)
    ensures key == other
  {
    HoldsAt(env, h, s, key, n);
    HoldsAt(env, h, s, other, n);
    hide Paired, KeyOf, EntryReceipt, HasReceipt;
  }

  lemma EachFollows(env: Env, h: seq<Entry>, s: State)
    requires Paired(env, h, s)
    ensures ReceiptsChained(s)
  {
    hide KeyOf, EntryReceipt, Reach, Holds;
    assert Reach(s) == |h| && s.checkpoint == CheckpointAt(h, |h|);
    hide Paired;
    forall key | HasReceipt(s, key, 1) ensures s.receipts[key].checkpointBefore == None {
      HoldsAt(env, h, s, key, 1);
      HeldBefore(env, h, s, key, 0);
    }
    forall key | HasReceipt(s, key, Reach(s)) ensures s.checkpoint == Some(s.receipts[key].checkpointAfter) {
      HoldsAt(env, h, s, key, Reach(s));
      EndsAt(env, h, s, key);
    }
    forall key, next, n, n' | HasReceipt(s, key, n) && HasReceipt(s, next, n') && n' == n + 1
      ensures s.receipts[next].checkpointBefore == Some(s.receipts[key].checkpointAfter)
    {
      HoldsAt(env, h, s, key, n);
      HoldsAt(env, h, s, next, n');
      HeldBefore(env, h, s, next, n);
      HeldAfter(env, h, s, key, n - 1);
    }
  }

  lemma HeldBefore(env: Env, h: seq<Entry>, s: State, key: string, i: nat)
    requires Holds(env, h, s, key, i)
    ensures key in s.receipts && i < |h| && s.receipts[key].checkpointBefore == CheckpointAt(h, i)
  {
    hide KeyOf, EntryReceipt;
  }

  lemma HeldAfter(env: Env, h: seq<Entry>, s: State, key: string, i: nat)
    requires Holds(env, h, s, key, i)
    ensures key in s.receipts && i < |h| && CheckpointAt(h, i + 1) == Some(s.receipts[key].checkpointAfter)
  {
    hide KeyOf, EntryReceipt;
  }

  lemma EndsAt(env: Env, h: seq<Entry>, s: State, key: string)
    requires s.checkpoint == CheckpointAt(h, |h|) && Holds(env, h, s, key, |h| - 1)
    ensures s.checkpoint == Some(s.receipts[key].checkpointAfter)
  {
    hide KeyOf, EntryReceipt;
  }

  lemma HistoryReach(env: Env, h: seq<Entry>)
    requires Chain(env, h)
    ensures Reach(Replay(env, h)) == |h|
  {
    hide Replay, Chain;
    StateOf(env, h);
    SequenceAt(env, h);
  }

  lemma HistoryPairs(env: Env, h: seq<Entry>)
    requires Chain(env, h)
    ensures Paired(env, h, Replay(env, h))
  {
    hide Replay, KeyOf, EntryReceipt, Chain, Holds, Reach;
    var s := Replay(env, h);
    HistoryReach(env, h);
    ReceiptCount(env, h);
    StateOf(env, h);
    forall i: nat | i < |h| ensures Holds(env, h, s, KeyOf(env, h[i].request), i) { EntryHeld(env, h, i); }
    forall key | key in s.receipts ensures exists i :: Holds(env, h, s, key, i) { var i := KeyHeld(env, h, key); }
  }

  /** Every history leaves a committed state. */
  lemma HistoryCommits(env: Env, h: seq<Entry>)
    requires Chain(env, h)
    ensures Committed(Replay(env, h)) && Reach(Replay(env, h)) == |h|
  {
    hide Replay, Chain, Paired, OnePerNumber, ReceiptsChained, Reach;
    HistoryPairs(env, h);
    HistoryReach(env, h);
    OnceEach(env, h, Replay(env, h));
    EachFollows(env, h, Replay(env, h));
  }

  // ----- the scope of a history -----

  /** A checkpoint of the contract for a scope with this key. */
  ghost predicate OfScope(c: Checkpoint, scope: string) {
    c.contract == "fortemi.dataset-ingest/v1" && FirstMajor(c.schemaVersion) && ScopeKey(c.scope) == scope
  }

  /** Whatever the scope has committed is its own: every receipt's destination and checkpoint, and the current checkpoint. */
  ghost predicate OwnScope(s: State, scope: string) {
    && (forall key :: key in s.receipts ==> ScopeKey(s.receipts[key].destination) == scope && OfScope(s.receipts[key].checkpointAfter, scope))
    && (forall c :: s.checkpoint == Some(c) ==> OfScope(c, scope))
  }

  lemma {:induction false} HistoryScope(env: Env, reqs: seq<Request>, scope: string, n: nat)
    requires n <= |reqs|
    ensures forall e :: e in HistoryOf(env, reqs, scope, n) ==> ScopeOf(e.request) == scope
  {
    hide Commits, Screening, Replay, ScopeOf;
    if n > 0 { HistoryScope(env, reqs, scope, n - 1); }
  }

  lemma EntryScope(env: Env, h: seq<Entry>, scope: string, i: nat)
    requires Chain(env, h) && i < |h| && ScopeOf(h[i].request) == scope
    ensures OfScope(h[i].request.batch.checkpointAfter, scope) && ScopeKey(EntryReceipt(env, h[i]).destination) == scope
  {
    hide Chain, KeyOf, DigestOf, Tolerates, TombstonesAllowed, Filter, ScopeKey, OneScope, FirstMajor;
    LinkAt(env, h, i);
    OneScopeAgrees(h[i].request.batch.checkpointAfter.scope, h[i].request.plan.destination);
  }

  /** A history whose requests are all for one scope leaves that scope's own state. */
  lemma HistoryOwn(env: Env, h: seq<Entry>, scope: string)
    requires Chain(env, h) && forall e :: e in h ==> ScopeOf(e.request) == scope
    ensures OwnScope(Replay(env, h), scope)
  {
    hide Replay, Chain, KeyOf, EntryReceipt, OfScope, ScopeOf, ScopeKey;
    var s := Replay(env, h);
    StateOf(env, h);
    forall i: nat | i < |h| ensures OfScope(h[i].request.batch.checkpointAfter, scope) && ScopeKey(EntryReceipt(env, h[i]).destination) == scope {
      EntryScope(env, h, scope, i);
    }
    forall key | key in s.receipts ensures ScopeKey(s.receipts[key].destination) == scope && OfScope(s.receipts[key].checkpointAfter, scope) {
      var i := KeyHeld(env, h, key);
      assert Holds(env, h, s, key, i);
    }
  }

  // ----- what every interleaving guarantees -----

  /** A run of the store all of whose calls are executor attempts. */
  ghost predicate Run(env: Env, trace: seq<Action<State, Receipt, Code>>, reqs: seq<Request>) {
    Sound(env) && Reached(trace, NOTHING).Some? && Issued(env, reqs, Reached(trace, NOTHING).value.calls)
  }

  /** The committed state of a scope after a run. */
  ghost function StateAfter(env: Env, trace: seq<Action<State, Receipt, Code>>, reqs: seq<Request>, scope: string): State
    requires Run(env, trace, reqs)
  {
    Current(Reached(trace, NOTHING).value, scope, NOTHING)
  }

  /** How call `i` of a run ended, once its transaction is done. */
  ghost function Ended(env: Env, trace: seq<Action<State, Receipt, Code>>, reqs: seq<Request>, i: nat): Option<Outcome<State, Receipt, Code>>
    requires Run(env, trace, reqs) && i < |reqs|
  {
    var c := Reached(trace, NOTHING).value.calls[i];
    if c.phase.Done? then Some(c.phase.outcome) else None
  }

  /**
    Committed history: after any interleaving of attempts, a scope holds the state of a history of accepted batches,
    with exactly one receipt per sequence number, and its records are the accepted mutations applied in that order; its
    receipts and its checkpoint are the scope's own.
   */
  lemma CommittedHistory(env: Env, trace: seq<Action<State, Receipt, Code>>, reqs: seq<Request>, scope: string)
    returns (n: nat)
    requires Run(env, trace, reqs)
    ensures n <= |reqs| && Boundary(Reached(trace, NOTHING).value.calls, scope, n)
    ensures var h := HistoryOf(env, reqs, scope, n);
      Chain(env, h) && StateAfter(env, trace, reqs, scope) == Replay(env, h) && Committed(Replay(env, h)) && Reach(Replay(env, h)) == |h|
    ensures OwnScope(StateAfter(env, trace, reqs, scope), scope)
  {
    hide Reached, Serial, OwnScope, Boundary, Current, SerialOutcome, HistoryOf, Replay, Chain, Committed, Reach, Sound, IssuedAs;
    n := Serializable(trace, NOTHING, scope);
    var st := Reached(trace, NOTHING).value;
    BoundaryInRange(st.calls, scope, n);
    SerialIsHistory(env, reqs, st.calls, scope, n);
    HistoryChains(env, reqs, scope, n);
    HistoryCommits(env, HistoryOf(env, reqs, scope, n));
    HistoryScope(env, reqs, scope, n);
    hide ScopeOf;
    HistoryOwn(env, HistoryOf(env, reqs, scope, n), scope);
  }

  lemma BoundaryInRange(calls: Calls, scope: string, n: nat)
    requires Boundary(calls, scope, n)
    ensures n <= |calls|
    ensures forall i :: 0 <= i < |calls| && calls[i].scope == scope && calls[i].phase.Done? ==> i < n
  {
  }

  /** A receipt, once in a scope's state, stays as it is. */
  lemma ReceiptsStay(env: Env, h: seq<Entry>, h': seq<Entry>, key: string)
    requires Chain(env, h') && h <= h' && key in Replay(env, h).receipts
    ensures key in Replay(env, h').receipts && Replay(env, h').receipts[key] == Replay(env, h).receipts[key]
  {
    hide Replay, KeyOf, EntryReceipt, Chain, Holds;
    assert h == h'[..|h|];
    ChainPrefix(env, h', |h|);
    var i := KeyHeld(env, h, key);
    HeldReceipt(env, h, Replay(env, h), key, i);
    EntryHeld(env, h', i);
    HeldReceipt(env, h', Replay(env, h'), key, i);
  }

  lemma HeldReceipt(env: Env, h: seq<Entry>, s: State, key: string, i: nat)
    requires Holds(env, h, s, key, i)
    ensures i < |h| && KeyOf(env, h[i].request) == key && key in s.receipts && s.receipts[key] == EntryReceipt(env, h[i])
  {
    hide KeyOf, EntryReceipt;
  }

  /** How call `i` ended is how its operation ends on its own after the history before it. */
  lemma EndedAlone(env: Env, trace: seq<Action<State, Receipt, Code>>, reqs: seq<Request>, i: nat)
    requires Run(env, trace, reqs) && i < |reqs| && Ended(env, trace, reqs, i).Some?
    ensures var h := HistoryOf(env, reqs, ScopeOf(reqs[i]), i);
      Ended(env, trace, reqs, i).value == Outcomes(IngestOperation(env, reqs[i]), 0, Replay(env, h))
  {
    hide Reached, Serial, Boundary, Current, HistoryOf, Replay, Sound, IngestOperation, Outcomes, ScopeOf;
    var scope := ScopeOf(reqs[i]);
    var n := Serializable(trace, NOTHING, scope);
    var calls := Reached(trace, NOTHING).value.calls;
    assert SerialOutcome(calls, i, NOTHING);
    assert IssuedAs(env, reqs[i], calls[i]);
    SerialIsHistory(env, reqs, calls, scope, i);
  }

  /** A committed answer is the receipt of the very request, and the scope still resolves the request to it. */
  ghost predicate Settled(env: Env, q: Request, r: Receipt, s: State) {
    r.requestDigest == DigestOf(env, q) && Resolve(env, q, s) == Some(r)
  }

  lemma CommitSettles(env: Env, reqs: seq<Request>, i: nat, n: nat, s': State, r: Receipt)
    requires Sound(env) && i < n <= |reqs|
    requires Outcomes(IngestOperation(env, reqs[i]), 0, Replay(env, HistoryOf(env, reqs, ScopeOf(reqs[i]), i))) == Commit(s', r)
    ensures Settled(env, reqs[i], r, Replay(env, HistoryOf(env, reqs, ScopeOf(reqs[i]), n)))
  {
    hide Replay, Sound, KeyOf, DigestOf, Extend, Commits, Outcomes, IngestOperation, ScopeOf, Chain;
    var q, scope := reqs[i], ScopeOf(reqs[i]);
    var h := HistoryOf(env, reqs, scope, i);
    RunAlone(env, q, Replay(env, h));
    AttemptExtends(env, h, q);
    assert HistoryOf(env, reqs, scope, i + 1) == Extend(env, h, q);
    assert Replay(env, Extend(env, h, q)) == s';
    HistoryGrows(env, reqs, scope, i + 1, n);
    HistoryChains(env, reqs, scope, n);
    ReceiptsStay(env, Extend(env, h, q), HistoryOf(env, reqs, scope, n), KeyOf(env, q));
  }

  /** Every call that commits returns the receipt of its own request, and from then on the scope resolves it to that receipt. */
  lemma CommittedAnswers(env: Env, trace: seq<Action<State, Receipt, Code>>, reqs: seq<Request>, i: nat)
    requires Run(env, trace, reqs) && i < |reqs| && Ended(env, trace, reqs, i).Some? && Ended(env, trace, reqs, i).value.Commit?
    ensures Settled(env, reqs[i], Ended(env, trace, reqs, i).value.value, StateAfter(env, trace, reqs, ScopeOf(reqs[i])))
  {
    hide Reached, Current, HistoryOf, Replay, Sound, IngestOperation, Outcomes, ScopeOf, Settled, Chain, Committed, Reach, Boundary;
    var scope := ScopeOf(reqs[i]);
    EndedAlone(env, trace, reqs, i);
    var n := CommittedHistory(env, trace, reqs, scope);
    var calls := Reached(trace, NOTHING).value.calls;
    assert IssuedAs(env, reqs[i], calls[i]);
    BoundaryInRange(calls, scope, n);
    var o := Ended(env, trace, reqs, i).value;
    CommitSettles(env, reqs, i, n, o.state, o.value);
  }

  ghost predicate SameContent(q: Request, q': Request) {
    SameRequest(q.plan, q.batch, q'.plan, q'.batch)
  }

  /** At most once: no two accepted batches of a history have the same content. */
  lemma AtMostOnce(env: Env, h: seq<Entry>, i: nat, j: nat)
    requires Chain(env, h) && i < |h| && j < |h| && SameContent(h[i].request, h[j].request)
    ensures i == j
  {
    hide Chain, KeyOf, Tolerates, TombstonesAllowed, Filter, SameRequest;
    SameRequestSameSequence(h[i].request.plan, h[i].request.batch, h[j].request.plan, h[j].request.batch);
    LinkAt(env, h, i);
    LinkAt(env, h, j);
  }

  lemma SameDigest(env: Env, q: Request, q': Request)
    requires Sound(env)
    ensures DigestOf(env, q) == DigestOf(env, q') <==> SameContent(q, q')
  {
    hide RequestDigest, SameRequest, Sound;
    RequestDigestsAgree(env, q.plan, q.batch, q'.plan, q'.batch);
  }

  /** Two settled requests with the same content have the same receipt. */
  lemma SettledSame(env: Env, h: seq<Entry>, q: Request, q': Request, r: Receipt, r': Receipt)
    requires Sound(env) && Chain(env, h) && SameContent(q, q')
    requires Settled(env, q, r, Replay(env, h)) && Settled(env, q', r', Replay(env, h))
    ensures r == r'
  {
    hide Sound, Chain, Replay, KeyOf, DigestOf, Holds, EntryReceipt, SameContent;
    var s := Replay(env, h);
    var i := KeyHeld(env, h, KeyOf(env, q));
    var j := KeyHeld(env, h, KeyOf(env, q'));
    HeldReceipt(env, h, s, KeyOf(env, q), i);
    HeldReceipt(env, h, s, KeyOf(env, q'), j);
    ReceiptIs(env, h[i]);
    ReceiptIs(env, h[j]);
    SameDigest(env, q, q');
    SameDigest(env, h[i].request, h[j].request);
    AtMostOnce(env, h, i, j);
  }

  /** Every committing call for the same content, in whatever order and however often retried, returns the same receipt. */
  lemma SameAnswer(env: Env, trace: seq<Action<State, Receipt, Code>>, reqs: seq<Request>, i: nat, j: nat)
    requires Run(env, trace, reqs) && i < |reqs| && j < |reqs| && SameContent(reqs[i], reqs[j])
    requires Ended(env, trace, reqs, i).Some? && Ended(env, trace, reqs, i).value.Commit?
    requires Ended(env, trace, reqs, j).Some? && Ended(env, trace, reqs, j).value.Commit?
    ensures Ended(env, trace, reqs, i).value.value == Ended(env, trace, reqs, j).value.value
  {
    hide Reached, Current, HistoryOf, Replay, Sound, Settled, Chain, Committed, Reach, Boundary, Ended, StateAfter, SameRequest, ScopeKey;
    CommittedAnswers(env, trace, reqs, i);
    CommittedAnswers(env, trace, reqs, j);
    SameRequestSameDestination(reqs[i].plan, reqs[i].batch, reqs[j].plan, reqs[j].batch);
    var scope := ScopeOf(reqs[i]);
    var n := CommittedHistory(env, trace, reqs, scope);
    SettledSame(env, HistoryOf(env, reqs, scope, n), reqs[i], reqs[j],
      Ended(env, trace, reqs, i).value.value, Ended(env, trace, reqs, j).value.value);
  }

  /** The call's operation, run where its turn came, left the scope as it found it. */
  ghost predicate LeftAlone(env: Env, reqs: seq<Request>, i: nat)
    requires i < |reqs|
  {
    HistoryOf(env, reqs, ScopeOf(reqs[i]), i + 1) == HistoryOf(env, reqs, ScopeOf(reqs[i]), i)
  }

  /**
    A call that fails, before or after its commit, either left the scope as it found it or `resolveAmbiguousCommit`
    returns, from then on, the receipt its request was committed under.
   */
  lemma FailedCalls(env: Env, trace: seq<Action<State, Receipt, Code>>, reqs: seq<Request>, i: nat)
    requires Run(env, trace, reqs) && i < |reqs| && Ended(env, trace, reqs, i).Some?
    requires Answer(reqs[i], Ended(env, trace, reqs, i).value).Err?
    ensures LeftAlone(env, reqs, i) || exists r :: Settled(env, reqs[i], r, StateAfter(env, trace, reqs, ScopeOf(reqs[i])))
  {
    hide Reached, Current, Replay, Sound, Settled, Chain, Ended, StateAfter, ScopeOf, Commits, IngestOperation, Outcomes;
    var o := Ended(env, trace, reqs, i).value;
    if o.Commit? {
      CommittedAnswers(env, trace, reqs, i);
    } else {
      var h := HistoryOf(env, reqs, ScopeOf(reqs[i]), i);
      EndedAlone(env, trace, reqs, i);
      RunAlone(env, reqs[i], Replay(env, h));
      assert HistoryOf(env, reqs, ScopeOf(reqs[i]), i + 1) == Extend(env, h, reqs[i]);
    }
  }
}
