/**
  The transactional store as a system of steps: each call of `transact` queues behind its scope's predecessor, copies
  the scope's state into a draft, runs its operation stretch by stretch and finally commits or aborts.
 */
module IngestStore {
  import opened Wrappers

  /** What one stretch of an operation between two awaits leads to. */
  datatype Progress<S, R, E> = Going(draft: S) | Returned(final: S, value: R) | Threw(error: E)

  /** An operation: its stretches in order, and its value when it runs off the end. */
  datatype Operation<!S, R, E> = Operation(stretches: seq<S -> Progress<S, R, E>>, result: S -> R)

  datatype Outcome<S, R, E> = Commit(state: S, value: R) | Abort(error: E)

  datatype Phase<S, R, E> = Waiting | Running(next: nat, draft: S) | Finished(outcome: Outcome<S, R, E>) | Done(outcome: Outcome<S, R, E>)

  /** One call of `transact`; `settled` says that its queued promise has resolved. */
  datatype Call<!S, R, E> = Call(scope: string, operation: Operation<S, R, E>, predecessor: Option<nat>, phase: Phase<S, R, E>, settled: bool)

  /** `scopes` and `queues` are the store's two maps; a queue entry is the latest call's index. */
  datatype Store<!S, R, E> = Store(scopes: map<string, S>, queues: map<string, nat>, calls: seq<Call<S, R, E>>)

  datatype Action<!S, R, E> =
    | Arrive(scope: string, operation: Operation<S, R, E>)
    | Acquire(i: nat)
    | Advance(i: nat)
    | Conclude(i: nat)
    | Settle(i: nat)

  // ----- operations on their own -----

  /** The outcome of the remaining stretches on a draft. */
  function Outcomes<S, R, E>(op: Operation<S, R, E>, next: nat, draft: S): Outcome<S, R, E>
    decreases |op.stretches| - next
  {
    if next >= |op.stretches| then Commit(draft, op.result(draft))
    else
      match op.stretches[next](draft)
      case Going(d) => Outcomes(op, next + 1, d)
      case Returned(d, v) => Commit(d, v)
      case Threw(e) => Abort(e)
  }

  /** The operation run alone: the state it leaves. */
  function After<S, R, E>(op: Operation<S, R, E>, s: S): S {
    match Outcomes(op, 0, s)
    case Commit(d, _) => d
    case Abort(_) => s
  }

  // ----- steps -----

  function Current<S, R, E>(st: Store<S, R, E>, scope: string, empty: S): S {
    if scope in st.scopes then st.scopes[scope] else empty
  }

  predicate PredecessorSettled<S, R, E>(st: Store<S, R, E>, c: Call<S, R, E>) {
    match c.predecessor
    case None => true
    case Some(p) => p < |st.calls| && st.calls[p].settled
  }

  predicate Enabled<S, R, E>(st: Store<S, R, E>, a: Action<S, R, E>) {
    match a
    case Arrive(_, _) => true
    case Acquire(i) => i < |st.calls| && st.calls[i].phase.Waiting? && PredecessorSettled(st, st.calls[i])
    case Advance(i) => i < |st.calls| && st.calls[i].phase.Running?
    case Conclude(i) => i < |st.calls| && st.calls[i].phase.Finished?
    case Settle(i) => i < |st.calls| && st.calls[i].phase.Done? && !st.calls[i].settled && PredecessorSettled(st, st.calls[i])
  }

  function WithPhase<S, R, E>(st: Store<S, R, E>, i: nat, p: Phase<S, R, E>): Store<S, R, E>
    requires i < |st.calls|
  {
    st.(calls := st.calls[i := st.calls[i].(phase := p)])
  }

  function Step<S, R, E>(st: Store<S, R, E>, a: Action<S, R, E>, empty: S): Store<S, R, E>
    requires Enabled(st, a)
  {
    match a
    case Arrive(scope, op) =>
      var predecessor := if scope in st.queues then Some(st.queues[scope]) else None;
      st.(queues := st.queues[scope := |st.calls|], calls := st.calls + [Call(scope, op, predecessor, Waiting, false)])
    case Acquire(i) =>
      WithPhase(st, i, Running(0, Current(st, st.calls[i].scope, empty)))
    case Advance(i) =>
      var c := st.calls[i];
      var phase :=
        if c.phase.next >= |c.operation.stretches| then Finished(Commit(c.phase.draft, c.operation.result(c.phase.draft)))
        else match c.operation.stretches[c.phase.next](c.phase.draft)
          case Going(d) => Running(c.phase.next + 1, d)
          case Returned(d, v) => Finished(Commit(d, v))
          case Threw(e) => Finished(Abort(e));
      WithPhase(st, i, phase)
    case Conclude(i) =>
      var c := st.calls[i];
      var scopes := match c.phase.outcome case Commit(d, _) => st.scopes[c.scope := d] case Abort(_) => st.scopes;
      var queues := if c.scope in st.queues && st.queues[c.scope] == i then st.queues - {c.scope} else st.queues;
      WithPhase(st, i, Done(c.phase.outcome)).(scopes := scopes, queues := queues)
    case Settle(i) =>
      st.(calls := st.calls[i := st.calls[i].(settled := true)])
  }

  /** The store after a trace of steps from the empty store: any interleaving of any number of calls. */
  function Reached<S, R, E>(trace: seq<Action<S, R, E>>, empty: S): Option<Store<S, R, E>>
    decreases |trace|
  {
    if trace == [] then Some(Store(map[], map[], []))
    else
      var before := Reached(trace[..|trace| - 1], empty);
      if before.None? || !Enabled(before.value, trace[|trace| - 1]) then None
      else Some(Step(before.value, trace[|trace| - 1], empty))
  }

  // ----- the serial reference -----

  /** The scope's state after its calls among the first `n`, one after another in call order. */
  function Serial<S, R, E>(calls: seq<Call<S, R, E>>, scope: string, n: nat, empty: S): S
    requires n <= |calls|
  {
    if n == 0 then empty
    else
      var before := Serial(calls, scope, n - 1, empty);
      if calls[n - 1].scope == scope then After(calls[n - 1].operation, before) else before
  }

  predicate SameScope<S, R, E>(calls: seq<Call<S, R, E>>, i: int, j: int) {
    0 <= i < |calls| && 0 <= j < |calls| && calls[i].scope == calls[j].scope
  }

  predicate EarlierDone<S, R, E>(calls: seq<Call<S, R, E>>, i: int) {
    forall j :: 0 <= j < i && SameScope(calls, i, j) ==> calls[j].phase.Done?
  }

  // ----- the invariant -----

  /** Each call waits for the one before it in its scope, or all of those are done. */
  ghost predicate Chained<S, R, E>(calls: seq<Call<S, R, E>>) {
    forall i :: 0 <= i < |calls| ==>
      match calls[i].predecessor
      case None => EarlierDone(calls, i)
      case Some(p) => p < i && SameScope(calls, i, p) && forall j :: p < j < i ==> !SameScope(calls, i, j)
  }

  /** A call past its wait, or settled, has every earlier call of its scope done. */
  ghost predicate Ordered<S, R, E>(calls: seq<Call<S, R, E>>) {
    forall i :: 0 <= i < |calls| ==>
      && (!calls[i].phase.Waiting? ==> EarlierDone(calls, i))
      && (calls[i].settled ==> calls[i].phase.Done?)
      && (!calls[i].phase.Waiting? && calls[i].predecessor.Some? && calls[i].predecessor.value < |calls| ==> calls[calls[i].predecessor.value].settled)
  }

  ghost predicate IsTail<S, R, E>(calls: seq<Call<S, R, E>>, scope: string, t: nat) {
    t < |calls| && calls[t].scope == scope && !calls[t].phase.Done? && forall j :: t < j < |calls| ==> calls[j].scope != scope
  }

  /** A queue entry is its scope's latest call and not done; without an entry every call of the scope is done. */
  ghost predicate Queued<S, R, E>(st: Store<S, R, E>) {
    && (forall s :: s in st.queues ==> IsTail(st.calls, s, st.queues[s]))
    && (forall i :: 0 <= i < |st.calls| && st.calls[i].scope !in st.queues ==> st.calls[i].phase.Done?)
  }

  /** The call's phase agrees with running its operation alone on the state its predecessors leave. */
  ghost predicate OnTrack<S, R, E>(calls: seq<Call<S, R, E>>, i: nat, empty: S)
    requires i < |calls|
  {
    var c := calls[i];
    var alone := Outcomes(c.operation, 0, Serial(calls, c.scope, i, empty));
    match c.phase
    case Waiting => true
    case Running(k, d) => Outcomes(c.operation, k, d) == alone
    case Finished(o) => o == alone
    case Done(o) => o == alone
  }

  /** Exactly the scope's calls before `n` are done. */
  ghost predicate Boundary<S, R, E>(calls: seq<Call<S, R, E>>, scope: string, n: nat) {
    n <= |calls| && forall j :: 0 <= j < |calls| && calls[j].scope == scope ==> (calls[j].phase.Done? <==> j < n)
  }

  /** A scope holds what its done calls leave when run serially. */
  ghost predicate Stored<S, R, E>(st: Store<S, R, E>, empty: S) {
    forall s, n :: Boundary(st.calls, s, n) ==> Current(st, s, empty) == Serial(st.calls, s, n, empty)
  }

  ghost predicate Tracked<S, R, E>(calls: seq<Call<S, R, E>>, empty: S) {
    forall i :: 0 <= i < |calls| ==> OnTrack(calls, i, empty)
  }

  ghost predicate Inv<S, R, E>(st: Store<S, R, E>, empty: S) {
    Chained(st.calls) && Ordered(st.calls) && Queued(st) && Tracked(st.calls, empty) && Stored(st, empty)
  }

  // ----- every step keeps it -----

  /** Same calls as far as the serial reference is concerned. */
  ghost predicate SameOperations<S, R, E>(a: seq<Call<S, R, E>>, b: seq<Call<S, R, E>>, n: nat) {
    n <= |a| && n <= |b| && forall i :: 0 <= i < n ==> a[i].scope == b[i].scope && a[i].operation == b[i].operation
  }

  lemma {:induction false} SerialSame<S, R, E>(a: seq<Call<S, R, E>>, b: seq<Call<S, R, E>>, scope: string, n: nat, empty: S)
    requires SameOperations(a, b, n)
    ensures Serial(a, scope, n, empty) == Serial(b, scope, n, empty)
  {
    if n > 0 { SerialSame(a, b, scope, n - 1, empty); }
  }

  lemma {:induction false} SerialSkips<S, R, E>(calls: seq<Call<S, R, E>>, scope: string, m: nat, n: nat, empty: S)
    requires m <= n <= |calls| && forall j :: m <= j < n ==> calls[j].scope != scope
    ensures Serial(calls, scope, n, empty) == Serial(calls, scope, m, empty)
  {
    if m < n { SerialSkips(calls, scope, m, n - 1, empty); }
  }

  /** Before an undone call whose predecessors are done lies the boundary of its scope. */
  lemma BoundaryAt<S, R, E>(calls: seq<Call<S, R, E>>, i: nat)
    requires i < |calls| && Ordered(calls) && EarlierDone(calls, i) && !calls[i].phase.Done?
    ensures Boundary(calls, calls[i].scope, i)
  {
    forall j | 0 <= j < |calls| && calls[j].scope == calls[i].scope ensures calls[j].phase.Done? <==> j < i {
      assert SameScope(calls, i, j) && SameScope(calls, j, i);
      assert calls[j].phase.Done? ==> EarlierDone(calls, j);
    }
  }

  lemma AcquireIsOrdered<S, R, E>(calls: seq<Call<S, R, E>>, i: nat)
    requires i < |calls| && Chained(calls) && Ordered(calls)
    requires calls[i].predecessor.Some? ==> calls[i].predecessor.value < |calls| && calls[calls[i].predecessor.value].settled
    ensures EarlierDone(calls, i)
  {
    if calls[i].predecessor.Some? {
      var p := calls[i].predecessor.value;
      assert EarlierDone(calls, p);
      forall j | 0 <= j < i && SameScope(calls, i, j) ensures calls[j].phase.Done? {
        assert SameScope(calls, p, j);
      }
    }
  }

  /** The same calls, none of which has become done or undone. */
  ghost predicate SameDone<S, R, E>(calls: seq<Call<S, R, E>>, calls': seq<Call<S, R, E>>) {
    |calls'| == |calls| && SameOperations(calls, calls', |calls|) && forall k :: 0 <= k < |calls| ==>
      calls'[k].predecessor == calls[k].predecessor && (calls'[k].phase.Done? <==> calls[k].phase.Done?)
  }

  lemma EarlierSame<S, R, E>(calls: seq<Call<S, R, E>>, calls': seq<Call<S, R, E>>, k: nat)
    requires SameDone(calls, calls') && k < |calls|
    ensures EarlierDone(calls', k) <==> EarlierDone(calls, k)
  {
    forall j ensures SameScope(calls', k, j) <==> SameScope(calls, k, j) {}
  }

  lemma StoredSame<S, R, E>(st: Store<S, R, E>, st': Store<S, R, E>, empty: S)
    requires Stored(st, empty) && SameDone(st.calls, st'.calls) && st'.scopes == st.scopes
    ensures Stored(st', empty)
  {
    hide Serial;
    forall s, n: nat | Boundary(st'.calls, s, n) ensures Current(st', s, empty) == Serial(st'.calls, s, n, empty) {
      assert forall j :: 0 <= j < |st.calls| ==> st'.calls[j].scope == st.calls[j].scope;
      assert Boundary(st.calls, s, n);
      SerialSame(st'.calls, st.calls, s, n, empty);
    }
  }

  lemma QueuedSame<S, R, E>(st: Store<S, R, E>, st': Store<S, R, E>)
    requires Queued(st) && SameDone(st.calls, st'.calls) && st'.queues == st.queues
    ensures Queued(st')
  {
    forall s | s in st'.queues ensures IsTail(st'.calls, s, st'.queues[s]) { assert IsTail(st.calls, s, st.queues[s]); }
  }

  /** A call whose phase did not change stays on track. */
  lemma TrackSame<S, R, E>(calls: seq<Call<S, R, E>>, calls': seq<Call<S, R, E>>, k: nat, empty: S)
    requires k < |calls| <= |calls'| && SameOperations(calls, calls', |calls|) && calls'[k].phase == calls[k].phase
    requires OnTrack(calls, k, empty)
    ensures OnTrack(calls', k, empty)
  {
    hide Outcomes, Serial;
    SerialSame(calls', calls, calls[k].scope, k, empty);
  }

  /** Moving one call's phase forward, short of the commit, keeps everything but its own track. */
  lemma PhaseForward<S, R, E>(st: Store<S, R, E>, i: nat, phase: Phase<S, R, E>, empty: S)
    requires Inv(st, empty) && i < |st.calls| && !st.calls[i].phase.Done? && !phase.Done? && !phase.Waiting?
    requires EarlierDone(st.calls, i) && PredecessorSettled(st, st.calls[i])
    requires OnTrack(WithPhase(st, i, phase).calls, i, empty)
    ensures Inv(WithPhase(st, i, phase), empty)
  {
    hide Stored, Queued, Chained, EarlierDone, OnTrack;
    var st' := WithPhase(st, i, phase);
    var calls, calls' := st.calls, st'.calls;
    assert SameDone(calls, calls');
    ChainedSame(calls, calls');
    StoredSame(st, st', empty);
    QueuedSame(st, st');
    forall k | 0 <= k < |calls| ensures EarlierDone(calls', k) <==> EarlierDone(calls, k) { EarlierSame(calls, calls', k); }
    forall k | 0 <= k < |calls| ensures OnTrack(calls', k, empty) { if k != i { TrackSame(calls, calls', k, empty); } }
  }

  lemma ChainedSame<S, R, E>(calls: seq<Call<S, R, E>>, calls': seq<Call<S, R, E>>)
    requires Chained(calls) && SameOperations(calls, calls', |calls|) && |calls'| == |calls|
    requires forall k :: 0 <= k < |calls| ==> calls'[k].predecessor == calls[k].predecessor && (calls[k].phase.Done? ==> calls'[k].phase.Done?)
    ensures Chained(calls')
  {
    forall k | 0 <= k < |calls|
      ensures match calls'[k].predecessor
              case None => EarlierDone(calls', k)
              case Some(p) => p < k && SameScope(calls', k, p) && forall j :: p < j < k ==> !SameScope(calls', k, j)
    {
      forall j ensures SameScope(calls', k, j) <==> SameScope(calls, k, j) {}
    }
  }

  lemma AcquireKeeps<S, R, E>(st: Store<S, R, E>, i: nat, empty: S)
    requires Inv(st, empty) && Enabled(st, Acquire(i))
    ensures Inv(Step(st, Acquire(i), empty), empty)
  {
    hide After, Outcomes, Tracked;
    AcquireIsOrdered(st.calls, i);
    BoundaryAt(st.calls, i);
    var c := st.calls[i];
    var phase := Running(0, Current(st, c.scope, empty));
    SerialSame(WithPhase(st, i, phase).calls, st.calls, c.scope, i, empty);
    PhaseForward(st, i, phase, empty);
  }

  /** Where a stretch leads, the operation run alone leads too. */
  lemma AdvanceLeads<S, R, E>(st: Store<S, R, E>, i: nat, empty: S) returns (phase: Phase<S, R, E>)
    requires Enabled(st, Advance(i))
    ensures Step(st, Advance(i), empty) == WithPhase(st, i, phase)
    ensures var c := st.calls[i];
      match phase
      case Running(k, d) => Outcomes(c.operation, k, d) == Outcomes(c.operation, c.phase.next, c.phase.draft)
      case Finished(o) => o == Outcomes(c.operation, c.phase.next, c.phase.draft)
      case _ => false
  {
    phase := Step(st, Advance(i), empty).calls[i].phase;
  }

  lemma AdvanceKeeps<S, R, E>(st: Store<S, R, E>, i: nat, empty: S)
    requires Inv(st, empty) && Enabled(st, Advance(i))
    ensures Inv(Step(st, Advance(i), empty), empty)
  {
    hide After, Serial, Step, Outcomes, Stored, Queued;
    var c := st.calls[i];
    assert OnTrack(st.calls, i, empty) && EarlierDone(st.calls, i) && PredecessorSettled(st, c);
    hide Chained;
    var phase := AdvanceLeads(st, i, empty);
    SerialSame(WithPhase(st, i, phase).calls, st.calls, c.scope, i, empty);
    assert OnTrack(WithPhase(st, i, phase).calls, i, empty);
    hide OnTrack;
    PhaseForward(st, i, phase, empty);
  }

  lemma SettleKeeps<S, R, E>(st: Store<S, R, E>, i: nat, empty: S)
    requires Inv(st, empty) && Enabled(st, Settle(i))
    ensures Inv(Step(st, Settle(i), empty), empty)
  {
    hide Stored, Queued, Chained, EarlierDone, OnTrack;
    var st' := Step(st, Settle(i), empty);
    var calls, calls' := st.calls, st'.calls;
    assert SameDone(calls, calls');
    ChainedSame(calls, calls');
    StoredSame(st, st', empty);
    QueuedSame(st, st');
    forall k | 0 <= k < |calls| ensures EarlierDone(calls', k) <==> EarlierDone(calls, k) { EarlierSame(calls, calls', k); }
    forall k | 0 <= k < |calls| ensures OnTrack(calls', k, empty) { TrackSame(calls, calls', k, empty); }
  }

  /** The calls after an arrival: the same ones and a waiting one. */
  ghost predicate Longer<S, R, E>(calls: seq<Call<S, R, E>>, calls': seq<Call<S, R, E>>) {
    |calls'| == |calls| + 1 && calls'[..|calls|] == calls && calls'[|calls|].phase.Waiting? && !calls'[|calls|].settled
  }

  lemma EarlierLonger<S, R, E>(calls: seq<Call<S, R, E>>, calls': seq<Call<S, R, E>>, k: nat)
    requires Longer(calls, calls') && k < |calls|
    ensures calls'[k] == calls[k] && (EarlierDone(calls', k) <==> EarlierDone(calls, k))
  {
    assert forall j :: 0 <= j < |calls| ==> calls'[j] == calls'[..|calls|][j];
    forall j | 0 <= j < |calls| ensures SameScope(calls', k, j) <==> SameScope(calls, k, j) {}
  }

  lemma ArriveOrdered<S, R, E>(calls: seq<Call<S, R, E>>, calls': seq<Call<S, R, E>>)
    requires Longer(calls, calls') && Ordered(calls) && Chained(calls)
    ensures Ordered(calls')
  {
    hide EarlierDone;
    forall k | 0 <= k < |calls|
      ensures calls'[k] == calls[k] && (EarlierDone(calls', k) <==> EarlierDone(calls, k))
    {
      EarlierLonger(calls, calls', k);
    }
  }

  lemma ArriveChained<S, R, E>(st: Store<S, R, E>, scope: string, op: Operation<S, R, E>, empty: S)
    requires Chained(st.calls) && Queued(st)
    ensures Chained(Step(st, Arrive(scope, op), empty).calls)
  {
    var calls, calls' := st.calls, Step(st, Arrive(scope, op), empty).calls;
    forall k | 0 <= k < |calls'|
      ensures match calls'[k].predecessor
              case None => EarlierDone(calls', k)
              case Some(p) => p < k && SameScope(calls', k, p) && forall j :: p < j < k ==> !SameScope(calls', k, j)
    {
      if k < |calls| {
        EarlierLonger(calls, calls', k);
        forall j | 0 <= j < |calls| ensures SameScope(calls', k, j) <==> SameScope(calls, k, j) {}
      }
    }
  }

  lemma ArriveStored<S, R, E>(st: Store<S, R, E>, scope: string, op: Operation<S, R, E>, empty: S)
    requires Stored(st, empty)
    ensures Stored(Step(st, Arrive(scope, op), empty), empty)
  {
    var st' := Step(st, Arrive(scope, op), empty);
    var calls, calls', m := st.calls, st'.calls, |st.calls|;
    forall s, n: nat | Boundary(calls', s, n) ensures Current(st', s, empty) == Serial(calls', s, n, empty) {
      var n' := if n <= m then n else m;
      SerialSame(calls', calls, s, n', empty);
      ArriveBoundary(calls, calls', s, n);
      hide Boundary, After;
      assert n > m ==> calls'[m].scope != s;
    }
  }

  /** A boundary after an arrival is one before it, and takes the new call in only if it is of another scope. */
  lemma ArriveBoundary<S, R, E>(calls: seq<Call<S, R, E>>, calls': seq<Call<S, R, E>>, s: string, n: nat)
    requires Longer(calls, calls') && Boundary(calls', s, n)
    ensures Boundary(calls, s, if n <= |calls| then n else |calls|)
    ensures n > |calls| ==> calls'[|calls|].scope != s
  {
    assert forall j :: 0 <= j < |calls| ==> calls'[j] == calls'[..|calls|][j];
  }

  lemma ArriveTracked<S, R, E>(calls: seq<Call<S, R, E>>, calls': seq<Call<S, R, E>>, empty: S)
    requires Longer(calls, calls') && Tracked(calls, empty)
    ensures Tracked(calls', empty)
  {
    hide OnTrack;
    assert forall j :: 0 <= j < |calls| ==> calls'[j] == calls'[..|calls|][j];
    forall k | 0 <= k < |calls'| ensures OnTrack(calls', k, empty) {
      if k < |calls| {
        assert OnTrack(calls, k, empty);
        TrackSame(calls, calls', k, empty);
      } else {
        WaitingOnTrack(calls', k, empty);
      }
    }
  }

  lemma WaitingOnTrack<S, R, E>(calls: seq<Call<S, R, E>>, k: nat, empty: S)
    requires k < |calls| && calls[k].phase.Waiting?
    ensures OnTrack(calls, k, empty)
  {
    hide Outcomes, Serial;
  }

  lemma ArriveQueued<S, R, E>(st: Store<S, R, E>, scope: string, op: Operation<S, R, E>, empty: S)
    requires Queued(st)
    ensures Queued(Step(st, Arrive(scope, op), empty))
  {
    var st' := Step(st, Arrive(scope, op), empty);
    forall s | s in st'.queues ensures IsTail(st'.calls, s, st'.queues[s]) {
      if s != scope { assert IsTail(st.calls, s, st.queues[s]); }
    }
  }

  lemma ArriveKeeps<S, R, E>(st: Store<S, R, E>, scope: string, op: Operation<S, R, E>, empty: S)
    requires Inv(st, empty)
    ensures Inv(Step(st, Arrive(scope, op), empty), empty)
  {
    hide Chained, Ordered, Queued, Tracked, Stored;
    var st' := Step(st, Arrive(scope, op), empty);
    assert st'.calls[..|st.calls|] == st.calls;
    ArriveChained(st, scope, op, empty);
    ArriveOrdered(st.calls, st'.calls);
    ArriveQueued(st, scope, op, empty);
    ArriveTracked(st.calls, st'.calls, empty);
    ArriveStored(st, scope, op, empty);
  }

  /** The commit: the scope moves to what the call's operation leaves when run alone. */
  lemma ConcludeCurrent<S, R, E>(st: Store<S, R, E>, i: nat, empty: S)
    requires Inv(st, empty) && Enabled(st, Conclude(i))
    ensures Current(Step(st, Conclude(i), empty), st.calls[i].scope, empty) == Serial(st.calls, st.calls[i].scope, i + 1, empty)
  {
    hide Outcomes, Chained, Queued, EarlierDone, Boundary;
    BoundaryAt(st.calls, i);
    assert OnTrack(st.calls, i, empty);
  }

  /** Up to a later boundary of its scope nothing runs after it. */
  lemma ConcludeLast<S, R, E>(st: Store<S, R, E>, i: nat, empty: S, n: nat)
    requires Inv(st, empty) && Enabled(st, Conclude(i))
    requires Boundary(Step(st, Conclude(i), empty).calls, st.calls[i].scope, n)
    ensures Serial(st.calls, st.calls[i].scope, n, empty) == Serial(st.calls, st.calls[i].scope, i + 1, empty)
  {
    hide Serial, Outcomes, Chained, Queued, Tracked, Stored, Current;
    var calls, calls', s := st.calls, Step(st, Conclude(i), empty).calls, st.calls[i].scope;
    BoundaryAt(calls, i);
    assert calls'[i].phase.Done? && i < n;
    forall j | i < j < n ensures calls[j].scope != s {
      assert calls'[j] == calls[j];
    }
    SerialSkips(calls, s, i + 1, n, empty);
  }

  lemma ConcludeStores<S, R, E>(st: Store<S, R, E>, i: nat, empty: S, s: string, n: nat)
    requires Inv(st, empty) && Enabled(st, Conclude(i))
    requires Boundary(Step(st, Conclude(i), empty).calls, s, n)
    ensures Current(Step(st, Conclude(i), empty), s, empty) == Serial(st.calls, s, n, empty)
  {
    hide Serial, Outcomes, Chained, Queued, Tracked, Ordered;
    if s == st.calls[i].scope {
      ConcludeCurrent(st, i, empty);
      ConcludeLast(st, i, empty, n);
    } else {
      assert forall j :: 0 <= j < |st.calls| && j != i ==> Step(st, Conclude(i), empty).calls[j] == st.calls[j];
      assert Boundary(st.calls, s, n);
    }
  }

  lemma ConcludeKeeps<S, R, E>(st: Store<S, R, E>, i: nat, empty: S)
    requires Inv(st, empty) && Enabled(st, Conclude(i))
    ensures Inv(Step(st, Conclude(i), empty), empty)
  {
    hide After, Outcomes, Serial, Queued, Chained, OnTrack;
    var st' := Step(st, Conclude(i), empty);
    var calls, calls' := st.calls, st'.calls;
    ChainedSame(calls, calls');
    forall k | 0 <= k < |calls| ensures EarlierDone(calls, k) ==> EarlierDone(calls', k) {
      forall j ensures SameScope(calls', k, j) <==> SameScope(calls, k, j) {}
    }
    forall k | 0 <= k < |calls| ensures OnTrack(calls', k, empty) {
      if k == i { ConcludeTrack(st, i, empty); } else { TrackSame(calls, calls', k, empty); }
    }
    forall s, n: nat | Boundary(calls', s, n) ensures Current(st', s, empty) == Serial(calls', s, n, empty) {
      ConcludeStores(st, i, empty, s, n);
      SerialSame(calls', calls, s, n, empty);
    }
    ConcludeQueued(st, i, empty);
  }

  lemma ConcludeTrack<S, R, E>(st: Store<S, R, E>, i: nat, empty: S)
    requires Tracked(st.calls, empty) && Enabled(st, Conclude(i))
    ensures OnTrack(Step(st, Conclude(i), empty).calls, i, empty)
  {
    hide Outcomes, Serial;
    assert OnTrack(st.calls, i, empty);
    SerialSame(Step(st, Conclude(i), empty).calls, st.calls, st.calls[i].scope, i, empty);
  }

  lemma ConcludeQueued<S, R, E>(st: Store<S, R, E>, i: nat, empty: S)
    requires Inv(st, empty) && Enabled(st, Conclude(i))
    ensures Queued(Step(st, Conclude(i), empty))
  {
    hide After, Outcomes, Serial, Tracked, Stored;
    var st' := Step(st, Conclude(i), empty);
    var scope := st.calls[i].scope;
    assert EarlierDone(st.calls, i);
    forall j | 0 <= j < |st'.calls| && st'.calls[j].scope !in st'.queues ensures st'.calls[j].phase.Done? {
      if st.calls[j].scope == scope && j != i {
        assert SameScope(st.calls, i, j);
        assert scope in st.queues ==> IsTail(st.calls, scope, st.queues[scope]);
      }
    }
    forall s | s in st'.queues ensures IsTail(st'.calls, s, st'.queues[s]) {
      assert IsTail(st.calls, s, st.queues[s]);
    }
  }

  lemma StepKeeps<S, R, E>(st: Store<S, R, E>, a: Action<S, R, E>, empty: S)
    requires Inv(st, empty) && Enabled(st, a)
    ensures Inv(Step(st, a, empty), empty)
  {
    hide Inv, Enabled, Step;
    match a
    case Arrive(scope, op) => ArriveKeeps(st, scope, op, empty);
    case Acquire(i) => AcquireKeeps(st, i, empty);
    case Advance(i) => AdvanceKeeps(st, i, empty);
    case Conclude(i) => ConcludeKeeps(st, i, empty);
    case Settle(i) => SettleKeeps(st, i, empty);
  }

  lemma {:induction false} ReachedKeeps<S, R, E>(trace: seq<Action<S, R, E>>, empty: S)
    ensures Reached(trace, empty).Some? ==> Inv(Reached(trace, empty).value, empty)
    decreases |trace|
  {
    hide Enabled, Step;
    if trace != [] && Reached(trace, empty).Some? {
      hide Inv;
      ReachedKeeps(trace[..|trace| - 1], empty);
      StepKeeps(Reached(trace[..|trace| - 1], empty).value, trace[|trace| - 1], empty);
    }
  }

  // ----- what holds at every moment of every interleaving -----

  predicate Active<S, R, E>(c: Call<S, R, E>) {
    c.phase.Running? || c.phase.Finished?
  }

  /** At most one call of a scope is past its wait and not done, even right after a queue entry was deleted. */
  lemma OneHolder<S, R, E>(trace: seq<Action<S, R, E>>, empty: S, i: nat, j: nat)
    requires Reached(trace, empty).Some?
    requires var calls := Reached(trace, empty).value.calls; SameScope(calls, i, j) && Active(calls[i]) && Active(calls[j])
    ensures i == j
  {
    ReachedKeeps(trace, empty);
    var calls := Reached(trace, empty).value.calls;
    hide Reached, Tracked, Stored, Queued, Chained;
    assert EarlierDone(calls, i) && EarlierDone(calls, j) && SameScope(calls, j, i);
  }

  lemma {:induction false} BoundaryExists<S, R, E>(calls: seq<Call<S, R, E>>, scope: string, m: nat) returns (n: nat)
    requires Ordered(calls) && m <= |calls|
    requires forall j :: m <= j < |calls| && calls[j].scope == scope ==> !calls[j].phase.Done?
    ensures Boundary(calls, scope, n)
  {
    if m == 0 {
      n := 0;
    } else if calls[m - 1].scope == scope && calls[m - 1].phase.Done? {
      n := m;
      assert EarlierDone(calls, m - 1);
      forall j | 0 <= j < |calls| && calls[j].scope == scope ensures calls[j].phase.Done? <==> j < n {
        assert SameScope(calls, m - 1, j);
      }
    } else {
      n := BoundaryExists(calls, scope, m - 1);
    }
  }

  /** If the call is done, its outcome is the one of the serial run. */
  ghost predicate SerialOutcome<S, R, E>(calls: seq<Call<S, R, E>>, i: nat, empty: S)
    requires i < |calls|
  {
    calls[i].phase.Done? ==> calls[i].phase.outcome == Outcomes(calls[i].operation, 0, Serial(calls, calls[i].scope, i, empty))
  }

  lemma TrackedOutcome<S, R, E>(calls: seq<Call<S, R, E>>, i: nat, empty: S)
    requires i < |calls| && Tracked(calls, empty)
    ensures SerialOutcome(calls, i, empty)
  {
    assert OnTrack(calls, i, empty);
  }

  /** The scope holds what its done calls, the first `n`, leave when run one after another. */
  ghost predicate SerialState<S, R, E>(st: Store<S, R, E>, scope: string, n: nat, empty: S) {
    Boundary(st.calls, scope, n) && Current(st, scope, empty) == Serial(st.calls, scope, n, empty)
  }

  /**
    Serializability in call order: whatever the interleaving, each finished call has exactly the outcome it has when
    the earlier calls of its scope run one after another before it, and the scope holds what its done calls, which
    are the first ones in call order, leave when run serially.
   */
  lemma Serializable<S, R, E>(trace: seq<Action<S, R, E>>, empty: S, scope: string) returns (n: nat)
    requires Reached(trace, empty).Some?
    ensures var st := Reached(trace, empty).value;
      SerialState(st, scope, n, empty) && forall i :: 0 <= i < |st.calls| ==> SerialOutcome(st.calls, i, empty)
  {
    ReachedKeeps(trace, empty);
    var st := Reached(trace, empty).value;
    hide Reached, Serial, Queued, Chained, SerialOutcome, Tracked, Boundary, Current;
    n := BoundaryExists(st.calls, scope, |st.calls|);
    forall i | 0 <= i < |st.calls| ensures SerialOutcome(st.calls, i, empty) { TrackedOutcome(st.calls, i, empty); }
  }

  /** A call that aborts leaves its scope as its predecessors left it. */
  lemma AbortLeavesNothing<S, R, E>(calls: seq<Call<S, R, E>>, i: nat, empty: S)
    requires i < |calls| && Outcomes(calls[i].operation, 0, Serial(calls, calls[i].scope, i, empty)).Abort?
    ensures Serial(calls, calls[i].scope, i + 1, empty) == Serial(calls, calls[i].scope, i, empty)
  {
  }

  // ----- every call gets through -----

  /** Steps a call still has ahead of it. */
  function Remaining<S, R, E>(c: Call<S, R, E>): nat {
    (match c.phase
     case Waiting => |c.operation.stretches| + 4
     case Running(k, _) => (if k <= |c.operation.stretches| then |c.operation.stretches| - k else 0) + 3
     case Finished(_) => 2
     case Done(_) => 1)
    + (if c.settled then 0 else 1)
  }

  function Work<S, R, E>(calls: seq<Call<S, R, E>>): nat {
    if calls == [] then 0 else Work(calls[..|calls| - 1]) + Remaining(calls[|calls| - 1])
  }

  lemma {:induction false} WorkUpdate<S, R, E>(calls: seq<Call<S, R, E>>, i: nat, c: Call<S, R, E>)
    requires i < |calls|
    ensures Work(calls[i := c]) == Work(calls) - Remaining(calls[i]) + Remaining(c)
  {
    hide Remaining;
    var n := |calls| - 1;
    if i == n {
      assert calls[i := c][..n] == calls[..n];
    } else {
      assert calls[i := c][..n] == calls[..n][i := c];
      WorkUpdate(calls[..n], i, c);
    }
  }

  /** Every step but an arrival uses up work, so finitely many steps after the last arrival nothing is left to do. */
  lemma StepsWork<S, R, E>(st: Store<S, R, E>, a: Action<S, R, E>, empty: S)
    requires Enabled(st, a) && !a.Arrive?
    ensures Work(Step(st, a, empty).calls) < Work(st.calls)
  {
    hide Work;
    WorkUpdate(st.calls, a.i, Step(st, a, empty).calls[a.i]);
  }

  /** The first call not done can always take a step, or lets its predecessor settle: no schedule blocks. */
  lemma NeverStuck<S, R, E>(trace: seq<Action<S, R, E>>, empty: S, i: nat) returns (a: Action<S, R, E>)
    requires Reached(trace, empty).Some?
    requires var calls := Reached(trace, empty).value.calls;
      i < |calls| && !calls[i].phase.Done? && forall j :: 0 <= j < i && SameScope(calls, i, j) ==> calls[j].phase.Done?
    ensures !a.Arrive? && Enabled(Reached(trace, empty).value, a)
    ensures a.i == i || Reached(trace, empty).value.calls[i].predecessor == Some(a.i)
  {
    ReachedKeeps(trace, empty);
    SettledPredecessors(trace, empty);
    var st := Reached(trace, empty).value;
    var calls := st.calls;
    hide Reached, Stored, Tracked, Queued;
    match calls[i].phase
    case Running(_, _) => a := Advance(i);
    case Finished(_) => a := Conclude(i);
    case Waiting =>
      if PredecessorSettled(st, calls[i]) {
        a := Acquire(i);
      } else {
        var p := calls[i].predecessor.value;
        assert SameScope(calls, i, p);
        a := Settle(p);
      }
  }

  /** A call that is past its wait has seen its predecessor settle. */
  lemma SettledPredecessors<S, R, E>(trace: seq<Action<S, R, E>>, empty: S)
    requires Reached(trace, empty).Some?
    ensures var st := Reached(trace, empty).value;
      forall i :: 0 <= i < |st.calls| && !st.calls[i].phase.Waiting? ==> PredecessorSettled(st, st.calls[i])
  {
    ReachedKeeps(trace, empty);
    hide Reached, Stored, Tracked, Queued;
  }
}
