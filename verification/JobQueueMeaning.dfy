/** What the SELECT returns, what a pass does to each row, and how often a job runs, said of the columns alone. */
module JobQueueMeaning {
  import opened Wrappers
  import opened JobQueue
  import Starvation = JobQueueStarvation

  // ----- the rows a pass selects -----

  /** No later in ascending priority, then in ascending creation time. */
  ghost predicate NoLater(a: Job, b: Job) {
    a.priority < b.priority || (a.priority == b.priority && a.createdAt <= b.createdAt)
  }

  /**
    Pending rows of the table, each once and in order; ten of them, or all there are when there are fewer; and no pending
    row that is left out would come earlier.
   */
  ghost predicate BatchSays(t: Table, batch: seq<Job>) {
    && |batch| <= 10
    && (forall k :: 0 <= k < |batch| ==> batch[k] in t && batch[k].status == Pending)
    && (forall i, j :: 0 <= i < j < |batch| ==> batch[i].id != batch[j].id && NoLater(batch[i], batch[j]))
    && (forall k :: 0 <= k < |t| && t[k].status == Pending && t[k] !in batch ==> |batch| == 10 && forall b :: b in batch ==> NoLater(b, t[k]))
  }

  lemma NoLaterAgrees(a: Job, b: Job)
    ensures NoLater(a, b) <==> !Before(b, a)
  {
  }

  lemma WholeBatch(t: Table, batch: seq<Job>)
    requires UniqueIds(t) && UniqueIds(batch) && forall b :: b in batch ==> b in t && b.status.Pending?
    ensures |batch| <= PendingCount(t)
    ensures (forall k :: 0 <= k < |t| && t[k].status.Pending? ==> t[k] in batch) <==> |batch| == PendingCount(t)
  {
    hide UniqueIds, PendingCount;
    Starvation.PlacesCount(t, batch);
    Starvation.PendingPlacesCount(t);
    var places, pending := Starvation.Places(t, batch), Starvation.PendingPlaces(t);
    assert places <= pending;
    Starvation.SubsetSize(places, pending);
    if k :| 0 <= k < |t| && t[k].status.Pending? && t[k] !in batch {
      Starvation.SubsetSize(places + {k}, pending);
    } else {
      assert places == pending;
    }
  }

  /** What the SELECT returns: the rows that come first, and nothing else will do. */
  lemma BatchMeans(t: Table, batch: seq<Job>)
    requires UniqueIds(t)
    ensures IsBatch(t, batch) <==> BatchSays(t, batch)
  {
    hide Before, NoLater;
    forall a, b ensures NoLater(a, b) <==> !Before(b, a) { NoLaterAgrees(a, b); }
    if IsBatch(t, batch) || BatchSays(t, batch) {
      assert UniqueIds(batch);
      assert forall b :: b in batch ==> b in t && b.status.Pending?;
      WholeBatch(t, batch);
      hide PendingCount;
      assert forall k :: 0 <= k < |t| ==> t[k] in t;
    }
  }

  // ----- what one run does -----

  ghost predicate HasHandler(w: Worker, j: Job) {
    j.jobType in w.handlers
  }

  /** A non-empty required capability that is not ready. */
  ghost predicate Waits(w: Worker, j: Job) {
    j.requiredCapability.Some? && |j.requiredCapability.value| > 0 && j.requiredCapability.value !in w.ready
  }

  /** The job's own limit, or the worker's when the job's is zero. */
  ghost predicate AtLimit(w: Worker, j: Job, retries: int) {
    if j.maxRetries == 0 then w.maxRetries <= retries else j.maxRetries <= retries
  }

  /** Status, error and retry count are all a worker writes. */
  ghost predicate SameJob(before: Job, after: Job) {
    && after.id == before.id && after.jobType == before.jobType && after.priority == before.priority
    && after.requiredCapability == before.requiredCapability && after.maxRetries == before.maxRetries && after.createdAt == before.createdAt
  }

  /** What a pass leaves of a selected row. */
  ghost predicate RunSays(w: Worker, before: Job, outcome: Outcome, after: Job) {
    SameJob(before, after)
    && if !HasHandler(w, before) then after == before
       else if Waits(w, before) then
         after.status == Pending && after.retryCount == before.retryCount
         && after.error == Some("requires capability '" + before.requiredCapability.value + "' — not ready")
       else match outcome
         case Succeeded => after.status == Completed && after.retryCount == before.retryCount && after.error == None
         case Lost(e) => RetrySays(w, before, e, after)
         case Raised(e) => RetrySays(w, before, e, after)
  }

  ghost predicate RetrySays(w: Worker, before: Job, e: string, after: Job) {
    && after.retryCount == before.retryCount + 1 && after.error == Some(e)
    && after.status == if AtLimit(w, before, after.retryCount) then Failed else Pending
  }

  lemma RanSays(w: Worker, j: Job, outcome: Outcome)
    requires j.status.Pending?
    ensures RunSays(w, j, outcome, Ran(w, j, outcome))
  {
  }

  lemma RunWhen(w: Worker, j: Job)
    ensures Runnable(w, j) <==> HasHandler(w, j) && !Waits(w, j)
  {
  }

  /** What a pass leaves: each selected row as its own run says, every other row untouched. */
  ghost predicate PassSays(w: Worker, t: Table, batch: seq<Job>, outcomes: nat -> Outcome, t': Table) {
    && |t'| == |t|
    && (forall i, k :: 0 <= i < |t| && 0 <= k < |batch| && batch[k] == t[i] ==> RunSays(w, t[i], outcomes(k), t'[i]))
    && (forall i :: 0 <= i < |t| && t[i] !in batch ==> t'[i] == t[i])
  }

  lemma PassMeans(w: Worker, t: Table, batch: seq<Job>, outcomes: nat -> Outcome)
    requires UniqueIds(t) && BatchSays(t, batch)
    ensures PassSays(w, t, batch, outcomes, RunBatch(w, t, batch, outcomes, |batch|))
  {
    BatchMeans(t, batch);
    BatchRuns(w, t, batch, outcomes, |batch|);
    hide RunBatch, Ran, RunSays, IsBatch, UniqueIds;
    assert batch[..|batch|] == batch;
    var t' := RunBatch(w, t, batch, outcomes, |batch|);
    forall i, k | 0 <= i < |t| && 0 <= k < |batch| && batch[k] == t[i] ensures RunSays(w, t[i], outcomes(k), t'[i]) {
      assert RowSoFar(w, t[i], batch, outcomes, |batch|, t'[i]);
      RanSays(w, t[i], outcomes(k));
    }
    forall i | 0 <= i < |t| && t[i] !in batch ensures t'[i] == t[i] { assert RowSoFar(w, t[i], batch, outcomes, |batch|, t'[i]); }
  }

  // ----- how many a pass completes -----

  /** Rows that were pending and are completed now. */
  ghost function NewlyCompleted(t: Table, t': Table): set<nat>
    requires |t'| == |t|
  {
    set i: nat | i < |t| && t[i].status == Pending && t'[i].status == Completed
  }

  /** The number a pass returns is that of the rows it completed. */
  lemma {:induction false} ProcessedMeans(w: Worker, t: Table, batch: seq<Job>, outcomes: nat -> Outcome, n: nat)
    requires UniqueIds(t) && UniqueIds(batch) && n <= |batch| && forall b :: b in batch ==> b in t && b.status.Pending?
    ensures |RunBatch(w, t, batch, outcomes, n)| == |t|
    ensures Processed(w, batch, outcomes, n) == |NewlyCompleted(t, RunBatch(w, t, batch, outcomes, n))|
  {
    hide Ran, RunJob, Runnable, RunSoFar, UniqueIds, NewlyCompleted;
    if n > 0 {
      ProcessedMeans(w, t, batch, outcomes, n - 1);
      BatchRuns(w, t, batch, outcomes, n - 1);
      var s, j := RunBatch(w, t, batch, outcomes, n - 1), batch[n - 1];
      assert j in batch;
      var i := StillSelected(w, t, batch, outcomes, n - 1, s);
      RunChangesOne(w, s, j, outcomes(n - 1), i);
      CompletedWhen(w, j, outcomes(n - 1));
      CompletedNext(t, s, i, Ran(w, j, outcomes(n - 1)));
    } else {
      NoneCompleted(t);
    }
  }

  lemma NoneCompleted(t: Table)
    ensures NewlyCompleted(t, t) == {}
  {
  }

  lemma CompletedNext(t: Table, s: Table, i: nat, row: Job)
    requires i < |t| == |s| && t[i].status == Pending && s[i] == t[i]
    ensures |NewlyCompleted(t, s[i := row])| == |NewlyCompleted(t, s)| + if row.status == Completed then 1 else 0
  {
    assert NewlyCompleted(t, s[i := row]) == NewlyCompleted(t, s) + (if row.status == Completed then {i} else {});
  }

  lemma CompletedWhen(w: Worker, j: Job, outcome: Outcome)
    requires j.status.Pending?
    ensures Ran(w, j, outcome).status == Completed <==> Runnable(w, j) && outcome.Succeeded?
  {
    hide BlockedMessage;
  }

  // ----- how often a job runs -----

  /** Where a row that started pending stands after `runs` handler runs. */
  ghost predicate StandsAfter(w: Worker, before: Job, runs: nat, after: Job) {
    && SameJob(before, after)
    && match after.status
       case Processing => false
       case Pending => after.retryCount == before.retryCount + runs && (runs > 0 ==> !AtLimit(w, before, after.retryCount))
       case Failed => runs > 0 && after.retryCount == before.retryCount + runs && AtLimit(w, before, after.retryCount)
                      && (runs > 1 ==> !AtLimit(w, before, after.retryCount - 1))
       case Completed => runs > 0 && after.retryCount == before.retryCount + runs - 1 && (runs > 1 ==> !AtLimit(w, before, after.retryCount))
  }

  lemma RunStands(w: Worker, before: Job, runs: nat, now: Job, outcome: Outcome, after: Job)
    requires StandsAfter(w, before, runs, now) && now.status == Pending && RunSays(w, now, outcome, after)
    ensures StandsAfter(w, before, runs + (if HasHandler(w, now) && !Waits(w, now) then 1 else 0), after)
  {
  }

  /** In a batch with distinct ids, the runs of a job are those of its row. */
  lemma {:induction false} RunsOf(w: Worker, batch: seq<Job>, id: string, n: nat)
    requires UniqueIds(batch) && n <= |batch|
    ensures forall k :: 0 <= k < n && batch[k].id == id ==> RunsIn(w, batch, id, n) == if Runnable(w, batch[k]) then 1 else 0
    ensures (forall k :: 0 <= k < n ==> batch[k].id != id) ==> RunsIn(w, batch, id, n) == 0
  {
    hide Runnable;
    if n > 0 { RunsOf(w, batch, id, n - 1); }
  }

  lemma UnselectedId(t: Table, batch: seq<Job>, i: nat)
    requires UniqueIds(t) && BatchSays(t, batch) && i < |t| && t[i] !in batch
    ensures forall k :: 0 <= k < |batch| ==> batch[k].id != t[i].id
  {
    forall k | 0 <= k < |batch| ensures batch[k].id != t[i].id {
      var m :| 0 <= m < |t| && t[m] == batch[k];
      assert m != i;
    }
  }

  lemma SelectedRuns(w: Worker, t: Table, batch: seq<Job>, outcomes: nat -> Outcome, i: nat, t': Table) returns (k: nat)
    requires BatchSays(t, batch) && PassSays(w, t, batch, outcomes, t') && i < |t| && t[i] in batch
    ensures |t'| == |t| && k < |batch| && batch[k] == t[i] && t[i].status == Pending && RunSays(w, t[i], outcomes(k), t'[i])
  {
    hide RunSays, NoLater;
    k :| 0 <= k < |batch| && batch[k] == t[i];
  }

  lemma SelectedStands(w: Worker, t: Table, batch: seq<Job>, outcomes: nat -> Outcome, i: nat, t': Table, before: Job, runs: nat)
    requires UniqueIds(batch) && BatchSays(t, batch) && PassSays(w, t, batch, outcomes, t') && i < |t| && t[i] in batch && StandsAfter(w, before, runs, t[i])
    ensures StandsAfter(w, before, runs + RunsIn(w, batch, t[i].id, |batch|), t'[i])
  {
    hide BatchSays, PassSays, RunSays, RunsIn, Runnable, StandsAfter, UniqueIds, HasHandler, Waits;
    var k := SelectedRuns(w, t, batch, outcomes, i, t');
    RunsOf(w, batch, t[i].id, |batch|);
    RunWhen(w, t[i]);
    RunStands(w, before, runs, t[i], outcomes(k), t'[i]);
  }

  lemma PassStands(w: Worker, t: Table, batch: seq<Job>, outcomes: nat -> Outcome, i: nat, before: Job, runs: nat)
    requires UniqueIds(t) && IsBatch(t, batch) && i < |t| && StandsAfter(w, before, runs, t[i])
    ensures var t' := RunBatch(w, t, batch, outcomes, |batch|);
      |t'| == |t| && StandsAfter(w, before, runs + RunsIn(w, batch, t[i].id, |batch|), t'[i])
  {
    BatchMeans(t, batch);
    PassMeans(w, t, batch, outcomes);
    RunsOf(w, batch, t[i].id, |batch|);
    var t' := RunBatch(w, t, batch, outcomes, |batch|);
    hide RunBatch, RunSays, RunsIn, Runnable, IsBatch, StandsAfter, BatchSays, UniqueIds;
    if t[i] in batch {
      SelectedStands(w, t, batch, outcomes, i, t', before, runs);
    } else {
      UnselectedId(t, batch, i);
    }
  }

  /**
    Over any run of passes, a row that started pending has retried once for each handler run that failed; it is failed
    exactly when its last run reached the limit, and is still pending only below it.
   */
  lemma {:induction false} RunsExactly(w: Worker, t: Table, run: seq<Pass>, i: nat)
    requires UniqueIds(t) && RealRun(w, t, run) && i < |t| && t[i].status == Pending
    ensures UniqueIds(After(w, t, run)) && |After(w, t, run)| == |t|
    ensures StandsAfter(w, t[i], Runs(w, run, t[i].id), After(w, t, run)[i])
    decreases |run|
  {
    hide RunsIn, IsBatch, UniqueIds, RunBatch;
    if run != [] {
      var before, last := After(w, t, run[..|run| - 1]), run[|run| - 1];
      RunsExactly(w, t, run[..|run| - 1], i);
      OthersStay(w, before, last.batch, last.outcomes);
      PassStands(w, before, last.batch, last.outcomes, i, t[i], Runs(w, run[..|run| - 1], t[i].id));
    }
  }

  // ----- stuck rows -----

  /** The rows that can keep others waiting: pending, with a handler missing or a capability that is not ready. */
  lemma StuckMeans(w: Worker, t: Table, i: nat)
    requires i < |t|
    ensures forall k: nat :: k in Starvation.StuckBefore(w, t, i) <==>
      k < |t| && t[k].status == Pending && (!HasHandler(w, t[k]) || Waits(w, t[k])) && !NoLater(t[i], t[k])
    ensures forall k: nat :: k in Starvation.StuckNotAfter(w, t, i) <==>
      k < |t| && t[k].status == Pending && (!HasHandler(w, t[k]) || Waits(w, t[k])) && NoLater(t[k], t[i])
  {
    hide Runnable, HasHandler, Waits;
    forall k: nat | k < |t| ensures Runnable(w, t[k]) <==> HasHandler(w, t[k]) && !Waits(w, t[k]) { RunWhen(w, t[k]); }
  }
}
