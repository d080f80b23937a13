/** The job table and the worker's batches: selection order, retry transitions and draining. */
module JobQueue {
  import opened Wrappers

  datatype Status = Pending | Processing | Completed | Failed

  datatype Job = Job(
    id: string, jobType: string, status: Status, priority: int, requiredCapability: Option<string>, retryCount: int, maxRetries: int,
    createdAt: int, error: Option<string>)

  /** The table's rows; ids are unique. */
  type Table = seq<Job>

  ghost predicate UniqueIds(t: Table) {
    forall i, j :: 0 <= i < j < |t| ==> t[i].id != t[j].id
  }

  /** How one run of a handler goes; `Lost` is a handler that succeeds and a completion listener that then throws. */
  datatype Outcome = Succeeded | Lost(error: string) | Raised(error: string)

  /** Who can run what, and the retry limit for jobs that name none. */
  datatype Worker = Worker(handlers: set<string>, ready: set<string>, maxRetries: int)

  // ----- selecting a batch -----

  const BATCH_LIMIT := 10

  /** ORDER BY priority, created_at. */
  predicate Before(a: Job, b: Job) {
    a.priority < b.priority || (a.priority == b.priority && a.createdAt < b.createdAt)
  }

  function PendingCount(t: Table): nat {
    if t == [] then 0 else PendingCount(t[..|t| - 1]) + (if t[|t| - 1].status.Pending? then 1 else 0)
  }

  /** What the SELECT may return, ties in any order: the first pending rows in order, at most ten. */
  ghost predicate IsBatch(t: Table, batch: seq<Job>) {
    && |batch| == (if PendingCount(t) < BATCH_LIMIT then PendingCount(t) else BATCH_LIMIT)
    && UniqueIds(batch)
    && (forall b :: b in batch ==> b in t && b.status.Pending?)
    && (forall i, j :: 0 <= i < j < |batch| ==> !Before(batch[j], batch[i]))
    && (forall r, b :: r in t && r.status.Pending? && r !in batch && b in batch ==> !Before(r, b))
  }

  // ----- running one job -----

  /** UPDATE … WHERE id. */
  function Update(t: Table, id: string, change: Job -> Job): (r: Table)
    ensures |r| == |t| && forall i :: 0 <= i < |t| ==> r[i] == if t[i].id == id then change(t[i]) else t[i]
  {
    if t == [] then [] else [if t[0].id == id then change(t[0]) else t[0]] + Update(t[1..], id, change)
  }

  function Start(): Job -> Job {
    (j: Job) => j.(status := Processing, error := None)
  }

  function Complete(): Job -> Job {
    (j: Job) => j.(status := Completed, error := None)
  }

  function Retried(status: Status, error: string, retryCount: int): Job -> Job {
    (j: Job) => j.(status := status, error := Some(error), retryCount := retryCount)
  }

  /** Only when the message is new. */
  function Block(message: string): Job -> Job {
    (j: Job) => if j.error == Some(message) then j else j.(status := Pending, error := Some(message))
  }

  function BlockedMessage(capability: string): string {
    "requires capability '" + capability + "' — not ready"
  }

  /** `job.max_retries || options.maxRetries`. */
  function Limit(w: Worker, j: Job): int {
    if j.maxRetries != 0 then j.maxRetries else w.maxRetries
  }

  predicate Runnable(w: Worker, j: Job) {
    j.jobType in w.handlers && (j.requiredCapability.GetOr("") != "" ==> j.requiredCapability.value in w.ready)
  }

  /** The row as selected decides the new retry count and the new status. */
  function AfterFailure(w: Worker, t: Table, j: Job, error: string): Table {
    var retryCount := j.retryCount + 1;
    Update(t, j.id, Retried(if retryCount >= Limit(w, j) then Failed else Pending, error, retryCount))
  }

  /** One selected job. */
  function RunJob(w: Worker, t: Table, j: Job, outcome: Outcome): Table {
    if j.jobType !in w.handlers then t
    else if !Runnable(w, j) then Update(t, j.id, Block(BlockedMessage(j.requiredCapability.value)))
    else
      var started := Update(t, j.id, Start());
      match outcome
      case Succeeded => Update(started, j.id, Complete())
      case Lost(error) => AfterFailure(w, Update(started, j.id, Complete()), j, error)
      case Raised(error) => AfterFailure(w, started, j, error)
  }

  /** The first `n` jobs of a batch, one after another; `outcomes` says how each handler run goes. */
  function RunBatch(w: Worker, t: Table, batch: seq<Job>, outcomes: nat -> Outcome, n: nat): Table
    requires n <= |batch|
  {
    if n == 0 then t else RunJob(w, RunBatch(w, t, batch, outcomes, n - 1), batch[n - 1], outcomes(n - 1))
  }

  function Processed(w: Worker, batch: seq<Job>, outcomes: nat -> Outcome, n: nat): nat
    requires n <= |batch|
  {
    if n == 0 then 0 else Processed(w, batch, outcomes, n - 1) + (if Runnable(w, batch[n - 1]) && outcomes(n - 1).Succeeded? then 1 else 0)
  }

  /** A blocked row carries the message, is pending unless it carried it already, and is otherwise as it was. */
  predicate IsBlocked(before: Job, after: Job, message: string) {
    && after.error == Some(message) && after == before.(status := after.status, error := after.error)
    && (before.error == Some(message) ==> after.status == before.status)
    && (before.status.Pending? || before.error != Some(message) ==> after.status.Pending?)
  }

  /** A row whose run failed: one retry more than the selected row had, failed at the limit and otherwise pending again. */
  predicate IsRetried(w: Worker, j: Job, error: string, before: Job, after: Job) {
    && after.retryCount == j.retryCount + 1 && after.error == Some(error)
    && (after.status.Failed? <==> (if j.maxRetries == 0 then w.maxRetries else j.maxRetries) <= after.retryCount)
    && (after.status.Pending? <==> after.retryCount < if j.maxRetries == 0 then w.maxRetries else j.maxRetries)
    && after == before.(status := after.status, error := after.error, retryCount := after.retryCount)
  }

  lemma BlockedIs(t: Table, t': Table, j: Job, message: string)
    requires |t'| == |t| && forall i :: 0 <= i < |t| && t[i].id != j.id ==> t'[i] == t[i]
    requires forall i :: 0 <= i < |t| && t[i].id == j.id ==> IsBlocked(t[i], t'[i], message)
    ensures t' == Update(t, j.id, Block(message))
  {
  }

  lemma RetriedIs(w: Worker, t: Table, t': Table, j: Job, error: string)
    requires |t'| == |t| && forall i :: 0 <= i < |t| && t[i].id != j.id ==> t'[i] == t[i]
    requires forall i :: 0 <= i < |t| && t[i].id == j.id ==> IsRetried(w, j, error, t[i], t'[i])
    ensures t' == AfterFailure(w, t, j, error)
  {
  }

  class JobQueueWorker {
    const options: Worker
    var jobs: Table

    constructor (options: Worker, jobs: Table)
      ensures this.options == options && this.jobs == jobs
    {
      this.options, this.jobs := options, jobs;
    }

    method BlockForCapability(j: Job, capability: string)
      modifies this
      ensures |jobs| == |old(jobs)|
      ensures forall i :: 0 <= i < |jobs| && old(jobs)[i].id != j.id ==> jobs[i] == old(jobs)[i]
      ensures forall i :: 0 <= i < |jobs| && old(jobs)[i].id == j.id ==> IsBlocked(old(jobs)[i], jobs[i], "requires capability '" + capability + "' — not ready")
    {
      jobs := Update(jobs, j.id, Block(BlockedMessage(capability)));
    }

    method Retry(j: Job, error: string)
      modifies this
      ensures |jobs| == |old(jobs)|
      ensures forall i :: 0 <= i < |jobs| && old(jobs)[i].id != j.id ==> jobs[i] == old(jobs)[i]
      ensures forall i :: 0 <= i < |jobs| && old(jobs)[i].id == j.id ==> IsRetried(options, j, error, old(jobs)[i], jobs[i])
    {
      var newRetryCount := j.retryCount + 1;
      if newRetryCount >= (if j.maxRetries != 0 then j.maxRetries else options.maxRetries) {
        jobs := Update(jobs, j.id, Retried(Failed, error, newRetryCount));
      } else {
        jobs := Update(jobs, j.id, Retried(Pending, error, newRetryCount));
      }
    }

    /** `processPendingJobs` on the rows its SELECT returned. */
    method ProcessPendingJobs(batch: seq<Job>, outcomes: nat -> Outcome) returns (processed: nat)
      requires IsBatch(jobs, batch)
      modifies this
      ensures jobs == RunBatch(options, old(jobs), batch, outcomes, |batch|)
      ensures processed == Processed(options, batch, outcomes, |batch|)
    {
      hide IsBatch, AfterFailure, Limit, IsBlocked, IsRetried;
      processed := 0;
      var i := 0;
      while i < |batch|
        invariant 0 <= i <= |batch|
        invariant jobs == RunBatch(options, old(jobs), batch, outcomes, i) && processed == Processed(options, batch, outcomes, i)
      {
        var j := batch[i];
        if j.jobType in options.handlers {
          if j.requiredCapability.GetOr("") != "" && j.requiredCapability.value !in options.ready {
            ghost var before := jobs;
            BlockForCapability(j, j.requiredCapability.value);
            BlockedIs(before, jobs, j, BlockedMessage(j.requiredCapability.value));
          } else {
            jobs := Update(jobs, j.id, Start());
            match outcomes(i)
            case Succeeded =>
              jobs := Update(jobs, j.id, Complete());
              processed := processed + 1;
            case Lost(error) =>
              jobs := Update(jobs, j.id, Complete());
              ghost var before := jobs;
              Retry(j, error);
              RetriedIs(options, before, jobs, j, error);
            case Raised(error) =>
              ghost var before := jobs;
              Retry(j, error);
              RetriedIs(options, before, jobs, j, error);
          }
        }
        i := i + 1;
      }
    }
  }

  // ----- what a batch leaves -----

  /** Attempts a pending job still has. */
  function Left(w: Worker, j: Job): nat {
    if !j.status.Pending? then 0 else if Limit(w, j) - j.retryCount > 1 then Limit(w, j) - j.retryCount else 1
  }

  /** The row a selected row turns into. */
  function Ran(w: Worker, j: Job, outcome: Outcome): Job {
    if j.jobType !in w.handlers then j
    else if !Runnable(w, j) then Block(BlockedMessage(j.requiredCapability.value))(j)
    else if outcome.Succeeded? then j.(status := Completed, error := None)
    else j.(status := if j.retryCount + 1 >= Limit(w, j) then Failed else Pending, error := Some(outcome.error), retryCount := j.retryCount + 1)
  }

  /** Running a job whose row is still as selected changes that row alone. */
  lemma RunChangesOne(w: Worker, t: Table, j: Job, outcome: Outcome, i: nat)
    requires UniqueIds(t) && i < |t| && t[i] == j && j.status.Pending?
    ensures RunJob(w, t, j, outcome) == t[i := Ran(w, j, outcome)]
  {
    hide BlockedMessage;
    var r := RunJob(w, t, j, outcome);
    forall k | 0 <= k < |t| ensures r[k] == t[i := Ran(w, j, outcome)][k] {
      assert k != i ==> t[k].id != j.id;
    }
  }

  /** A run job has strictly fewer attempts left; a skipped or blocked one has as many. */
  lemma RunLeaves(w: Worker, j: Job, outcome: Outcome)
    requires j.status.Pending?
    ensures Ran(w, j, outcome).id == j.id && !Ran(w, j, outcome).status.Processing?
    ensures Left(w, Ran(w, j, outcome)) + (if Runnable(w, j) then 1 else 0) <= Left(w, j)
  {
    hide BlockedMessage;
  }

  function Work(w: Worker, t: Table): nat {
    if t == [] then 0 else Work(w, t[..|t| - 1]) + Left(w, t[|t| - 1])
  }

  lemma {:induction false} WorkUpdate(w: Worker, t: Table, i: nat, j: Job)
    requires i < |t|
    ensures Work(w, t[i := j]) == Work(w, t) - Left(w, t[i]) + Left(w, j)
  {
    hide Left;
    var n := |t| - 1;
    if i == n {
      assert t[i := j][..n] == t[..n];
    } else {
      assert t[i := j][..n] == t[..n][i := j];
      WorkUpdate(w, t[..n], i, j);
    }
  }

  /** After `n` of a batch: the first `n` rows have run, every other row is as it was. */
  ghost predicate RunSoFar(w: Worker, t: Table, batch: seq<Job>, outcomes: nat -> Outcome, n: nat, t': Table) {
    n <= |batch| && |t'| == |t| && forall i :: 0 <= i < |t| ==> RowSoFar(w, t[i], batch, outcomes, n, t'[i])
  }

  ghost predicate RowSoFar(w: Worker, before: Job, batch: seq<Job>, outcomes: nat -> Outcome, n: nat, after: Job)
    requires n <= |batch|
  {
    && (forall k :: 0 <= k < n && batch[k] == before ==> after == Ran(w, before, outcomes(k)))
    && (before !in batch[..n] ==> after == before)
  }

  lemma RunOneMore(w: Worker, t: Table, batch: seq<Job>, outcomes: nat -> Outcome, n: nat, s: Table, i: nat)
    requires UniqueIds(batch) && n < |batch| && RunSoFar(w, t, batch, outcomes, n, s)
    requires i < |t| && t[i] == batch[n] && forall k :: 0 <= k < |t| && k != i ==> t[k].id != batch[n].id
    ensures RunSoFar(w, t, batch, outcomes, n + 1, s[i := Ran(w, batch[n], outcomes(n))])
  {
    hide Ran;
    var s' := s[i := Ran(w, batch[n], outcomes(n))];
    assert batch[..n + 1] == batch[..n] + [batch[n]];
    forall k | 0 <= k < |t| ensures RowSoFar(w, t[k], batch, outcomes, n + 1, s'[k]) {
      assert RowSoFar(w, t[k], batch, outcomes, n, s[k]);
    }
  }

  lemma {:induction false} BatchRuns(w: Worker, t: Table, batch: seq<Job>, outcomes: nat -> Outcome, n: nat)
    requires UniqueIds(t) && UniqueIds(batch) && n <= |batch| && forall b :: b in batch ==> b in t && b.status.Pending?
    ensures RunSoFar(w, t, batch, outcomes, n, RunBatch(w, t, batch, outcomes, n))
    ensures UniqueIds(RunBatch(w, t, batch, outcomes, n))
  {
    hide RunSoFar, UniqueIds;
    if n > 0 {
      BatchRuns(w, t, batch, outcomes, n - 1);
      var s, j := RunBatch(w, t, batch, outcomes, n - 1), batch[n - 1];
      assert j in batch;
      var i := StillSelected(w, t, batch, outcomes, n - 1, s);
      hide Ran, RunJob;
      RunChangesOne(w, s, j, outcomes(n - 1), i);
      RunLeaves(w, j, outcomes(n - 1));
      UniqueAfter(s, i, Ran(w, j, outcomes(n - 1)));
      RunOneMore(w, t, batch, outcomes, n - 1, s, i);
    } else {
      RunNone(w, t, batch, outcomes);
    }
  }

  lemma UniqueAfter(t: Table, i: nat, j: Job)
    requires UniqueIds(t) && i < |t| && j.id == t[i].id
    ensures UniqueIds(t[i := j])
  {
  }

  lemma RunNone(w: Worker, t: Table, batch: seq<Job>, outcomes: nat -> Outcome)
    ensures RunSoFar(w, t, batch, outcomes, 0, t)
  {
  }

  /** The next job of a batch still has the row it was selected with. */
  lemma StillSelected(w: Worker, t: Table, batch: seq<Job>, outcomes: nat -> Outcome, n: nat, s: Table) returns (i: nat)
    requires UniqueIds(t) && UniqueIds(batch) && n < |batch| && batch[n] in t && RunSoFar(w, t, batch, outcomes, n, s)
    ensures i < |t| == |s| && t[i] == s[i] == batch[n] && forall k :: 0 <= k < |t| && k != i ==> t[k].id != batch[n].id
  {
    hide Ran;
    i :| 0 <= i < |t| && t[i] == batch[n];
    assert batch[n] !in batch[..n];
    assert RowSoFar(w, t[i], batch, outcomes, n, s[i]);
  }

  /** Rows a batch does not select, the completed and failed ones above all, stay as they are. */
  lemma OthersStay(w: Worker, t: Table, batch: seq<Job>, outcomes: nat -> Outcome)
    requires UniqueIds(t) && IsBatch(t, batch)
    ensures var t' := RunBatch(w, t, batch, outcomes, |batch|);
      |t'| == |t| && UniqueIds(t') && forall i :: 0 <= i < |t| && t[i] !in batch ==> t'[i] == t[i]
  {
    BatchRuns(w, t, batch, outcomes, |batch|);
    assert batch[..|batch|] == batch;
    hide Ran;
    var t' := RunBatch(w, t, batch, outcomes, |batch|);
    forall i | 0 <= i < |t| && t[i] !in batch ensures t'[i] == t[i] { assert RowSoFar(w, t[i], batch, outcomes, |batch|, t'[i]); }
  }

  function RunnableCount(w: Worker, batch: seq<Job>, n: nat): nat
    requires n <= |batch|
  {
    if n == 0 then 0 else RunnableCount(w, batch, n - 1) + (if Runnable(w, batch[n - 1]) then 1 else 0)
  }

  /** Each job that is run uses up at least one attempt. */
  lemma {:induction false} BatchWorks(w: Worker, t: Table, batch: seq<Job>, outcomes: nat -> Outcome, n: nat)
    requires UniqueIds(t) && UniqueIds(batch) && n <= |batch| && forall b :: b in batch ==> b in t && b.status.Pending?
    ensures Work(w, RunBatch(w, t, batch, outcomes, n)) + RunnableCount(w, batch, n) <= Work(w, t)
  {
    hide Ran, RunJob, Left, Runnable, RunSoFar, RowSoFar;
    if n > 0 {
      BatchWorks(w, t, batch, outcomes, n - 1);
      BatchRuns(w, t, batch, outcomes, n - 1);
      var s, j := RunBatch(w, t, batch, outcomes, n - 1), batch[n - 1];
      var i := StillSelected(w, t, batch, outcomes, n - 1, s);
      RunChangesOne(w, s, j, outcomes(n - 1), i);
      RunLeaves(w, j, outcomes(n - 1));
      WorkUpdate(w, s, i, Ran(w, j, outcomes(n - 1)));
    }
  }

  // ----- draining -----

  /** One call of `processOnce`. */
  datatype Pass = Pass(batch: seq<Job>, outcomes: nat -> Outcome)

  /** The table after a run of passes. */
  function After(w: Worker, t: Table, run: seq<Pass>): Table
    decreases |run|
  {
    if run == [] then t
    else
      var before := After(w, t, run[..|run| - 1]);
      var last := run[|run| - 1];
      RunBatch(w, before, last.batch, last.outcomes, |last.batch|)
  }

  /** Every pass worked on what its SELECT returned. */
  ghost predicate RealRun(w: Worker, t: Table, run: seq<Pass>)
    decreases |run|
  {
    run == [] || (RealRun(w, t, run[..|run| - 1]) && IsBatch(After(w, t, run[..|run| - 1]), run[|run| - 1].batch))
  }

  ghost predicate AllRunnable(w: Worker, t: Table) {
    forall i :: 0 <= i < |t| && t[i].status.Pending? ==> Runnable(w, t[i])
  }

  lemma {:induction false} RunnableAll(w: Worker, batch: seq<Job>, n: nat)
    requires n <= |batch| && forall b :: b in batch ==> Runnable(w, b)
    ensures RunnableCount(w, batch, n) == n
  {
    hide Runnable;
    if n > 0 { RunnableAll(w, batch, n - 1); }
  }

  /** When every pending job can run, a batch lowers the attempts left by at least its length. */
  lemma BatchProgress(w: Worker, t: Table, batch: seq<Job>, outcomes: nat -> Outcome)
    requires UniqueIds(t) && IsBatch(t, batch) && AllRunnable(w, t)
    ensures Work(w, RunBatch(w, t, batch, outcomes, |batch|)) + |batch| <= Work(w, t)
  {
    hide Runnable, Work;
    BatchWorks(w, t, batch, outcomes, |batch|);
    forall b | b in batch ensures Runnable(w, b) {
      var i :| 0 <= i < |t| && t[i] == b;
    }
    RunnableAll(w, batch, |batch|);
  }

  lemma RanRunnable(w: Worker, j: Job, outcome: Outcome)
    ensures Runnable(w, Ran(w, j, outcome)) == Runnable(w, j)
  {
    hide BlockedMessage;
  }

  lemma RowRunnable(w: Worker, before: Job, batch: seq<Job>, outcomes: nat -> Outcome, after: Job)
    requires RowSoFar(w, before, batch, outcomes, |batch|, after)
    ensures Runnable(w, after) == Runnable(w, before) && (before !in batch ==> after == before)
  {
    hide Ran, Runnable;
    assert batch[..|batch|] == batch;
    if before in batch {
      var k :| 0 <= k < |batch| && batch[k] == before;
      RanRunnable(w, before, outcomes(k));
    }
  }

  /** Running leaves every pending job runnable: capability and type do not change. */
  lemma StaysRunnable(w: Worker, t: Table, batch: seq<Job>, outcomes: nat -> Outcome)
    requires UniqueIds(t) && IsBatch(t, batch) && AllRunnable(w, t)
    ensures AllRunnable(w, RunBatch(w, t, batch, outcomes, |batch|))
  {
    BatchRuns(w, t, batch, outcomes, |batch|);
    var t' := RunBatch(w, t, batch, outcomes, |batch|);
    assert forall b :: b in batch ==> b.status.Pending?;
    hide Runnable, RunBatch, IsBatch, UniqueIds, RowSoFar;
    forall i | 0 <= i < |t'| && t'[i].status.Pending? ensures Runnable(w, t'[i]) {
      RowRunnable(w, t[i], batch, outcomes, t'[i]);
    }
  }

  lemma {:induction false} NonePending(t: Table)
    ensures PendingCount(t) == 0 <==> forall i :: 0 <= i < |t| ==> !t[i].status.Pending?
  {
    if t != [] {
      NonePending(t[..|t| - 1]);
      assert forall i :: 0 <= i < |t| - 1 ==> t[..|t| - 1][i] == t[i];
    }
  }

  /**
    Draining: with every pending job runnable, each pass on a queue that has pending jobs lowers the attempts left, so a
    run has at most that many such passes; when no job is pending every row that was not being processed is completed or
    failed.
   */
  lemma {:induction false} Drains(w: Worker, t: Table, run: seq<Pass>)
    requires UniqueIds(t) && AllRunnable(w, t) && RealRun(w, t, run)
    requires forall k :: 0 <= k < |run| ==> run[k].batch != []
    ensures UniqueIds(After(w, t, run)) && AllRunnable(w, After(w, t, run))
    ensures Work(w, After(w, t, run)) + |run| <= Work(w, t)
    decreases |run|
  {
    hide Work, AllRunnable, UniqueIds, IsBatch;
    if run != [] {
      var before, last := After(w, t, run[..|run| - 1]), run[|run| - 1];
      Drains(w, t, run[..|run| - 1]);
      BatchProgress(w, before, last.batch, last.outcomes);
      StaysRunnable(w, before, last.batch, last.outcomes);
      OthersStay(w, before, last.batch, last.outcomes);
    }
  }

  /** A pass selects nothing exactly when nothing is pending, and then every row not being processed is final. */
  lemma EmptyMeansDone(t: Table, batch: seq<Job>)
    requires IsBatch(t, batch)
    ensures batch == [] <==> forall i :: 0 <= i < |t| ==> !t[i].status.Pending?
  {
    NonePending(t);
  }

  // ----- how often a job runs -----

  /** Handler runs of the job in one batch. */
  function RunsIn(w: Worker, batch: seq<Job>, id: string, n: nat): nat
    requires n <= |batch|
  {
    if n == 0 then 0 else RunsIn(w, batch, id, n - 1) + (if batch[n - 1].id == id && Runnable(w, batch[n - 1]) then 1 else 0)
  }

  function Runs(w: Worker, run: seq<Pass>, id: string): nat
    decreases |run|
  {
    if run == [] then 0 else Runs(w, run[..|run| - 1], id) + RunsIn(w, run[|run| - 1].batch, id, |run[|run| - 1].batch|)
  }

  lemma {:induction false} RunsOnce(w: Worker, batch: seq<Job>, id: string, n: nat)
    requires UniqueIds(batch) && n <= |batch|
    ensures RunsIn(w, batch, id, n) <= 1
    ensures RunsIn(w, batch, id, n) == 1 ==> exists k :: 0 <= k < n && batch[k].id == id && Runnable(w, batch[k])
  {
    hide Runnable;
    if n > 0 { RunsOnce(w, batch, id, n - 1); }
  }

  lemma BatchUses(w: Worker, t: Table, batch: seq<Job>, outcomes: nat -> Outcome, i: nat)
    requires UniqueIds(t) && IsBatch(t, batch) && i < |t|
    ensures var t' := RunBatch(w, t, batch, outcomes, |batch|);
      |t'| == |t| && t'[i].id == t[i].id && Left(w, t'[i]) + RunsIn(w, batch, t[i].id, |batch|) <= Left(w, t[i])
  {
    BatchRuns(w, t, batch, outcomes, |batch|);
    RunsOnce(w, batch, t[i].id, |batch|);
    var t' := RunBatch(w, t, batch, outcomes, |batch|);
    hide Ran, Left, RunBatch, RunsIn, Runnable;
    assert RowSoFar(w, t[i], batch, outcomes, |batch|, t'[i]) && batch[..|batch|] == batch;
    if k :| 0 <= k < |batch| && batch[k].id == t[i].id {
      assert batch[k] in t;
      var m :| 0 <= m < |t| && t[m] == batch[k];
      assert m == i;
      RunLeaves(w, t[i], outcomes(k));
    }
  }

  /** Over any run, whatever the outcomes, a job's handler runs plus the attempts it has left never exceed what it had. */
  lemma {:induction false} RunsBounded(w: Worker, t: Table, run: seq<Pass>, i: nat)
    requires UniqueIds(t) && RealRun(w, t, run) && i < |t|
    ensures var t' := After(w, t, run); UniqueIds(t') && |t'| == |t| && t'[i].id == t[i].id
    ensures Runs(w, run, t[i].id) + Left(w, After(w, t, run)[i]) <= Left(w, t[i])
    decreases |run|
  {
    hide Left, RunsIn, IsBatch, UniqueIds;
    if run != [] {
      var before, last := After(w, t, run[..|run| - 1]), run[|run| - 1];
      RunsBounded(w, t, run[..|run| - 1], i);
      BatchUses(w, before, last.batch, last.outcomes, i);
      OthersStay(w, before, last.batch, last.outcomes);
    }
  }

  /** A job enqueued with no retries runs at most max(1, limit) times. */
  lemma FreshJobRuns(w: Worker, t: Table, run: seq<Pass>, i: nat)
    requires UniqueIds(t) && RealRun(w, t, run) && i < |t| && t[i].status.Pending? && t[i].retryCount == 0
    ensures t[i].maxRetries != 0 ==> Runs(w, run, t[i].id) <= if t[i].maxRetries > 1 then t[i].maxRetries else 1
    ensures t[i].maxRetries == 0 ==> Runs(w, run, t[i].id) <= if w.maxRetries > 1 then w.maxRetries else 1
  {
    RunsBounded(w, t, run, i);
  }

  /** A completed or failed job stays exactly as it is. */
  lemma {:induction false} FinalStays(w: Worker, t: Table, run: seq<Pass>, i: nat)
    requires UniqueIds(t) && RealRun(w, t, run) && i < |t| && !t[i].status.Pending?
    ensures var t' := After(w, t, run); UniqueIds(t') && |t'| == |t| && t'[i] == t[i]
    decreases |run|
  {
    if run != [] {
      var before, last := After(w, t, run[..|run| - 1]), run[|run| - 1];
      FinalStays(w, t, run[..|run| - 1], i);
      hide UniqueIds, RunBatch;
      OthersStay(w, before, last.batch, last.outcomes);
      assert before[i] !in last.batch;
    }
  }
}
