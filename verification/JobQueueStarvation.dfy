/**
  Which pending jobs a worker never comes to while the same capabilities stay ready: the exact condition, over every run
  of passes and every order in which the SELECT may return ties.
 */
module JobQueueStarvation {
  import opened Wrappers
  import opened JobQueue
  import Sorting

  // ----- stuck rows -----

  /** A pending job that no pass can run. */
  predicate Stuck(w: Worker, j: Job) {
    j.status.Pending? && !Runnable(w, j)
  }

  /** Places of the stuck rows that sort strictly before row `i`. */
  function StuckBefore(w: Worker, t: Table, i: nat): set<nat>
    requires i < |t|
  {
    set k: nat | k < |t| && Stuck(w, t[k]) && Before(t[k], t[i])
  }

  /** Places of the stuck rows that do not sort after row `i`: those before it and those tied with it. */
  function StuckNotAfter(w: Worker, t: Table, i: nat): set<nat>
    requires i < |t|
  {
    set k: nat | k < |t| && Stuck(w, t[k]) && !Before(t[i], t[k])
  }

  // ----- counting by places -----

  function Places(t: Table, batch: seq<Job>): set<nat> {
    set k: nat | k < |t| && t[k] in batch
  }

  function PendingPlaces(t: Table): set<nat> {
    set k: nat | k < |t| && t[k].status.Pending?
  }

  lemma SubsetSize(a: set<nat>, b: set<nat>)
    requires a <= b
    ensures |a| <= |b|
  {
    assert b == a + (b - a);
  }

  lemma {:induction false} PlacesCount(t: Table, batch: seq<Job>)
    requires UniqueIds(t) && UniqueIds(batch) && forall b :: b in batch ==> b in t
    ensures |Places(t, batch)| == |batch|
  {
    if batch != [] {
      var rest, last := batch[..|batch| - 1], batch[|batch| - 1];
      assert batch == rest + [last];
      PlacesCount(t, rest);
      assert last in batch;
      var k: nat :| k < |t| && t[k] == last;
      assert last !in rest;
      assert Places(t, batch) == Places(t, rest) + {k};
    }
  }

  lemma {:induction false} PendingPlacesCount(t: Table)
    ensures |PendingPlaces(t)| == PendingCount(t)
  {
    if t != [] {
      var n := |t| - 1;
      PendingPlacesCount(t[..n]);
      assert PendingPlaces(t) == PendingPlaces(t[..n]) + (if t[n].status.Pending? then {n} else {});
    }
  }

  /** A batch that leaves a pending row out is full. */
  lemma FullBatch(t: Table, batch: seq<Job>, i: nat)
    requires UniqueIds(t) && IsBatch(t, batch) && i < |t| && t[i].status.Pending? && t[i] !in batch
    ensures |batch| == BATCH_LIMIT
  {
    if |batch| == PendingCount(t) {
      PlacesCount(t, batch);
      PendingPlacesCount(t);
      forall k | k in Places(t, batch) + {i} ensures k in PendingPlaces(t) { }
      SubsetSize(Places(t, batch) + {i}, PendingPlaces(t));
    }
  }

  // ----- one pass -----

  /** With fewer than ten stuck rows at or before its place, a runnable job is selected or a runnable one is before it. */
  lemma BatchHasRunnable(w: Worker, t: Table, batch: seq<Job>, i: nat)
    requires UniqueIds(t) && IsBatch(t, batch) && i < |t| && t[i].status.Pending? && Runnable(w, t[i])
    requires |StuckNotAfter(w, t, i)| < BATCH_LIMIT
    ensures exists b :: b in batch && Runnable(w, b)
  {
    hide Runnable;
    if forall b :: b in batch ==> !Runnable(w, b) {
      FullBatch(t, batch, i);
      PlacesCount(t, batch);
      SubsetSize(Places(t, batch), StuckNotAfter(w, t, i));
    }
  }

  /** Ten stuck rows strictly before it keep any pending row out of every batch. */
  lemma BatchExcludes(w: Worker, t: Table, batch: seq<Job>, i: nat)
    requires UniqueIds(t) && IsBatch(t, batch) && i < |t| && t[i].status.Pending?
    requires |StuckBefore(w, t, i)| >= BATCH_LIMIT
    ensures t[i] !in batch
  {
    hide Runnable;
    if t[i] in batch {
      forall k | k in StuckBefore(w, t, i) + {i} ensures k in Places(t, batch) { assert t[k] in t; }
      SubsetSize(StuckBefore(w, t, i) + {i}, Places(t, batch));
      PlacesCount(t, batch);
    }
  }

  /** A row keeps its place in the order, and stays stuck or not. */
  ghost predicate SamePlace(w: Worker, before: Job, after: Job) {
    && after.id == before.id && after.priority == before.priority && after.createdAt == before.createdAt
    && (Stuck(w, after) <==> Stuck(w, before))
  }

  lemma RanSamePlace(w: Worker, j: Job, outcome: Outcome)
    requires j.status.Pending?
    ensures SamePlace(w, j, Ran(w, j, outcome))
  {
    hide BlockedMessage;
  }

  lemma PassSamePlaces(w: Worker, t: Table, batch: seq<Job>, outcomes: nat -> Outcome)
    requires UniqueIds(t) && IsBatch(t, batch)
    ensures var t' := RunBatch(w, t, batch, outcomes, |batch|);
      |t'| == |t| && forall k :: 0 <= k < |t| ==> SamePlace(w, t[k], t'[k])
  {
    BatchRuns(w, t, batch, outcomes, |batch|);
    assert batch[..|batch|] == batch;
    hide Ran, SamePlace, RunBatch, UniqueIds;
    var t' := RunBatch(w, t, batch, outcomes, |batch|);
    forall k | 0 <= k < |t| ensures SamePlace(w, t[k], t'[k]) {
      assert RowSoFar(w, t[k], batch, outcomes, |batch|, t'[k]);
      if t[k] in batch {
        var m :| 0 <= m < |batch| && batch[m] == t[k];
        RanSamePlace(w, t[k], outcomes(m));
      } else {
        UnchangedSamePlace(w, t[k]);
      }
    }
  }

  lemma UnchangedSamePlace(w: Worker, j: Job)
    ensures SamePlace(w, j, j)
  {
  }

  lemma SameStuck(w: Worker, t: Table, t': Table, i: nat)
    requires |t'| == |t| && i < |t| && forall k :: 0 <= k < |t| ==> SamePlace(w, t[k], t'[k])
    ensures StuckBefore(w, t', i) == StuckBefore(w, t, i) && StuckNotAfter(w, t', i) == StuckNotAfter(w, t, i)
  {
    hide Stuck;
  }

  // ----- every run -----

  ghost predicate InBatch(batch: seq<Job>, id: string) {
    exists b :: b in batch && b.id == id
  }

  ghost predicate Selects(run: seq<Pass>, id: string) {
    exists k :: 0 <= k < |run| && InBatch(run[k].batch, id)
  }

  /** The row is as it was, and as many stuck rows are before it and tied with it. */
  ghost predicate Unmoved(w: Worker, t: Table, t': Table, i: nat) {
    && UniqueIds(t') && |t'| == |t| && i < |t| && t'[i] == t[i]
    && StuckBefore(w, t', i) == StuckBefore(w, t, i) && StuckNotAfter(w, t', i) == StuckNotAfter(w, t, i)
  }

  lemma PassUnmoved(w: Worker, t: Table, batch: seq<Job>, outcomes: nat -> Outcome, i: nat)
    requires UniqueIds(t) && IsBatch(t, batch) && i < |t| && t[i] !in batch
    ensures Unmoved(w, t, RunBatch(w, t, batch, outcomes, |batch|), i)
  {
    hide IsBatch, RunBatch, SamePlace, UniqueIds, StuckBefore, StuckNotAfter;
    OthersStay(w, t, batch, outcomes);
    PassSamePlaces(w, t, batch, outcomes);
    SameStuck(w, t, RunBatch(w, t, batch, outcomes, |batch|), i);
  }

  lemma InBatchById(t: Table, batch: seq<Job>, i: nat)
    requires UniqueIds(t) && i < |t| && forall b :: b in batch ==> b in t
    ensures InBatch(batch, t[i].id) <==> t[i] in batch
  {
  }

  lemma SelectsLast(run: seq<Pass>, last: Pass, id: string)
    ensures Selects(run + [last], id) <==> Selects(run, id) || InBatch(last.batch, id)
  {
    hide InBatch;
    var all := run + [last];
    assert all[|run|] == last;
    if Selects(run, id) {
      var k :| 0 <= k < |run| && InBatch(run[k].batch, id);
      assert all[k] == run[k];
    }
  }

  /** A run taken apart at its last pass. */
  lemma LastPass(w: Worker, t: Table, run: seq<Pass>) returns (rest: seq<Pass>, last: Pass)
    requires run != [] && RealRun(w, t, run)
    ensures run == rest + [last] && RealRun(w, t, rest) && IsBatch(After(w, t, rest), last.batch)
    ensures After(w, t, run) == RunBatch(w, After(w, t, rest), last.batch, last.outcomes, |last.batch|)
  {
    hide IsBatch, RunBatch;
    rest, last := run[..|run| - 1], run[|run| - 1];
  }

  lemma ExtendRun(w: Worker, t: Table, run: seq<Pass>, last: Pass)
    requires RealRun(w, t, run) && IsBatch(After(w, t, run), last.batch)
    ensures RealRun(w, t, run + [last])
    ensures After(w, t, run + [last]) == RunBatch(w, After(w, t, run), last.batch, last.outcomes, |last.batch|)
  {
    hide IsBatch, RunBatch;
    assert (run + [last])[..|run|] == run;
  }

  /** Behind ten stuck rows a pending job is never selected and nothing about it changes. */
  lemma {:induction false} NeverSelected(w: Worker, t: Table, run: seq<Pass>, i: nat)
    requires UniqueIds(t) && RealRun(w, t, run) && i < |t| && t[i].status.Pending?
    requires |StuckBefore(w, t, i)| >= BATCH_LIMIT
    ensures !Selects(run, t[i].id) && Unmoved(w, t, After(w, t, run), i)
    decreases |run|
  {
    hide IsBatch, RunBatch, StuckBefore, StuckNotAfter, UniqueIds, RealRun, Selects;
    if run == [] {
      NoneSelected(t[i].id);
    } else {
      var rest, last := LastPass(w, t, run);
      NeverSelected(w, t, rest, i);
      var s := After(w, t, rest);
      BatchExcludes(w, s, last.batch, i);
      BatchFrom(s, last.batch);
      InBatchById(s, last.batch, i);
      SelectsLast(rest, last, t[i].id);
      PassUnmoved(w, s, last.batch, last.outcomes, i);
    }
  }

  lemma NoneSelected(id: string)
    ensures !Selects([], id)
  {
  }

  lemma BatchFrom(t: Table, batch: seq<Job>)
    requires IsBatch(t, batch)
    ensures UniqueIds(batch) && forall b :: b in batch ==> b in t && b.status.Pending?
  {
  }

  lemma {:induction false} SomeCounted(w: Worker, batch: seq<Job>, n: nat, k: nat)
    requires k < n <= |batch| && Runnable(w, batch[k])
    ensures RunnableCount(w, batch, n) >= 1
  {
    hide Runnable;
    if k < n - 1 { SomeCounted(w, batch, n - 1, k); }
  }

  /** A pass with a runnable job in its batch uses up an attempt. */
  lemma PassWorks(w: Worker, t: Table, batch: seq<Job>, outcomes: nat -> Outcome)
    requires UniqueIds(t) && IsBatch(t, batch) && exists b :: b in batch && Runnable(w, b)
    ensures Work(w, RunBatch(w, t, batch, outcomes, |batch|)) + 1 <= Work(w, t)
  {
    hide Runnable, Work, RunBatch, UniqueIds, RunnableCount;
    BatchWorks(w, t, batch, outcomes, |batch|);
    var b :| b in batch && Runnable(w, b);
    var k :| 0 <= k < |batch| && batch[k] == b;
    SomeCounted(w, batch, |batch|, k);
  }

  /** As long as the job is not selected, every pass uses up an attempt of some job. */
  lemma {:induction false} UnselectedWorks(w: Worker, t: Table, run: seq<Pass>, i: nat)
    requires UniqueIds(t) && RealRun(w, t, run) && i < |t| && t[i].status.Pending? && Runnable(w, t[i])
    requires |StuckNotAfter(w, t, i)| < BATCH_LIMIT && !Selects(run, t[i].id)
    ensures Unmoved(w, t, After(w, t, run), i) && Work(w, After(w, t, run)) + |run| <= Work(w, t)
    decreases |run|
  {
    hide IsBatch, RunBatch, StuckBefore, StuckNotAfter, UniqueIds, RealRun, Selects, Work, Runnable;
    if run != [] {
      var rest, last := LastPass(w, t, run);
      SelectsLast(rest, last, t[i].id);
      UnselectedWorks(w, t, rest, i);
      var s := After(w, t, rest);
      BatchFrom(s, last.batch);
      InBatchById(s, last.batch, i);
      BatchHasRunnable(w, s, last.batch, i);
      PassWorks(w, s, last.batch, last.outcomes);
      PassUnmoved(w, s, last.batch, last.outcomes, i);
    }
  }

  lemma {:induction false} RunPrefix(w: Worker, t: Table, run: seq<Pass>, n: nat)
    requires RealRun(w, t, run) && n <= |run|
    ensures RealRun(w, t, run[..n])
    decreases |run|
  {
    hide IsBatch;
    if n == |run| {
      assert run[..n] == run;
    } else {
      RunPrefix(w, t, run[..|run| - 1], n);
      assert run[..|run| - 1][..n] == run[..n];
    }
  }

  /** With fewer than ten stuck rows before or tied with it, a runnable job is selected once the work at hand could have been done. */
  lemma SelectedWithin(w: Worker, t: Table, run: seq<Pass>, i: nat)
    requires UniqueIds(t) && RealRun(w, t, run) && i < |t| && t[i].status.Pending? && Runnable(w, t[i])
    requires |StuckNotAfter(w, t, i)| < BATCH_LIMIT && |run| > Work(w, t)
    ensures exists k :: 0 <= k <= Work(w, t) && InBatch(run[k].batch, t[i].id)
  {
    hide IsBatch, RunBatch, StuckBefore, StuckNotAfter, UniqueIds, RealRun, Work, Runnable, InBatch;
    var p := run[..Work(w, t) + 1];
    RunPrefix(w, t, run, Work(w, t) + 1);
    if !Selects(p, t[i].id) { UnselectedWorks(w, t, p, i); }
    var k :| 0 <= k < |p| && InBatch(p[k].batch, t[i].id);
    assert run[k] == p[k];
  }

  // ----- what ties leave open: batches that favour or disfavour one row -----

  /** The SELECT's order, with ties decided for or against one id. */
  function Preferring(id: string, first: bool): (Job, Job) -> bool {
    (a, b) => Before(a, b) || (!Before(b, a) && if first then a.id == id && b.id != id else a.id != id && b.id == id)
  }

  function IsPending(): Job -> bool {
    (j: Job) => j.status.Pending?
  }

  lemma PreferringWeak(id: string, first: bool)
    ensures Sorting.StrictWeak(Preferring(id, first))
  {
  }

  lemma {:induction false} PendingRows(t: Table)
    requires UniqueIds(t)
    ensures var s := Sorting.Filter(t, IsPending()); |s| == PendingCount(t) && UniqueIds(s)
  {
    if t != [] {
      var n := |t| - 1;
      assert t == t[..n] + [t[n]];
      PendingRows(t[..n]);
      Sorting.FilterConcat(t[..n], [t[n]], IsPending());
      Sorting.FilterOne(t[n], IsPending());
      var s := Sorting.Filter(t[..n], IsPending());
      NewRow(t, n, s);
      hide UniqueIds, Sorting.Filter;
      assert s + [] == s;
    }
  }

  lemma NewRow(t: Table, n: nat, s: seq<Job>)
    requires UniqueIds(t) && |t| == n + 1 && UniqueIds(s) && forall j :: j in s ==> j in t[..n]
    ensures UniqueIds(s + [t[n]])
  {
    forall j | 0 <= j < |s| ensures s[j].id != t[n].id { assert s[j] in t[..n]; }
  }

  lemma UniqueIdsPermuted(a: seq<Job>, b: seq<Job>)
    requires UniqueIds(a) && multiset(a) == multiset(b)
    ensures UniqueIds(b)
  {
    forall i, j | 0 <= i < j < |b| ensures b[i].id != b[j].id {
      assert b == b[..i] + [b[i]] + b[i + 1..j] + [b[j]] + b[j + 1..];
      assert multiset(b) >= multiset{b[i], b[j]};
      assert b[i] in multiset(a) && b[j] in multiset(a);
      assert b[i] == b[j] ==> multiset(a)[b[i]] >= 2;
      if b[i] == b[j] { OnlyOnce(a, b[i]); }
    }
  }

  lemma {:induction false} OnlyOnce(a: seq<Job>, x: Job)
    requires UniqueIds(a)
    ensures multiset(a)[x] <= 1
  {
    if a != [] {
      assert a == [a[0]] + a[1..];
      OnlyOnce(a[1..], x);
      assert a[0] !in a[1..];
    }
  }

  /** All pending rows in the preferred order. */
  function Arranged(t: Table, id: string, first: bool): seq<Job> {
    Sorting.Sort(Sorting.Filter(t, IsPending()), Preferring(id, first))
  }

  lemma ArrangedRows(t: Table, id: string, first: bool)
    requires UniqueIds(t)
    ensures var s := Arranged(t, id, first);
      && |s| == PendingCount(t) && UniqueIds(s) && (forall j :: j in s <==> j in t && j.status.Pending?)
      && (forall i, j :: 0 <= i < j < |s| ==> !Preferring(id, first)(s[j], s[i]))
  {
    var rows, lt := Sorting.Filter(t, IsPending()), Preferring(id, first);
    var always := (a: Job, b: Job) => true;
    PendingRows(t);
    PreferringWeak(id, first);
    Sorting.SortStable(rows, lt, always);
    Sorting.SortMembers(rows, lt);
    var s := Sorting.Sort(rows, lt);
    UniqueIdsPermuted(rows, s);
    forall i, j | 0 <= i < j < |s| ensures !lt(s[j], s[i]) {
      assert Sorting.Before(lt, always, s[i], s[j]);
      PreferringOneWay(id, first, s[i], s[j]);
    }
  }

  lemma PreferringOneWay(id: string, first: bool, a: Job, b: Job)
    ensures !(Preferring(id, first)(a, b) && Preferring(id, first)(b, a))
  {
  }

  /** A batch the SELECT may return: the first ten rows of the preferred order. */
  function Preferred(t: Table, id: string, first: bool): seq<Job> {
    var s := Arranged(t, id, first);
    if |s| < BATCH_LIMIT then s else s[..BATCH_LIMIT]
  }

  lemma PreferredIsBatch(t: Table, id: string, first: bool)
    requires UniqueIds(t)
    ensures IsBatch(t, Preferred(t, id, first))
  {
    ArrangedRows(t, id, first);
    var s := Arranged(t, id, first);
    hide Arranged, UniqueIds;
    forall i, j | 0 <= i < j < |s| ensures !Before(s[j], s[i]) { assert !Preferring(id, first)(s[j], s[i]); }
    hide Preferring;
    PrefixIsBatch(t, s);
  }

  /** The first ten of all pending rows in order. */
  lemma PrefixIsBatch(t: Table, s: seq<Job>)
    requires |s| == PendingCount(t) && UniqueIds(s) && forall j :: j in s <==> j in t && j.status.Pending?
    requires forall i, j :: 0 <= i < j < |s| ==> !Before(s[j], s[i])
    ensures IsBatch(t, if |s| < BATCH_LIMIT then s else s[..BATCH_LIMIT])
  {
    hide Before, UniqueIds;
    var n := if |s| < BATCH_LIMIT then |s| else BATCH_LIMIT;
    var batch := s[..n];
    assert |s| < BATCH_LIMIT ==> batch == s;
    UniquePrefix(s, n);
    assert forall b :: b in batch ==> b in s;
    assert forall k :: 0 <= k < n ==> s[k] in batch;
    forall r, b | r in t && r.status.Pending? && r !in batch && b in batch ensures !Before(r, b) {
      assert r in s;
      var p :| 0 <= p < |s| && s[p] == r;
      var q :| 0 <= q < |batch| && batch[q] == b;
      assert s[q] == b;
    }
  }

  lemma UniquePrefix(s: seq<Job>, n: nat)
    requires UniqueIds(s) && n <= |s|
    ensures UniqueIds(s[..n])
  {
  }

  /** Favoured and yet left out, the row has only rows strictly before it in the batch. */
  lemma FavouredOut(t: Table, i: nat)
    requires UniqueIds(t) && i < |t| && t[i].status.Pending? && t[i] !in Preferred(t, t[i].id, true)
    ensures forall b :: b in Preferred(t, t[i].id, true) ==> Before(b, t[i])
  {
    var s, batch := Arranged(t, t[i].id, true), Preferred(t, t[i].id, true);
    ArrangedRows(t, t[i].id, true);
    hide Arranged, UniqueIds, Before;
    assert t[i] in s;
    var p :| 0 <= p < |s| && s[p] == t[i];
    forall b | b in batch ensures Before(b, t[i]) {
      var q :| 0 <= q < |batch| && batch[q] == b;
      assert s[q] == b && q < p;
      assert !Preferring(t[i].id, true)(s[p], s[q]);
      OtherRow(s, q, p);
    }
  }

  lemma OtherRow(s: seq<Job>, q: nat, p: nat)
    requires UniqueIds(s) && q < p < |s|
    ensures s[q].id != s[p].id
  {
  }

  /** Disfavoured and yet selected, it has every other row that is not after it in the batch. */
  lemma DisfavouredIn(t: Table, i: nat, f: Job)
    requires UniqueIds(t) && i < |t| && t[i].status.Pending? && t[i] in Preferred(t, t[i].id, false)
    requires f in t && f.status.Pending? && f != t[i] && !Before(t[i], f)
    ensures f in Preferred(t, t[i].id, false)
  {
    var s, batch := Arranged(t, t[i].id, false), Preferred(t, t[i].id, false);
    ArrangedRows(t, t[i].id, false);
    RowIds(t, t[i], f);
    hide Arranged, UniqueIds, Before;
    assert f in s;
    var q :| 0 <= q < |s| && s[q] == f;
    var r :| 0 <= r < |batch| && batch[r] == t[i];
    assert s[r] == t[i];
    assert Preferring(t[i].id, false)(s[q], s[r]);
    assert q <= r;
    assert batch[q] == f;
  }

  lemma RowIds(t: Table, a: Job, b: Job)
    requires UniqueIds(t) && a in t && b in t && a != b
    ensures a.id != b.id
  {
    var i :| 0 <= i < |t| && t[i] == a;
    var j :| 0 <= j < |t| && t[j] == b;
  }

  /** Ten stuck rows before or tied with it: the SELECT may leave the row out. */
  lemma MayBeLeftOut(w: Worker, t: Table, i: nat)
    requires UniqueIds(t) && i < |t| && t[i].status.Pending? && Runnable(w, t[i])
    requires |StuckNotAfter(w, t, i)| >= BATCH_LIMIT
    ensures t[i] !in Preferred(t, t[i].id, false)
  {
    hide Runnable, Preferred;
    var batch := Preferred(t, t[i].id, false);
    PreferredIsBatch(t, t[i].id, false);
    if t[i] in batch {
      forall f | f in t && f.status.Pending? && f != t[i] && !Before(t[i], f) ensures f in batch { DisfavouredIn(t, i, f); }
      forall k | k in StuckNotAfter(w, t, i) + {i} ensures k in Places(t, batch) { assert t[k] in t; }
      SubsetSize(StuckNotAfter(w, t, i) + {i}, Places(t, batch));
      PlacesCount(t, batch);
    }
  }

  /** Fewer than ten stuck rows strictly before it: the SELECT may take the row, or takes a runnable one. */
  lemma MayBeTaken(w: Worker, t: Table, i: nat)
    requires UniqueIds(t) && i < |t| && t[i].status.Pending? && |StuckBefore(w, t, i)| < BATCH_LIMIT
    ensures var batch := Preferred(t, t[i].id, true); t[i] in batch || exists b :: b in batch && Runnable(w, b)
  {
    hide Runnable, Preferred;
    var batch := Preferred(t, t[i].id, true);
    PreferredIsBatch(t, t[i].id, true);
    if t[i] !in batch { FavouredOut(t, i); }
    if t[i] !in batch && forall b :: b in batch ==> !Runnable(w, b) {
      FullBatch(t, batch, i);
      PlacesCount(t, batch);
      SubsetSize(Places(t, batch), StuckBefore(w, t, i));
    }
  }

  function AllSucceed(): nat -> Outcome {
    n => Succeeded
  }

  /** A run of any length that never selects the row. */
  lemma {:induction false} AvoidingRun(w: Worker, t: Table, i: nat, n: nat) returns (run: seq<Pass>)
    requires UniqueIds(t) && i < |t| && t[i].status.Pending? && Runnable(w, t[i])
    requires |StuckNotAfter(w, t, i)| >= BATCH_LIMIT
    ensures |run| == n && RealRun(w, t, run) && !Selects(run, t[i].id) && Unmoved(w, t, After(w, t, run), i)
  {
    hide IsBatch, RunBatch, StuckBefore, StuckNotAfter, UniqueIds, Runnable, Selects, Preferred;
    if n == 0 {
      run := [];
      NoneSelected(t[i].id);
    } else {
      var rest := AvoidingRun(w, t, i, n - 1);
      var s := After(w, t, rest);
      var last := Pass(Preferred(s, t[i].id, false), AllSucceed());
      PreferredIsBatch(s, t[i].id, false);
      MayBeLeftOut(w, s, i);
      BatchFrom(s, last.batch);
      InBatchById(s, last.batch, i);
      SelectsLast(rest, last, t[i].id);
      ExtendRun(w, t, rest, last);
      hide RealRun;
      PassUnmoved(w, s, last.batch, last.outcomes, i);
      run := rest + [last];
    }
  }

  /** A run that selects the row, unless every one of its passes used up an attempt. */
  lemma {:induction false} SeekingRun(w: Worker, t: Table, i: nat, n: nat) returns (run: seq<Pass>)
    requires UniqueIds(t) && i < |t| && t[i].status.Pending? && |StuckBefore(w, t, i)| < BATCH_LIMIT
    ensures RealRun(w, t, run)
    ensures Selects(run, t[i].id) || (Unmoved(w, t, After(w, t, run), i) && Work(w, After(w, t, run)) + n <= Work(w, t))
  {
    hide IsBatch, RunBatch, StuckBefore, StuckNotAfter, UniqueIds, Runnable, Selects, Preferred, Work;
    run := [];
    if n > 0 {
      run := SeekingRun(w, t, i, n - 1);
      if !Selects(run, t[i].id) {
        var s := After(w, t, run);
        var last := Pass(Preferred(s, t[i].id, true), AllSucceed());
        PreferredIsBatch(s, t[i].id, true);
        MayBeTaken(w, s, i);
        BatchFrom(s, last.batch);
        InBatchById(s, last.batch, i);
        SelectsLast(run, last, t[i].id);
        ExtendRun(w, t, run, last);
        hide RealRun;
        if t[i] !in last.batch {
          PassWorks(w, s, last.batch, last.outcomes);
          PassUnmoved(w, s, last.batch, last.outcomes, i);
        }
        run := run + [last];
      }
    }
  }

  // ----- the exact conditions -----

  ghost predicate AlwaysSelected(w: Worker, t: Table, id: string) {
    forall run :: RealRun(w, t, run) && |run| > Work(w, t) ==> Selects(run, id)
  }

  ghost predicate Starves(w: Worker, t: Table, id: string) {
    forall run :: RealRun(w, t, run) ==> !Selects(run, id)
  }

  /**
    A runnable job is certain to be selected, within one pass more than the attempts there are, exactly when fewer than ten
    stuck rows are before it or tied with it; and it is never selected exactly when at least ten are strictly before it.
    In between the order of ties decides.
   */
  lemma StarvesExactly(w: Worker, t: Table, i: nat)
    requires UniqueIds(t) && i < |t| && t[i].status.Pending? && Runnable(w, t[i])
    ensures AlwaysSelected(w, t, t[i].id) <==> |StuckNotAfter(w, t, i)| < BATCH_LIMIT
    ensures Starves(w, t, t[i].id) <==> |StuckBefore(w, t, i)| >= BATCH_LIMIT
  {
    hide RealRun, StuckBefore, StuckNotAfter, UniqueIds, Runnable, Work, InBatch;
    if |StuckNotAfter(w, t, i)| < BATCH_LIMIT {
      forall run | RealRun(w, t, run) && |run| > Work(w, t) ensures Selects(run, t[i].id) { SelectedWithin(w, t, run, i); }
    } else {
      var run := AvoidingRun(w, t, i, Work(w, t) + 1);
    }
    if |StuckBefore(w, t, i)| >= BATCH_LIMIT {
      forall run | RealRun(w, t, run) ensures !Selects(run, t[i].id) { NeverSelected(w, t, run, i); }
    } else {
      var run := SeekingRun(w, t, i, Work(w, t) + 1);
    }
  }

  // ----- a queue in which a job starves -----

  const NO_EMBEDDER := Worker({"title", "embedding"}, {}, 3)
  const WAITING := Job("w", "title", Pending, 1, None, 0, 3, 0, None)

  /** An embedding job of a higher rank whose capability is not ready. */
  function Embedding(k: nat): Job
    requires k < 10
  {
    Job(['0' + k as char], "embedding", Pending, 0, Some("semantic"), 0, 3, 0, None)
  }

  /** Ten embedding jobs and then a title job. */
  function Clogged(): Table {
    seq(11, k requires 0 <= k < 11 => if k < 10 then Embedding(k) else WAITING)
  }

  lemma CloggedRows()
    ensures UniqueIds(Clogged()) && Clogged()[10] == WAITING && Runnable(NO_EMBEDDER, WAITING)
    ensures forall k :: 0 <= k < 10 ==> Stuck(NO_EMBEDDER, Clogged()[k]) && Before(Clogged()[k], WAITING)
  {
    forall i, j | 0 <= i < j < 11 ensures Clogged()[i].id != Clogged()[j].id {
      assert Clogged()[i].id[0] != Clogged()[j].id[0];
    }
  }

  /** The title job could run and is never selected, however long the worker polls. */
  lemma TitleStarves()
    ensures Clogged()[10] == WAITING && Runnable(NO_EMBEDDER, WAITING) && Starves(NO_EMBEDDER, Clogged(), "w")
  {
    CloggedRows();
    CloggedCount();
    hide Runnable, StuckBefore, StuckNotAfter, UniqueIds, Starves, AlwaysSelected;
    StarvesExactly(NO_EMBEDDER, Clogged(), 10);
  }

  function UpTo(n: nat): (r: set<nat>)
    ensures (forall k: nat :: k in r <==> k < n) && |r| == n
  {
    if n == 0 then {} else UpTo(n - 1) + {n - 1}
  }

  lemma StuckInFront(w: Worker, t: Table, i: nat)
    requires i < |t| && forall k: nat :: k < i ==> Stuck(w, t[k]) && Before(t[k], t[i])
    ensures |StuckBefore(w, t, i)| >= i
  {
    hide Stuck, Before;
    SubsetSize(UpTo(i), StuckBefore(w, t, i));
  }

  lemma CloggedCount()
    ensures |StuckBefore(NO_EMBEDDER, Clogged(), 10)| >= BATCH_LIMIT
  {
    CloggedRows();
    hide Runnable, Stuck, UniqueIds, Before, StuckBefore;
    StuckInFront(NO_EMBEDDER, Clogged(), 10);
  }
}
