/** What an import keeps of the order of arrival: statuses, and the archive itself. */
module LineageOrder {
  import opened Wrappers
  import opened Sorting
  import opened LineageLedger
  import opened LineageArchive
  import opened LineageRebuild
  import opened LineageRoundTrip

  // ----- statuses -----

  predicate Corrects(c: Correction, id: string, revision: string) {
    c.assertionId == id && c.assertionRevision == revision
  }

  function Matching(t: Table<Correction>, id: string, revision: string): (r: Table<Correction>)
    ensures forall e :: e in r <==> e in t && Corrects(e.value, id, revision)
  {
    if t == [] then []
    else
      assert t == [t[0]] + t[1..];
      (if Corrects(t[0].value, id, revision) then [t[0]] else []) + Matching(t[1..], id, revision)
  }

  function StatusOf(action: Action): Status {
    match action
    case Correct => Corrected
    case Retract => Retracted
    case Supersede => Superseded
  }

  predicate Newer(a: Entry<Correction>, b: Entry<Correction>) {
    a.sequence > b.sequence
  }

  /** The three statuses a correction can give. */
  predicate StatusSays(action: Action, status: Status) {
    (action.Correct? ==> status.Corrected?) && (action.Retract? ==> status.Retracted?) && (action.Supersede? ==> status.Superseded?)
  }

  /** The newest matching correction of the snapshot decides. */
  function StatusAt(l: Ledger, id: string, revision: string, snapshot: int): Status {
    var newestFirst := Sort(Matching(Visible(l.corrections, snapshot), id, revision), Newer);
    if newestFirst == [] then Active else StatusOf(newestFirst[0].value.action)
  }

  /** The entry is the newest correction of this revision within the snapshot. */
  ghost predicate Newest(l: Ledger, id: string, revision: string, snapshot: int, e: Entry<Correction>) {
    && e in l.corrections && Corrects(e.value, id, revision) && e.sequence <= snapshot
    && (forall f :: f in l.corrections && Corrects(f.value, id, revision) && f.sequence <= snapshot ==> f.sequence <= e.sequence)
  }

  lemma HeadIsNewest(ms: Table<Correction>)
    ensures var r := Sort(ms, Newer); if ms == [] then r == [] else r != [] && r[0] in ms && forall e :: e in ms ==> e.sequence <= r[0].sequence
  {
    var r := Sort(ms, Newer);
    var always := (a: Entry<Correction>, b: Entry<Correction>) => true;
    SortMembers(ms, Newer);
    SortStable(ms, Newer, always);
    if ms != [] {
      assert r[0] in r;
      forall e | e in ms ensures e.sequence <= r[0].sequence {
        assert e in r;
        var i :| 0 <= i < |r| && r[i] == e;
        assert i > 0 ==> Before(Newer, always, r[0], r[i]);
      }
    }
  }

  lemma StatusNewest(l: Ledger, id: string, revision: string, snapshot: int)
    requires Shaped(l)
    ensures (forall c :: c in l.corrections && c.sequence <= snapshot ==> !Corrects(c.value, id, revision))
            ==> StatusAt(l, id, revision, snapshot) == Active
    ensures forall e :: Newest(l, id, revision, snapshot, e) ==> StatusAt(l, id, revision, snapshot) == StatusOf(e.value.action)
    ensures forall e :: Newest(l, id, revision, snapshot, e) ==> StatusSays(e.value.action, StatusAt(l, id, revision, snapshot))
  {
    var ms := Matching(Visible(l.corrections, snapshot), id, revision);
    HeadIsNewest(ms);
    hide Matching, Visible;
    var r := Sort(ms, Newer);
    assert ms != [] ==> ms[0] in ms;
    forall e | Newest(l, id, revision, snapshot, e) ensures r != [] && r[0] == e {
      assert e in ms && r[0] in l.corrections && r[0].sequence == e.sequence;
    }
  }

  // ----- the order in which corrections are imported -----

  ghost predicate ById(env: Env, cs: seq<Correction>) {
    forall i, j :: 0 <= i < j < |cs| ==> env.less(cs[i].id, cs[j].id)
  }

  /** Among corrections of one revision, the lesser id is imported first. */
  ghost predicate TargetsInIdOrder(env: Env, done: seq<Correction>, pending: seq<Correction>) {
    && (forall i, j :: 0 <= i < j < |done| && TargetKey(done[i]) == TargetKey(done[j]) ==> env.less(done[i].id, done[j].id))
    && (forall c, d :: c in done && d in pending && TargetKey(c) == TargetKey(d) ==> env.less(c.id, d.id))
  }

  lemma SortedStrictly<T(!new)>(env: Env, t: Table<T>, n: nat, keyOf: T -> string)
    requires TableOk(t, n, keyOf) && StrictTotal(env.less)
    ensures var r := SortedById(env, t, keyOf); forall i, j :: 0 <= i < j < |r| ==> env.less(keyOf(r[i]), keyOf(r[j]))
  {
    var lt := LessBy(env, keyOf);
    var always := (a: T, b: T) => true;
    SortStable(Values(t), lt, always);
    SortedMembers(env, t, n, keyOf, keyOf);
    var r := SortedById(env, t, keyOf);
    forall i, j | 0 <= i < j < |r| ensures env.less(keyOf(r[i]), keyOf(r[j])) {
      assert Before(lt, always, r[i], r[j]) && keyOf(r[i]) != keyOf(r[j]);
    }
  }

  lemma OrderStep(env: Env, done: seq<Correction>, pending: seq<Correction>, t: Table<Assertion>, i: nat)
    requires TargetsInIdOrder(env, done, pending) && ById(env, pending)
    requires i < |pending| && Has(t, TargetKey(pending[i]))
    requires forall j :: 0 <= j < i ==> !Has(t, TargetKey(pending[j]))
    ensures TargetsInIdOrder(env, done + [pending[i]], Without(pending, i)) && ById(env, Without(pending, i))
  {
    hide Has;
    var rest := Without(pending, i);
    forall d | d in rest ensures d in pending && (TargetKey(d) == TargetKey(pending[i]) ==> env.less(pending[i].id, d.id)) {
      var k :| 0 <= k < |rest| && rest[k] == d;
      var k' := if k < i then k else k + 1;
      assert pending[k'] == d;
    }
    assert pending[i] in pending;
  }

  lemma {:induction false} LoopOrder(env: Env, l: Ledger, m: Ledger, pending: seq<Correction>, m': Ledger)
    requires Progress(env, l, m, pending)
    requires ImportCorrections(env, Content(env, l).assertions, m, pending) == Ok(m')
    requires TargetsInIdOrder(env, Values(m.corrections), pending) && ById(env, pending)
    ensures TargetsInIdOrder(env, Values(m'.corrections), [])
    decreases |pending|
  {
    hide Progress, Content, Has, TargetsInIdOrder, ById, ImportOne;
    if pending != [] {
      var i := FirstEligible(m.assertions, pending).value;
      var m1 := ImportOne(env, Content(env, l).assertions, m, pending[i]).value;
      ImportOneProgress(env, l, m, pending, i, m1);
      OrderStep(env, Values(m.corrections), pending, m.assertions, i);
      LoopOrder(env, l, m1, Without(pending, i), m');
    }
  }

  // ----- statuses after an import -----

  /** The correction of this revision that collates last by id. */
  ghost predicate LastById(env: Env, l: Ledger, id: string, revision: string, c: Correction) {
    && c in Values(l.corrections) && Corrects(c, id, revision)
    && (forall d :: d in Values(l.corrections) && Corrects(d, id, revision) ==> d == c || env.less(d.id, c.id))
  }

  lemma ImportedOrder(env: Env, l: Ledger)
    requires Valid(env, l) && StrictTotal(env.less)
    ensures var r := Import(env, Sealed(env, Content(env, l)));
      r.Ok? ==> Valid(env, r.value) && TargetsInIdOrder(env, Values(r.value.corrections), [])
  {
    hide Progress, SortedById, Has, HoldsDocuments, AppendAll, Admitted, Owners, TableOk, StrictTotal;
    var c := Content(env, l);
    var m := BaseRebuilt(env, l);
    BaseProgress(env, l, m);
    SortedStrictly(env, l.corrections, l.sequence, CorrectionKey);
    assert ById(env, c.corrections);
    hide ById, Valid;
    var r := ImportCorrections(env, c.assertions, m, c.corrections);
    assert Import(env, Sealed(env, c)) == r;
    if r.Ok? {
      LoopOrder(env, l, m, c.corrections, r.value);
      ImportKeepsValid(env, l, m, c.corrections, r.value);
    }
  }

  lemma NewestExists(l: Ledger, id: string, revision: string, snapshot: int, c: Entry<Correction>) returns (e: Entry<Correction>)
    requires c in l.corrections && Corrects(c.value, id, revision) && c.sequence <= snapshot
    ensures Newest(l, id, revision, snapshot, e)
  {
    var ms := Matching(Visible(l.corrections, snapshot), id, revision);
    HeadIsNewest(ms);
    hide Matching, Visible;
    assert c in ms;
    e := Sort(ms, Newer)[0];
  }

  /** In the rebuilt ledger the newest correction of a revision is the one that collates last by id. */
  lemma NewestIsLastById(env: Env, l: Ledger, m: Ledger, id: string, revision: string, e: Entry<Correction>)
    requires Shaped(m) && TargetsInIdOrder(env, Values(m.corrections), [])
    requires forall c :: c in Values(m.corrections) <==> c in Values(l.corrections)
    requires Newest(m, id, revision, m.sequence, e)
    ensures LastById(env, l, id, revision, e.value)
  {
    var i :| 0 <= i < |m.corrections| && m.corrections[i] == e;
    assert Values(m.corrections)[i] == e.value;
    forall d | d in Values(l.corrections) && Corrects(d, id, revision) ensures d == e.value || env.less(d.id, e.value.id) {
      var k :| 0 <= k < |m.corrections| && Values(m.corrections)[k] == d;
      assert m.corrections[k] in m.corrections;
      assert m.corrections[k].sequence <= m.corrections[i].sequence;
      assert k <= i;
      assert TargetKey(d) == TargetKey(e.value);
    }
  }

  /** The correction decides the status in the rebuilt ledger, which agrees with the source's iff the newest one acts alike. */
  ghost predicate Decides(l: Ledger, n: nat, id: string, revision: string, newest: Entry<Correction>, m: Ledger, c: Correction) {
    && StatusAt(m, id, revision, m.sequence) == StatusOf(c.action)
    && (StatusAt(m, id, revision, m.sequence) == StatusAt(l, id, revision, n) <==> c.action == newest.value.action)
  }

  /**
    Import re-sequences corrections by id: after it, a revision has the status of its correction that collates last,
    so the status survives exactly when that correction and the newest one have the same action.
   */
  lemma StatusAfterImport(env: Env, l: Ledger, n: nat, id: string, revision: string, newest: Entry<Correction>)
    requires Valid(env, l) && n <= l.sequence && StrictTotal(env.less)
    requires Newest(l, id, revision, n, newest)
    ensures var r := Import(env, Export(env, l, n).value);
      r.Ok? ==> exists c :: LastById(env, At(l, n), id, revision, c) && Decides(l, n, id, revision, newest, r.value, c)
  {
    hide Valid, At, Import, Content, Newest, LastById, StatusAt, TargetsInIdOrder;
    var s := At(l, n);
    PrefixValid(env, l, n);
    ImportedOrder(env, s);
    ImportedCorrections(env, s);
    var r := Import(env, Sealed(env, Content(env, s)));
    if r.Ok? {
      var m := r.value;
      var v := NewestValue(l, n, id, revision, newest);
      var c := RebuiltStatus(env, s, m, id, revision, v);
      ValidShaped(env, l);
      StatusNewest(l, id, revision, n);
      assert LastById(env, s, id, revision, c) && Decides(l, n, id, revision, newest, m, c);
    }
  }

  lemma NewestValue(l: Ledger, n: nat, id: string, revision: string, newest: Entry<Correction>) returns (v: Correction)
    requires Newest(l, id, revision, n, newest)
    ensures v == newest.value && v in Values(At(l, n).corrections) && Corrects(v, id, revision)
  {
    v := newest.value;
    var s := At(l, n).corrections;
    assert newest in s;
    var k :| 0 <= k < |s| && s[k] == newest;
    assert Values(s)[k] == v;
  }

  /** The status of a corrected revision in the rebuilt ledger. */
  lemma RebuiltStatus(env: Env, l: Ledger, m: Ledger, id: string, revision: string, v: Correction) returns (c: Correction)
    requires Valid(env, m) && TargetsInIdOrder(env, Values(m.corrections), [])
    requires forall d :: d in Values(m.corrections) <==> d in Values(l.corrections)
    requires v in Values(l.corrections) && Corrects(v, id, revision)
    ensures LastById(env, l, id, revision, c) && StatusAt(m, id, revision, m.sequence) == StatusOf(c.action)
  {
    hide Admitted, Owners, TableOk, StatusAt, TargetsInIdOrder, LastById, Newest;
    var f := EntryOf(m.corrections, m.sequence, CorrectionKey, v);
    var e := NewestExists(m, id, revision, m.sequence, f);
    NewestIsLastById(env, l, m, id, revision, e);
    StatusNewest(m, id, revision, m.sequence);
    c := e.value;
  }

  lemma ImportedCorrections(env: Env, l: Ledger)
    requires Valid(env, l)
    ensures var r := Import(env, Sealed(env, Content(env, l)));
      r.Ok? ==> Progress(env, l, r.value, []) && forall c :: c in Values(r.value.corrections) <==> c in Values(l.corrections)
  {
    hide Valid, Progress, SortedById, Has, HoldsDocuments, AppendAll;
    var c := Content(env, l);
    var m := BaseRebuilt(env, l);
    BaseProgress(env, l, m);
    var r := ImportCorrections(env, c.assertions, m, c.corrections);
    assert Import(env, Sealed(env, c)) == r;
    if r.Ok? {
      ImportKeepsValid(env, l, m, c.corrections, r.value);
      AllIn(env, l, r.value);
      assert forall d :: d in Values(r.value.corrections) <==> d in multiset(Values(r.value.corrections));
    }
  }

  /** Without any correction a revision is active before and after. */
  lemma UncorrectedStaysActive(env: Env, l: Ledger, n: nat, id: string, revision: string)
    requires Valid(env, l) && n <= l.sequence
    requires forall c :: c in l.corrections && c.sequence <= n ==> !Corrects(c.value, id, revision)
    ensures StatusAt(l, id, revision, n) == Active
    ensures var r := Import(env, Export(env, l, n).value); r.Ok? ==> StatusAt(r.value, id, revision, r.value.sequence) == Active
  {
    hide Admitted, Owners, TableOk, Import, Content, Matching, HoldsDocuments, Placed;
    var s := At(l, n);
    PrefixValid(env, l, n);
    StatusNewest(l, id, revision, n);
    var r := Import(env, Sealed(env, Content(env, s)));
    ImportedCorrections(env, s);
    if r.Ok? {
      var m := r.value;
      forall c | c in m.corrections ensures !Corrects(c.value, id, revision) {
        var k :| 0 <= k < |m.corrections| && m.corrections[k] == c;
        assert Values(m.corrections)[k] in Values(s.corrections);
        var e := EntryOf(s.corrections, n, CorrectionKey, c.value);
        assert e in l.corrections;
      }
      StatusNewest(m, id, revision, m.sequence);
    }
  }

  /** The status of a revision at a snapshot is the same after any further appends. */
  lemma StatusStable(env: Env, l: Ledger, events: seq<Event>, id: string, revision: string, n: nat)
    requires n <= l.sequence
    ensures StatusAt(Replay(env, l, events), id, revision, n) == StatusAt(l, id, revision, n)
  {
    hide Visible, Matching, Replay, Sort;
    ReplayKeepsSnapshots(env, l, events, n);
    assert At(l, n).corrections == At(Replay(env, l, events), n).corrections;
  }

  /** The archive of a snapshot is the same after any further appends. */
  lemma ExportStable(env: Env, l: Ledger, events: seq<Event>, n: nat)
    requires n <= l.sequence
    ensures Export(env, Replay(env, l, events), n) == Export(env, l, n) && Export(env, l, n).Ok?
  {
    hide At, Replay, Content;
    ReplayKeepsSnapshots(env, l, events, n);
  }
}
