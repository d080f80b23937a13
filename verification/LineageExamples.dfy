/** Concrete histories the ledger accepts for which a promise fails, one for each side condition of the theorems. */
module LineageExamples {
  import opened Wrappers
  import opened Sorting
  import opened LineageLedger
  import opened LineageArchive
  import opened LineageRebuild
  import opened LineageRoundTrip
  import opened LineageOrder
  import opened LineageProjection

  const STAMP := "2026-09-03T12:00:00Z"

  lemma StampOk(env: Env)
    requires env.parsesDate(STAMP)
    ensures IsTimestamp(env, STAMP)
  {
    assert MatchesShape(STAMP, "dddd-dd-ddTdd:dd:ddZ");
  }

  function SomeEntity(id: string): Entity {
    Entity(id, Field, "s", "1", None, None, STAMP, None)
  }

  function SomeAssertion(id: string, revision: string): Assertion {
    Assertion(id, revision, DerivedFrom, Declared, "x", "x", "g", None, "m", [], Finite(1.0), "public", "s", "1", STAMP)
  }

  function SomeCorrection(id: string, target: string, revision: string, action: Action, replacement: Option<string>, replacementRevision: Option<string>): Correction {
    Correction(id, target, revision, action, "g", "k", "why", STAMP, replacement, replacementRevision)
  }

  const AGENT := Agent("g", "software", "n", None)
  const ACTIVITY := Activity("k", "correction", None, None, STAMP, None, [])

  /** An agent, a correction activity and one entity, all that assertions and corrections need. */
  function Ground(): Ledger {
    Ledger(3, [Entry("x", 3, SomeEntity("x"))], [Entry("g", 1, AGENT)], [Entry("k", 2, ACTIVITY)], [], [], [])
  }

  lemma Extended(env: Env, l: Ledger, x: Event)
    requires Valid(env, l) && Check(env, l, x).None?
    ensures Append(env, l, x) == Ok(Extend(l, x)) && Valid(env, Extend(l, x))
    ensures forall rest :: Replay(env, l, [x] + rest) == Replay(env, Extend(l, x), rest)
  {
    hide Valid, Check;
    AppendKeepsValid(env, l, x);
    forall rest: seq<Event> ensures Replay(env, l, [x] + rest) == Replay(env, Extend(l, x), rest) {
      assert ([x] + rest)[0] == x && ([x] + rest)[1..] == rest;
    }
  }

  lemma LetterOk(c: char)
    requires 'a' <= c <= 'z' || 'A' <= c <= 'Z' || '0' <= c <= '9'
    ensures IsIdentity([c])
  {
  }

  lemma AgentCheck(env: Env)
    ensures Check(env, Empty, NewAgent(AGENT)).None?
  {
    LetterOk('g');
    LetterOk('n');
    hide IsIdentity;
  }

  lemma ActivityCheck(env: Env, l: Ledger)
    requires env.parsesDate(STAMP) && l.activities == []
    ensures Check(env, l, NewActivity(ACTIVITY)).None?
  {
    StampOk(env);
    LetterOk('k');
    hide IsTimestamp, IsIdentity;
  }

  lemma EntityCheck(env: Env, l: Ledger)
    requires env.parsesDate(STAMP) && l.entities == []
    ensures Check(env, l, NewEntity(SomeEntity("x"))).None?
  {
    StampOk(env);
    LetterOk('x');
    LetterOk('s');
    LetterOk('1');
    hide IsTimestamp, IsIdentity;
  }

  lemma GroundReached(env: Env) returns (es: seq<Event>)
    requires env.parsesDate(STAMP)
    ensures forall rest :: Replay(env, Empty, es + rest) == Replay(env, Ground(), rest)
    ensures Valid(env, Ground())
  {
    hide Valid, Check, Replay;
    var a, b, c := NewAgent(AGENT), NewActivity(ACTIVITY), NewEntity(SomeEntity("x"));
    EmptyValid(env);
    AgentCheck(env);
    ActivityCheck(env, Extend(Empty, a));
    EntityCheck(env, Extend(Extend(Empty, a), b));
    Extended(env, Empty, a);
    Extended(env, Extend(Empty, a), b);
    Extended(env, Extend(Extend(Empty, a), b), c);
    assert Extend(Extend(Extend(Empty, a), b), c) == Ground();
    es := [a, b, c];
    forall rest ensures Replay(env, Empty, es + rest) == Replay(env, Ground(), rest) {
      assert es + rest == [a] + ([b] + ([c] + rest));
    }
  }

  // ----- appending to the ground -----

  predicate OnGround(l: Ledger) {
    l.entities == Ground().entities && l.agents == Ground().agents && l.activities == Ground().activities
  }

  predicate Plain(s: string) {
    s != "" && 'a' <= s[0] <= 'z' && 'a' <= s[|s| - 1] <= 'z'
  }

  lemma PlainOk(s: string)
    requires Plain(s)
    ensures IsIdentity(s)
  {
  }

  lemma AssertionAppends(env: Env, l: Ledger, id: string, revision: string)
    requires Valid(env, l) && env.parsesDate(STAMP) && OnGround(l) && Plain(id) && Plain(revision)
    requires !Has(l.assertions, Join(id, revision))
    requires HasRevisionOf(l.assertions, id) ==> HasPermission(l.corrections, id, revision)
    ensures Check(env, l, NewAssertion(SomeAssertion(id, revision))).None?
  {
    var x := SomeAssertion(id, revision);
    assert CheckAssertionContent(env, l, x).None? by {
      StampOk(env);
      PlainOk(id);
      PlainOk(revision);
      PlainOk("m");
      PlainOk("s");
      LetterOk('1');
      hide IsIdentity, IsTimestamp, Valid;
      assert Get(l.entities, "x") == Some(SomeEntity("x"));
      assert l.agents[0].key == "g" && Has(l.agents, "g");
    }
    ReplacementChecked(env, l, x);
  }

  lemma CorrectionAppends(env: Env, l: Ledger, c: Correction)
    requires Valid(env, l) && env.parsesDate(STAMP) && OnGround(l)
    requires Plain(c.id) && c.reason == "why" && c.recordedAt == STAMP && c.issuerAgentId == "g" && c.activityId == "k"
    requires Has(l.assertions, TargetKey(c)) && !Has(l.corrections, c.id)
    requires if c.action == Retract then c.replacementAssertionId == None && c.replacementRevision == None
             else NamesReplacement(c) && (c.action == Correct || c.replacementAssertionId != Some(c.assertionId))
    ensures Check(env, l, NewCorrection(c)).None?
  {
    StampOk(env);
    PlainOk(c.id);
    PlainOk("why");
    hide IsIdentity, IsTimestamp, Valid, TargetKey;
    assert l.agents[0].key == "g" && Has(l.agents, "g");
    assert Get(l.activities, "k") == Some(ACTIVITY);
    assert CheckCorrectionContent(env, l, c).None?;
    hide CheckCorrectionContent;
  }

  // ----- a dropped correction behind a lossless receipt -----

  const FULL := Capabilities([Field], [DerivedFrom], [Declared], true, true)
  const SPLIT := SomeAssertion("a", "b@c")
  const RETRACTION := SomeCorrection("r", "a@b", "c", Retract, None, None)

  /** The retraction of `a@b` revision `c` is accepted for the assertion `a` revision `b@c`, as both have the key `a@b@c`. */
  function Collided(): Ledger {
    Ground().(sequence := 5, assertions := [Entry("a@b@c", 4, SPLIT)], corrections := [Entry("r", 5, RETRACTION)])
  }

  lemma CollidedReached(env: Env) returns (es: seq<Event>)
    requires env.parsesDate(STAMP)
    ensures Replay(env, Empty, es) == Collided() && Valid(env, Collided())
  {
    var x, y := NewAssertion(SPLIT), NewCorrection(RETRACTION);
    hide Valid, Check, Replay, IsIdentity;
    var base := GroundReached(env);
    AssertionAppends(env, Ground(), "a", "b@c");
    Extended(env, Ground(), x);
    var l := Extend(Ground(), x);
    assert Join("a", "b@c") == "a@b@c" && Join("a@b", "c") == "a@b@c";
    assert l.assertions[0].key == "a@b@c";
    CorrectionAppends(env, l, RETRACTION);
    Extended(env, l, y);
    assert Extend(l, y) == Collided();
    es := base + ([x] + ([y] + []));
    EmptyReplay(env, Collided());
  }

  lemma EmptyReplay(env: Env, l: Ledger)
    ensures Replay(env, l, []) == l
  {
  }

  lemma SortOne<T>(x: T, lt: (T, T) -> bool)
    ensures Sort([x], lt) == [x]
  {
    assert [x][1..] == [];
  }

  lemma SortedOne<T>(env: Env, t: Table<T>, keyOf: T -> string)
    requires |t| == 1
    ensures SortedById(env, t, keyOf) == [t[0].value]
  {
    assert Values(t) == [t[0].value];
    SortOne(t[0].value, LessBy(env, keyOf));
  }

  lemma CollidedContent(env: Env)
    ensures var c := Content(env, Collided()); c.entities == [SomeEntity("x")] && c.assertions == [SPLIT] && c.corrections == [RETRACTION]
  {
    hide SortedById;
    var l := Collided();
    SortedOne(env, l.entities, EntityKey);
    SortedOne(env, l.assertions, AssertionId);
    SortedOne(env, l.corrections, CorrectionKey);
  }

  /** A lossless receipt although the snapshot's only correction is dropped. */
  lemma LosslessDropsCorrection(env: Env)
    requires env.parsesDate(STAMP)
    ensures Valid(env, Collided())
    ensures var p := ProjectContent(env, FULL, Content(env, Collided())); p.lossless && p.corrections == []
    ensures |Content(env, Collided()).corrections| == 1
  {
    var es := CollidedReached(env);
    CollidedContent(env);
    hide Valid, Content;
    FullProjection(env, Content(env, Collided()));
  }

  lemma FullProjection(env: Env, c: ArchiveContent)
    requires c.entities == [SomeEntity("x")] && c.assertions == [SPLIT] && c.corrections == [RETRACTION]
    ensures var p := ProjectContent(env, FULL, c); p.lossless && p.corrections == []
  {
    NoEntityLoss(env, FULL, c.entities, 0);
    FilterAll(c.entities, x => EntityKept(FULL, x));
    var kept := Kept(c.entities, FULL);
    assert kept[0].id == "x" && HasId(kept, "x");
    assert AssertionReason(FULL, kept, SPLIT).None?;
    NoAssertionLoss(env, FULL, kept, c.assertions, 0);
    FilterAll(c.assertions, x => AssertionReason(FULL, kept, x).None?);
    assert !HasAssertionId([SPLIT], "a@b");
    FilterNone(c.corrections, (x: Correction) => HasAssertionId([SPLIT], x.assertionId));
    hide AssertionReason, HasId;
  }

  // ----- when no correction waits for another -----

  ghost predicate NothingWaits(l: Ledger) {
    forall c :: c in Values(l.corrections) ==> !NamedBy(Values(l.corrections), TargetKey(c))
  }

  lemma NothingWaitsNoDeadlock(l: Ledger)
    requires NothingWaits(l)
    ensures NoDeadlock(l)
  {
    hide NamedBy;
    forall waiting | waiting != {} ensures !Deadlock(l, waiting) {
      var c :| c in waiting;
    }
  }

  lemma WithoutFirst<T>(xs: seq<T>)
    requires xs != []
    ensures Without(xs, 0) == xs[1..]
  {
  }

  /** Then the corrections are imported in plain id order. */
  lemma {:induction false} PlainOrder(cs: seq<Correction>, taken: seq<Correction>, pending: seq<Correction>)
    requires forall i :: 0 <= i < |pending| ==> !NamedBy(cs, TargetKey(pending[i]))
    ensures ImportOrder(cs, taken, pending) == taken + pending
    decreases |pending|
  {
    hide NamedBy, TargetKey, Without;
    if pending == [] {
      assert taken + pending == taken;
    } else {
      WithoutFirst(pending);
      assert Arrived(cs, taken, TargetKey(pending[0]));
      assert FirstReady(cs, taken, pending) == Some(0);
      hide Arrived, FirstReady;
      PlainOrder(cs, taken + [pending[0]], pending[1..]);
      assert taken + [pending[0]] + pending[1..] == taken + pending;
    }
  }

  /** With two corrections that wait for nothing, the import's order is their id order. */
  lemma TwoTurns(env: Env, l: Ledger, a: Correction, b: Correction)
    requires NothingWaits(l) && multiset(Values(l.corrections)) == multiset{a, b}
    requires SortedById(env, l.corrections, CorrectionKey) == [a, b]
    ensures OrderPermits(env, l) <==> TurnPermits(l, [a, b], [], a) && TurnPermits(l, [a, b], [a], b)
  {
    hide TurnPermits, SortedById, NamedBy, PermitsFrom, ImportOrder;
    var cs := [a, b];
    assert forall c :: c in cs ==> c in multiset(Values(l.corrections));
    forall i | 0 <= i < 2 ensures !NamedBy(cs, TargetKey(cs[i])) {
      NamedSameMembers(Values(l.corrections), cs, TargetKey(cs[i]));
    }
    hide TargetKey;
    PlainOrder(cs, [], cs);
    assert [] + cs == cs;
    PermitsBoth(l, cs);
  }

  lemma PermitsBoth(l: Ledger, cs: seq<Correction>)
    requires |cs| == 2
    ensures PermitsFrom(l, cs, cs, 0) <==> TurnPermits(l, cs, [], cs[0]) && TurnPermits(l, cs, [cs[0]], cs[1])
  {
    hide TurnPermits;
    assert cs[..0] == [] && cs[..1] == [cs[0]];
  }

  lemma NamedSameMembers(a: seq<Correction>, b: seq<Correction>, key: string)
    requires multiset(a) == multiset(b)
    ensures NamedBy(a, key) <==> NamedBy(b, key)
  {
    forall c ensures c in a <==> c in b { assert c in a <==> c in multiset(a); }
    NamedSame(a, b, key);
  }

  // ----- an import that meets the supersession before the correction -----

  const CORRECTING := SomeCorrection("z", "a", "p", Correct, Some("a"), Some("q"))
  const SUPERSEDING := SomeCorrection("y", "b", "p", Supersede, Some("a"), Some("q"))

  /** `a@p` corrected to `a@q`, then `b@p` superseded by that same `a@q`. */
  function Crossed(): Ledger {
    Ground().(sequence := 8,
              assertions := [Entry("a@p", 4, SomeAssertion("a", "p")), Entry("b@p", 5, SomeAssertion("b", "p")), Entry("a@q", 7, SomeAssertion("a", "q"))],
              corrections := [Entry("z", 6, CORRECTING), Entry("y", 8, SUPERSEDING)])
  }

  /** The ledger after the first four records on the ground. */
  function HalfCrossed(): Ledger {
    Ground().(sequence := 6,
              assertions := [Entry("a@p", 4, SomeAssertion("a", "p")), Entry("b@p", 5, SomeAssertion("b", "p"))],
              corrections := [Entry("z", 6, CORRECTING)])
  }

  lemma HalfCrossedReached(env: Env) returns (es: seq<Event>)
    requires env.parsesDate(STAMP)
    ensures Valid(env, HalfCrossed())
    ensures forall rest :: Replay(env, Empty, es + rest) == Replay(env, HalfCrossed(), rest)
  {
    hide Valid, Check, Replay, IsIdentity;
    var a, b, z := NewAssertion(SomeAssertion("a", "p")), NewAssertion(SomeAssertion("b", "p")), NewCorrection(CORRECTING);
    var base := GroundReached(env);
    var l0 := Ground();
    var l1 := Extend(l0, a);
    var l2 := Extend(l1, b);
    CrossedKeys();
    AssertionAppends(env, l0, "a", "p");
    Extended(env, l0, a);
    AssertionAppends(env, l1, "b", "p");
    Extended(env, l1, b);
    assert l2.assertions[0].key == "a@p";
    CorrectionAppends(env, l2, CORRECTING);
    Extended(env, l2, z);
    assert Extend(l2, z) == HalfCrossed();
    es := base + [a, b, z];
    forall rest ensures Replay(env, Empty, es + rest) == Replay(env, HalfCrossed(), rest) {
      assert es + rest == base + ([a] + ([b] + ([z] + rest)));
    }
  }

  lemma CrossedReached(env: Env) returns (es: seq<Event>)
    requires env.parsesDate(STAMP)
    ensures Replay(env, Empty, es) == Crossed() && Valid(env, Crossed())
  {
    hide Valid, Check, Replay, IsIdentity;
    var q, y := NewAssertion(SomeAssertion("a", "q")), NewCorrection(SUPERSEDING);
    var base := HalfCrossedReached(env);
    var l3 := HalfCrossed();
    var l4 := Extend(l3, q);
    CrossedKeys();
    assert Permits(l3.corrections[0].value, "a", "q");
    AssertionAppends(env, l3, "a", "q");
    Extended(env, l3, q);
    assert l4.assertions[1].key == "b@p";
    CorrectionAppends(env, l4, SUPERSEDING);
    Extended(env, l4, y);
    assert Extend(l4, y) == Crossed();
    es := base + ([q] + ([y] + []));
    EmptyReplay(env, Crossed());
  }

  lemma CrossedKeys()
    ensures Join("a", "p") == "a@p" && Join("b", "p") == "b@p" && Join("a", "q") == "a@q"
    ensures "a@p" != "a@q" && "b@p" != "a@q"
  {
    assert "a@p"[2] != "a@q"[2] && "b@p"[0] != "a@q"[0];
  }

  lemma CrossedNames()
    ensures Values(Crossed().corrections) == [CORRECTING, SUPERSEDING]
    ensures Names(SUPERSEDING, "a@q") && Names(CORRECTING, "a@q") && TargetKey(SUPERSEDING) == "b@p" && TargetKey(CORRECTING) == "a@p"
    ensures !NamedBy([CORRECTING, SUPERSEDING], "a@p") && !NamedBy([CORRECTING, SUPERSEDING], "b@p")
    ensures !NamedBy([SUPERSEDING, CORRECTING], "a@p")
  {
    CrossedKeys();
  }

  lemma CrossedConditions()
    ensures ReplacementsPresent(Crossed()) && NothingWaits(Crossed())
  {
    CrossedNames();
    CrossedKeys();
    assert Crossed().assertions[2].key == "a@q";
    hide Crossed, NamedBy;
  }

  lemma SortOneOrOther<T>(a: T, b: T, lt: (T, T) -> bool)
    ensures Sort([a, b], lt) == if lt(b, a) then [b, a] else [a, b]
  {
    assert [a, b][1..] == [b];
    SortOne(b, lt);
    assert [b][1..] == [] && Insert(a, [], lt) == [a];
    assert lt(b, a) ==> Insert(a, [b], lt) == [b] + Insert(a, [b][1..], lt);
  }

  lemma CrossedOrder(env: Env)
    ensures SortedById(env, Crossed().corrections, CorrectionKey)
         == if env.less("y", "z") then [SUPERSEDING, CORRECTING] else [CORRECTING, SUPERSEDING]
  {
    CrossedNames();
    SortOneOrOther(CORRECTING, SUPERSEDING, LessBy(env, CorrectionKey));
  }

  /** The supersession's turn first: it would bring in the second revision of `a` without permission. */
  lemma SupersedingFirst()
    ensures !TurnPermits(Crossed(), [SUPERSEDING, CORRECTING], [], SUPERSEDING)
  {
    CrossedNames();
    var e, f := Entry("a@q", 7, SomeAssertion("a", "q")), Entry("a@p", 4, SomeAssertion("a", "p"));
    assert Crossed().assertions[2] == e && Crossed().assertions[0] == f;
    hide NamedBy;
    NoNamesInNone("a@q");
    assert Meets(Crossed(), [SUPERSEDING, CORRECTING], [], SUPERSEDING, e, f);
  }

  lemma NoNamesInNone(key: string)
    ensures !NamedBy([], key)
  {
  }

  lemma CorrectingFirst()
    ensures TurnPermits(Crossed(), [CORRECTING, SUPERSEDING], [], CORRECTING)
    ensures TurnPermits(Crossed(), [CORRECTING, SUPERSEDING], [CORRECTING], SUPERSEDING)
  {
    CrossedKeys();
    CrossedNames();
    assert [CORRECTING][0] == CORRECTING && NamedBy([CORRECTING], "a@q");
    forall e, f | Meets(Crossed(), [CORRECTING, SUPERSEDING], [], CORRECTING, e, f) ensures Permits(CORRECTING, e.value.id, e.value.revision) {
      assert e.key == "a@q";
    }
    hide NamedBy, Permits;
    forall e, f ensures !Meets(Crossed(), [CORRECTING, SUPERSEDING], [CORRECTING], SUPERSEDING, e, f) {
      assert Names(SUPERSEDING, e.key) ==> e.key == "a@q";
    }
  }

  /**
    The history is accepted, every replacement is present and nothing waits; whether its archive can be imported hangs on
    how the ids of the two corrections collate.
   */
  lemma CrossedExactly(env: Env)
    requires env.parsesDate(STAMP)
    ensures Valid(env, Crossed()) && ReplacementsPresent(Crossed()) && NoDeadlock(Crossed())
    ensures Import(env, Sealed(env, Content(env, Crossed()))).Ok? <==> !env.less("y", "z")
  {
    var es := CrossedReached(env);
    CrossedNames();
    CrossedConditions();
    CrossedOrder(env);
    NothingWaitsNoDeadlock(Crossed());
    SupersedingFirst();
    CorrectingFirst();
    hide Valid, NamedBy, Names, Import, SortedById, ReplacementsPresent, NothingWaits, OrderPermits, TurnPermits, NoDeadlock;
    ImportSucceedsIff(env, Crossed());
    if env.less("y", "z") {
      TwoTurns(env, Crossed(), SUPERSEDING, CORRECTING);
    } else {
      TwoTurns(env, Crossed(), CORRECTING, SUPERSEDING);
    }
  }

  // ----- a status that an import changes -----

  const RETRACTING := SomeCorrection("z", "a", "p", Retract, None, None)
  const REVISING := SomeCorrection("y", "a", "p", Correct, Some("a"), Some("q"))

  /** `a@p` retracted and afterwards corrected to `a@q`. */
  function Revised(): Ledger {
    Ground().(sequence := 7,
              assertions := [Entry("a@p", 4, SomeAssertion("a", "p")), Entry("a@q", 7, SomeAssertion("a", "q"))],
              corrections := [Entry("z", 5, RETRACTING), Entry("y", 6, REVISING)])
  }

  lemma RevisedReached(env: Env) returns (es: seq<Event>)
    requires env.parsesDate(STAMP)
    ensures Replay(env, Empty, es) == Revised() && Valid(env, Revised())
  {
    hide Valid, Check, Replay, IsIdentity;
    var p, z, y, q := NewAssertion(SomeAssertion("a", "p")), NewCorrection(RETRACTING), NewCorrection(REVISING), NewAssertion(SomeAssertion("a", "q"));
    var base := GroundReached(env);
    var l0 := Ground();
    var l1 := Extend(l0, p);
    var l2 := Extend(l1, z);
    var l3 := Extend(l2, y);
    CrossedKeys();
    AssertionAppends(env, l0, "a", "p");
    Extended(env, l0, p);
    assert l1.assertions[0].key == "a@p";
    CorrectionAppends(env, l1, RETRACTING);
    Extended(env, l1, z);
    assert l2.assertions[0].key == "a@p";
    CorrectionAppends(env, l2, REVISING);
    Extended(env, l2, y);
    assert Permits(l3.corrections[1].value, "a", "q");
    AssertionAppends(env, l3, "a", "q");
    Extended(env, l3, q);
    assert Extend(l3, q) == Revised();
    es := base + ([p] + ([z] + ([y] + ([q] + []))));
    EmptyReplay(env, Revised());
  }

  lemma RevisedNames()
    ensures Values(Revised().corrections) == [RETRACTING, REVISING]
    ensures Names(REVISING, "a@q") && TargetKey(REVISING) == "a@p" && TargetKey(RETRACTING) == "a@p"
    ensures !NamedBy([RETRACTING, REVISING], "a@p")
  {
    CrossedKeys();
  }

  lemma RevisedConditions()
    ensures ReplacementsPresent(Revised()) && NothingWaits(Revised())
  {
    RevisedNames();
    assert ReplacementKey(REVISING) == "a@q";
    assert Revised().assertions[1].key == "a@q";
    hide Revised, NamedBy;
  }

  lemma RevisedOrder(env: Env)
    requires env.less("y", "z")
    ensures SortedById(env, Revised().corrections, CorrectionKey) == [REVISING, RETRACTING]
  {
    RevisedNames();
    SortOneOrOther(RETRACTING, REVISING, LessBy(env, CorrectionKey));
  }

  lemma RevisedTurns()
    ensures TurnPermits(Revised(), [REVISING, RETRACTING], [], REVISING)
    ensures TurnPermits(Revised(), [REVISING, RETRACTING], [REVISING], RETRACTING)
  {
    CrossedKeys();
    RevisedNames();
    forall e, f | Meets(Revised(), [REVISING, RETRACTING], [], REVISING, e, f) ensures Permits(REVISING, e.value.id, e.value.revision) {
      assert e.key == "a@q";
    }
  }

  lemma RevisedImports(env: Env)
    requires Valid(env, Revised()) && env.less("y", "z")
    ensures Import(env, Sealed(env, Content(env, Revised()))).Ok?
  {
    RevisedNames();
    RevisedConditions();
    RevisedOrder(env);
    NothingWaitsNoDeadlock(Revised());
    RevisedTurns();
    hide Valid, NamedBy, Names, Import, SortedById, ReplacementsPresent, NothingWaits, OrderPermits, TurnPermits, NoDeadlock;
    ImportSucceedsIff(env, Revised());
    TwoTurns(env, Revised(), REVISING, RETRACTING);
  }

  lemma RevisedNewest()
    ensures Newest(Revised(), "a", "p", 7, Entry("y", 6, REVISING))
  {
    assert Revised().corrections[1] == Entry("y", 6, REVISING);
  }

  lemma RetractionIsLast(env: Env, c: Correction)
    requires StrictTotal(env.less) && env.less("y", "z") && LastById(env, Revised(), "a", "p", c)
    ensures c == RETRACTING
  {
    RevisedNames();
    var cs := Values(Revised().corrections);
    assert cs[0] == RETRACTING;
    assert RETRACTING in cs;
    assert c == RETRACTING || c == REVISING;
    assert !env.less("y", "y") && !env.less("z", "y");
  }

  /** The two corrections that decide before and after, at the newest snapshot. */
  lemma LastDecides(env: Env, l: Ledger, id: string, revision: string, newest: Entry<Correction>, last: Correction)
    requires Valid(env, l) && StrictTotal(env.less) && Newest(l, id, revision, l.sequence, newest)
    requires Import(env, Sealed(env, Content(env, l))).Ok?
    requires forall c :: LastById(env, l, id, revision, c) ==> c == last
    ensures StatusAt(l, id, revision, l.sequence) == StatusOf(newest.value.action)
    ensures var r := Import(env, Export(env, l, l.sequence).value); r.Ok? && StatusAt(r.value, id, revision, r.value.sequence) == StatusOf(last.action)
  {
    ValidShaped(env, l);
    AtNow(l);
    hide Valid, Shaped, Import, Content, StatusAt, Newest, At, StrictTotal, LastById;
    StatusNewest(l, id, revision, l.sequence);
    StatusAfterImport(env, l, l.sequence, id, revision, newest);
    var m := Import(env, Export(env, l, l.sequence).value).value;
    var c :| LastById(env, At(l, l.sequence), id, revision, c) && Decides(l, l.sequence, id, revision, newest, m, c);
  }

  /** An accepted history in which a revision reads as corrected before the export and as retracted after the import. */
  lemma StatusChanges(env: Env)
    requires env.parsesDate(STAMP) && StrictTotal(env.less) && env.less("y", "z")
    ensures Valid(env, Revised()) && StatusAt(Revised(), "a", "p", 7) == Corrected
    ensures var r := Import(env, Export(env, Revised(), 7).value); r.Ok? && StatusAt(r.value, "a", "p", r.value.sequence) == Retracted
  {
    hide Valid, Import, Content, StatusAt, Newest, StrictTotal, LastById, Export;
    var es := RevisedReached(env);
    RevisedNewest();
    RevisedImports(env);
    forall c | LastById(env, Revised(), "a", "p", c) ensures c == RETRACTING { RetractionIsLast(env, c); }
    assert Revised().sequence == 7;
    hide Revised;
    LastDecides(env, Revised(), "a", "p", Entry("y", 6, REVISING), RETRACTING);
  }
}
