/** The ledger as the object its callers hold: fields updated in place, loops over queues and pending work. */
module DatasetLineage {
  import opened Wrappers
  import opened Sorting
  import opened LineageLedger
  import opened LineageArchive
  import opened LineageRebuild
  import opened LineageRules
  import opened LineageRoundTrip
  import opened LineageTraversal
  import opened LineageQuery
  import opened LineageProjection

  // ----- what the inner loops have done after some items -----

  lemma {:induction false} PushedMore(g: Graph, xs: seq<Assertion>, x: Assertion, v: Visit)
    ensures Pushed(g, xs + [x], v)
         == Pushed(g, xs, v) + (if Touches(g, x, v.id) then [Visit(NextId(x, v.id), v.depth + 1, v.path + [x.id])] else [])
  {
    hide Touches;
    if xs == [] {
      assert xs + [x] == [x] && [x][1..] == [];
    } else {
      assert (xs + [x])[1..] == xs[1..] + [x] && (xs + [x])[0] == xs[0];
      PushedMore(g, xs[1..], x, v);
    }
  }

  lemma {:induction false} TouchedMore(g: Graph, edges: seq<Assertion>, xs: seq<Assertion>, x: Assertion, id: string)
    ensures var t := Touched(g, edges, xs, id);
            Touched(g, edges, xs + [x], id) == if Touches(g, x, id) && !EdgeKnown(t, AssertionKey(x)) then t + [x] else t
    decreases |xs|
  {
    hide Touches, EdgeKnown;
    if xs == [] {
      assert xs + [x] == [x] && [x][1..] == [];
    } else {
      assert (xs + [x])[1..] == xs[1..] + [x] && (xs + [x])[0] == xs[0];
      TouchedMore(g, if Touches(g, xs[0], id) && !EdgeKnown(edges, AssertionKey(xs[0])) then edges + [xs[0]] else edges, xs[1..], x, id);
    }
  }

  lemma {:induction false} EntityLossesMore(env: Env, caps: Capabilities, xs: seq<Entity>, x: Entity, i: nat)
    ensures EntityLosses(env, caps, xs + [x], i)
         == EntityLosses(env, caps, xs, i) + (if EntityKept(caps, x) then [] else [EntityLoss(env, x, i + |xs|)])
    decreases |xs|
  {
    hide EntityKept, EntityLoss;
    if xs == [] {
      assert xs + [x] == [x] && [x][1..] == [];
    } else {
      assert (xs + [x])[1..] == xs[1..] + [x] && (xs + [x])[0] == xs[0];
      EntityLossesMore(env, caps, xs[1..], x, i + 1);
    }
  }

  lemma {:induction false} AssertionLossesMore(env: Env, caps: Capabilities, kept: seq<Entity>, xs: seq<Assertion>, x: Assertion, i: nat)
    ensures AssertionLosses(env, caps, kept, xs + [x], i)
         == AssertionLosses(env, caps, kept, xs, i) + AssertionLoss(env, caps, kept, x, i + |xs|)
    decreases |xs|
  {
    hide AssertionReason, AssertionPath;
    if xs == [] {
      assert xs + [x] == [x] && [x][1..] == [];
    } else {
      assert (xs + [x])[1..] == xs[1..] + [x] && (xs + [x])[0] == xs[0];
      AssertionLossesMore(env, caps, kept, xs[1..], x, i + 1);
    }
  }

  class DatasetLineageLedger {
    const env: Env
    const limits: Limits
    var sequence: nat
    var entities: Table<Entity>
    var agents: Table<Agent>
    var activities: Table<Activity>
    var evidence: Table<Evidence>
    var assertions: Table<Assertion>
    var corrections: Table<Correction>

    function State(): Ledger
      reads this
    {
      Ledger(sequence, entities, agents, activities, evidence, assertions, corrections)
    }

    ghost predicate Valid()
      reads this
    {
      LineageLedger.Valid(env, State())
    }

    constructor (env: Env, limits: Limits)
      ensures this.env == env && this.limits == limits && State() == Empty && Valid()
    {
      this.env, this.limits := env, limits;
      sequence, entities, agents, activities, evidence, assertions, corrections := 0, [], [], [], [], [], [];
    }

    /** What an append answers and leaves behind, given the ledger before it. */
    ghost predicate Appended(before: Ledger, x: Event, r: Result<nat, Code>)
      reads this
    {
      Answers(env, before, x, State(), r)
    }

    /** A call answers as the append of the event does. */
    ghost predicate Follows(before: Ledger, x: Event, r: Result<nat, Code>)
      reads this
    {
      match Append(env, before, x)
      case Ok(l) => State() == l && r == Ok(l.sequence)
      case Err(code) => State() == before && r == Err(code)
    }

    lemma FollowsAppended(before: Ledger, x: Event, r: Result<nat, Code>)
      requires LineageLedger.Valid(env, before)
      ensures Follows(before, x, r) <==> Appended(before, x, r)
    {
      ValidShaped(env, before);
      hide LineageLedger.Valid, Shaped, Append, Answers;
      AnswersAppend(env, before, x, State(), r);
    }

    method AppendEntity(x: Entity) returns (r: Result<nat, Code>)
      requires Valid()
      modifies this
      ensures Valid() && Appended(old(State()), NewEntity(x), r)
    {
      hide LineageLedger.Valid, CheckEntity, Answers, Shaped;
      AppendKeepsValid(env, State(), NewEntity(x));
      var failure := CheckEntity(env, State(), x);
      if failure.Some? {
        FollowsAppended(State(), NewEntity(x), Err(failure.value));
        return Err(failure.value);
      }
      sequence, entities := sequence + 1, entities + [Entry(EntityKey(x), sequence + 1, x)];
      r := Ok(sequence);
      FollowsAppended(old(State()), NewEntity(x), r);
    }

    method AppendAgent(x: Agent) returns (r: Result<nat, Code>)
      requires Valid()
      modifies this
      ensures Valid() && Appended(old(State()), NewAgent(x), r)
    {
      hide LineageLedger.Valid, CheckAgent, Answers, Shaped;
      AppendKeepsValid(env, State(), NewAgent(x));
      var failure := CheckAgent(State(), x);
      if failure.Some? {
        FollowsAppended(State(), NewAgent(x), Err(failure.value));
        return Err(failure.value);
      }
      sequence, agents := sequence + 1, agents + [Entry(AgentKey(x), sequence + 1, x)];
      r := Ok(sequence);
      FollowsAppended(old(State()), NewAgent(x), r);
    }

    method AppendActivity(x: Activity) returns (r: Result<nat, Code>)
      requires Valid()
      modifies this
      ensures Valid() && Appended(old(State()), NewActivity(x), r)
    {
      hide LineageLedger.Valid, CheckActivity, Answers, Shaped;
      AppendKeepsValid(env, State(), NewActivity(x));
      var failure := CheckActivity(env, State(), x);
      if failure.Some? {
        FollowsAppended(State(), NewActivity(x), Err(failure.value));
        return Err(failure.value);
      }
      sequence, activities := sequence + 1, activities + [Entry(ActivityKey(x), sequence + 1, x)];
      r := Ok(sequence);
      FollowsAppended(old(State()), NewActivity(x), r);
    }

    method AppendEvidence(x: Evidence) returns (r: Result<nat, Code>)
      requires Valid()
      modifies this
      ensures Valid() && Appended(old(State()), NewEvidence(x), r)
    {
      hide LineageLedger.Valid, CheckEvidence, Answers, Shaped;
      AppendKeepsValid(env, State(), NewEvidence(x));
      var failure := CheckEvidence(env, State(), x);
      if failure.Some? {
        FollowsAppended(State(), NewEvidence(x), Err(failure.value));
        return Err(failure.value);
      }
      sequence, evidence := sequence + 1, evidence + [Entry(EvidenceKey(x), sequence + 1, x)];
      r := Ok(sequence);
      FollowsAppended(old(State()), NewEvidence(x), r);
    }

    method AppendAssertion(x: Assertion) returns (r: Result<nat, Code>)
      requires Valid()
      modifies this
      ensures Valid() && Appended(old(State()), NewAssertion(x), r)
    {
      hide LineageLedger.Valid, CheckAssertion, Answers, Shaped;
      AppendKeepsValid(env, State(), NewAssertion(x));
      var failure := CheckAssertion(env, State(), x);
      if failure.Some? {
        FollowsAppended(State(), NewAssertion(x), Err(failure.value));
        return Err(failure.value);
      }
      sequence, assertions := sequence + 1, assertions + [Entry(AssertionKey(x), sequence + 1, x)];
      r := Ok(sequence);
      FollowsAppended(old(State()), NewAssertion(x), r);
    }

    method AppendCorrection(x: Correction) returns (r: Result<nat, Code>)
      requires Valid()
      modifies this
      ensures Valid() && Appended(old(State()), NewCorrection(x), r)
    {
      hide LineageLedger.Valid, CheckCorrection, Answers, Shaped;
      AppendKeepsValid(env, State(), NewCorrection(x));
      var failure := CheckCorrection(env, State(), x);
      if failure.Some? {
        FollowsAppended(State(), NewCorrection(x), Err(failure.value));
        return Err(failure.value);
      }
      sequence, corrections := sequence + 1, corrections + [Entry(CorrectionKey(x), sequence + 1, x)];
      r := Ok(sequence);
      FollowsAppended(old(State()), NewCorrection(x), r);
    }

    /** The loop over the assertions at one expanded entity. */
    static method Expand(g: Graph, v: Visit, queue: seq<Visit>, edges: seq<Assertion>) returns (queue': seq<Visit>, edges': seq<Assertion>)
      ensures queue' == queue + Pushed(g, g.assertions, v)
      ensures edges' == Touched(g, edges, g.assertions, v.id)
    {
      hide Touches, EdgeKnown;
      queue', edges' := queue, edges;
      for i := 0 to |g.assertions|
        invariant queue' == queue + Pushed(g, g.assertions[..i], v)
        invariant edges' == Touched(g, edges, g.assertions[..i], v.id)
      {
        var a := g.assertions[i];
        assert g.assertions[..i + 1] == g.assertions[..i] + [a];
        PushedMore(g, g.assertions[..i], a, v);
        TouchedMore(g, edges, g.assertions[..i], a, v.id);
        if !Touches(g, a, v.id) { continue; }
        if !EdgeKnown(edges', AssertionKey(a)) { edges' := edges' + [a]; }
        queue' := queue' + [Visit(NextId(a, v.id), v.depth + 1, v.path + [a.id])];
      }
      assert g.assertions[..|g.assertions|] == g.assertions;
    }

    /** The search loop: a queue, the visited depths and the two result maps. */
    static method Find(g: Graph, start: Search) returns (found: Search)
      requires GraphOk(g) && QueueOk(g, start)
      ensures found == Explore(g, start)
    {
      hide QueueOk, GraphOk, KindShown, PutNode, Pushed, Touched, Has;
      var queue, visited, nodes, edges, stopped := start.queue, start.visited, start.nodes, start.edges, start.stopped;
      while queue != [] && !stopped
        invariant QueueOk(g, Search(queue, visited, nodes, edges, stopped))
        invariant Explore(g, Search(queue, visited, nodes, edges, stopped)) == Explore(g, start)
        decreases Ids(g.entities) - visited.Keys, |queue|
      {
        ghost var st := Search(queue, visited, nodes, edges, stopped);
        TurnKeepsQueue(g, st);
        TurnProgresses(g, st);
        var v := queue[0];
        queue := queue[1..];
        if v.id in visited && visited[v.id] <= v.depth {
          assert Turn(g, st) == Search(queue, visited, nodes, edges, stopped);
          continue;
        }
        visited := visited[v.id := v.depth];
        var entity := Get(g.entities, v.id).value;
        if KindShown(g, entity, v.depth) {
          nodes := PutNode(nodes, Node(entity, v.depth, v.path));
        }
        if v.depth >= g.maximumDepth {
          assert Turn(g, st) == Search(queue, visited, nodes, edges, stopped);
          continue;
        }
        queue, edges := Expand(g, v, queue, edges);
        stopped := |nodes| + |edges| > g.maximumResults;
        assert Turn(g, st) == Search(queue, visited, nodes, edges, stopped);
      }
      found := Search(queue, visited, nodes, edges, stopped);
    }

    method Traverse(r: Request, requested: Option<int>, cursor: Option<string>, p: Policy) returns (page: Result<Page, Code>)
      requires Valid()
      ensures page == LineageQuery.Traverse(env, limits, State(), r, requested, cursor, p)
    {
      hide LineageLedger.Valid, StartsAvailable, RowsOf, Fingerprint, DecodeCursor, EncodeCursor, NodesIn, EdgesIn, QueueOk, GraphOk, At, GraphOf,
        StartSearch, Slice, Take, Explore;
      var failure := CheckRequest(limits, r);
      if failure.Some? { return Err(failure.value); }
      var snapshot := requested.GetOr(sequence);
      if snapshot < 0 || snapshot > sequence { return Err(SnapshotUnavailable); }
      var s := At(State(), snapshot);
      if !StartsAvailable(s, r, p) { return Err(IdentityDangling); }
      StartsInGraph(env, s, r, p);
      var found := Find(GraphOf(env, s, r, p), StartSearch(r));
      var rows := RowsOf(env, s, r, p, found);
      assert rows == Rows(env, s, r, p);
      var fingerprint := Fingerprint(env, r, snapshot);
      var offset := 0;
      if Truthy(cursor) {
        var decoded := DecodeCursor(cursor.value, fingerprint, snapshot);
        if decoded.Err? { return Err(decoded.error); }
        offset := decoded.value;
      }
      var bounded := Take(rows, r.maximumResults);
      var shown := Slice(bounded, offset, offset + r.pageSize);
      var next := offset + |shown|;
      var nextCursor := if next < |bounded| then Some(EncodeCursor(snapshot, next, fingerprint)) else None;
      return Ok(Page(snapshot, NodesIn(shown), EdgesIn(shown), nextCursor, |rows| > r.maximumResults));
    }

    method ExportArchive(snapshot: int) returns (r: Result<Archive, Code>)
      requires Valid()
      ensures r == Export(env, State(), snapshot)
    {
      if snapshot < 0 || snapshot > sequence { return Err(SnapshotUnavailable); }
      r := Ok(Sealed(env, Content(env, At(State(), snapshot))));
    }

    /** The two filters of a projection push a loss item for everything they drop. */
    static method PushLosses(env: Env, caps: Capabilities, c: ArchiveContent, kept: seq<Entity>) returns (losses: seq<LossItem>)
      ensures losses == EntityLosses(env, caps, c.entities, 0) + AssertionLosses(env, caps, kept, c.assertions, 0)
    {
      hide EntityKept, AssertionReason;
      losses := [];
      for i := 0 to |c.entities|
        invariant losses == EntityLosses(env, caps, c.entities[..i], 0)
      {
        assert c.entities[..i + 1] == c.entities[..i] + [c.entities[i]];
        EntityLossesMore(env, caps, c.entities[..i], c.entities[i], 0);
        if !EntityKept(caps, c.entities[i]) { losses := losses + [EntityLoss(env, c.entities[i], i)]; }
      }
      assert c.entities[..|c.entities|] == c.entities;
      ghost var entityLosses := losses;
      assert entityLosses + [] == entityLosses;
      for i := 0 to |c.assertions|
        invariant losses == entityLosses + AssertionLosses(env, caps, kept, c.assertions[..i], 0)
      {
        var x := c.assertions[i];
        assert c.assertions[..i + 1] == c.assertions[..i] + [x];
        AssertionLossesMore(env, caps, kept, c.assertions[..i], x, 0);
        var reason := AssertionReason(caps, kept, x);
        if reason.Some? { losses := losses + [LossItem(AssertionPath(i), reason.value, env.digest(OfAssertion(x)))]; }
      }
      assert c.assertions[..|c.assertions|] == c.assertions;
    }

    method Project(caps: Capabilities, snapshot: int) returns (r: Result<Projection, Code>)
      requires Valid()
      ensures r == LineageProjection.Project(env, State(), caps, snapshot)
    {
      hide LineageLedger.Valid, At, Content, AssertionReason, HasId, RefersToEvidence, Referenced, HasAssertionId, EntityLosses, AssertionLosses;
      var archive := ExportArchive(snapshot);
      if archive.Err? { return Err(archive.error); }
      var c := archive.value.content;
      var kept := Kept(c.entities, caps);
      var losses := PushLosses(env, caps, c, kept);
      var assertions := KeptAssertions(caps, kept, c.assertions);
      if !caps.preservesEvidence && RefersToEvidence(assertions) {
        losses := losses + [LossItem("/evidence", EvidenceOmitted, env.digest(OfEvidence(c.evidence)))];
      }
      if !caps.preservesCorrections && c.corrections != [] {
        losses := losses + [LossItem("/corrections", CorrectionsOmitted, env.digest(OfCorrections(c.corrections)))];
      }
      assert losses == Losses(env, caps, c);
      var evidence := if caps.preservesEvidence then Filter(c.evidence, x => Referenced(assertions, EvidenceKey(x))) else [];
      var corrections := if caps.preservesCorrections then Filter(c.corrections, (x: Correction) => HasAssertionId(assertions, x.assertionId)) else [];
      return Ok(Projection(archive.value.digest, kept, assertions, evidence, corrections,
                           env.digest(OfProjection(kept, assertions, evidence, corrections)), losses == [], Sort(losses, LessLoss(env))));
    }

    method AppendEvent(x: Event) returns (r: Result<nat, Code>)
      requires Valid()
      modifies this
      ensures Valid() && Follows(old(State()), x, r)
    {
      hide LineageLedger.Valid, Append, Answers;
      match x {
      case NewEntity(y) => r := AppendEntity(y);
      case NewAgent(y) => r := AppendAgent(y);
      case NewActivity(y) => r := AppendActivity(y);
      case NewEvidence(y) => r := AppendEvidence(y);
      case NewAssertion(y) => r := AppendAssertion(y);
      case NewCorrection(y) => r := AppendCorrection(y);
      }
      FollowsAppended(old(State()), x, r);
    }

    /** One of the import's loops over an archived collection. */
    method AppendEach(events: seq<Event>) returns (failure: Option<Code>)
      requires Valid()
      modifies this
      ensures Valid()
      ensures match AppendAll(env, old(State()), events)
              case Ok(l) => State() == l && failure == None
              case Err(code) => failure == Some(code)
    {
      hide LineageLedger.Valid, Append;
      for i := 0 to |events|
        invariant Valid()
        invariant AppendAll(env, State(), events[i..]) == AppendAll(env, old(State()), events)
      {
        var r := AppendEvent(events[i]);
        assert events[i..][1..] == events[i + 1..];
        if r.Err? { return Some(r.error); }
      }
      return None;
    }

    static method ImportArchive(env: Env, limits: Limits, archive: Archive) returns (r: Result<DatasetLineageLedger, Code>)
      ensures match Import(env, archive)
              case Ok(l) => r.Ok? && fresh(r.value) && r.value.Valid() && r.value.env == env && r.value.State() == l
              case Err(code) => r == Err(code)
    {
      hide LineageLedger.Valid, AppendAll, ImportOne;
      var c := archive.content;
      if c.contract != CONTRACT || !("1." <= c.schemaVersion) { return Err(ValueInvalid); }
      if env.digest(OfArchive(c)) != archive.digest { return Err(EvidenceDigestMismatch); }
      var ledger := new DatasetLineageLedger(env, limits);
      var failure := ledger.AppendEach(BaseEvents(c));
      if failure.Some? { return Err(failure.value); }
      ghost var base := ledger.State();
      var pending := c.corrections;
      while pending != []
        invariant ledger.Valid() && fresh(ledger) && ledger.env == env
        invariant ImportCorrections(env, c.assertions, ledger.State(), pending) == ImportCorrections(env, c.assertions, base, c.corrections)
        decreases |pending|
      {
        var index := FirstEligible(ledger.assertions, pending);
        if index.None? { return Err(CorrectionInvalid); }
        var correction := pending[index.value];
        pending := Without(pending, index.value);
        var code := ledger.ImportTurn(c.assertions, correction);
        if code.Some? { return Err(code.value); }
      }
      return Ok(ledger);
    }

    /** One turn of the pending loop. */
    method ImportTurn(archived: seq<Assertion>, c: Correction) returns (failure: Option<Code>)
      requires Valid()
      modifies this
      ensures Valid()
      ensures match ImportOne(env, archived, old(State()), c)
              case Ok(l) => State() == l && failure == None
              case Err(code) => failure == Some(code)
    {
      hide LineageLedger.Valid, Append, Has, Answers;
      var r := AppendCorrection(c);
      FollowsAppended(old(State()), NewCorrection(c), r);
      if r.Err? { return Some(r.error); }
      if NamesReplacement(c) && !Has(assertions, ReplacementKey(c)) {
        var replacement := FindAssertion(archived, ReplacementKey(c));
        if replacement.None? { return Some(IdentityDangling); }
        ghost var before := State();
        r := AppendAssertion(replacement.value);
        FollowsAppended(before, NewAssertion(replacement.value), r);
        if r.Err? { return Some(r.error); }
      }
      return None;
    }
  }
}
