/** Pages of a pinned traversal: cursors lead through every row once, whatever is appended in between. */
module LineagePaging {
  import opened Wrappers
  import opened Sorting
  import opened Text
  import opened LineageLedger
  import opened LineageTraversal
  import opened LineageQuery
  import opened LineageRebuild
  import opened LineageTraversalExact
  import opened LineageReach

  // ----- cursors -----

  /** A numeral, a dot and more text split at the dot. */
  lemma SplitAtDot(d: string, tail: string)
    requires AllDigits(d)
    ensures var s := d + "." + tail;
            DigitRun(s) == |d| < |s| && s[|d|] == '.' && s[..|d|] == d && s[|d| + 1..] == tail
  {
    assert d + "." + tail == d + ("." + tail);
    DigitRunOf(d, "." + tail);
  }

  lemma CursorParts(snapshot: nat, offset: nat, fingerprint: string)
    ensures var c := EncodeCursor(snapshot, offset, fingerprint);
            var m := DigitRun(c);
      && m == |Decimal(snapshot)| < |c| && c[m] == '.' && c[..m] == Decimal(snapshot)
      && (var rest := c[m + 1..]; var n := DigitRun(rest);
          n == |Decimal(offset)| < |rest| && rest[n] == '.' && rest[..n] == Decimal(offset) && rest[n + 1..] == fingerprint)
  {
    hide DigitRun;
    var d, e := Decimal(snapshot), Decimal(offset);
    hide Decimal;
    var tail := e + "." + fingerprint;
    assert EncodeCursor(snapshot, offset, fingerprint) == d + "." + tail;
    SplitAtDot(d, tail);
    SplitAtDot(e, fingerprint);
  }

  /** A cursor is accepted exactly for the snapshot and fingerprint it was issued for, and gives its offset back. */
  lemma CursorRoundTrip(snapshot: nat, offset: nat, issued: string, asked: int, fingerprint: string)
    requires IsDigest(issued) && IsSafeInteger(offset)
    ensures DecodeCursor(EncodeCursor(snapshot, offset, issued), fingerprint, asked)
         == if asked == snapshot && fingerprint == issued then Ok(offset) else Err(CursorInvalid)
  {
    CursorParts(snapshot, offset, issued);
    ValueOfDecimal(snapshot);
    ValueOfDecimal(offset);
    hide EncodeCursor, Decimal, DigitRun, IsDigest, Value;
  }

  /** `sha256:` and 64 lower-case hexadecimal digits. */
  ghost predicate DigestText(s: string) {
    exists hex :: s == "sha256:" + hex && |hex| == 64 && forall c :: c in hex ==> '0' <= c <= '9' || 'a' <= c <= 'f'
  }

  lemma DigestTextAgrees(s: string)
    ensures IsDigest(s) <==> DigestText(s)
  {
    if IsDigest(s) {
      assert s == "sha256:" + s[7..];
      forall c | c in s[7..] ensures '0' <= c <= '9' || 'a' <= c <= 'f' {
        var i :| 0 <= i < 64 && s[7..][i] == c;
        assert IsHex(s[i + 7]);
      }
    }
    if DigestText(s) {
      var hex :| s == "sha256:" + hex && |hex| == 64 && forall c :: c in hex ==> '0' <= c <= '9' || 'a' <= c <= 'f';
      forall i | 7 <= i < 71 ensures IsHex(s[i]) { assert s[i] == hex[i - 7] && hex[i - 7] in hex; }
    }
  }

  /** Two runs of digits for the snapshot and the offset, and the fingerprint, with dots between. */
  ghost predicate CursorFor(cursor: string, snapshot: int, fingerprint: string, offset: nat) {
    exists d, e :: |d| > 0 && |e| > 0 && AllDigits(d) && AllDigits(e) && Value(d) == snapshot && Value(e) == offset
      && cursor == d + "." + e + "." + fingerprint
  }

  lemma CursorRead(cursor: string, fingerprint: string, asked: int, d: string, e: string, tail: string)
    requires |d| > 0 && |e| > 0 && AllDigits(d) && AllDigits(e) && cursor == d + "." + e + "." + tail
    ensures DecodeCursor(cursor, fingerprint, asked)
         == if IsDigest(tail) && Value(d) == asked && tail == fingerprint && IsSafeInteger(Value(e)) then Ok(Value(e)) else Err(CursorInvalid)
  {
    hide IsDigest, Value, DigitRun, AllDigits;
    DotTwice(d, e, tail);
    SplitAtDot(d, e + "." + tail);
    SplitAtDot(e, tail);
  }

  lemma DotTwice(d: string, e: string, tail: string)
    ensures d + "." + e + "." + tail == d + "." + (e + "." + tail)
  {
  }

  /** Any text is accepted as a cursor exactly when it spells this snapshot, a safe offset and this fingerprint. */
  lemma CursorAccepted(cursor: string, fingerprint: string, asked: int, offset: nat)
    ensures DecodeCursor(cursor, fingerprint, asked) == Ok(offset)
      <==> CursorFor(cursor, asked, fingerprint, offset) && DigestText(fingerprint) && offset <= 0x1F_FFFF_FFFF_FFFF
    ensures DecodeCursor(cursor, fingerprint, asked).Ok? || DecodeCursor(cursor, fingerprint, asked) == Err(CursorInvalid)
  {
    hide Value, DigestText;
    DigestTextAgrees(fingerprint);
    if DecodeCursor(cursor, fingerprint, asked) == Ok(offset) {
      var m := DigitRun(cursor);
      var rest := cursor[m + 1..];
      var n := DigitRun(rest);
      var d, e := cursor[..m], rest[..n];
      assert rest == e + "." + rest[n + 1..];
      assert cursor == d + "." + rest;
      assert cursor == d + "." + e + "." + fingerprint;
    }
    if CursorFor(cursor, asked, fingerprint, offset) {
      var d, e :| |d| > 0 && |e| > 0 && AllDigits(d) && AllDigits(e) && Value(d) == asked && Value(e) == offset && cursor == d + "." + e + "." + fingerprint;
      CursorRead(cursor, fingerprint, asked, d, e, fingerprint);
    }
  }

  lemma {:induction false} DedupeOnce(ids: seq<string>)
    ensures forall i, j :: 0 <= i < j < |Dedupe(ids)| ==> Dedupe(ids)[i] != Dedupe(ids)[j]
  {
    if ids != [] {
      var init, last := ids[..|ids| - 1], ids[|ids| - 1];
      DedupeOnce(init);
      if last !in init {
        var d := Dedupe(init);
        forall i | 0 <= i < |d| ensures d[i] != last { assert d[i] in d; }
      }
    }
  }

  lemma StartsSorted(r: Request)
    ensures StrictlySorted(SortedStarts(r), StringLess) && forall x :: x in SortedStarts(r) <==> x in r.startEntityIds
  {
    var d := Dedupe(r.startEntityIds);
    var always := (a: string, b: string) => true;
    StringsTotal();
    hide StringLess;
    DedupeOnce(r.startEntityIds);
    SortStable(d, StringLess, always);
    SortMembers(d, StringLess);
    var s := Sort(d, StringLess);
    SortDistinct(d, s);
    forall i, j | 0 <= i < j < |s| ensures StringLess(s[i], s[j]) {
      assert Before(StringLess, always, s[i], s[j]);
    }
  }

  lemma SortDistinct(a: seq<string>, b: seq<string>)
    requires Distinct(a) && multiset(a) == multiset(b)
    ensures Distinct(b)
  {
    forall i, j | 0 <= i < j < |b| ensures b[i] != b[j] {
      if b[i] == b[j] {
        assert b == b[..i] + [b[i]] + b[i + 1..j] + [b[j]] + b[j + 1..];
        assert multiset(a)[b[i]] >= 2;
        TwoOccurrences(a, b[i]);
      }
    }
  }

  /** Requests that differ only in the order and repetition of their starts have one fingerprint. */
  lemma StartOrderIsFree(env: Env, r: Request, r': Request, snapshot: int)
    requires r' == r.(startEntityIds := r'.startEntityIds) && forall x :: x in r.startEntityIds <==> x in r'.startEntityIds
    ensures Fingerprint(env, r', snapshot) == Fingerprint(env, r, snapshot)
  {
    StringsTotal();
    hide StringLess, SortedStarts;
    StartsSorted(r);
    StartsSorted(r');
    SortedUnique(SortedStarts(r'), SortedStarts(r), StringLess);
    assert r'.(startEntityIds := SortedStarts(r')) == r.(startEntityIds := SortedStarts(r));
  }

  /** With an injective digest, a cursor of another request or snapshot is refused. */
  lemma ForeignCursorRefused(env: Env, r: Request, n: nat, offset: nat, r': Request, n': nat)
    requires forall x, y :: env.digest(x) == env.digest(y) ==> x == y
    requires IsDigest(Fingerprint(env, r, n)) && IsSafeInteger(offset)
    requires n' != n || r'.(startEntityIds := SortedStarts(r')) != r.(startEntityIds := SortedStarts(r))
    ensures DecodeCursor(EncodeCursor(n, offset, Fingerprint(env, r, n)), Fingerprint(env, r', n'), n') == Err(CursorInvalid)
  {
    CursorRoundTrip(n, offset, Fingerprint(env, r, n), n', Fingerprint(env, r', n'));
    assert OfRequest(r'.(startEntityIds := SortedStarts(r')), n') != OfRequest(r.(startEntityIds := SortedStarts(r)), n);
  }

  // ----- one page -----

  predicate Asked(limits: Limits, s: Ledger, r: Request, p: Policy) {
    CheckRequest(limits, r).None? && StartsAvailable(s, r, p)
  }

  function Bounded(env: Env, limits: Limits, s: Ledger, r: Request, p: Policy): seq<Row>
    requires Asked(limits, s, r, p)
  {
    Take(Rows(env, s, r, p), r.maximumResults)
  }

  /** The cursor stands for this offset into the bounded rows. */
  predicate Stands(env: Env, r: Request, n: nat, cursor: Option<string>, offset: nat) {
    if offset == 0 then cursor == None else cursor == Some(EncodeCursor(n, offset, Fingerprint(env, r, n)))
  }

  function PageOf(env: Env, limits: Limits, s: Ledger, r: Request, n: nat, p: Policy, offset: nat): Page
    requires Asked(limits, s, r, p)
  {
    var bounded := Bounded(env, limits, s, r, p);
    var rows := Slice(bounded, offset, offset + r.pageSize);
    Page(n, NodesIn(rows), EdgesIn(rows),
         if offset + |rows| < |bounded| then Some(EncodeCursor(n, offset + |rows|, Fingerprint(env, r, n))) else None,
         |Rows(env, s, r, p)| > r.maximumResults)
  }

  lemma TraversePage(env: Env, limits: Limits, l: Ledger, r: Request, n: nat, cursor: Option<string>, offset: nat, p: Policy)
    requires n <= l.sequence && Asked(limits, At(l, n), r, p)
    requires Stands(env, r, n, cursor, offset) && IsDigest(Fingerprint(env, r, n)) && offset < r.maximumResults
    ensures Traverse(env, limits, l, r, Some(n), cursor, p) == Ok(PageOf(env, limits, At(l, n), r, n, p, offset))
  {
    hide At, Rows, Fingerprint, StartsAvailable, EncodeCursor, DecodeCursor, IsDigest, NodesIn, EdgesIn;
    if offset > 0 {
      CursorRoundTrip(n, offset, Fingerprint(env, r, n), n, Fingerprint(env, r, n));
      CursorNonEmpty(n, offset, Fingerprint(env, r, n));
    }
  }

  lemma CursorNonEmpty(snapshot: nat, offset: nat, fingerprint: string)
    ensures EncodeCursor(snapshot, offset, fingerprint) != ""
  {
  }

  // ----- all pages -----

  /** The pages a caller sees who follows the cursors, with one run of appends between each two requests. */
  function Follow(env: Env, limits: Limits, l: Ledger, runs: seq<seq<Event>>, r: Request, n: nat, cursor: Option<string>, p: Policy): seq<Page>
    decreases |runs|
  {
    var t := Traverse(env, limits, l, r, Some(n), cursor, p);
    if t.Err? then []
    else if t.value.nextCursor.None? || runs == [] then [t.value]
    else [t.value] + Follow(env, limits, Replay(env, l, runs[0]), runs[1..], r, n, t.value.nextCursor, p)
  }

  function AllNodes(pages: seq<Page>): seq<Node> {
    if pages == [] then [] else pages[0].nodes + AllNodes(pages[1..])
  }

  function AllEdges(pages: seq<Page>): seq<Edge> {
    if pages == [] then [] else pages[0].edges + AllEdges(pages[1..])
  }

  lemma {:induction false} NodesInConcat(a: seq<Row>, b: seq<Row>)
    ensures NodesIn(a + b) == NodesIn(a) + NodesIn(b)
  {
    if a == [] {
      assert a + b == b;
    } else {
      var rest := a[1..];
      assert (a + b)[0] == a[0] && (a + b)[1..] == rest + b;
      NodesInConcat(rest, b);
      var head := if a[0].NodeRow? then [a[0].node] else [];
      assert NodesIn(a) == head + NodesIn(rest) && NodesIn(a + b) == head + NodesIn(rest + b);
    }
  }

  lemma {:induction false} EdgesInConcat(a: seq<Row>, b: seq<Row>)
    ensures EdgesIn(a + b) == EdgesIn(a) + EdgesIn(b)
  {
    if a == [] {
      assert a + b == b;
    } else {
      var rest := a[1..];
      assert (a + b)[0] == a[0] && (a + b)[1..] == rest + b;
      EdgesInConcat(rest, b);
      var head := if a[0].EdgeRow? then [a[0].edge] else [];
      assert EdgesIn(a) == head + EdgesIn(rest) && EdgesIn(a + b) == head + EdgesIn(rest + b);
    }
  }

  /** The pages show these rows in order, in the number of pages the size asks for. */
  ghost predicate Covers(pages: seq<Page>, rows: seq<Row>, size: int) {
    && AllNodes(pages) == NodesIn(rows) && AllEdges(pages) == EdgesIn(rows)
    && Fits(|pages| - 1, |rows| - 1, size) && !Fits(|pages|, |rows| - 1, size)
  }

  /** The row at this index lies beyond the first `pages` pages. */
  predicate Fits(pages: int, index: int, size: int) {
    pages * size <= index
  }

  lemma CoversOne(page: Page, rows: seq<Row>, size: int)
    requires page.nodes == NodesIn(rows) && page.edges == EdgesIn(rows) && 0 < |rows| <= size
    ensures Covers([page], rows, size)
  {
    hide NodesIn, EdgesIn;
    assert [page][1..] == [] && AllNodes([page]) == page.nodes + AllNodes([]) && AllEdges([page]) == page.edges + AllEdges([]);
    assert Fits(0, |rows| - 1, size) && !Fits(1, |rows| - 1, size);
    assert page.nodes + [] == page.nodes && page.edges + [] == page.edges;
  }

  lemma CoversMore(page: Page, rest: seq<Page>, rows: seq<Row>, more: seq<Row>, size: int)
    requires page.nodes == NodesIn(rows) && page.edges == EdgesIn(rows) && |rows| == size && Covers(rest, more, size)
    ensures Covers([page] + rest, rows + more, size)
  {
    hide NodesIn, EdgesIn;
    NodesInConcat(rows, more);
    EdgesInConcat(rows, more);
    assert ([page] + rest)[1..] == rest;
    assert (|rest| + 1) * size == |rest| * size + size && (|rest| - 1) * size + size == |rest| * size;
  }

  lemma {:induction false} FollowFrom(env: Env, limits: Limits, l: Ledger, runs: seq<seq<Event>>, r: Request, n: nat, cursor: Option<string>, offset: nat,
                                      p: Policy, bounded: seq<Row>)
    requires n <= l.sequence && Asked(limits, At(l, n), r, p) && IsDigest(Fingerprint(env, r, n))
    requires bounded == Bounded(env, limits, At(l, n), r, p)
    requires Stands(env, r, n, cursor, offset) && offset < |bounded| && !Fits(|runs| + 1, |bounded| - offset - 1, r.pageSize)
    ensures Covers(Follow(env, limits, l, runs, r, n, cursor, p), bounded[offset..], r.pageSize)
    decreases |runs|
  {
    hide At, Rows, Fingerprint, StartsAvailable, EncodeCursor, IsDigest, Traverse, Replay, NodesIn, EdgesIn, Covers;
    TraversePage(env, limits, l, r, n, cursor, offset, p);
    var page := PageOf(env, limits, At(l, n), r, n, p, offset);
    var rows := Slice(bounded, offset, offset + r.pageSize);
    if |bounded| <= offset + r.pageSize {
      assert rows == bounded[offset..];
      CoversOne(page, rows, r.pageSize);
    } else {
      var next := offset + r.pageSize;
      var l' := Replay(env, l, runs[0]);
      ReplayKeepsSnapshots(env, l, runs[0], n);
      assert (|runs| + 1) * r.pageSize == |runs| * r.pageSize + r.pageSize;
      FollowFrom(env, limits, l', runs[1..], r, n, page.nextCursor, next, p, bounded);
      assert bounded[offset..] == rows + bounded[next..];
      CoversMore(page, Follow(env, limits, l', runs[1..], r, n, page.nextCursor, p), rows, bounded[next..], r.pageSize);
    }
  }

  lemma RowsNonEmpty(env: Env, l: Ledger, n: nat, limits: Limits, r: Request, p: Policy)
    requires Valid(env, l) && n <= l.sequence && Asked(limits, At(l, n), r, p)
    ensures Rows(env, At(l, n), r, p) != []
  {
    hide Valid, At, StartsAvailable, Rows, GraphOf, RowsTrue, RowsOnce, ReadableEntity;
    var s := At(l, n);
    var g, rows := GraphOf(env, s, r, p), Rows(env, s, r, p);
    TraversalExact(env, l, n, r, p);
    var start := r.startEntityIds[0];
    StartShould(env, s, r, p);
    if |rows| <= r.maximumResults {
      assert Shown(NodesIn(rows), start);
    }
  }

  lemma StartShould(env: Env, s: Ledger, r: Request, p: Policy)
    requires r.maximumDepth >= 0 && r.maximumResults >= 0 && r.startEntityIds != [] && StartsAvailable(s, r, p)
    ensures ShouldShow(GraphOf(env, s, r, p), Starts(r), r.startEntityIds[0])
  {
    var g := GraphOf(env, s, r, p);
    ReadableKnown(p, s.entities, r.startEntityIds[0]);
    assert AtDistance(g, Starts(r), r.startEntityIds[0], 0);
  }

  /**
    Paging: with the snapshot pinned, following the cursors shows every row of the bounded result exactly once and in
    order, in as many pages as the page size needs, whatever is appended (or rejected) between the requests.
   */
  lemma PagesCoverOnce(env: Env, limits: Limits, l: Ledger, runs: seq<seq<Event>>, r: Request, n: nat, p: Policy)
    requires Valid(env, l) && n <= l.sequence && Asked(limits, At(l, n), r, p) && IsDigest(Fingerprint(env, r, n))
    requires !Fits(|runs| + 1, |Bounded(env, limits, At(l, n), r, p)| - 1, r.pageSize)
    ensures Covers(Follow(env, limits, l, runs, r, n, None, p), Bounded(env, limits, At(l, n), r, p), r.pageSize)
  {
    hide Valid, At, StartsAvailable, Rows, Fingerprint, IsDigest, Follow, Covers;
    var bounded := Bounded(env, limits, At(l, n), r, p);
    RowsNonEmpty(env, l, n, limits, r, p);
    FollowFrom(env, limits, l, runs, r, n, None, 0, p, bounded);
    assert bounded[0..] == bounded;
  }

  // ----- snapshots -----

  /** A traversal pinned to a snapshot answers the same after any further appends, cursor or not. */
  lemma TraversalStable(env: Env, limits: Limits, l: Ledger, events: seq<Event>, r: Request, n: nat, cursor: Option<string>, p: Policy)
    requires n <= l.sequence
    ensures Traverse(env, limits, Replay(env, l, events), r, Some(n), cursor, p) == Traverse(env, limits, l, r, Some(n), cursor, p)
  {
    hide At, Rows, Fingerprint, StartsAvailable, DecodeCursor, EncodeCursor, CheckRequest, NodesIn, EdgesIn, Truthy, Slice, Take, Replay;
    ReplayKeepsSnapshots(env, l, events, n);
  }
}
