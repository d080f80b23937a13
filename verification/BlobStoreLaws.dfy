/** What runs of the blob store promise: nothing live is swept, no byte is lost count of, both stores report alike. */
module BlobStoreLaws {
  import opened Wrappers
  import opened Sorting
  import opened Text
  import opened BlobStore

  // ----- runs of the memory store -----

  datatype Operation = PutOp(bytes: Bytes, now: int) | ReconcileOp(live: seq<string>, remove: bool) | GcOp(cutoff: int)

  function Apply(hash: Bytes -> string, entries: Entries, op: Operation): Entries {
    match op
    case PutOp(bytes, now) => Put(entries, hash(bytes), bytes, now)
    case ReconcileOp(live, remove) => Reconciled(entries, live, remove)
    case GcOp(cutoff) => Collected(entries, cutoff)
  }

  function After(hash: Bytes -> string, entries: Entries, ops: seq<Operation>): Entries {
    if ops == [] then entries else Apply(hash, After(hash, entries, ops[..|ops| - 1]), ops[|ops| - 1])
  }

  /** Present and counted as referenced. */
  ghost predicate Protected(entries: Entries, c: string) {
    c in entries && entries[c].refcount > 0
  }

  /** Every reconciliation names the checksum as live. */
  ghost predicate Spares(ops: seq<Operation>, c: string) {
    forall i :: 0 <= i < |ops| && ops[i].ReconcileOp? ==> c in ops[i].live
  }

  lemma PutProtects(hash: Bytes -> string, entries: Entries, bytes: Bytes, now: int)
    ensures Protected(Apply(hash, entries, PutOp(bytes, now)), hash(bytes))
  {
  }

  lemma ReconcileProtects(hash: Bytes -> string, entries: Entries, live: seq<string>, remove: bool, c: string)
    requires c in entries && c in live
    ensures Protected(Apply(hash, entries, ReconcileOp(live, remove)), c)
  {
    assert c in multiset(live);
  }

  lemma StepSpares(hash: Bytes -> string, entries: Entries, op: Operation, c: string)
    requires Protected(entries, c) && (op.ReconcileOp? ==> c in op.live)
    ensures Protected(Apply(hash, entries, op), c) && Apply(hash, entries, op)[c].bytes == entries[c].bytes
  {
    if op.ReconcileOp? { assert c in multiset(op.live); }
  }

  /**
    Safety: content that was put, or was present and live in a reconciliation, stays with its bytes through any run of
    puts, collections of whatever age and reconciliations that keep naming it.
   */
  lemma {:induction false} NeverSwept(hash: Bytes -> string, entries: Entries, ops: seq<Operation>, c: string)
    requires Protected(entries, c) && Spares(ops, c)
    ensures Protected(After(hash, entries, ops), c) && After(hash, entries, ops)[c].bytes == entries[c].bytes
  {
    if ops != [] {
      NeverSwept(hash, entries, ops[..|ops| - 1], c);
      hide Apply;
      StepSpares(hash, After(hash, entries, ops[..|ops| - 1]), ops[|ops| - 1], c);
    }
  }

  /** Live in the last reconciliation and present then: still there after any puts and collections since. */
  lemma LiveStays(hash: Bytes -> string, entries: Entries, live: seq<string>, remove: bool, since: seq<Operation>, c: string)
    requires c in entries && c in live && forall i :: 0 <= i < |since| ==> !since[i].ReconcileOp?
    ensures c in After(hash, Apply(hash, entries, ReconcileOp(live, remove)), since)
  {
    ReconcileProtects(hash, entries, live, remove, c);
    hide Apply;
    NeverSwept(hash, Apply(hash, entries, ReconcileOp(live, remove)), since, c);
  }

  /** And what a collection does sweep is exactly the unreferenced content old enough. */
  lemma SweptExactly(hash: Bytes -> string, entries: Entries, live: seq<string>, cutoff: int, c: string)
    requires c in entries
    ensures c in After(hash, entries, [ReconcileOp(live, false), GcOp(cutoff)]) <==> c in live || entries[c].createdAt > cutoff
  {
    var ops := [ReconcileOp(live, false), GcOp(cutoff)];
    assert ops[..1] == [ReconcileOp(live, false)] && ops[..1][..0] == [];
    var reconciled := Reconciled(entries, live, false);
    assert After(hash, entries, ops[..1]) == reconciled;
    assert c in live <==> c in multiset(live);
    assert reconciled[c] == entries[c].(refcount := multiset(live)[c]);
    assert After(hash, entries, ops) == Collected(reconciled, cutoff);
  }

  /** Every entry's key is its content's hash. */
  ghost predicate Addressed(hash: Bytes -> string, entries: Entries) {
    forall c :: c in entries ==> hash(entries[c].bytes) == c
  }

  ghost predicate Injective(hash: Bytes -> string) {
    forall a, b :: hash(a) == hash(b) ==> a == b
  }

  lemma {:induction false} StaysAddressed(hash: Bytes -> string, entries: Entries, ops: seq<Operation>)
    requires Addressed(hash, entries)
    ensures Addressed(hash, After(hash, entries, ops))
  {
    if ops != [] { StaysAddressed(hash, entries, ops[..|ops| - 1]); }
  }

  /** What was put reads back as it was, as long as every later reconciliation names it. */
  lemma PutReadsBack(hash: Bytes -> string, before: seq<Operation>, bytes: Bytes, now: int, since: seq<Operation>)
    requires Injective(hash) && Spares(since, hash(bytes))
    ensures var end := After(hash, Apply(hash, After(hash, map[], before), PutOp(bytes, now)), since);
      hash(bytes) in end && end[hash(bytes)].bytes == bytes
  {
    var start := After(hash, map[], before);
    StaysAddressed(hash, map[], before);
    PutProtects(hash, start, bytes, now);
    var put := Apply(hash, start, PutOp(bytes, now));
    assert put[hash(bytes)].bytes == bytes;
    hide Apply;
    NeverSwept(hash, put, since, hash(bytes));
  }

  // ----- conservation -----

  /** Bytes an operation adds. */
  function Added(hash: Bytes -> string, entries: Entries, op: Operation): nat {
    if op.PutOp? && hash(op.bytes) !in entries then |op.bytes| else 0
  }

  /** Bytes an operation frees: those of the entries that go. */
  ghost function Freed(hash: Bytes -> string, entries: Entries, op: Operation): nat {
    SizeSum(entries.Keys - Apply(hash, entries, op).Keys, Sizes(entries))
  }

  ghost function AllAdded(hash: Bytes -> string, entries: Entries, ops: seq<Operation>): nat {
    if ops == [] then 0
    else AllAdded(hash, entries, ops[..|ops| - 1]) + Added(hash, After(hash, entries, ops[..|ops| - 1]), ops[|ops| - 1])
  }

  ghost function AllFreed(hash: Bytes -> string, entries: Entries, ops: seq<Operation>): nat {
    if ops == [] then 0
    else AllFreed(hash, entries, ops[..|ops| - 1]) + Freed(hash, After(hash, entries, ops[..|ops| - 1]), ops[|ops| - 1])
  }

  lemma KeptTotal(entries: Entries, kept: Entries)
    requires kept.Keys <= entries.Keys && forall c :: c in kept ==> kept[c].bytes == entries[c].bytes
    ensures TotalBytes(entries) == TotalBytes(kept) + SizeSum(entries.Keys - kept.Keys, Sizes(entries))
  {
    assert entries.Keys == kept.Keys + (entries.Keys - kept.Keys);
    SumSplit(kept.Keys, entries.Keys - kept.Keys, Sizes(entries));
    SumSame(kept.Keys, Sizes(entries), Sizes(kept));
  }

  lemma PutTotal(entries: Entries, c: string, bytes: Bytes, now: int)
    ensures TotalBytes(Put(entries, c, bytes, now)) == TotalBytes(entries) + (if c in entries then 0 else |bytes|)
    ensures entries.Keys - Put(entries, c, bytes, now).Keys == {}
  {
    var put := Put(entries, c, bytes, now);
    if c in entries {
      SameTotal(entries, put);
    } else {
      TotalWithout(put, c);
      assert put - {c} == entries;
    }
  }

  lemma StepConserves(hash: Bytes -> string, entries: Entries, op: Operation)
    ensures TotalBytes(entries) + Added(hash, entries, op) == TotalBytes(Apply(hash, entries, op)) + Freed(hash, entries, op)
  {
    if op.PutOp? {
      PutTotal(entries, hash(op.bytes), op.bytes, op.now);
      hide Put, TotalBytes;
    } else {
      KeptTotal(entries, Apply(hash, entries, op));
      hide TotalBytes;
    }
  }

  /** Conservation over any run: bytes at the start plus bytes added are bytes at the end plus bytes freed. */
  lemma {:induction false} BytesConserved(hash: Bytes -> string, entries: Entries, ops: seq<Operation>)
    ensures TotalBytes(entries) + AllAdded(hash, entries, ops) == TotalBytes(After(hash, entries, ops)) + AllFreed(hash, entries, ops)
  {
    hide Apply, Added, Freed, TotalBytes;
    if ops != [] {
      BytesConserved(hash, entries, ops[..|ops| - 1]);
      StepConserves(hash, After(hash, entries, ops[..|ops| - 1]), ops[|ops| - 1]);
    }
  }

  // ----- both stores report alike -----

  /** The same sizes under checksums instead of hashes. */
  function Marked(sizes: map<string, nat>): (r: map<string, nat>)
    ensures forall c :: c in r <==> Canonical(c) && c[|PREFIX|..] in sizes
    ensures forall h :: h in sizes ==> ToChecksum(h) in r && r[ToChecksum(h)] == sizes[h]
  {
    var r := map c | c in MarkedSet(sizes.Keys) :: sizes[c[|PREFIX|..]];
    r
  }

  function MarkedSet(hexes: set<string>): (r: set<string>)
    ensures forall c :: c in r <==> Canonical(c) && c[|PREFIX|..] in hexes
    ensures forall h :: h in hexes ==> ToChecksum(h) in r
  {
    var r := set h | h in hexes :: ToChecksum(h);
    assert forall h :: h in hexes ==> ToChecksum(h) in r && Canonical(ToChecksum(h)) && ToChecksum(h)[|PREFIX|..] == h;
    assert forall c :: Canonical(c) ==> ToChecksum(c[|PREFIX|..]) == c;
    r
  }

  lemma {:induction false} MarkedCount(hexes: set<string>)
    ensures |MarkedSet(hexes)| == |hexes|
    decreases |hexes|
  {
    if hexes != {} {
      var h :| h in hexes;
      MarkedCount(hexes - {h});
      assert ToChecksum(h)[|PREFIX|..] == h;
      assert MarkedSet(hexes) == MarkedSet(hexes - {h}) + {ToChecksum(h)};
    } else {
      assert MarkedSet(hexes) == {};
    }
  }

  lemma {:induction false} MarkedSum(hexes: set<string>, sizes: map<string, nat>)
    requires hexes <= sizes.Keys
    ensures MarkedSet(hexes) <= Marked(sizes).Keys && SizeSum(MarkedSet(hexes), Marked(sizes)) == SizeSum(hexes, sizes)
    decreases |hexes|
  {
    if hexes != {} {
      var h :| h in hexes;
      MarkedSum(hexes - {h}, sizes);
      assert ToChecksum(h)[|PREFIX|..] == h;
      assert MarkedSet(hexes) - {ToChecksum(h)} == MarkedSet(hexes - {h});
      SumWithout(hexes, sizes, h);
      SumWithout(MarkedSet(hexes), Marked(sizes), ToChecksum(h));
    } else {
      assert MarkedSet(hexes) == {};
    }
  }

  lemma PrefixKeepsOrder(a: string, b: string)
    ensures StringLess(ToChecksum(a), ToChecksum(b)) <==> StringLess(a, b)
  {
    SamePrefix("blake3:", a, b);
  }

  lemma {:induction false} SamePrefix(p: string, a: string, b: string)
    ensures StringLess(p + a, p + b) <==> StringLess(a, b)
  {
    if p == "" {
      assert p + a == a && p + b == b;
    } else {
      assert (p + a)[1..] == p[1..] + a && (p + b)[1..] == p[1..] + b;
      SamePrefix(p[1..], a, b);
    }
  }

  lemma SpelledSorted(hexes: seq<string>)
    requires StrictlySorted(hexes, StringLess)
    ensures StrictlySorted(Checksums(hexes), StringLess)
    ensures forall c :: c in Checksums(hexes) <==> Canonical(c) && c[|PREFIX|..] in hexes
  {
    hide StringLess;
    var cs := Checksums(hexes);
    forall i, j | 0 <= i < j < |cs| ensures StringLess(cs[i], cs[j]) { PrefixKeepsOrder(hexes[i], hexes[j]); }
    forall c ensures c in cs <==> Canonical(c) && c[|PREFIX|..] in hexes {
      if c in cs {
        var i :| 0 <= i < |cs| && cs[i] == c;
        assert c[|PREFIX|..] == hexes[i];
      }
      if Canonical(c) && c[|PREFIX|..] in hexes {
        var i :| 0 <= i < |hexes| && hexes[i] == c[|PREFIX|..];
        assert cs[i] == c;
      }
    }
  }

  lemma MarkedMeets(sizes: map<string, nat>, live: set<string>)
    ensures Marked(sizes).Keys * MarkedSet(live) == MarkedSet(sizes.Keys * live)
    ensures Marked(sizes).Keys - MarkedSet(live) == MarkedSet(sizes.Keys - live)
  {
    hide Marked, MarkedSet, Canonical;
    forall c ensures c in Marked(sizes).Keys * MarkedSet(live) <==> c in MarkedSet(sizes.Keys * live) {}
    forall c ensures c in Marked(sizes).Keys - MarkedSet(live) <==> c in MarkedSet(sizes.Keys - live) {}
  }

  lemma MarkedCounts(sizes: map<string, nat>, live: set<string>)
    ensures |Marked(sizes).Keys * MarkedSet(live)| == |sizes.Keys * live|
    ensures SizeSum(Marked(sizes).Keys - MarkedSet(live), Marked(sizes)) == SizeSum(sizes.Keys - live, sizes)
  {
    hide Marked, MarkedSet, SizeSum, Canonical;
    MarkedMeets(sizes, live);
    MarkedCount(sizes.Keys * live);
    MarkedSum(sizes.Keys - live, sizes);
  }

  lemma MarkedLists(sizes: map<string, nat>, live: set<string>, remove: bool, r: Report)
    requires ReportRight(sizes, live, remove, r)
    ensures StrictlySorted(Checksums(r.missing), StringLess) && StrictlySorted(Checksums(r.unreferenced), StringLess)
    ensures forall c :: c in Checksums(r.missing) <==> c in MarkedSet(live) && c !in Marked(sizes)
    ensures forall c :: c in Checksums(r.unreferenced) <==> c in Marked(sizes) && c !in MarkedSet(live)
  {
    hide Marked, MarkedSet, Checksums, StringLess;
    SpelledSorted(r.missing);
    SpelledSorted(r.unreferenced);
    hide StrictlySorted, Canonical;
  }

  /** A right report on hashes, spelled as checksums, is a right report on checksums. */
  lemma SpelledRight(sizes: map<string, nat>, live: set<string>, remove: bool, r: Report)
    requires ReportRight(sizes, live, remove, r)
    ensures ReportRight(Marked(sizes), MarkedSet(live), remove, Spelled(r))
  {
    hide Marked, MarkedSet, Checksums, StringLess, StrictlySorted, Canonical;
    MarkedLists(sizes, live, remove, r);
    MarkedCounts(sizes, live);
  }

  /** The live hashes spelled as checksums are the live checksums when those are canonical. */
  lemma CanonicalHexes(live: seq<string>)
    requires forall c :: c in live ==> Canonical(c)
    ensures MarkedSet(Hexes(live)) == SetOf(live)
  {
    forall c ensures c in MarkedSet(Hexes(live)) <==> c in live {
      if c in live {
        assert ToChecksum(c[|PREFIX|..]) == c;
        HexOfChecksum(c[|PREFIX|..]);
      }
      if c in MarkedSet(Hexes(live)) {
        var d :| d in live && Hex(d) == c[|PREFIX|..];
        assert ToChecksum(d[|PREFIX|..]) == d && ToChecksum(c[|PREFIX|..]) == c;
        HexOfChecksum(d[|PREFIX|..]);
      }
    }
  }

  /**
    Agreement: on the same objects, with index sizes that are the objects' sizes, the two reconciliations give the same
    report exactly when every live checksum is canonical; the adapter-backed one drops any prefix before comparing.
   */
  lemma ReportsAgree(entries: Entries, adapter: map<string, Bytes>, index: map<string, IndexEntry>, live: seq<string>, remove: bool, m: Report, b: Report)
    requires Sizes(entries) == Marked(Measured(adapter, index))
    requires ReportRight(Sizes(entries), SetOf(live), remove, m)
    requires ReportRight(Measured(adapter, index), Hexes(live), remove, b)
    ensures m == Spelled(b) <==> forall c :: c in live ==> Canonical(c)
  {
    var sizes := Measured(adapter, index);
    SpelledRight(sizes, Hexes(live), remove, b);
    hide ReportRight, Measured, Sizes, StringLess, Hexes;
    if forall c :: c in live ==> Canonical(c) {
      CanonicalHexes(live);
      ReportUnique(Marked(sizes), SetOf(live), remove, m, Spelled(b));
    } else {
      var c :| c in live && !Canonical(c);
      StrangerReported(Marked(sizes), SetOf(live), remove, m, c);
      OnlyCanonicalMissing(b);
    }
  }

  lemma StrangerReported(sizes: map<string, nat>, live: set<string>, remove: bool, m: Report, c: string)
    requires ReportRight(sizes, live, remove, m) && c in live && c !in sizes
    ensures c in m.missing
  {
    hide StringLess;
  }

  lemma OnlyCanonicalMissing(b: Report)
    ensures forall c :: c in Spelled(b).missing ==> Canonical(c)
  {
  }
}
