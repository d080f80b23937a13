/** Content-addressed blob storage: put, reconcile against the live checksums, garbage collection. */
module BlobStore {
  import opened Wrappers
  import opened Sorting
  import opened Text

  type Bytes = seq<int>

  datatype Entry = Entry(bytes: Bytes, createdAt: int, refcount: nat)

  type Entries = map<string, Entry>

  datatype Report = Report(referenced: nat, missing: seq<string>, unreferenced: seq<string>, removed: nat, bytesFreed: nat)

  const PREFIX := "blake3:"

  // ----- sums over keys -----

  ghost function SizeSum(keys: set<string>, sizes: map<string, nat>): nat
    requires keys <= sizes.Keys
  {
    if keys == {} then 0
    else
      var k :| k in keys;
      sizes[k] + SizeSum(keys - {k}, sizes)
  }

  /** Any key can be taken out first. */
  lemma {:induction false} SumWithout(keys: set<string>, sizes: map<string, nat>, k: string)
    requires keys <= sizes.Keys && k in keys
    ensures SizeSum(keys, sizes) == sizes[k] + SizeSum(keys - {k}, sizes)
    decreases |keys|
  {
    var first :| first in keys && SizeSum(keys, sizes) == sizes[first] + SizeSum(keys - {first}, sizes);
    if first != k {
      SumWithout(keys - {first}, sizes, k);
      SumWithout(keys - {k}, sizes, first);
      assert keys - {first} - {k} == keys - {k} - {first};
    }
  }

  lemma {:induction false} SumSplit(a: set<string>, b: set<string>, sizes: map<string, nat>)
    requires a <= sizes.Keys && b <= sizes.Keys && a !! b
    ensures SizeSum(a + b, sizes) == SizeSum(a, sizes) + SizeSum(b, sizes)
    decreases |a|
  {
    if a == {} {
      assert a + b == b;
    } else {
      var k :| k in a;
      SumWithout(a, sizes, k);
      SumWithout(a + b, sizes, k);
      assert a + b - {k} == a - {k} + b;
      SumSplit(a - {k}, b, sizes);
    }
  }

  lemma {:induction false} SumSame(keys: set<string>, a: map<string, nat>, b: map<string, nat>)
    requires keys <= a.Keys && keys <= b.Keys && forall k :: k in keys ==> a[k] == b[k]
    ensures SizeSum(keys, a) == SizeSum(keys, b)
    decreases |keys|
  {
    if keys != {} {
      var k :| k in keys;
      SumWithout(keys, a, k);
      SumWithout(keys, b, k);
      SumSame(keys - {k}, a, b);
    }
  }

  function Sizes(entries: Entries): map<string, nat> {
    map c | c in entries :: |entries[c].bytes|
  }

  /** All bytes stored. */
  ghost function TotalBytes(entries: Entries): nat {
    SizeSum(entries.Keys, Sizes(entries))
  }

  // ----- what each operation leaves -----

  function Put(entries: Entries, checksum: string, bytes: Bytes, now: int): Entries {
    if checksum in entries then entries[checksum := entries[checksum].(refcount := entries[checksum].refcount + 1)]
    else entries[checksum := Entry(bytes, now, 1)]
  }

  /** Reference counts become the numbers of live references; without any an object goes, if removal is asked for. */
  function Reconciled(entries: Entries, live: seq<string>, remove: bool): Entries {
    map c | c in entries && (c in live || !remove) :: entries[c].(refcount := multiset(live)[c])
  }

  /** What goes is without a live reference and asked to go; what stays is counted by its live references. */
  ghost predicate Recounted(before: Entries, after: Entries, live: seq<string>, remove: bool) {
    && (forall c :: c in after <==> c in before && (remove ==> exists i :: 0 <= i < |live| && live[i] == c))
    && (forall c :: c in after ==>
         after[c].bytes == before[c].bytes && after[c].createdAt == before[c].createdAt && after[c].refcount == multiset(live)[c])
  }

  lemma ReconciledSays(before: Entries, live: seq<string>, remove: bool)
    ensures Recounted(before, Reconciled(before, live, remove), live, remove)
  {
  }

  predicate Swept(e: Entry, cutoff: int) {
    e.refcount == 0 && e.createdAt <= cutoff
  }

  function Collected(entries: Entries, cutoff: int): Entries {
    map c | c in entries && !Swept(entries[c], cutoff) :: entries[c]
  }

  /** The report a reconciliation owes, by physical sizes and live checksums alone. */
  ghost predicate ReportRight(sizes: map<string, nat>, live: set<string>, remove: bool, r: Report) {
    && StrictlySorted(r.missing, StringLess) && (forall c :: c in r.missing <==> c in live && c !in sizes)
    && StrictlySorted(r.unreferenced, StringLess) && (forall c :: c in r.unreferenced <==> c in sizes && c !in live)
    && r.referenced == |sizes.Keys * live|
    && r.removed == (if remove then |r.unreferenced| else 0)
    && r.bytesFreed == (if remove then SizeSum(sizes.Keys - live, sizes) else 0)
  }

  /** There is only one. */
  lemma ReportUnique(sizes: map<string, nat>, live: set<string>, remove: bool, a: Report, b: Report)
    requires ReportRight(sizes, live, remove, a) && ReportRight(sizes, live, remove, b)
    ensures a == b
  {
    StringsTotal();
    SortedUnique(a.missing, b.missing, StringLess);
    SortedUnique(a.unreferenced, b.unreferenced, StringLess);
  }

  // ----- sorted listings -----

  /** `[...keys].sort()`. */
  method SortedListing(keys: set<string>) returns (list: seq<string>)
    ensures StrictlySorted(list, StringLess) && |list| == |keys| && forall c :: c in list <==> c in keys
  {
    list := [];
    var todo := keys;
    while todo != {}
      invariant todo <= keys && |list| + |todo| == |keys| && StrictlySorted(list, StringLess)
      invariant forall c :: c in list <==> c in keys && c !in todo
      decreases |todo|
    {
      var c :| c in todo;
      StringsTotal();
      InsertSorted(c, list);
      list := Insert(c, list, StringLess);
      todo := todo - {c};
    }
  }

  lemma {:induction false} InsertSorted(c: string, list: seq<string>)
    requires StrictTotal(StringLess) && StrictlySorted(list, StringLess) && c !in list
    ensures StrictlySorted(Insert(c, list, StringLess), StringLess)
    ensures forall x :: x in Insert(c, list, StringLess) <==> x == c || x in list
  {
    hide StringLess;
    var r := Insert(c, list, StringLess);
    if list != [] && StringLess(list[0], c) {
      InsertSorted(c, list[1..]);
      var t := Insert(c, list[1..], StringLess);
      assert r == [list[0]] + t;
      forall j | 0 <= j < |t| ensures StringLess(list[0], t[j]) { assert t[j] in t; }
    } else {
      assert r == [c] + list;
      if list != [] {
        assert StringLess(c, list[0]);
        forall j | 0 <= j < |list| ensures StringLess(c, list[j]) { assert j > 0 ==> StringLess(list[0], list[j]); }
      }
    }
  }

  function Unlisted(live: set<string>): string -> bool {
    (c: string) => c !in live
  }

  lemma {:induction false} FilterSorted(list: seq<string>, keep: string -> bool)
    requires StrictlySorted(list, StringLess)
    ensures StrictlySorted(Filter(list, keep), StringLess)
  {
    hide StringLess;
    if list != [] {
      FilterSorted(list[1..], keep);
      var rest := Filter(list[1..], keep);
      forall j | 0 <= j < |rest| ensures StringLess(list[0], rest[j]) {
        assert rest[j] in list[1..];
        var k :| 0 <= k < |list| - 1 && list[1..][k] == rest[j];
        assert StringLess(list[0], list[k + 1]);
      }
    }
  }

  function SetOf(s: seq<string>): (r: set<string>)
    ensures forall c :: c in r <==> c in s
  {
    set c | c in s
  }

  /** Checksums the store does not hold, in order. */
  method MissingOf(live: set<string>, held: set<string>) returns (missing: seq<string>)
    ensures StrictlySorted(missing, StringLess) && forall c :: c in missing <==> c in live && c !in held
  {
    missing := SortedListing(live - held);
  }

  // ----- the memory store -----

  class MemoryBlobStore {
    const hash: Bytes -> string
    var entries: Entries

    constructor (hash: Bytes -> string)
      ensures this.hash == hash && entries == map[]
    {
      this.hash, entries := hash, map[];
    }

    /** `put`. */
    method PutBytes(bytes: Bytes, now: int) returns (checksum: string)
      modifies this
      ensures checksum == hash(bytes) && entries == Put(old(entries), checksum, bytes, now)
      ensures checksum in entries && entries - {checksum} == old(entries) - {checksum}
      ensures checksum in old(entries) ==> var was := old(entries)[checksum]; entries[checksum] == Entry(was.bytes, was.createdAt, was.refcount + 1)
      ensures checksum !in old(entries) ==> entries[checksum] == Entry(bytes, now, 1)
    {
      checksum := hash(bytes);
      if checksum in entries {
        var existing := entries[checksum];
        entries := entries[checksum := existing.(refcount := existing.refcount + 1)];
      } else {
        entries := entries[checksum := Entry(bytes, now, 1)];
      }
    }

    method Read(checksum: string) returns (bytes: Option<Bytes>)
      ensures bytes == if checksum in entries then Some(entries[checksum].bytes) else None
    {
      bytes := if checksum in entries then Some(entries[checksum].bytes) else None;
    }

    /** `delete`. */
    method Delete(checksum: string) returns (existed: bool)
      modifies this
      ensures existed == (checksum in old(entries)) && entries == old(entries) - {checksum}
    {
      existed := checksum in entries;
      entries := entries - {checksum};
    }

    /** `gc`. */
    method Gc(minAge: int, now: int) returns (collected: nat, bytesFreed: nat)
      modifies this
      ensures entries == Collected(old(entries), now - minAge)
      ensures forall c :: c in entries <==> c in old(entries) && (old(entries)[c].refcount > 0 || old(entries)[c].createdAt + minAge > now)
      ensures forall c :: c in entries ==> entries[c] == old(entries)[c]
      ensures collected == |old(entries)| - |entries|
      ensures TotalBytes(old(entries)) == TotalBytes(entries) + bytesFreed
    {
      var cutoff := now - minAge;
      collected, bytesFreed := 0, 0;
      var todo := entries.Keys;
      ghost var before := entries;
      while todo != {}
        invariant todo <= entries.Keys <= before.Keys
        invariant forall c :: c in entries ==> entries[c] == before[c]
        invariant forall c :: c in before && c !in todo ==> (c in entries <==> !Swept(before[c], cutoff))
        invariant collected + |entries| == |before|
        invariant TotalBytes(before) == TotalBytes(entries) + bytesFreed
        decreases |todo|
      {
        var c :| c in todo;
        if Swept(entries[c], cutoff) {
          TotalWithout(entries, c);
          bytesFreed := bytesFreed + |entries[c].bytes|;
          assert (entries - {c}).Keys == entries.Keys - {c};
          entries := entries - {c};
          collected := collected + 1;
        }
        todo := todo - {c};
      }
    }

    /** `reconcile`. */
    method Reconcile(liveChecksums: seq<string>, remove: bool) returns (report: Report)
      modifies this
      ensures entries == Reconciled(old(entries), liveChecksums, remove)
      ensures Recounted(old(entries), entries, liveChecksums, remove)
      ensures ReportRight(Sizes(old(entries)), SetOf(liveChecksums), remove, report)
      ensures TotalBytes(old(entries)) == TotalBytes(entries) + report.bytesFreed
    {
      hide StringLess, StrictlySorted, ReportRight, Visited, WalkState, TotalBytes, Reconciled;
      var live := CountLive(liveChecksums);
      var missing := MissingOf(live.Keys, entries.Keys);
      var listing := SortedListing(entries.Keys);
      var unreferenced: seq<string> := [];
      var referenced: nat, removed: nat, bytesFreed: nat := 0, 0, 0;
      WalkStart(entries, liveChecksums, remove, listing);
      var i := 0;
      while i < |listing|
        invariant 0 <= i <= |listing|
        invariant WalkState(old(entries), liveChecksums, remove, listing, i, entries, Report(referenced, [], unreferenced, removed, bytesFreed))
      {
        var c := listing[i];
        var refcount := if c in live then live[c] else 0;
        WalkNext(old(entries), liveChecksums, remove, listing, i, entries, Report(referenced, [], unreferenced, removed, bytesFreed), refcount);
        var size := |entries[c].bytes|;
        entries := Visited(entries, c, refcount, remove);
        if refcount > 0 {
          referenced := referenced + 1;
        } else {
          unreferenced := unreferenced + [c];
          if remove { removed, bytesFreed := removed + 1, bytesFreed + size; }
        }
        i := i + 1;
      }
      report := Report(referenced, missing, unreferenced, removed, bytesFreed);
      ReconciledSays(old(entries), liveChecksums, remove);
      hide Recounted;
      WalkEnds(old(entries), liveChecksums, remove, listing, entries, report);
    }

    /** How often each checksum is live. */
    method CountLive(liveChecksums: seq<string>) returns (live: map<string, nat>)
      ensures forall c :: c in live <==> c in liveChecksums
      ensures forall c :: c in live ==> live[c] == multiset(liveChecksums)[c]
    {
      live := map[];
      var i := 0;
      while i < |liveChecksums|
        invariant 0 <= i <= |liveChecksums|
        invariant forall c :: c in live <==> c in liveChecksums[..i]
        invariant forall c :: c in live ==> live[c] == multiset(liveChecksums[..i])[c]
      {
        var c := liveChecksums[i];
        assert liveChecksums[..i + 1] == liveChecksums[..i] + [c];
        live := live[c := (if c in live then live[c] else 0) + 1];
        i := i + 1;
      }
      assert liveChecksums[..i] == liveChecksums;
    }
  }

  /** After these checksums of a reconciliation's walk: they have been treated, the rest is as before. */
  ghost predicate WalkedTo(before: Entries, live: seq<string>, remove: bool, done: seq<string>, now: Entries) {
    && (forall c :: c in now <==> c in before && (c !in done || c in live || !remove))
    && (forall c :: c in now ==> now[c] == if c in done then before[c].(refcount := multiset(live)[c]) else before[c])
  }

  /** One entry: its new count, or its removal. */
  function Visited(now: Entries, c: string, refcount: nat, remove: bool): Entries
    requires c in now
  {
    if refcount > 0 || !remove then now[c := now[c].(refcount := refcount)] else now - {c}
  }

  /** The walk after `i` of the listing, with its running counters. */
  ghost predicate WalkState(before: Entries, live: seq<string>, remove: bool, listing: seq<string>, i: nat, now: Entries, r: Report) {
    && i <= |listing| && WalkedTo(before, live, remove, listing[..i], now)
    && r.unreferenced == Filter(listing[..i], Unlisted(SetOf(live))) && r.referenced + |r.unreferenced| == i
    && r.removed == (if remove then |r.unreferenced| else 0)
    && TotalBytes(before) == TotalBytes(now) + r.bytesFreed && (!remove ==> r.bytesFreed == 0)
  }

  lemma WalkStart(before: Entries, live: seq<string>, remove: bool, listing: seq<string>)
    ensures WalkState(before, live, remove, listing, 0, before, Report(0, [], [], 0, 0))
  {
    assert listing[..0] == [];
    FilterNone<string>([], Unlisted(SetOf(live)));
  }

  /** The counters after one more entry. */
  function Counted(r: Report, c: string, size: nat, refcount: nat, remove: bool): (r': Report)
    ensures r'.missing == r.missing
  {
    if refcount > 0 then r.(referenced := r.referenced + 1)
    else if remove then r.(unreferenced := r.unreferenced + [c], removed := r.removed + 1, bytesFreed := r.bytesFreed + size)
    else r.(unreferenced := r.unreferenced + [c])
  }

  lemma VisitedTotal(now: Entries, c: string, refcount: nat, remove: bool)
    requires c in now
    ensures TotalBytes(now) == TotalBytes(Visited(now, c, refcount, remove)) + (if refcount > 0 || !remove then 0 else |now[c].bytes|)
  {
    if refcount > 0 || !remove { SameTotal(now, Visited(now, c, refcount, remove)); } else { TotalWithout(now, c); }
  }

  lemma WalkNext(before: Entries, live: seq<string>, remove: bool, listing: seq<string>, i: nat, now: Entries, r: Report, refcount: nat)
    requires StrictlySorted(listing, StringLess) && i < |listing| && (forall c :: c in listing ==> c in before)
    requires WalkState(before, live, remove, listing, i, now, r) && refcount == multiset(live)[listing[i]]
    ensures listing[i] in now
    ensures WalkState(before, live, remove, listing, i + 1, Visited(now, listing[i], refcount, remove),
      Counted(r, listing[i], |now[listing[i]].bytes|, refcount, remove))
  {
    hide StringLess, StrictlySorted, TotalBytes, Filter;
    var c := listing[i];
    FreshAt(listing, i);
    WalkOne(before, live, remove, listing, i, now, refcount);
    VisitedTotal(now, c, refcount, remove);
    hide Visited, WalkedTo;
    assert listing[..i + 1] == listing[..i] + [c];
    FilterConcat(listing[..i], [c], Unlisted(SetOf(live)));
    FilterOne(c, Unlisted(SetOf(live)));
  }

  lemma WalkEnds(before: Entries, live: seq<string>, remove: bool, listing: seq<string>, now: Entries, r: Report)
    requires StrictlySorted(listing, StringLess) && |listing| == |before.Keys| && forall c :: c in listing <==> c in before
    requires StrictlySorted(r.missing, StringLess) && forall c :: c in r.missing <==> c in live && c !in before
    requires WalkState(before, live, remove, listing, |listing|, now, r.(missing := []))
    ensures now == Reconciled(before, live, remove) && ReportRight(Sizes(before), SetOf(live), remove, r)
    ensures TotalBytes(before) == TotalBytes(now) + r.bytesFreed
  {
    hide StringLess, StrictlySorted, TotalBytes, Filter, ReportRight, Reconciled;
    assert listing[..|listing|] == listing;
    WalkDone(before, live, remove, listing, now);
    ReportOfWalk(before, live, remove, listing, r, now);
  }

  lemma FreshAt(listing: seq<string>, i: nat)
    requires StrictlySorted(listing, StringLess) && i < |listing|
    ensures listing[i] !in listing[..i]
  {
    StringsTotal();
    hide StringLess;
    forall j | 0 <= j < i ensures listing[j] != listing[i] { assert StringLess(listing[j], listing[i]); }
  }

  lemma WalkOne(before: Entries, live: seq<string>, remove: bool, listing: seq<string>, i: nat, now: Entries, refcount: nat)
    requires i < |listing| && listing[i] !in listing[..i] && listing[i] in before
    requires WalkedTo(before, live, remove, listing[..i], now) && refcount == multiset(live)[listing[i]]
    ensures listing[i] in now && now[listing[i]] == before[listing[i]] && (refcount > 0 <==> listing[i] in live)
    ensures WalkedTo(before, live, remove, listing[..i + 1], Visited(now, listing[i], refcount, remove))
  {
    var c := listing[i];
    assert listing[..i + 1] == listing[..i] + [c];
    assert c in live <==> c in multiset(live);
  }

  lemma WalkDone(before: Entries, live: seq<string>, remove: bool, listing: seq<string>, now: Entries)
    requires WalkedTo(before, live, remove, listing, now) && forall c :: c in listing <==> c in before
    ensures now == Reconciled(before, live, remove)
  {
    assert forall c :: c in live <==> c in multiset(live);
    var r := Reconciled(before, live, remove);
    assert now.Keys == r.Keys;
  }

  lemma SameTotal(a: Entries, b: Entries)
    requires a.Keys == b.Keys && forall c :: c in a ==> a[c].bytes == b[c].bytes
    ensures TotalBytes(a) == TotalBytes(b)
  {
    SumSame(a.Keys, Sizes(a), Sizes(b));
  }

  lemma {:induction false} DistinctCount(list: seq<string>)
    requires StrictlySorted(list, StringLess)
    ensures |SetOf(list)| == |list|
  {
    if list != [] {
      var n := |list| - 1;
      FreshAt(list, n);
      assert StrictlySorted(list[..n], StringLess);
      DistinctCount(list[..n]);
      assert list == list[..n] + [list[n]];
      assert SetOf(list) == SetOf(list[..n]) + {list[n]};
    }
  }

  lemma ReportOfWalk(before: Entries, live: seq<string>, remove: bool, listing: seq<string>, r: Report, after: Entries)
    requires StrictlySorted(listing, StringLess) && |listing| == |before.Keys| && forall c :: c in listing <==> c in before
    requires StrictlySorted(r.missing, StringLess) && forall c :: c in r.missing <==> c in live && c !in before
    requires r.unreferenced == Filter(listing, Unlisted(SetOf(live))) && r.referenced + |r.unreferenced| == |listing|
    requires r.removed == (if remove then |r.unreferenced| else 0) && (!remove ==> r.bytesFreed == 0)
    requires after == Reconciled(before, live, remove) && TotalBytes(before) == TotalBytes(after) + r.bytesFreed
    ensures ReportRight(Sizes(before), SetOf(live), remove, r)
  {
    hide StringLess, StrictlySorted, TotalBytes, Filter;
    FilterSorted(listing, Unlisted(SetOf(live)));
    CountsOfWalk(before.Keys, SetOf(live), listing, r);
    assert Sizes(before).Keys == before.Keys;
    if remove { BytesOfWalk(before, live, after, r.bytesFreed); }
    hide Sizes, Reconciled;
  }

  lemma CountsOfWalk(keys: set<string>, live: set<string>, listing: seq<string>, r: Report)
    requires StrictlySorted(r.unreferenced, StringLess) && |listing| == |keys| && forall c :: c in listing <==> c in keys
    requires r.unreferenced == Filter(listing, Unlisted(live)) && r.referenced + |r.unreferenced| == |listing|
    ensures r.referenced == |keys * live| && forall c :: c in r.unreferenced <==> c in keys && c !in live
  {
    DistinctCount(r.unreferenced);
    hide StringLess, StrictlySorted;
    assert SetOf(r.unreferenced) == keys - live;
    assert keys == keys * live + (keys - live);
    assert |keys| == |keys * live| + |keys - live|;
  }

  lemma BytesOfWalk(before: Entries, live: seq<string>, after: Entries, freed: nat)
    requires after == Reconciled(before, live, true) && TotalBytes(before) == TotalBytes(after) + freed
    ensures before.Keys - SetOf(live) <= Sizes(before).Keys && freed == SizeSum(before.Keys - SetOf(live), Sizes(before))
  {
    var keys, liveSet := before.Keys, SetOf(live);
    assert after.Keys == keys * liveSet;
    assert keys == keys * liveSet + (keys - liveSet);
    SumSplit(keys * liveSet, keys - liveSet, Sizes(before));
    SumSame(keys * liveSet, Sizes(before), Sizes(after));
  }

  lemma TotalWithout(entries: Entries, c: string)
    requires c in entries
    ensures TotalBytes(entries) == TotalBytes(entries - {c}) + |entries[c].bytes|
  {
    SumWithout(entries.Keys, Sizes(entries), c);
    assert (entries - {c}).Keys == entries.Keys - {c};
    SumSame(entries.Keys - {c}, Sizes(entries), Sizes(entries - {c}));
  }

  // ----- the adapter-backed store -----

  datatype IndexEntry = IndexEntry(size: nat, createdAt: int, refcount: nat)

  /** `blobChecksumToHex`: what follows the first colon, or everything. */
  function Hex(checksum: string): string {
    if checksum == "" then "" else if ':' !in checksum then checksum else if checksum[0] == ':' then checksum[1..] else Hex(checksum[1..])
  }

  function ToChecksum(hex: string): string {
    PREFIX + hex
  }

  lemma {:induction false} HexAfter(algorithm: string, hex: string)
    requires ':' !in algorithm
    ensures Hex(algorithm + ":" + hex) == hex
  {
    var c := algorithm + ":" + hex;
    assert c[|algorithm|] == ':';
    if algorithm == "" {
      assert c[1..] == hex;
    } else {
      assert c[1..] == algorithm[1..] + ":" + hex;
      HexAfter(algorithm[1..], hex);
    }
  }

  lemma HexOfChecksum(hex: string)
    ensures Hex(ToChecksum(hex)) == hex
  {
    HexAfter("blake3", hex);
    assert ToChecksum(hex) == "blake3" + ":" + hex;
  }

  /** Canonical checksums carry the prefix. */
  predicate Canonical(checksum: string) {
    PREFIX <= checksum
  }

  function Hexes(checksums: seq<string>): (r: set<string>)
    ensures forall h :: h in r <==> exists c :: c in checksums && Hex(c) == h
  {
    set c | c in checksums :: Hex(c)
  }

  /** What the reconciliation takes an object's size to be: the index's word, else the bytes'. */
  function Measured(adapter: map<string, Bytes>, index: map<string, IndexEntry>): map<string, nat> {
    map h | h in adapter :: if h in index then index[h].size else |adapter[h]|
  }

  function Checksums(hexes: seq<string>): (r: seq<string>)
    ensures |r| == |hexes| && forall i :: 0 <= i < |hexes| ==> r[i] == ToChecksum(hexes[i])
  {
    seq(|hexes|, i requires 0 <= i < |hexes| => ToChecksum(hexes[i]))
  }

  /** The report with its hashes spelled as checksums. */
  function Spelled(r: Report): Report {
    r.(missing := Checksums(r.missing), unreferenced := Checksums(r.unreferenced))
  }

  /** The hash of a live checksum: what follows its first colon, or all of it when it has none. */
  ghost predicate HashOf(checksum: string, hex: string) {
    (checksum == hex && ':' !in checksum) || exists algorithm :: ':' !in algorithm && checksum == algorithm + ":" + hex
  }

  ghost predicate IsLive(live: seq<string>, hex: string) {
    exists i :: 0 <= i < |live| && HashOf(live[i], hex)
  }

  /** The index is believed on sizes; without an entry the bytes count. */
  ghost predicate SizedBy(adapter: map<string, Bytes>, index: map<string, IndexEntry>, sizes: map<string, nat>) {
    sizes.Keys == adapter.Keys && forall h :: h in sizes ==> (h in index ==> sizes[h] == index[h].size) && (h !in index ==> sizes[h] == |adapter[h]|)
  }

  ghost predicate Spells(checksums: seq<string>, hexes: seq<string>) {
    |checksums| == |hexes| && forall i :: 0 <= i < |hexes| ==> checksums[i] == "blake3:" + hexes[i]
  }

  /** The report owed by sizes and live hashes, with its hashes spelled as checksums. */
  ghost predicate Reported(adapter: map<string, Bytes>, index: map<string, IndexEntry>, live: seq<string>, remove: bool, report: Report) {
    exists sizes, hexes: set<string>, r :: SizedBy(adapter, index, sizes) && AllLive(live, hexes) && ReportRight(sizes, hexes, remove, r) && SpelledAs(r, report)
  }

  ghost predicate AllLive(live: seq<string>, hexes: set<string>) {
    forall h :: h in hexes <==> IsLive(live, h)
  }

  ghost predicate SpelledAs(r: Report, report: Report) {
    && Spells(report.missing, r.missing) && Spells(report.unreferenced, r.unreferenced)
    && report.referenced == r.referenced && report.removed == r.removed && report.bytesFreed == r.bytesFreed
  }

  /** One entry for each object that stays: its size as taken, its age kept if known, counting 1 when live and 0 otherwise. */
  ghost predicate Indexed(adapter: map<string, Bytes>, index: map<string, IndexEntry>, live: seq<string>, now: int, kept: set<string>, index': map<string, IndexEntry>) {
    && index'.Keys == kept <= adapter.Keys
    && forall h :: h in index' ==>
       && (h in index ==> index'[h].size == index[h].size && index'[h].createdAt == index[h].createdAt)
       && (h !in index ==> index'[h].size == |adapter[h]| && index'[h].createdAt == now)
       && (index'[h].refcount == 1 <==> IsLive(live, h)) && (index'[h].refcount == 0 <==> !IsLive(live, h))
  }

  /** The live objects stay, and all when nothing is to be removed. */
  ghost predicate Kept(adapter: map<string, Bytes>, live: seq<string>, remove: bool, adapter': map<string, Bytes>) {
    && (forall h :: h in adapter' <==> h in adapter && (IsLive(live, h) || !remove))
    && (forall h :: h in adapter' ==> adapter'[h] == adapter[h])
  }

  lemma HexIs(checksum: string, hex: string)
    ensures Hex(checksum) == hex <==> HashOf(checksum, hex)
  {
    HexSplits(checksum);
    hide Hex;
    if algorithm :| ':' !in algorithm && checksum == algorithm + ":" + hex { HexAfter(algorithm, hex); }
  }

  lemma {:induction false} HexSplits(checksum: string)
    ensures ':' !in checksum ==> Hex(checksum) == checksum
    ensures ':' in checksum ==> exists algorithm :: ':' !in algorithm && checksum == algorithm + ":" + Hex(checksum)
  {
    if ':' in checksum {
      assert checksum == [checksum[0]] + checksum[1..];
      if checksum[0] == ':' {
        assert checksum == "" + ":" + Hex(checksum);
      } else {
        HexSplits(checksum[1..]);
        var rest :| ':' !in rest && checksum[1..] == rest + ":" + Hex(checksum[1..]);
        FrontLonger(checksum[0], rest, Hex(checksum[1..]));
        assert ':' !in [checksum[0]] + rest;
      }
    }
  }

  lemma FrontLonger(c: char, algorithm: string, hex: string)
    ensures [c] + (algorithm + ":" + hex) == [c] + algorithm + ":" + hex
  {
  }

  lemma LiveHexes(live: seq<string>)
    ensures AllLive(live, Hexes(live))
  {
    hide Hex, HashOf;
    forall h ensures h in Hexes(live) <==> IsLive(live, h) {
      if c :| c in live && Hex(c) == h {
        var i :| 0 <= i < |live| && live[i] == c;
        HexIs(live[i], h);
      }
      if i :| 0 <= i < |live| && HashOf(live[i], h) { HexIs(live[i], h); }
    }
  }

  lemma ReportedBy(held: map<string, Bytes>, known: map<string, IndexEntry>, live: seq<string>, remove: bool, r: Report, report: Report)
    requires ReportRight(Measured(held, known), Hexes(live), remove, r)
    requires report == Spelled(r)
    ensures Reported(held, known, live, remove, report)
  {
    hide ReportRight, Hexes, IsLive;
    LiveHexes(live);
    hide AllLive;
    assert SizedBy(held, known, Measured(held, known));
    assert SpelledAs(r, report);
  }

  lemma RebuiltSays(held: map<string, Bytes>, known: map<string, IndexEntry>, live: seq<string>, remove: bool, now: int, adapter: map<string, Bytes>)
    requires adapter == map h | h in held && (h in Hexes(live) || !remove) :: held[h]
    ensures Kept(held, live, remove, adapter) && Indexed(held, known, live, now, adapter.Keys, Rebuilt(held, known, Hexes(live), remove, now))
  {
    hide Hexes, IsLive;
    LiveHexes(live);
  }

  class BytecaskBlobStore {
    var adapter: map<string, Bytes>
    var index: map<string, IndexEntry>

    constructor (adapter: map<string, Bytes>, index: map<string, IndexEntry>)
      ensures this.adapter == adapter && this.index == index
    {
      this.adapter, this.index := adapter, index;
    }

    /** `reconcile` over the adapter's objects and the index. */
    method Reconcile(liveChecksums: seq<string>, remove: bool, now: int) returns (report: Report)
      modifies this
      ensures Reported(old(adapter), old(index), liveChecksums, remove, report)
      ensures Kept(old(adapter), liveChecksums, remove, adapter)
      ensures index == Rebuilt(old(adapter), old(index), Hexes(liveChecksums), remove, now)
      ensures Indexed(old(adapter), old(index), liveChecksums, now, adapter.Keys, index)
    {
      hide StringLess, StrictlySorted, Hexes, ReportRight, Treated, Tally, Measured, Rebuilt, Reported, Indexed, IsLive, Checksums;
      var live := Hexes(liveChecksums);
      ghost var held, known := adapter, index;
      DropStale();
      var missing := SortedListing(live - adapter.Keys);
      var listing := SortedListing(adapter.Keys);
      SameMeasures(held, known, index);
      var sizes := Measured(adapter, index);
      TreatNone(held, known, live, remove, now, listing);
      var counters := WalkObjects(live, remove, now, listing, sizes, held, known);
      ghost var r := counters.(missing := missing);
      TallyEnds(sizes, live, remove, listing, r);
      TreatedAll(held, known, live, remove, now, listing, adapter, index);
      report := Report(counters.referenced, Checksums(missing), Checksums(counters.unreferenced), counters.removed, counters.bytesFreed);
      assert report == Spelled(r);
      ReportedBy(held, known, liveChecksums, remove, r, report);
      RebuiltSays(held, known, liveChecksums, remove, now, adapter);
    }

    /** The loop over the sorted objects. */
    method WalkObjects(live: set<string>, remove: bool, now: int, listing: seq<string>, sizes: map<string, nat>,
                       ghost held: map<string, Bytes>, ghost known: map<string, IndexEntry>) returns (counters: Report)
      requires StrictlySorted(listing, StringLess) && (forall h :: h in listing <==> h in held) && sizes == Measured(held, known)
      requires Treated(held, known, live, remove, now, listing[..0], adapter, index)
      modifies this
      ensures Tally(sizes, live, remove, listing, |listing|, counters) && counters.missing == []
      ensures Treated(held, known, live, remove, now, listing, adapter, index)
    {
      hide StringLess, StrictlySorted, Treated, Tally, Measured, IndexVisited, AdapterVisited, Counted;
      counters := Report(0, [], [], 0, 0);
      TallyStart(sizes, live, remove, listing);
      var i := 0;
      while i < |listing|
        invariant 0 <= i <= |listing| && counters.missing == []
        invariant Tally(sizes, live, remove, listing, i, counters)
        invariant Treated(held, known, live, remove, now, listing[..i], adapter, index)
      {
        var h := listing[i];
        FreshAt(listing, i);
        TreatNext(held, known, live, remove, now, listing, i, adapter, index);
        TallyNext(sizes, live, remove, listing, i, counters);
        index := IndexVisited(index, h, sizes[h], h in live, remove, now);
        adapter := AdapterVisited(adapter, h, h in live, remove);
        counters := Counted(counters, h, sizes[h], if h in live then 1 else 0, remove);
        i := i + 1;
      }
      assert listing[..i] == listing;
    }

    /** Index entries whose bytes are gone. */
    method DropStale()
      modifies this`index
      ensures index == map h | h in old(index) && h in adapter :: old(index)[h]
    {
      index := map h | h in index && h in adapter :: index[h];
    }
  }

  /** The rebuilt index: one entry per object kept, counting 1 when live and 0 otherwise. */
  function Rebuilt(adapter: map<string, Bytes>, index: map<string, IndexEntry>, live: set<string>, remove: bool, now: int): map<string, IndexEntry> {
    map h | h in adapter && (h in live || !remove) ::
      IndexEntry(Measured(adapter, index)[h], if h in index then index[h].createdAt else now, if h in live then 1 else 0)
  }

  lemma SameMeasures(held: map<string, Bytes>, known: map<string, IndexEntry>, index: map<string, IndexEntry>)
    requires index == map h | h in known && h in held :: known[h]
    ensures Measured(held, index) == Measured(held, known) && Measured(held, known).Keys == held.Keys
  {
  }

  ghost predicate AdapterTreated(held: map<string, Bytes>, live: set<string>, remove: bool, done: seq<string>, adapter: map<string, Bytes>) {
    forall h :: (h in adapter <==> h in held && (h !in done || h in live || !remove)) && (h in adapter ==> adapter[h] == held[h])
  }

  /** Treated hashes have the entries of the rebuilt index, the others those known before, stale ones dropped. */
  ghost predicate IndexTreated(known: map<string, IndexEntry>, rebuilt: map<string, IndexEntry>, held: set<string>, done: seq<string>, index: map<string, IndexEntry>) {
    && (forall h :: h in index <==> if h in done then h in rebuilt else h in known && h in held)
    && (forall h :: h in index ==> index[h] == if h in done then rebuilt[h] else known[h])
  }

  ghost predicate Treated(held: map<string, Bytes>, known: map<string, IndexEntry>, live: set<string>, remove: bool, now: int,
                          done: seq<string>, adapter: map<string, Bytes>, index: map<string, IndexEntry>) {
    AdapterTreated(held, live, remove, done, adapter) && IndexTreated(known, Rebuilt(held, known, live, remove, now), held.Keys, done, index)
  }

  /** The index after one object: its entry rewritten, or gone with the object. */
  function IndexVisited(index: map<string, IndexEntry>, h: string, size: nat, live: bool, remove: bool, now: int): map<string, IndexEntry> {
    var createdAt := if h in index then index[h].createdAt else now;
    if live then index[h := IndexEntry(size, createdAt, 1)] else if remove then index - {h} else index[h := IndexEntry(size, createdAt, 0)]
  }

  function AdapterVisited(adapter: map<string, Bytes>, h: string, live: bool, remove: bool): map<string, Bytes> {
    if !live && remove then adapter - {h} else adapter
  }

  lemma TreatNone(held: map<string, Bytes>, known: map<string, IndexEntry>, live: set<string>, remove: bool, now: int, listing: seq<string>)
    ensures Treated(held, known, live, remove, now, listing[..0], held, map h | h in known && h in held :: known[h])
  {
    hide Rebuilt;
  }

  /** One more entry of the rebuilt index put in place. */
  lemma IndexStep(known: map<string, IndexEntry>, rebuilt: map<string, IndexEntry>, held: set<string>, done: seq<string>, h: string, index: map<string, IndexEntry>)
    requires IndexTreated(known, rebuilt, held, done, index) && h !in done && h in held
    ensures IndexTreated(known, rebuilt, held, done + [h], if h in rebuilt then index[h := rebuilt[h]] else index - {h})
    ensures h in index <==> h in known
    ensures h in index ==> index[h] == known[h]
  {
  }

  lemma VisitedIsRebuilt(held: map<string, Bytes>, known: map<string, IndexEntry>, live: set<string>, remove: bool, now: int, h: string, index: map<string, IndexEntry>)
    requires h in held && (h in index <==> h in known) && (h in index ==> index[h] == known[h])
    ensures h in Measured(held, known)
    ensures var rebuilt := Rebuilt(held, known, live, remove, now);
      IndexVisited(index, h, Measured(held, known)[h], h in live, remove, now) == if h in rebuilt then index[h := rebuilt[h]] else index - {h}
  {
  }

  lemma AdapterStep(held: map<string, Bytes>, live: set<string>, remove: bool, done: seq<string>, h: string, adapter: map<string, Bytes>)
    requires AdapterTreated(held, live, remove, done, adapter) && h !in done && h in held
    ensures AdapterTreated(held, live, remove, done + [h], AdapterVisited(adapter, h, h in live, remove))
  {
  }

  lemma TreatNext(held: map<string, Bytes>, known: map<string, IndexEntry>, live: set<string>, remove: bool, now: int,
                  listing: seq<string>, i: nat, adapter: map<string, Bytes>, index: map<string, IndexEntry>)
    requires i < |listing| && listing[i] !in listing[..i] && listing[i] in held
    requires Treated(held, known, live, remove, now, listing[..i], adapter, index)
    ensures listing[i] in Measured(held, known)
    ensures var h := listing[i];
      Treated(held, known, live, remove, now, listing[..i + 1], AdapterVisited(adapter, h, h in live, remove),
        IndexVisited(index, h, Measured(held, known)[h], h in live, remove, now))
  {
    hide Rebuilt, Measured, IndexTreated, AdapterTreated, IndexVisited, AdapterVisited;
    var h, done := listing[i], listing[..i];
    assert listing[..i + 1] == done + [h];
    AdapterStep(held, live, remove, done, h, adapter);
    IndexStep(known, Rebuilt(held, known, live, remove, now), held.Keys, done, h, index);
    VisitedIsRebuilt(held, known, live, remove, now, h, index);
  }

  lemma TreatedAll(held: map<string, Bytes>, known: map<string, IndexEntry>, live: set<string>, remove: bool, now: int,
                   done: seq<string>, adapter: map<string, Bytes>, index: map<string, IndexEntry>)
    requires Treated(held, known, live, remove, now, done, adapter, index) && forall h :: h in done <==> h in held
    ensures adapter == map h | h in held && (h in live || !remove) :: held[h]
    ensures index == Rebuilt(held, known, live, remove, now)
  {
    assert index.Keys == Rebuilt(held, known, live, remove, now).Keys;
  }

  /** The counters after `i` of the listing. */
  ghost predicate Tally(sizes: map<string, nat>, live: set<string>, remove: bool, listing: seq<string>, i: nat, r: Report) {
    && i <= |listing| && r.unreferenced == Filter(listing[..i], Unlisted(live)) && r.referenced + |r.unreferenced| == i
    && r.removed == (if remove then |r.unreferenced| else 0)
    && SetOf(r.unreferenced) <= sizes.Keys && r.bytesFreed == (if remove then SizeSum(SetOf(r.unreferenced), sizes) else 0)
  }

  lemma TallyStart(sizes: map<string, nat>, live: set<string>, remove: bool, listing: seq<string>)
    ensures Tally(sizes, live, remove, listing, 0, Report(0, [], [], 0, 0))
  {
    assert listing[..0] == [];
    FilterNone<string>([], Unlisted(live));
    assert SetOf([]) == {};
  }

  lemma TallyNext(sizes: map<string, nat>, live: set<string>, remove: bool, listing: seq<string>, i: nat, r: Report)
    requires i < |listing| && listing[i] !in listing[..i] && listing[i] in sizes && Tally(sizes, live, remove, listing, i, r)
    ensures Tally(sizes, live, remove, listing, i + 1, Counted(r, listing[i], sizes[listing[i]], if listing[i] in live then 1 else 0, remove))
  {
    hide Filter, SizeSum;
    var h := listing[i];
    assert listing[..i + 1] == listing[..i] + [h];
    FilterConcat(listing[..i], [h], Unlisted(live));
    FilterOne(h, Unlisted(live));
    assert h !in r.unreferenced;
    SumAppend(r.unreferenced, h, sizes);
    hide SetOf;
  }

  lemma SumAppend(list: seq<string>, h: string, sizes: map<string, nat>)
    requires h !in list && h in sizes && SetOf(list) <= sizes.Keys
    ensures SetOf(list + [h]) <= sizes.Keys && SizeSum(SetOf(list + [h]), sizes) == SizeSum(SetOf(list), sizes) + sizes[h]
  {
    assert SetOf(list + [h]) == SetOf(list) + {h};
    SumWithout(SetOf(list + [h]), sizes, h);
    assert SetOf(list + [h]) - {h} == SetOf(list);
  }

  lemma TallyEnds(sizes: map<string, nat>, live: set<string>, remove: bool, listing: seq<string>, r: Report)
    requires StrictlySorted(listing, StringLess) && |listing| == |sizes.Keys| && forall c :: c in listing <==> c in sizes
    requires StrictlySorted(r.missing, StringLess) && forall c :: c in r.missing <==> c in live && c !in sizes
    requires Tally(sizes, live, remove, listing, |listing|, r.(missing := []))
    ensures ReportRight(sizes, live, remove, r)
  {
    hide StringLess, StrictlySorted;
    assert listing[..|listing|] == listing;
    FilterSorted(listing, Unlisted(live));
    CountsOfWalk(sizes.Keys, live, listing, r);
    assert SetOf(r.unreferenced) == sizes.Keys - live;
  }
}
