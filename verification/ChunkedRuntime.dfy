/**
  Querying a chunked index through its caches: a bounded cache of loaded parts and a bounded cache of scanned entry
  sets, both least recently used first. Whatever was queried and evicted before, a query answers as on the whole index.
 */
module ChunkedRuntime {
  import opened Wrappers
  import opened Sorting
  import opened ChunkedSearch
  import opened SearchMeaning
  import opened ChunkedIndex

  // ----- insertion-ordered maps -----

  /** A map with its keys in insertion order. */
  datatype Cache<K, V> = Cache(order: seq<K>, entries: map<K, V>)

  ghost predicate CacheOk<K(!new), V>(c: Cache<K, V>) {
    Distinct(c.order) && forall k :: k in c.order <==> k in c.entries
  }

  function RemoveKey<K(==,!new)>(order: seq<K>, key: K): (r: seq<K>)
    ensures forall k :: k in r <==> k in order && k != key
    ensures |r| <= |order|
  {
    if order == [] then []
    else
      assert forall k :: k in order <==> k == order[0] || k in order[1..];
      (if order[0] == key then [] else [order[0]]) + RemoveKey(order[1..], key)
  }

  lemma {:induction false} RemoveOnce<K(!new)>(order: seq<K>, key: K)
    requires Distinct(order)
    ensures Distinct(RemoveKey(order, key))
    ensures key in order ==> |RemoveKey(order, key)| == |order| - 1
    ensures key !in order ==> RemoveKey(order, key) == order
  {
    if order != [] {
      RemoveOnce(order[1..], key);
      assert order[0] !in order[1..];
      assert forall k :: k in order <==> k == order[0] || k in order[1..];
    }
  }

  /** Deleted and set again: the newest. */
  function Touched<K(==,!new), V>(c: Cache<K, V>, key: K, value: V): Cache<K, V> {
    Cache(RemoveKey(c.order, key) + [key], c.entries[key := value])
  }

  function DropOldest<K(==,!new), V>(c: Cache<K, V>): Cache<K, V>
    requires c.order != []
  {
    Cache(c.order[1..], c.entries - {c.order[0]})
  }

  lemma TouchedOk<K(!new), V>(c: Cache<K, V>, key: K, value: V)
    requires CacheOk(c)
    ensures CacheOk(Touched(c, key, value))
    ensures |Touched(c, key, value).order| == if key in c.entries then |c.order| else |c.order| + 1
  {
    RemoveOnce(c.order, key);
    var order := RemoveKey(c.order, key);
    assert forall i :: 0 <= i < |order| ==> order[i] in order;
  }

  lemma DropOk<K(!new), V>(c: Cache<K, V>)
    requires CacheOk(c) && c.order != []
    ensures CacheOk(DropOldest(c))
  {
    assert c.order[0] !in c.order[1..];
    assert forall k :: k in c.order <==> k == c.order[0] || k in c.order[1..];
  }

  /** The last `n` of them. */
  function Newest<T>(s: seq<T>, n: nat): seq<T> {
    if |s| <= n then s else s[|s| - n..]
  }

  /** What is left of a sequence when the oldest go until `n` remain. */
  ghost predicate KeptNewest<T>(all: seq<T>, n: nat, left: seq<T>) {
    |left| == (if |all| <= n then |all| else n) && left == all[|all| - |left|..]
  }

  /** Taking a key out leaves the others in their order. */
  lemma {:induction false} RemovedAt<K(!new)>(a: seq<K>, key: K, b: seq<K>)
    requires key !in a && key !in b
    ensures RemoveKey(a + [key] + b, key) == a + b
  {
    if a == [] {
      assert ([] + [key] + b)[1..] == b;
      RemoveAbsent(b, key);
      assert [] + b == b;
    } else {
      assert (a + [key] + b)[1..] == a[1..] + [key] + b;
      RemovedAt(a[1..], key, b);
      assert [a[0]] + (a[1..] + b) == a + b;
    }
  }

  lemma {:induction false} RemoveAbsent<K(!new)>(order: seq<K>, key: K)
    requires key !in order
    ensures RemoveKey(order, key) == order
  {
    if order != [] { RemoveAbsent(order[1..], key); }
  }

  // ----- the match cache -----

  /** Everything that determines a scan's entries, and nothing of the page made from them. */
  datatype MatchKey = MatchKey(
    q: string, types: Option<seq<string>>, facets: Option<seq<(string, seq<string>)>>, tags: Option<seq<string>>,
    concepts: Option<seq<string>>, privacy: Option<seq<Classification>>, relationshipTargetId: Option<string>, profile: Profile,
    weights: map<Field, real>)

  function KeyOf(q: string, o: Options): MatchKey {
    MatchKey(q, o.types, o.facets, o.tags, o.concepts, o.privacy, o.relationshipTargetId, o.profile, Merged(o.weights))
  }

  /** Two queries with the same key have the same entries on every index. */
  lemma {:induction false} KeyDetermines(env: Env, items: seq<Record>, q: string, o: Options, q': string, o': Options, base: nat, relaxed: bool)
    requires KeyOf(q, o) == KeyOf(q', o')
    ensures Entries(env, items, q, o, base, relaxed) == Entries(env, items, q', o', base, relaxed)
    decreases |items|
  {
    hide MatchesOf, RankOf, Merged;
    if items != [] {
      KeyDetermines(env, items[..|items| - 1], q, o, q', o', base, relaxed);
      var r := items[|items| - 1];
      var m := MatchesOf(env, r, q, o.profile, relaxed);
      assert Passes(r, q, m, o) == Passes(r, q', m, o');
    }
  }

  type MatchCache = Cache<MatchKey, seq<Entry>>

  function TotalEntries(order: seq<MatchKey>, entries: map<MatchKey, seq<Entry>>): nat
    requires forall k :: k in order ==> k in entries
  {
    if order == [] then 0 else |entries[order[0]]| + TotalEntries(order[1..], entries)
  }

  lemma {:induction false} TotalSame(order: seq<MatchKey>, a: map<MatchKey, seq<Entry>>, b: map<MatchKey, seq<Entry>>)
    requires forall k :: k in order ==> k in a && k in b && a[k] == b[k]
    ensures TotalEntries(order, a) == TotalEntries(order, b)
  {
    if order != [] { TotalSame(order[1..], a, b); }
  }

  function Total(c: MatchCache): nat
    requires CacheOk(c)
  {
    TotalEntries(c.order, c.entries)
  }

  /** The oldest sets go until the rest fits, but the newest stays whatever its size. */
  ghost function Evicted(c: MatchCache, max: nat): MatchCache
    requires CacheOk(c)
    decreases |c.order|
  {
    if Total(c) > max && |c.order| > 1 then
      DropOk(c);
      Evicted(DropOldest(c), max)
    else c
  }

  /** A run of the newest sets, unchanged. */
  ghost predicate Remains(c: MatchCache, r: MatchCache) {
    && |r.order| <= |c.order| && r.order == c.order[|c.order| - |r.order|..]
    && forall k :: k in r.entries ==> k in c.entries && r.entries[k] == c.entries[k]
  }

  lemma RemainsAfterDrop(c: MatchCache, r: MatchCache)
    requires c.order != [] && Remains(DropOldest(c), r)
    ensures Remains(c, r)
  {
    var d := DropOldest(c);
    assert d.order[|d.order| - |r.order|..] == c.order[|c.order| - |r.order|..];
  }

  /** What is left is a run of the newest sets, unchanged, within the budget or a single one. */
  lemma {:induction false} EvictedRight(c: MatchCache, max: nat)
    requires CacheOk(c)
    ensures var r := Evicted(c, max);
      CacheOk(r) && Remains(c, r) && (Total(r) <= max || |r.order| <= 1) && (c.order != [] ==> r.order != [])
    decreases |c.order|
  {
    hide CacheOk, Total;
    if Total(c) > max && |c.order| > 1 {
      DropOk(c);
      hide Remains;
      EvictedRight(DropOldest(c), max);
      RemainsAfterDrop(c, Evicted(DropOldest(c), max));
    }
  }

  /** And no shorter than it has to be: any run of the newest sets that fits stays. */
  lemma {:induction false} EvictsNoMore(c: MatchCache, max: nat, k: nat)
    requires CacheOk(c) && k <= |c.order| && TotalEntries(c.order[|c.order| - k..], c.entries) <= max
    ensures |Evicted(c, max).order| >= k
    decreases |c.order|
  {
    if Total(c) > max && |c.order| > 1 {
      assert c.order[0..] == c.order;
      if k < |c.order| {
        DropOk(c);
        var d := DropOldest(c);
        assert d.order[|d.order| - k..] == c.order[|c.order| - k..];
        TotalSame(d.order[|d.order| - k..], c.entries, d.entries);
        EvictsNoMore(d, max, k);
      }
    }
  }

  // ----- browsing by place -----

  predicate InRange(ref: PartRef, offset: nat, end: nat) {
    ref.count > 0 && ref.offset < end && ref.offset + ref.count > offset
  }

  /** `getPartsForRange`. */
  function PartsForRange(refs: seq<PartRef>, offset: nat, end: nat): (r: seq<PartRef>)
    ensures forall ref :: ref in r ==> ref in refs
  {
    if refs == [] then [] else (if InRange(refs[0], offset, end) then [refs[0]] else []) + PartsForRange(refs[1..], offset, end)
  }

  function Minus(a: nat, b: nat): nat {
    if a < b then 0 else a - b
  }

  /** What one part contributes to a range. */
  function Cut(items: seq<Record>, ref: PartRef, offset: nat, end: nat): seq<Record> {
    var to := Minus(end, ref.offset);
    Slice(items, Minus(offset, ref.offset), if to < |items| then to else |items|)
  }

  function Browsed(refs: seq<PartRef>, loader: PartRef -> Part, offset: nat, end: nat): seq<Record> {
    if refs == [] then [] else Cut(loader(refs[0]).items, refs[0], offset, end) + Browsed(refs[1..], loader, offset, end)
  }

  lemma SliceConcat(a: seq<Record>, b: seq<Record>, from: nat, to: nat)
    ensures Slice(a + b, from, to) == Slice(a, from, to) + Slice(b, Minus(from, |a|), Minus(to, |a|))
  {
  }

  lemma CutRight(items: seq<Record>, ref: PartRef, offset: nat, end: nat)
    requires |items| == ref.count
    ensures var slice := Slice(items, Minus(offset, ref.offset), Minus(end, ref.offset));
      slice == if InRange(ref, offset, end) then Cut(items, ref, offset, end) else []
  {
  }

  lemma MinusTwice(a: nat, b: nat, c: nat)
    ensures Minus(Minus(a, b), c) == Minus(a, b + c)
  {
  }

  /** Cutting the parts in range yields the range of the whole. */
  lemma {:induction false} BrowsedRight(refs: seq<PartRef>, loader: PartRef -> Part, base: nat, total: nat, offset: nat, end: nat)
    requires ContiguousFrom(refs, base, total) && Content(refs, loader).Some?
    ensures Browsed(PartsForRange(refs, offset, end), loader, offset, end) == Slice(Content(refs, loader).value, Minus(offset, base), Minus(end, base))
    decreases |refs|
  {
    hide Slice, Cut, InRange, Minus;
    if refs != [] {
      var ref, items := refs[0], loader(refs[0]).items;
      var rest := Content(refs[1..], loader).value;
      BrowsedRight(refs[1..], loader, base + ref.count, total, offset, end);
      SliceConcat(items, rest, Minus(offset, base), Minus(end, base));
      CutRight(items, ref, offset, end);
      MinusTwice(offset, base, ref.count);
      MinusTwice(end, base, ref.count);
      RangeStep(refs, loader, offset, end);
    } else {
      SliceNone(Minus(offset, base), Minus(end, base));
    }
  }

  lemma SliceNone(from: nat, to: nat)
    ensures Slice<Record>([], from, to) == []
  {
  }

  lemma RangeStep(refs: seq<PartRef>, loader: PartRef -> Part, offset: nat, end: nat)
    requires refs != []
    ensures Browsed(PartsForRange(refs, offset, end), loader, offset, end)
      == (if InRange(refs[0], offset, end) then Cut(loader(refs[0]).items, refs[0], offset, end) else [])
         + Browsed(PartsForRange(refs[1..], offset, end), loader, offset, end)
  {
    hide Cut, InRange;
    var tail := PartsForRange(refs[1..], offset, end);
    if InRange(refs[0], offset, end) {
      assert PartsForRange(refs, offset, end) == [refs[0]] + tail;
      assert ([refs[0]] + tail)[1..] == tail;
    } else {
      assert PartsForRange(refs, offset, end) == tail;
    }
  }

  lemma {:induction false} ContentValid(refs: seq<PartRef>, loader: PartRef -> Part, ref: PartRef)
    requires Content(refs, loader).Some? && ref in refs
    ensures PartValid(loader(ref), ref)
  {
    if ref != refs[0] { ContentValid(refs[1..], loader, ref); }
  }

  lemma {:induction false} ContentLength(refs: seq<PartRef>, loader: PartRef -> Part, base: nat, total: nat)
    requires ContiguousFrom(refs, base, total) && Content(refs, loader).Some?
    ensures base + |Content(refs, loader).value| == total
    decreases |refs|
  {
    if refs != [] { ContentLength(refs[1..], loader, base + refs[0].count, total); }
  }

  /** `isDirectChunkBrowse`. */
  predicate DirectBrowse(env: Env, query: string, o: Options) {
    env.trim(query) == "" && !o.rank && !o.snippets && !o.includeMatches && o.types.None? && o.facets.None? && o.tags.None?
      && o.concepts.None? && o.privacy.None? && o.relationshipTargetId.GetOr("") == ""
  }

  /** Nothing but a page is asked for. */
  ghost predicate Browses(env: Env, query: string, o: Options) {
    && |env.trim(query)| == 0 && o.rank == false && o.snippets == false && o.includeMatches == false
    && o.types == None && o.facets == None && o.tags == None && o.concepts == None && o.privacy == None
    && (o.relationshipTargetId.Some? ==> |o.relationshipTargetId.value| == 0)
  }

  lemma BrowsesAgrees(env: Env, query: string, o: Options)
    ensures DirectBrowse(env, query, o) <==> Browses(env, query, o)
  {
  }

  /** Every part that overlaps the page holds what the manifest says. */
  ghost predicate PageLoads(m: Manifest, loader: PartRef -> Part, o: Options) {
    var end := o.offset + (if o.limit.Some? then o.limit.value else m.total);
    forall k :: 0 <= k < |m.parts| && m.parts[k].count > 0 && m.parts[k].offset < end && o.offset < m.parts[k].offset + m.parts[k].count ==>
      loader(m.parts[k]).offset == m.parts[k].offset && |loader(m.parts[k]).items| == m.parts[k].count
  }

  lemma {:induction false} RangeMembers(refs: seq<PartRef>, offset: nat, end: nat)
    ensures forall ref :: ref in PartsForRange(refs, offset, end) <==> ref in refs && InRange(ref, offset, end)
  {
    hide InRange;
    if refs != [] {
      RangeMembers(refs[1..], offset, end);
      assert forall ref :: ref in refs <==> ref == refs[0] || ref in refs[1..];
    }
  }

  ghost predicate AllValid(refs: seq<PartRef>, loader: PartRef -> Part) {
    forall k :: 0 <= k < |refs| ==> PartValid(loader(refs[k]), refs[k])
  }

  lemma PagePlaces(m: Manifest, loader: PartRef -> Part, o: Options)
    ensures PageLoads(m, loader, o) <==> AllValid(PartsForRange(m.parts, o.offset, o.offset + o.limit.GetOr(m.total)), loader)
  {
    var end := o.offset + o.limit.GetOr(m.total);
    var parts := PartsForRange(m.parts, o.offset, end);
    RangeMembers(m.parts, o.offset, end);
    hide PartsForRange;
    assert forall k :: 0 <= k < |parts| ==> parts[k] in parts;
    assert forall k :: 0 <= k < |m.parts| ==> m.parts[k] in m.parts;
  }

  lemma LoadsWhenValid(loader: PartRef -> Part, ref: PartRef)
    ensures PartValid(loader(ref), ref) <==> loader(ref).offset == ref.offset && |loader(ref).items| == ref.count
  {
  }

  /** With nothing to filter by, every record is an entry at its place. */
  lemma {:induction false} AllEntries(env: Env, items: seq<Record>, o: Options, relaxed: bool)
    requires o.types.None? && o.facets.None? && o.tags.None? && o.concepts.None? && o.privacy.None? && o.relationshipTargetId.GetOr("") == ""
    ensures var es := Entries(env, items, "", o, 0, relaxed);
      |es| == |items| && forall i :: 0 <= i < |es| ==> es[i].item == items[i] && es[i].ordinal == i
  {
    hide MatchesOf, RankOf, Merged;
    if items != [] { AllEntries(env, items[..|items| - 1], o, relaxed); }
  }

  // ----- the runtime -----

  datatype ChunkedResult = ChunkedResult(result: QueryResult, manifestTotal: nat, scannedParts: nat, fetchedParts: nat)

  /** A loaded part failed its checks; the query throws. */
  datatype LoadError = InvalidPart(ref: PartRef)

  /** What a direct browse answers: the page by place, with the manifest's own facet counts. */
  function BrowseResult(items: seq<Record>, facets: Option<multiset<(string, string)>>, o: Options): QueryResult {
    QueryResult(Slice(items, o.offset, o.offset + o.limit.GetOr(|items|)), |items|, facets.GetOr(multiset{}), None)
  }

  class ChunkedRuntime {
    const env: Env
    const manifest: Manifest
    const loader: PartRef -> Part
    const maxCachedParts: nat
    const maxCachedMatches: nat
    var partCache: Cache<string, Part>
    var matchCache: MatchCache

    /** A cached part is what the loader gives for the manifest's part of that key. */
    ghost predicate PartCached(key: string, part: Part) {
      exists ref :: ref in manifest.parts && PartKey(ref) == key && part == loader(ref) && PartValid(part, ref)
    }

    /** A cached entry set is what a scan of the whole content finds for every query with that key. */
    ghost predicate MatchesCached(key: MatchKey, entries: seq<Entry>) {
      var content := Content(manifest.parts, loader);
      content.Some? && forall q, o :: KeyOf(q, o) == key ==> entries == Entries(env, content.value, q, o, 0, false)
    }

    ghost predicate PartsOk()
      reads this`partCache
    {
      && CacheOk(partCache) && 1 <= maxCachedParts && |partCache.order| <= maxCachedParts
      && forall k :: k in partCache.entries ==> PartCached(k, partCache.entries[k])
    }

    ghost predicate MatchesOk()
      reads this`matchCache
    {
      && CacheOk(matchCache) && (Total(matchCache) <= maxCachedMatches || |matchCache.order| <= 1)
      && forall k :: k in matchCache.entries ==> MatchesCached(k, matchCache.entries[k])
    }

    ghost predicate Valid()
      reads this`partCache, this`matchCache
    {
      ManifestValid(manifest) && KeysAgree(manifest.parts) && PartsOk() && MatchesOk()
    }

    /** `loadChunkedIndex`: bounds that are not positive fall back to the defaults. */
    constructor (env: Env, manifest: Manifest, loader: PartRef -> Part, maxCachedParts: Option<int>, maxCachedMatches: Option<int>)
      requires ManifestValid(manifest) && KeysAgree(manifest.parts)
      ensures Valid() && this.env == env && this.manifest == manifest && this.loader == loader
      ensures this.maxCachedParts == if maxCachedParts.Some? && maxCachedParts.value > 0 then maxCachedParts.value else 3
      ensures this.maxCachedMatches == if maxCachedMatches.Some? && maxCachedMatches.value > 0 then maxCachedMatches.value else 5000
      ensures partCache.order == [] && matchCache.order == []
    {
      this.env, this.manifest, this.loader := env, manifest, loader;
      this.maxCachedParts := if maxCachedParts.GetOr(0) > 0 then maxCachedParts.value else 3;
      this.maxCachedMatches := if maxCachedMatches.GetOr(0) > 0 then maxCachedMatches.value else 5000;
      partCache, matchCache := Cache([], map[]), Cache([], map[]);
    }

    /** `clearChunkCache`. */
    method Clear()
      requires Valid()
      modifies this`partCache, this`matchCache
      ensures Valid() && partCache.order == [] && matchCache.order == []
    {
      partCache, matchCache := Cache([], map[]), Cache([], map[]);
    }

    /** The eviction loop: the oldest parts go. */
    method EvictParts()
      requires CacheOk(partCache)
      modifies this`partCache
      ensures CacheOk(partCache) && partCache.order == Newest(old(partCache.order), maxCachedParts)
      ensures forall k :: k in partCache.entries ==> k in old(partCache).entries && partCache.entries[k] == old(partCache).entries[k]
    {
      ghost var before := partCache.order;
      hide Distinct;
      while |partCache.order| > maxCachedParts
        invariant CacheOk(partCache) && |partCache.order| <= |before|
        invariant partCache.order == before[|before| - |partCache.order|..]
        invariant |partCache.order| < |before| ==> maxCachedParts <= |partCache.order|
        invariant forall k :: k in partCache.entries ==> k in old(partCache).entries && partCache.entries[k] == old(partCache).entries[k]
      {
        DropOk(partCache);
        partCache := DropOldest(partCache);
      }
    }

    /** A hit becomes the newest cached part. */
    method Touch(key: string)
      requires PartsOk() && key in partCache.entries
      modifies this`partCache
      ensures PartsOk() && partCache.order == Newest(RemoveKey(old(partCache.order), key) + [key], maxCachedParts)
    {
      hide PartCached;
      TouchedOk(partCache, key, partCache.entries[key]);
      hide CacheOk;
      partCache := Touched(partCache, key, partCache.entries[key]);
    }

    /** A loaded part becomes the newest cached one. */
    method Remember(key: string, part: Part)
      requires PartsOk() && PartCached(key, part)
      modifies this`partCache
      ensures PartsOk() && partCache.order == Newest(RemoveKey(old(partCache.order), key) + [key], maxCachedParts)
    {
      hide PartCached;
      TouchedOk(partCache, key, part);
      hide CacheOk;
      partCache := Touched(partCache, key, part);
      EvictParts();
    }

    /** `loadChunkPart`: the loader's part, from the cache if it is there; it becomes the newest cached one. */
    method LoadPart(ref: PartRef) returns (r: Result<Part, LoadError>, fetched: bool)
      requires Valid() && ref in manifest.parts
      modifies this`partCache
      ensures Valid()
      ensures r == if loader(ref).offset == ref.offset && |loader(ref).items| == ref.count then Ok(loader(ref)) else Err(InvalidPart(ref))
      ensures fetched <==> PartKey(ref) !in old(partCache).entries
      ensures r.Ok? ==> KeptNewest(RemoveKey(old(partCache.order), PartKey(ref)) + [PartKey(ref)], maxCachedParts, partCache.order)
    {
      hide Content, KeyOf, ContiguousFrom, MatchesOk, PartsOk, KeysAgree, PartKey, RemoveKey;
      var key := PartKey(ref);
      if key in partCache.entries {
        var cached := partCache.entries[key];
        CachedPart(ref);
        Touch(key);
        return Ok(cached), false;
      }
      var part := loader(ref);
      if !PartValid(part, ref) { return Err(InvalidPart(ref)), true; }
      assert PartCached(key, part);
      Remember(key, part);
      return Ok(part), true;
    }

    lemma CachedPart(ref: PartRef)
      requires Valid() && ref in manifest.parts && PartKey(ref) in partCache.entries
      ensures partCache.entries[PartKey(ref)] == loader(ref) && PartValid(loader(ref), ref)
    {
      hide Content, KeyOf, ContiguousFrom, MatchesOk, PartKey;
      var part := partCache.entries[PartKey(ref)];
      assert PartCached(PartKey(ref), part);
      var other :| other in manifest.parts && PartKey(other) == PartKey(ref) && part == loader(other) && PartValid(part, other);
      assert other == ref;
    }

    /** The eviction loop with its running total. */
    method EvictMatches()
      requires CacheOk(matchCache)
      modifies this`matchCache
      ensures matchCache == Evicted(old(matchCache), maxCachedMatches)
    {
      var total := Total(matchCache);
      hide CacheOk, TotalEntries;
      while total > maxCachedMatches && |matchCache.order| > 1
        invariant CacheOk(matchCache) && total == Total(matchCache)
        invariant Evicted(matchCache, maxCachedMatches) == Evicted(old(matchCache), maxCachedMatches)
        decreases |matchCache.order|
      {
        DropOk(matchCache);
        TotalOfRest(matchCache);
        total := total - |matchCache.entries[matchCache.order[0]]|;
        matchCache := DropOldest(matchCache);
      }
    }

    lemma KeptMatches(touched: MatchCache, key: MatchKey, entries: seq<Entry>)
      requires MatchesOk() && touched == Touched(matchCache, key, entries) && MatchesCached(key, entries)
      ensures CacheOk(touched)
      ensures var r := Evicted(touched, maxCachedMatches);
        && CacheOk(r) && (Total(r) <= maxCachedMatches || |r.order| <= 1)
        && (forall k :: k in r.entries ==> MatchesCached(k, r.entries[k]))
        && key in r.entries && r.entries[key] == entries
    {
      hide MatchesCached, Total, Evicted;
      TouchedOk(matchCache, key, entries);
      EvictedRight(touched, maxCachedMatches);
      var r := Evicted(touched, maxCachedMatches);
      assert touched.order[|touched.order| - 1] == key;
      assert r.order[|r.order| - 1] == key;
      assert key in r.order;
    }

    /** `cacheMatchEntries`. */
    method CacheMatchEntries(key: MatchKey, entries: seq<Entry>)
      requires Valid() && MatchesCached(key, entries)
      modifies this`matchCache
      ensures Valid() && CacheOk(Touched(old(matchCache), key, entries))
      ensures matchCache == Evicted(Touched(old(matchCache), key, entries), maxCachedMatches)
      ensures key in matchCache.entries && matchCache.entries[key] == entries
    {
      hide PartsOk, KeyOf, ContiguousFrom, MatchesCached, CacheOk, Evicted, Touched, Total, KeysAgree;
      KeptMatches(Touched(matchCache, key, entries), key, entries);
      matchCache := Touched(matchCache, key, entries);
      EvictMatches();
    }

    /** A page by place, straight from the parts in range. */
    method Browse(o: Options) returns (r: Result<ChunkedResult, LoadError>)
      requires Valid()
      modifies this`partCache
      ensures Valid()
      ensures var content := Content(manifest.parts, loader);
        content.Some? ==> r.Ok? && r.value.result == BrowseResult(content.value, manifest.facets, o) && r.value.manifestTotal == |content.value|
      ensures r.Ok? <==> PageLoads(manifest, loader, o)
    {
      hide KeyOf, Entries, MatchesOk, PartsOk, KeysAgree, PartValid, Cut, InRange, Content, ContiguousFrom, PartsForRange, BrowseResult, PageLoads;
      var offset, limit := o.offset, o.limit.GetOr(manifest.total);
      var parts := PartsForRange(manifest.parts, offset, offset + limit);
      PagePlaces(manifest, loader, o);
      var items: seq<Record> := [];
      var scanned, fetched := 0, 0;
      while scanned < |parts|
        invariant Valid() && 0 <= fetched <= scanned <= |parts|
        invariant forall k :: 0 <= k < scanned ==> PartValid(loader(parts[k]), parts[k])
        invariant items + Browsed(parts[scanned..], loader, offset, offset + limit) == Browsed(parts, loader, offset, offset + limit)
      {
        var ref := parts[scanned];
        ghost var content := Content(manifest.parts, loader);
        if content.Some? { ContentValid(manifest.parts, loader, ref); }
        var loaded, isFetched := LoadPart(ref);
        LoadsWhenValid(loader, ref);
        if loaded.Err? {
          assert !AllValid(parts, loader);
          return Err(loaded.error);
        }
        assert parts[scanned..][1..] == parts[scanned + 1..];
        Appended(items, Cut(loaded.value.items, ref, offset, offset + limit), Browsed(parts[scanned + 1..], loader, offset, offset + limit));
        items := items + Cut(loaded.value.items, ref, offset, offset + limit);
        if isFetched { fetched := fetched + 1; }
        scanned := scanned + 1;
      }
      assert parts[scanned..] == [];
      BrowsedAnswer(manifest, loader, o);
      r := Ok(ChunkedResult(QueryResult(items, manifest.total, manifest.facets.GetOr(multiset{}), None), manifest.total, scanned, fetched));
    }

    /** The scan: every part's entries at its own offset. */
    method Scan(q: string, o: Options) returns (r: Result<seq<Entry>, LoadError>, scanned: nat, fetched: nat)
      requires Valid()
      modifies this`partCache
      ensures Valid()
      ensures var content := Content(manifest.parts, loader);
        (content.Some? <==> r.Ok?) && (content.Some? ==> r.value == Entries(env, content.value, q, o, 0, false))
      ensures r.Ok? ==> scanned == |manifest.parts|
    {
      hide KeyOf, Entries, MatchesOk, PartsOk, KeysAgree;
      var parts := manifest.parts;
      var entries: seq<Entry> := [];
      ghost var seen: seq<Record> := [];
      scanned, fetched := 0, 0;
      EntriesOfNone(env, q, o);
      assert parts[0..] == parts;
      PrecededByNone(Content(parts, loader));
      while scanned < |parts|
        invariant Valid() && 0 <= fetched <= scanned <= |parts|
        invariant ContiguousFrom(parts[scanned..], |seen|, manifest.total)
        invariant Content(parts, loader) == Preceded(seen, Content(parts[scanned..], loader))
        invariant entries == Entries(env, seen, q, o, 0, false)
      {
        var ref := parts[scanned];
        assert parts[scanned..][0] == ref && parts[scanned..][1..] == parts[scanned + 1..];
        var loaded, isFetched := LoadPart(ref);
        if loaded.Err? { return Err(loaded.error), scanned, fetched; }
        EntriesConcat(env, seen, loaded.value.items, q, o, 0, false);
        entries := entries + Entries(env, loaded.value.items, q, o, ref.offset, false);
        PrecededMore(seen, loaded.value.items, Content(parts[scanned + 1..], loader));
        seen := seen + loaded.value.items;
        if isFetched { fetched := fetched + 1; }
        scanned := scanned + 1;
      }
      assert parts[scanned..] == [] && seen + [] == seen;
      r := Ok(entries);
    }

    /** `queryChunkedAiwgFortemiIndex`. */
    method Query(query: string, o: Options) returns (r: Result<ChunkedResult, LoadError>)
      requires Valid()
      modifies this`partCache, this`matchCache
      ensures Valid()
      ensures var content := Content(manifest.parts, loader);
        && (content.Some? ==> r.Ok? && r.value.result == ChunkedAnswer(env, content.value, manifest.facets, query, o))
        && (content.Some? ==> AnswerSays(env, content.value, manifest.facets, query, o, r.value.result))
        && (content.None? ==> (r.Ok? <==> Browses(env, query, o) && PageLoads(manifest, loader, o)))
      ensures r.Ok? && !Browses(env, query, o) ==>
        && r.value.scannedParts == (if KeyOf(Normalized(env, query), o) in old(matchCache).entries then 0 else |manifest.parts|)
        && KeyOf(Normalized(env, query), o) in matchCache.entries
    {
      BrowsesAgrees(env, query, o);
      ghost var whole := Content(manifest.parts, loader);
      if whole.Some? { AnswerMeans(env, whole.value, manifest.facets, query, o); }
      hide AnswerSays, Browses, PageLoads, Entries, PartsOk, KeysAgree, ContiguousFrom, ResultOf, BrowseResult, MatchesCached;
      var q := Normalized(env, query);
      if DirectBrowse(env, query, o) {
        r := Browse(o);
        return;
      }
      var key := KeyOf(q, o);
      if key in matchCache.entries {
        var cached := matchCache.entries[key];
        CachedEntries(key, cached, q, o);
        Refresh(key);
        return Ok(ChunkedResult(ResultOf(env, cached, q, o), manifest.total, 0, 0));
      }
      var entries, scanned, fetched := Scan(q, o);
      if entries.Err? { return Err(entries.error); }
      FoundEntries(q, o, entries.value);
      CacheMatchEntries(key, entries.value);
      r := Ok(ChunkedResult(ResultOf(env, entries.value, q, o), manifest.total, scanned, fetched));
    }

    /** A hit makes its set the newest. */
    method Refresh(key: MatchKey)
      requires Valid() && key in matchCache.entries
      modifies this`matchCache
      ensures Valid() && matchCache == Touched(old(matchCache), key, old(matchCache).entries[key])
    {
      hide PartsOk, KeyOf, ContiguousFrom, MatchesCached, KeysAgree;
      var cached := matchCache.entries[key];
      TouchedOk(matchCache, key, cached);
      TouchedTotal(matchCache, key);
      hide CacheOk, Total;
      matchCache := Touched(matchCache, key, cached);
    }

    lemma CachedEntries(key: MatchKey, entries: seq<Entry>, q: string, o: Options)
      requires MatchesOk() && key in matchCache.entries && entries == matchCache.entries[key] && KeyOf(q, o) == key
      ensures Content(manifest.parts, loader).Some?
      ensures entries == Entries(env, Content(manifest.parts, loader).value, q, o, 0, false)
    {
      hide Content, Entries, KeyOf, CacheOk, Total;
      assert MatchesCached(key, entries);
    }

    lemma FoundEntries(q: string, o: Options, entries: seq<Entry>)
      requires Content(manifest.parts, loader).Some?
      requires entries == Entries(env, Content(manifest.parts, loader).value, q, o, 0, false)
      ensures MatchesCached(KeyOf(q, o), entries)
    {
      hide Content, Entries, KeyOf;
      var items := Content(manifest.parts, loader).value;
      forall q', o' | KeyOf(q', o') == KeyOf(q, o) ensures entries == Entries(env, items, q', o', 0, false) {
        KeyDetermines(env, items, q, o, q', o', 0, false);
      }
    }
  }

  function Preceded(seen: seq<Record>, rest: Option<seq<Record>>): Option<seq<Record>> {
    if rest.None? then None else Some(seen + rest.value)
  }

  lemma Appended(a: seq<Record>, b: seq<Record>, c: seq<Record>)
    ensures a + (b + c) == a + b + c
  {
  }

  /** The parts in range make the page, and the manifest's total is the content's length. */
  lemma BrowsedAnswer(m: Manifest, loader: PartRef -> Part, o: Options)
    requires ManifestValid(m)
    ensures Content(m.parts, loader).Some? ==> m.total == |Content(m.parts, loader).value|
    ensures var end := o.offset + o.limit.GetOr(m.total);
      var page := Browsed(PartsForRange(m.parts, o.offset, end), loader, o.offset, end);
      Content(m.parts, loader).Some? ==> BrowseResult(Content(m.parts, loader).value, m.facets, o) == QueryResult(page, m.total, m.facets.GetOr(multiset{}), None)
  {
    hide Content, ContiguousFrom, Slice, Browsed, PartsForRange;
    if Content(m.parts, loader).Some? {
      BrowsedRight(m.parts, loader, 0, m.total, o.offset, o.offset + o.limit.GetOr(m.total));
      ContentLength(m.parts, loader, 0, m.total);
    }
  }

  lemma PrecededByNone(rest: Option<seq<Record>>)
    ensures Preceded([], rest) == rest
  {
    if rest.Some? { assert [] + rest.value == rest.value; }
  }

  lemma PrecededMore(seen: seq<Record>, items: seq<Record>, rest: Option<seq<Record>>)
    ensures Preceded(seen, Preceded(items, rest)) == Preceded(seen + items, rest)
  {
    if rest.Some? { assert seen + (items + rest.value) == seen + items + rest.value; }
  }

  lemma EntriesOfNone(env: Env, q: string, o: Options)
    ensures Entries(env, [], q, o, 0, false) == []
  {
  }

  lemma {:induction false} TotalWithout(order: seq<MatchKey>, entries: map<MatchKey, seq<Entry>>, key: MatchKey)
    requires Distinct(order) && key in order && forall k :: k in order ==> k in entries
    ensures TotalEntries(order, entries) == TotalEntries(RemoveKey(order, key), entries) + |entries[key]|
  {
    if order[0] == key {
      assert key !in order[1..];
      RemoveOnce(order[1..], key);
      assert RemoveKey(order, key) == [] + order[1..] == order[1..];
    } else {
      TotalWithout(order[1..], entries, key);
      var rest := RemoveKey(order[1..], key);
      assert ([order[0]] + rest)[1..] == rest;
    }
  }

  lemma {:induction false} TotalAppend(order: seq<MatchKey>, entries: map<MatchKey, seq<Entry>>, key: MatchKey)
    requires key in entries && forall k :: k in order ==> k in entries
    ensures TotalEntries(order + [key], entries) == TotalEntries(order, entries) + |entries[key]|
  {
    if order != [] {
      assert (order + [key])[1..] == order[1..] + [key];
      TotalAppend(order[1..], entries, key);
    } else {
      assert order + [key] == [key];
    }
  }

  /** Moving a set to the end changes nothing but the order. */
  lemma TouchedTotal(c: MatchCache, key: MatchKey)
    requires CacheOk(c) && key in c.entries
    ensures var t := Touched(c, key, c.entries[key]);
      CacheOk(t) && Total(t) == Total(c) && t.entries == c.entries && |t.order| == |c.order|
  {
    TouchedOk(c, key, c.entries[key]);
    TotalWithout(c.order, c.entries, key);
    TotalAppend(RemoveKey(c.order, key), c.entries, key);
    assert c.entries[key := c.entries[key]] == c.entries;
  }

  /** What the chunked query answers on a content. */
  function ChunkedAnswer(env: Env, items: seq<Record>, facets: Option<multiset<(string, string)>>, query: string, o: Options): QueryResult {
    if DirectBrowse(env, query, o) then BrowseResult(items, facets, o) else PlainQuery(env, items, query, o)
  }

  /** A page of the records by place, with the facet counts the manifest states, none if it states none. */
  ghost predicate BrowseSays(items: seq<Record>, facets: Option<multiset<(string, string)>>, o: Options, r: QueryResult) {
    && r.items == (if o.offset < End(o, |items|) then items[o.offset..End(o, |items|)] else [])
    && r.total == |items| && r.rankedItems == None
    && (facets.Some? ==> r.facets == facets.value) && (facets.None? ==> r.facets == multiset{})
  }

  /** A mere page is answered by place; anything else by what the trimmed, lowered query picks, without any retry. */
  ghost predicate AnswerSays(env: Env, items: seq<Record>, facets: Option<multiset<(string, string)>>, query: string, o: Options, r: QueryResult) {
    if Browses(env, query, o) then BrowseSays(items, facets, o, r) else ResultSays(env, items, env.lower(env.trim(query)), o, false, r)
  }

  lemma AnswerMeans(env: Env, items: seq<Record>, facets: Option<multiset<(string, string)>>, query: string, o: Options)
    ensures AnswerSays(env, items, facets, query, o, ChunkedAnswer(env, items, facets, query, o))
  {
    BrowsesAgrees(env, query, o);
    hide Browses, DirectBrowse, PlainQuery, ResultSays;
    PlainMeans(env, items, query, o);
  }

  lemma PageOf(items: seq<Record>, es: seq<Entry>, from: nat, to: nat)
    requires |es| == |items| && forall i :: 0 <= i < |es| ==> es[i].item == items[i]
    ensures ItemsOf(Slice(es, from, to)) == Slice(items, from, to)
  {
  }

  lemma ResultOfAll(env: Env, items: seq<Record>, es: seq<Entry>, o: Options)
    requires |es| == |items| && (forall i :: 0 <= i < |es| ==> es[i].item == items[i]) && Sorted(es, false) == es
    requires !o.rank && !o.snippets && !o.includeMatches
    ensures ResultOf(env, es, "", o) == BrowseResult(items, Some(Facets(items)), o)
  {
    hide Facets, Sorted, Slice;
    PageOf(items, es, o.offset, o.offset + o.limit.GetOr(|items|));
    assert ItemsOf(es) == items;
    hide ItemsOf;
  }

  lemma BrowseIsPlain(env: Env, items: seq<Record>, query: string, o: Options)
    requires Sound(env) && DirectBrowse(env, query, o)
    ensures BrowseResult(items, Some(Facets(items)), o) == PlainQuery(env, items, query, o)
  {
    hide Entries, Facets, Sorted, ResultOf, BrowseResult;
    assert Normalized(env, query) == "";
    var es := Entries(env, items, "", o, 0, false);
    AllEntries(env, items, o, false);
    SortedStays(es);
    ResultOfAll(env, items, es, o);
  }

  lemma SortedStays(es: seq<Entry>)
    requires forall i :: 0 <= i < |es| ==> es[i].ordinal == i
    ensures Sorted(es, false) == es
  {
    SortEntries(es, false);
    SortMembers(es, ByRank(false));
    hide Sort;
    SortedUnique(Sorted(es, false), es, ByRank(false));
  }

  /**
    Chunked equals whole: on the content of a built index a chunked query answers exactly what the whole-index query
    answers, except when a discovery query finds nothing strictly and something once overlap is relaxed.
   */
  lemma ChunkedIsWhole(env: Env, items: seq<Record>, query: string, o: Options)
    requires Sound(env)
    ensures var q := Normalized(env, query);
      ChunkedAnswer(env, items, Some(Facets(items)), query, o) == WholeQuery(env, items, query, o)
      <==> o.profile.Default? || q == "" || Entries(env, items, q, o, 0, false) != [] || Entries(env, items, q, o, 0, true) == []
  {
    hide Entries, Facets, Normalized, BrowseResult, PlainQuery, WholeQuery;
    PlainIsWhole(env, items, query, o);
    if DirectBrowse(env, query, o) { BrowseIsPlain(env, items, query, o); }
  }

  lemma TotalOfRest(c: MatchCache)
    requires CacheOk(c) && c.order != []
    ensures c.order[0] in c.entries && CacheOk(DropOldest(c)) && Total(DropOldest(c)) == Total(c) - |c.entries[c.order[0]]|
  {
    DropOk(c);
    TotalSame(c.order[1..], c.entries, DropOldest(c).entries);
  }

  // ----- from the records to the answers -----

  /** One call of a client. */
  datatype Call = Ask(query: string, options: Options) | ClearCaches

  /** The chunked answer is the whole index's: no discovery query that picks something only once overlap is relaxed. */
  ghost predicate NeedsNoRetry(env: Env, items: seq<Record>, query: string, o: Options) {
    var q := env.lower(env.trim(query));
    o.profile.Default? || |q| == 0 || SomePicked(env, items, q, o, false) || !SomePicked(env, items, q, o, true)
  }

  /** The call was answered with what the query picks of the records, which is the whole-index answer exactly if it needs no retry. */
  ghost predicate Answered(env: Env, items: seq<Record>, call: Call, answer: Option<QueryResult>) {
    match call
    case ClearCaches => answer == None
    case Ask(query, o) =>
      && answer.Some? && ResultSays(env, items, env.lower(env.trim(query)), o, false, answer.value)
      && (answer.value == WholeQuery(env, items, query, o) <==> NeedsNoRetry(env, items, query, o))
  }

  /** An index built, written to files and opened from them. */
  method BuildAndOpen(env: Env, index: seq<Record>, partSize: Option<int>, includePrivate: bool, includePii: bool,
                      maxCachedParts: Option<int>, maxCachedMatches: Option<int>)
    returns (runtime: ChunkedRuntime)
    ensures fresh(runtime) && runtime.Valid() && runtime.env == env
    ensures Serves(runtime.manifest, runtime.loader, Filter(index, Keeping(includePrivate, includePii)))
  {
    var manifest, parts, details := BuildChunkedIndex(index, partSize, None, includePrivate, includePii);
    BuiltIsWhole(Filter(index, Keeping(includePrivate, includePii)), manifest, parts);
    DistinctAgree(manifest.parts);
    hide ManifestValid, KeysAgree, Partitioned, JustEnough, Facets, Filter, Content;
    runtime := new ChunkedRuntime(env, manifest, Hosted(parts), maxCachedParts, maxCachedMatches);
  }

  /** The manifest and its files stand for exactly these records. */
  ghost predicate Serves(manifest: Manifest, loader: PartRef -> Part, items: seq<Record>) {
    Content(manifest.parts, loader) == Some(items) && manifest.facets == Some(Facets(items))
  }

  method AnswerCall(runtime: ChunkedRuntime, ghost items: seq<Record>, call: Call) returns (answer: Option<QueryResult>)
    requires runtime.Valid() && Serves(runtime.manifest, runtime.loader, items) && Sound(runtime.env)
    modifies runtime
    ensures runtime.Valid() && Answered(runtime.env, items, call, answer)
  {
    hide Sound, ManifestValid, KeysAgree, Facets, Content, Answered, ChunkedAnswer, ChunkedRuntime.PartsOk, ChunkedRuntime.MatchesOk;
    match call
    case ClearCaches =>
      runtime.Clear();
      ClearAnswered(runtime.env, items);
      answer := None;
    case Ask(query, o) =>
      var r := runtime.Query(query, o);
      AskAnswered(runtime.env, items, query, o);
      answer := Some(r.value.result);
  }

  /**
    From build to answer: an index built with any part size, served from its files by a runtime with any cache bounds,
    answers each of any series of queries, with caches cleared anywhere in between, as the whole-index query on the kept
    records does, but for discovery queries that need the retry.
   */
  method BuildAndServe(env: Env, index: seq<Record>, partSize: Option<int>, includePrivate: bool, includePii: bool,
                       maxCachedParts: Option<int>, maxCachedMatches: Option<int>, calls: seq<Call>)
    returns (answers: seq<Option<QueryResult>>)
    requires Sound(env)
    ensures |answers| == |calls|
    ensures forall i :: 0 <= i < |calls| ==> Answered(env, Filter(index, Keeping(includePrivate, includePii)), calls[i], answers[i])
  {
    ghost var items := Filter(index, Keeping(includePrivate, includePii));
    hide Sound, Serves, Answered, Filter, ManifestValid, KeysAgree, ChunkedRuntime.PartsOk, ChunkedRuntime.MatchesOk;
    var runtime := BuildAndOpen(env, index, partSize, includePrivate, includePii, maxCachedParts, maxCachedMatches);
    answers := [];
    while |answers| < |calls|
      invariant |answers| <= |calls| && fresh(runtime) && runtime.Valid()
      invariant runtime.env == env && Serves(runtime.manifest, runtime.loader, items)
      invariant forall i :: 0 <= i < |answers| ==> Answered(env, items, calls[i], answers[i])
    {
      var answer := AnswerCall(runtime, items, calls[|answers|]);
      answers := answers + [answer];
    }
  }

  lemma ClearAnswered(env: Env, items: seq<Record>)
    ensures Answered(env, items, ClearCaches, None)
  {
  }

  lemma AskAnswered(env: Env, items: seq<Record>, query: string, o: Options)
    requires Sound(env)
    ensures Answered(env, items, Ask(query, o), Some(ChunkedAnswer(env, items, Some(Facets(items)), query, o)))
  {
    hide ChunkedAnswer, WholeQuery, Entries, Facets, ResultSays, SomePicked, Sound;
    var q := env.lower(env.trim(query));
    ChunkedIsWhole(env, items, query, o);
    NoneListed(env, items, q, o, false);
    NoneListed(env, items, q, o, true);
    ChunkedMeans(env, items, query, o);
  }

  /** The chunked answer on a built index's content, by the records: what the query picks without any retry. */
  lemma ChunkedMeans(env: Env, items: seq<Record>, query: string, o: Options)
    requires Sound(env)
    ensures ResultSays(env, items, env.lower(env.trim(query)), o, false, ChunkedAnswer(env, items, Some(Facets(items)), query, o))
  {
    hide BrowseResult, PlainQuery, Facets, ResultSays, Sound;
    PlainMeans(env, items, query, o);
    if DirectBrowse(env, query, o) { BrowseIsPlain(env, items, query, o); }
  }
}
