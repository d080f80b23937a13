/** The index query over records: matching, filters, ranking and paging, on a whole index. */
module ChunkedSearch {
  import opened Wrappers
  import opened Sorting

  datatype Classification = Private | Sanitized | Public

  /** What a query reads of a record. `facets` lists the record's own facet names, each once. */
  datatype Record = Record(
    id: string, kind: string, classification: Classification, pii: bool, tags: seq<string>, concepts: seq<string>,
    facets: seq<(string, seq<string>)>, targets: seq<string>, title: string, text: string, searchValues: seq<string>)

  datatype Field = TitleField | TagField | ConceptField | TextField | FacetField | IdField | SourceField

  datatype Match = Match(field: Field, value: string, score: Option<real>)

  datatype Profile = Default | Discovery

  datatype Options = Options(
    types: Option<seq<string>>, facets: Option<seq<(string, seq<string>)>>, tags: Option<seq<string>>, concepts: Option<seq<string>>,
    privacy: Option<seq<Classification>>, relationshipTargetId: Option<string>, weights: map<Field, real>, profile: Profile,
    limit: Option<nat>, offset: nat, rank: bool, snippets: bool, snippetLength: Option<int>, includeMatches: bool)

  /** String operations of the platform, the discovery scorer and the snippet text. */
  datatype Env = Env(
    trim: string -> string, lower: string -> string, discovery: (Record, string, bool) -> seq<Match>,
    snippet: (Record, seq<Match>, string, int) -> string)

  /** Only the empty string lowers to the empty string. */
  ghost predicate Sound(env: Env) {
    forall s :: env.lower(s) == "" <==> s == ""
  }

  function DefaultWeight(f: Field): real {
    match f
    case TitleField => 4.0
    case TagField => 3.0
    case ConceptField => 2.0
    case TextField => 1.0
    case FacetField => 2.0
    case IdField => 1.0
    case SourceField => 0.25
  }

  datatype Entry = Entry(item: Record, ordinal: nat, rank: real, matches: seq<Match>)

  datatype Ranked = Ranked(item: Record, rank: real, snippet: Option<string>, matches: Option<seq<Match>>)

  /** `facets` counts (facet name, value) pairs. */
  datatype QueryResult = QueryResult(items: seq<Record>, total: nat, facets: multiset<(string, string)>, rankedItems: Option<seq<Ranked>>)

  // ----- matching and filtering one record -----

  predicate OccursAt(s: string, q: string, i: int) {
    0 <= i <= |s| - |q| && s[i..i + |q|] == q
  }

  predicate Contains(s: string, q: string) {
    exists i :: 0 <= i <= |s| - |q| && OccursAt(s, q, i)
  }

  function Tagged(env: Env, field: Field, values: seq<string>, q: string): seq<Match> {
    if values == [] then []
    else (if Contains(env.lower(values[0]), q) then [Match(field, values[0], None)] else []) + Tagged(env, field, values[1..], q)
  }

  function Searched(env: Env, r: Record, values: seq<string>, q: string): seq<Match> {
    if values == [] then []
    else
      (if values[0] != r.title && values[0] != r.text && Contains(env.lower(values[0]), q) then [Match(TextField, values[0], Some(1.0))] else [])
      + Searched(env, r, values[1..], q)
  }

  /** `queryMatches`. */
  function QueryMatches(env: Env, r: Record, q: string): seq<Match> {
    if q == "" then []
    else
      (if Contains(env.lower(r.title), q) then [Match(TitleField, r.title, None)] else [])
      + (if Contains(env.lower(r.text), q) then [Match(TextField, r.text, None)] else [])
      + Tagged(env, TagField, r.tags, q) + Tagged(env, ConceptField, r.concepts, q) + Searched(env, r, r.searchValues, q)
  }

  function MatchesOf(env: Env, r: Record, q: string, profile: Profile, relaxed: bool): seq<Match> {
    if profile.Default? then QueryMatches(env, r, q) else if q == "" then [] else env.discovery(r, q, relaxed)
  }

  predicate IncludesAll(actual: seq<string>, expected: Option<seq<string>>) {
    expected.None? || forall v :: v in expected.value ==> v in actual
  }

  function FacetValues(facets: seq<(string, seq<string>)>, name: string): seq<string> {
    if facets == [] then [] else if facets[0].0 == name then facets[0].1 else FacetValues(facets[1..], name)
  }

  predicate MatchesFacets(r: Record, filters: Option<seq<(string, seq<string>)>>) {
    filters.None? || forall f :: f in filters.value ==> IncludesAll(FacetValues(r.facets, f.0), Some(f.1))
  }

  predicate Passes(r: Record, q: string, matches: seq<Match>, o: Options) {
    && (q != "" ==> matches != [])
    && (o.types.Some? ==> r.kind in o.types.value)
    && (o.privacy.Some? ==> r.classification in o.privacy.value)
    && IncludesAll(r.tags, o.tags)
    && IncludesAll(r.concepts, o.concepts)
    && MatchesFacets(r, o.facets)
    && (o.relationshipTargetId.GetOr("") != "" ==> o.relationshipTargetId.value in r.targets)
  }

  /** The defaults, overridden field by field. */
  function Merged(weights: map<Field, real>): (w: map<Field, real>)
    ensures forall f: Field :: f in w
  {
    map f: Field | true :: if f in weights then weights[f] else DefaultWeight(f)
  }

  function RankOf(matches: seq<Match>, weights: map<Field, real>): real
    requires forall f: Field :: f in weights
  {
    if matches == [] then 0.0
    else RankOf(matches[..|matches| - 1], weights) + matches[|matches| - 1].score.GetOr(weights[matches[|matches| - 1].field])
  }

  // ----- entries, in record order -----

  /** `createRankedEntries`: the records that pass, with their place in the whole index. */
  function Entries(env: Env, items: seq<Record>, q: string, o: Options, base: nat, relaxed: bool): seq<Entry> {
    if items == [] then []
    else
      var before := Entries(env, items[..|items| - 1], q, o, base, relaxed);
      var r := items[|items| - 1];
      var matches := MatchesOf(env, r, q, o.profile, relaxed);
      if Passes(r, q, matches, o) then before + [Entry(r, base + |items| - 1, RankOf(matches, Merged(o.weights)), matches)] else before
  }

  /** Scanning piece by piece, each at its own offset, finds what one scan finds. */
  lemma {:induction false} EntriesConcat(env: Env, a: seq<Record>, b: seq<Record>, q: string, o: Options, base: nat, relaxed: bool)
    ensures Entries(env, a + b, q, o, base, relaxed) == Entries(env, a, q, o, base, relaxed) + Entries(env, b, q, o, base + |a|, relaxed)
    decreases |b|
  {
    hide MatchesOf, Passes, RankOf, Merged;
    if b == [] {
      assert a + b == a;
    } else {
      var n := |b| - 1;
      assert (a + b)[..|a + b| - 1] == a + b[..n];
      EntriesConcat(env, a, b[..n], q, o, base, relaxed);
    }
  }

  /** The entries lie within the records, in index order, each with the record at its place. */
  ghost predicate Placed(es: seq<Entry>, items: seq<Record>, base: nat) {
    && (forall i :: 0 <= i < |es| ==> base <= es[i].ordinal < base + |items| && es[i].item == items[es[i].ordinal - base])
    && (forall i, j :: 0 <= i < j < |es| ==> es[i].ordinal < es[j].ordinal)
  }

  lemma PlacedWider(es: seq<Entry>, items: seq<Record>, base: nat)
    requires items != [] && Placed(es, items[..|items| - 1], base)
    ensures Placed(es, items, base) && forall i :: 0 <= i < |es| ==> es[i].ordinal < base + |items| - 1
  {
  }

  lemma PlacedMore(es: seq<Entry>, items: seq<Record>, base: nat, e: Entry)
    requires Placed(es, items, base) && (forall i :: 0 <= i < |es| ==> es[i].ordinal < e.ordinal)
    requires base <= e.ordinal < base + |items| && e.item == items[e.ordinal - base]
    ensures Placed(es + [e], items, base)
  {
  }

  lemma {:induction false} EntriesPlaced(env: Env, items: seq<Record>, q: string, o: Options, base: nat, relaxed: bool)
    ensures Placed(Entries(env, items, q, o, base, relaxed), items, base)
  {
    hide MatchesOf, Passes, RankOf, Merged;
    if items != [] {
      var n := |items| - 1;
      EntriesPlaced(env, items[..n], q, o, base, relaxed);
      var before := Entries(env, items[..n], q, o, base, relaxed);
      PlacedWider(before, items, base);
      hide Placed;
      var r := items[n];
      var matches := MatchesOf(env, r, q, o.profile, relaxed);
      if Passes(r, q, matches, o) { PlacedMore(before, items, base, Entry(r, base + n, RankOf(matches, Merged(o.weights)), matches)); }
    }
  }

  ghost predicate Listed(es: seq<Entry>, ordinal: int) {
    exists i :: 0 <= i < |es| && es[i].ordinal == ordinal
  }

  /** A record has an entry exactly when it passes. */
  lemma {:induction false} EntriesExact(env: Env, items: seq<Record>, q: string, o: Options, base: nat, relaxed: bool, i: nat)
    requires i < |items|
    ensures Listed(Entries(env, items, q, o, base, relaxed), base + i) <==> Passes(items[i], q, MatchesOf(env, items[i], q, o.profile, relaxed), o)
    decreases |items|
  {
    hide MatchesOf, Passes, RankOf, Merged;
    var n := |items| - 1;
    var before, es := Entries(env, items[..n], q, o, base, relaxed), Entries(env, items, q, o, base, relaxed);
    EntriesPlaced(env, items[..n], q, o, base, relaxed);
    assert forall k :: 0 <= k < |before| ==> es[k] == before[k];
    if i < n {
      EntriesExact(env, items[..n], q, o, base, relaxed, i);
      assert Listed(es, base + i) <==> Listed(before, base + i);
    } else if |es| > |before| {
      assert es[|before|].ordinal == base + n;
    }
  }

  // ----- the result -----

  /** `rank` orders by falling rank and then place, otherwise by place. */
  function ByRank(rank: bool): (Entry, Entry) -> bool {
    (a: Entry, b: Entry) => if rank && a.rank != b.rank then a.rank > b.rank else a.ordinal < b.ordinal
  }

  function Sorted(entries: seq<Entry>, rank: bool): seq<Entry> {
    Sort(entries, ByRank(rank))
  }

  function ItemsOf(es: seq<Entry>): (r: seq<Record>)
    ensures |r| == |es| && forall i :: 0 <= i < |es| ==> r[i] == es[i].item
  {
    seq(|es|, i requires 0 <= i < |es| => es[i].item)
  }

  function Pairs(name: string, values: seq<string>): multiset<(string, string)> {
    if values == [] then multiset{} else multiset{(name, values[0])} + Pairs(name, values[1..])
  }

  function FacetPairs(facets: seq<(string, seq<string>)>): multiset<(string, string)> {
    if facets == [] then multiset{} else Pairs(facets[0].0, facets[0].1) + FacetPairs(facets[1..])
  }

  function ClassificationText(c: Classification): string {
    match c
    case Private => "private"
    case Sanitized => "sanitized"
    case Public => "public"
  }

  function RecordFacets(r: Record): multiset<(string, string)> {
    multiset{("type", r.kind), ("privacy", ClassificationText(r.classification))} + Pairs("tag", r.tags) + Pairs("concept", r.concepts) + FacetPairs(r.facets)
  }

  /** `getAiwgFortemiFacets`. */
  function Facets(items: seq<Record>): multiset<(string, string)> {
    if items == [] then multiset{} else Facets(items[..|items| - 1]) + RecordFacets(items[|items| - 1])
  }

  function RankedOf(env: Env, e: Entry, q: string, o: Options): Ranked {
    Ranked(e.item, e.rank,
           if o.snippets then Some(env.snippet(e.item, e.matches, q, o.snippetLength.GetOr(160))) else None,
           if o.includeMatches then Some(e.matches) else None)
  }

  function RankedAll(env: Env, es: seq<Entry>, q: string, o: Options): seq<Ranked> {
    seq(|es|, i requires 0 <= i < |es| => RankedOf(env, es[i], q, o))
  }

  /** `createQueryResultFromRankedEntries`. */
  function ResultOf(env: Env, entries: seq<Entry>, q: string, o: Options): QueryResult {
    var ranked := Sorted(entries, o.rank);
    var page := Slice(ranked, o.offset, o.offset + o.limit.GetOr(|ranked|));
    QueryResult(ItemsOf(page), |ranked|, Facets(ItemsOf(ranked)),
                if o.rank || o.snippets || o.includeMatches then Some(RankedAll(env, page, q, o)) else None)
  }

  function Normalized(env: Env, query: string): string {
    env.lower(env.trim(query))
  }

  /** `queryAiwgFortemiIndex`: discovery retries with relaxed overlap when it finds nothing. */
  function WholeQuery(env: Env, items: seq<Record>, query: string, o: Options): QueryResult {
    var q := Normalized(env, query);
    var entries := Entries(env, items, q, o, 0, false);
    if entries == [] && q != "" && o.profile.Discovery? then ResultOf(env, Entries(env, items, q, o, 0, true), q, o)
    else ResultOf(env, entries, q, o)
  }

  /** What one scan without the retry gives. */
  function PlainQuery(env: Env, items: seq<Record>, query: string, o: Options): QueryResult {
    var q := Normalized(env, query);
    ResultOf(env, Entries(env, items, q, o, 0, false), q, o)
  }

  /** The retry makes a difference exactly when discovery finds nothing strictly and something relaxed. */
  lemma PlainIsWhole(env: Env, items: seq<Record>, query: string, o: Options)
    ensures var q := Normalized(env, query);
      PlainQuery(env, items, query, o) == WholeQuery(env, items, query, o)
      <==> o.profile.Default? || q == "" || Entries(env, items, q, o, 0, false) != [] || Entries(env, items, q, o, 0, true) == []
  {
    hide Entries, Facets, RankedAll, ItemsOf, Normalized;
  }

  /** The total order of a result: entries of one index have distinct places. */
  lemma {:induction false} SortedRight(env: Env, items: seq<Record>, q: string, o: Options)
    ensures var es := Entries(env, items, q, o, 0, false); var ranked := Sorted(es, o.rank);
      multiset(ranked) == multiset(es) && forall i, j :: 0 <= i < j < |ranked| ==> ByRank(o.rank)(ranked[i], ranked[j])
  {
    var es := Entries(env, items, q, o, 0, false);
    EntriesPlaced(env, items, q, o, 0, false);
    hide Entries;
    SortEntries(es, o.rank);
  }

  function Earlier(): (Entry, Entry) -> bool {
    (a: Entry, b: Entry) => a.ordinal < b.ordinal
  }

  lemma SortEntries(es: seq<Entry>, rank: bool)
    requires forall i, j :: 0 <= i < j < |es| ==> es[i].ordinal < es[j].ordinal
    ensures forall i, j :: 0 <= i < j < |es| ==> ByRank(rank)(Sorted(es, rank)[i], Sorted(es, rank)[j])
  {
    assert StrictWeak(ByRank(rank));
    assert StrictlySorted(es, Earlier());
    SortStable(es, ByRank(rank), Earlier());
    hide Sort, StrictWeak;
    var ranked := Sorted(es, rank);
    forall i, j | 0 <= i < j < |es| ensures ByRank(rank)(ranked[i], ranked[j]) {
      assert Before(ByRank(rank), Earlier(), ranked[i], ranked[j]);
    }
  }
}
