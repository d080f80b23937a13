/** What an index query finds, in which order and with which counts, said of the records and the options themselves. */
module SearchMeaning {
  import opened Wrappers
  import opened Sorting
  import opened ChunkedSearch

  // ----- one record -----

  ghost predicate Within(s: string, q: string) {
    exists before, after :: s == before + q + after
  }

  lemma ContainsAgrees(s: string, q: string)
    ensures Contains(s, q) <==> Within(s, q)
  {
    if Contains(s, q) {
      var i :| 0 <= i <= |s| - |q| && OccursAt(s, q, i);
      assert s == s[..i] + q + s[i + |q|..];
    }
    if before, after :| s == before + q + after {
      assert OccursAt(s, q, |before|);
    }
  }

  /** The lowered value contains the query. */
  ghost predicate Hit(env: Env, value: string, q: string) {
    Within(env.lower(value), q)
  }

  /** A search value that counts besides title and text. */
  ghost predicate Besides(env: Env, r: Record, value: string, q: string) {
    value != r.title && value != r.text && Hit(env, value, q)
  }

  /** The query occurs in the title, the text, a tag, a concept or a search value of the record. */
  ghost predicate Mentions(env: Env, r: Record, q: string) {
    || Hit(env, r.title, q) || Hit(env, r.text, q) || (exists v :: v in r.tags && Hit(env, v, q))
    || (exists v :: v in r.concepts && Hit(env, v, q)) || (exists v :: v in r.searchValues && Hit(env, v, q))
  }

  /** Under the default profile a query that is not empty must be mentioned; discovery asks its scorer. */
  ghost predicate Matched(env: Env, r: Record, q: string, profile: Profile, relaxed: bool) {
    |q| > 0 ==> if profile.Default? then Mentions(env, r, q) else |env.discovery(r, q, relaxed)| > 0
  }

  /** The record's first facet of this name has the value. */
  ghost predicate HasFacet(r: Record, name: string, value: string) {
    exists i :: 0 <= i < |r.facets| && r.facets[i].0 == name && value in r.facets[i].1 && forall j :: 0 <= j < i ==> r.facets[j].0 != name
  }

  /** Every wanted value is among the actual ones. */
  ghost predicate HasAll(actual: seq<string>, wanted: Option<seq<string>>) {
    forall vs, v :: wanted == Some(vs) && v in vs ==> v in actual
  }

  ghost predicate HasAllFacets(r: Record, wanted: Option<seq<(string, seq<string>)>>) {
    forall fs: seq<(string, seq<string>)>, f, v :: wanted == Some(fs) && f in fs && v in f.1 ==> HasFacet(r, f.0, v)
  }

  /** Type and classification are among the wanted ones, all wanted tags, concepts and facet values are there, and so is the relationship. */
  ghost predicate Fits(r: Record, o: Options) {
    && (forall types :: o.types == Some(types) ==> r.kind in types)
    && (forall classes :: o.privacy == Some(classes) ==> r.classification in classes)
    && HasAll(r.tags, o.tags) && HasAll(r.concepts, o.concepts) && HasAllFacets(r, o.facets)
    && (forall target :: o.relationshipTargetId == Some(target) && |target| > 0 ==> target in r.targets)
  }

  ghost predicate Picked(env: Env, r: Record, q: string, o: Options, relaxed: bool) {
    Matched(env, r, q, o.profile, relaxed) && Fits(r, o)
  }

  lemma {:induction false} TaggedSome(env: Env, field: Field, values: seq<string>, q: string)
    ensures Tagged(env, field, values, q) != [] <==> exists v :: v in values && Hit(env, v, q)
    ensures forall m :: m in Tagged(env, field, values, q) ==> m.field == field && m.score == None && m.value in values && Hit(env, m.value, q)
  {
    hide Contains, Within;
    if values != [] {
      TaggedSome(env, field, values[1..], q);
      ContainsAgrees(env.lower(values[0]), q);
      assert values[0] in values && forall v :: v in values <==> v == values[0] || v in values[1..];
    }
  }

  lemma {:induction false} SearchedSome(env: Env, r: Record, values: seq<string>, q: string)
    ensures Searched(env, r, values, q) != [] <==> exists v :: v in values && Besides(env, r, v, q)
    ensures forall m :: m in Searched(env, r, values, q) ==> m.field == TextField && m.score == Some(1.0) && m.value in values && Hit(env, m.value, q)
  {
    hide Contains, Within;
    if values != [] {
      SearchedSome(env, r, values[1..], q);
      ContainsAgrees(env.lower(values[0]), q);
      assert values[0] in values && forall v :: v in values <==> v == values[0] || v in values[1..];
    }
  }

  lemma MatchesAgree(env: Env, r: Record, q: string)
    requires |q| > 0
    ensures QueryMatches(env, r, q) != [] <==> Mentions(env, r, q)
  {
    hide Contains, Within, Tagged, Searched, Hit;
    TitleAndText(env, r, q);
    TaggedSome(env, TagField, r.tags, q);
    TaggedSome(env, ConceptField, r.concepts, q);
    SearchedSome(env, r, r.searchValues, q);
    assert forall v :: Hit(env, v, q) && !Besides(env, r, v, q) ==> Hit(env, r.title, q) || Hit(env, r.text, q);
  }

  lemma TitleAndText(env: Env, r: Record, q: string)
    ensures Contains(env.lower(r.title), q) <==> Hit(env, r.title, q)
    ensures Contains(env.lower(r.text), q) <==> Hit(env, r.text, q)
  {
    ContainsAgrees(env.lower(r.title), q);
    ContainsAgrees(env.lower(r.text), q);
  }

  lemma IncludesAgrees(actual: seq<string>, wanted: Option<seq<string>>)
    ensures IncludesAll(actual, wanted) <==> HasAll(actual, wanted)
  {
    if wanted.Some? { assert wanted == Some(wanted.value); }
  }

  lemma {:induction false} FacetAgrees(facets: seq<(string, seq<string>)>, name: string, value: string)
    ensures value in FacetValues(facets, name) <==>
      exists i :: 0 <= i < |facets| && facets[i].0 == name && value in facets[i].1 && forall j :: 0 <= j < i ==> facets[j].0 != name
  {
    if facets != [] && facets[0].0 != name {
      var rest := facets[1..];
      FacetAgrees(rest, name, value);
      if i :| 0 <= i < |rest| && rest[i].0 == name && value in rest[i].1 && forall j :: 0 <= j < i ==> rest[j].0 != name {
        assert facets[i + 1] == rest[i];
        forall j | 0 <= j < i + 1 ensures facets[j].0 != name { assert j > 0 ==> facets[j] == rest[j - 1]; }
      }
      if i :| 0 <= i < |facets| && facets[i].0 == name && value in facets[i].1 && forall j :: 0 <= j < i ==> facets[j].0 != name {
        assert rest[i - 1] == facets[i];
        forall j | 0 <= j < i - 1 ensures rest[j].0 != name { assert rest[j] == facets[j + 1]; }
      }
    }
  }

  lemma FacetsAgree(r: Record, wanted: Option<seq<(string, seq<string>)>>)
    ensures MatchesFacets(r, wanted) <==> HasAllFacets(r, wanted)
  {
    forall name, value ensures value in FacetValues(r.facets, name) <==> HasFacet(r, name, value) { FacetAgrees(r.facets, name, value); }
    hide FacetValues, HasFacet;
    if wanted.Some? { assert wanted == Some(wanted.value); }
  }

  lemma SomeIs<T(!new)>(o: Option<T>)
    ensures o.Some? ==> o == Some(o.value)
  {
  }

  lemma PassesMeans(env: Env, r: Record, q: string, o: Options, relaxed: bool)
    ensures Passes(r, q, MatchesOf(env, r, q, o.profile, relaxed), o) <==> Picked(env, r, q, o, relaxed)
  {
    hide QueryMatches, Mentions, IncludesAll, HasAll, MatchesFacets, HasAllFacets;
    if |q| > 0 { MatchesAgree(env, r, q); }
    IncludesAgrees(r.tags, o.tags);
    IncludesAgrees(r.concepts, o.concepts);
    FacetsAgree(r, o.facets);
    SomeIs(o.types);
    SomeIs(o.privacy);
    SomeIs(o.relationshipTargetId);
  }

  /** A record is listed exactly when it is picked. */
  lemma ListedMeans(env: Env, items: seq<Record>, q: string, o: Options, base: nat, relaxed: bool, i: nat)
    requires i < |items|
    ensures Listed(Entries(env, items, q, o, base, relaxed), base + i) <==> Picked(env, items[i], q, o, relaxed)
  {
    hide Entries, Passes, Picked, MatchesOf;
    EntriesExact(env, items, q, o, base, relaxed, i);
    PassesMeans(env, items[i], q, o, relaxed);
  }

  // ----- ranks -----

  /** What a match in the field counts: the caller's weight, or the default one. */
  ghost predicate Weighs(o: Options, f: Field, w: real) {
    if f in o.weights then w == o.weights[f]
    else
      && (f.TitleField? ==> w == 4.0) && (f.TagField? ==> w == 3.0) && (f.ConceptField? ==> w == 2.0) && (f.TextField? ==> w == 1.0)
      && (f.FacetField? ==> w == 2.0) && (f.IdField? ==> w == 1.0) && (f.SourceField? ==> w == 0.25)
  }

  /** How many of the values the query hits. */
  ghost function Hits(env: Env, values: seq<string>, q: string): nat {
    if values == [] then 0 else (if Hit(env, values[0], q) then 1 else 0) + Hits(env, values[1..], q)
  }

  /** How many search values it hits besides title and text. */
  ghost function HitsBesides(env: Env, r: Record, values: seq<string>, q: string): nat {
    if values == [] then 0 else (if Besides(env, r, values[0], q) then 1 else 0) + HitsBesides(env, r, values[1..], q)
  }

  lemma WeightsAgree(o: Options, f: Field)
    ensures f in Merged(o.weights) && Weighs(o, f, Merged(o.weights)[f])
  {
  }

  lemma {:induction false} RankConcat(a: seq<Match>, b: seq<Match>, weights: map<Field, real>)
    requires forall f: Field :: f in weights
    ensures RankOf(a + b, weights) == RankOf(a, weights) + RankOf(b, weights)
    decreases |b|
  {
    if b == [] {
      assert a + b == a;
    } else {
      var n := |b| - 1;
      assert (a + b)[..|a + b| - 1] == a + b[..n];
      RankConcat(a, b[..n], weights);
    }
  }

  lemma RankOne(m: Match, weights: map<Field, real>)
    requires forall f: Field :: f in weights
    ensures RankOf([m], weights) == m.score.GetOr(weights[m.field]) && RankOf([], weights) == 0.0
  {
    assert [m][..0] == [];
  }

  lemma {:induction false} RankTagged(env: Env, field: Field, values: seq<string>, q: string, weights: map<Field, real>)
    requires forall f: Field :: f in weights
    ensures RankOf(Tagged(env, field, values, q), weights) == Hits(env, values, q) as real * weights[field]
  {
    hide Contains, Within, RankOf;
    var m := Match(field, if values == [] then "" else values[0], None);
    RankOne(m, weights);
    if values != [] {
      var rest := Tagged(env, field, values[1..], q);
      RankTagged(env, field, values[1..], q, weights);
      ContainsAgrees(env.lower(values[0]), q);
      RankConcat(if Hit(env, values[0], q) then [m] else [], rest, weights);
      assert (1 + Hits(env, values[1..], q)) as real * weights[field] == weights[field] + Hits(env, values[1..], q) as real * weights[field];
    }
  }

  lemma {:induction false} RankSearched(env: Env, r: Record, values: seq<string>, q: string, weights: map<Field, real>)
    requires forall f: Field :: f in weights
    ensures RankOf(Searched(env, r, values, q), weights) == HitsBesides(env, r, values, q) as real
  {
    hide Contains, Within, RankOf;
    var m := Match(TextField, if values == [] then "" else values[0], Some(1.0));
    RankOne(m, weights);
    if values != [] {
      var rest := Searched(env, r, values[1..], q);
      RankSearched(env, r, values[1..], q, weights);
      ContainsAgrees(env.lower(values[0]), q);
      RankConcat(if Besides(env, r, values[0], q) then [m] else [], rest, weights);
    }
  }

  /** The sum of what the hits count: title, text, tags and concepts by weight, search values besides them by one. */
  ghost function HitSum(env: Env, r: Record, q: string, title: real, text: real, tag: real, concept: real): real {
    if |q| == 0 then 0.0
    else
      (if Hit(env, r.title, q) then title else 0.0) + (if Hit(env, r.text, q) then text else 0.0)
      + Hits(env, r.tags, q) as real * tag + Hits(env, r.concepts, q) as real * concept + HitsBesides(env, r, r.searchValues, q) as real
  }

  ghost predicate RankSays(env: Env, r: Record, q: string, o: Options, rank: real) {
    exists title, text, tag, concept :: Weighs(o, TitleField, title) && Weighs(o, TextField, text) && Weighs(o, TagField, tag)
      && Weighs(o, ConceptField, concept) && rank == HitSum(env, r, q, title, text, tag, concept)
  }

  lemma NoMatches(env: Env, r: Record, q: string)
    ensures |q| == 0 ==> QueryMatches(env, r, q) == []
  {
    hide Contains, Tagged, Searched;
  }

  lemma RankSum(env: Env, r: Record, q: string, w: map<Field, real>)
    requires forall f: Field :: f in w
    ensures RankOf(QueryMatches(env, r, q), w) == HitSum(env, r, q, w[TitleField], w[TextField], w[TagField], w[ConceptField])
  {
    hide Contains, Within, Hit, RankOf, Tagged, Searched, Hits, HitsBesides, QueryMatches;
    NoMatches(env, r, q);
    var a := if Hit(env, r.title, q) then [Match(TitleField, r.title, None)] else [];
    var b := if Hit(env, r.text, q) then [Match(TextField, r.text, None)] else [];
    var c, d, e := Tagged(env, TagField, r.tags, q), Tagged(env, ConceptField, r.concepts, q), Searched(env, r, r.searchValues, q);
    RankOne(Match(TitleField, r.title, None), w);
    RankOne(Match(TextField, r.text, None), w);
    RankTagged(env, TagField, r.tags, q, w);
    RankTagged(env, ConceptField, r.concepts, q, w);
    RankSearched(env, r, r.searchValues, q, w);
    RankFive(a, b, c, d, e, w);
    if |q| > 0 { MatchesAre(env, r, q); }
  }

  /** The rank a record gets under the default profile. */
  lemma RankMeans(env: Env, r: Record, q: string, o: Options)
    ensures RankSays(env, r, q, o, RankOf(QueryMatches(env, r, q), Merged(o.weights)))
  {
    hide RankOf, Merged, Weighs, HitSum, QueryMatches;
    WeightsAgree(o, TitleField);
    WeightsAgree(o, TextField);
    WeightsAgree(o, TagField);
    WeightsAgree(o, ConceptField);
    RankSum(env, r, q, Merged(o.weights));
  }

  lemma RankFive(a: seq<Match>, b: seq<Match>, c: seq<Match>, d: seq<Match>, e: seq<Match>, weights: map<Field, real>)
    requires forall f: Field :: f in weights
    ensures RankOf(a + b + c + d + e, weights) == RankOf(a, weights) + RankOf(b, weights) + RankOf(c, weights) + RankOf(d, weights) + RankOf(e, weights)
  {
    hide RankOf;
    RankConcat(a + b + c + d, e, weights);
    RankConcat(a + b + c, d, weights);
    RankConcat(a + b, c, weights);
    RankConcat(a, b, weights);
  }

  lemma MatchesAre(env: Env, r: Record, q: string)
    requires |q| > 0
    ensures QueryMatches(env, r, q) == (if Hit(env, r.title, q) then [Match(TitleField, r.title, None)] else [])
                                     + (if Hit(env, r.text, q) then [Match(TextField, r.text, None)] else [])
                                     + Tagged(env, TagField, r.tags, q) + Tagged(env, ConceptField, r.concepts, q) + Searched(env, r, r.searchValues, q)
  {
    hide Contains, Within, Hit, Tagged, Searched;
    TitleAndText(env, r, q);
  }

  // ----- facet counts -----

  ghost predicate IsClass(c: Classification, text: string) {
    (c.Private? ==> text == "private") && (c.Sanitized? ==> text == "sanitized") && (c.Public? ==> text == "public")
  }

  /** How often the record's own facets of this name list the value. */
  ghost function Listings(facets: seq<(string, seq<string>)>, name: string, value: string): nat {
    if facets == [] then 0
    else (if facets[0].0 == name then multiset(facets[0].1)[value] else 0) + Listings(facets[1..], name, value)
  }

  /** How often a record counts for a facet value. */
  ghost function CountsFor(r: Record, name: string, value: string): nat {
    (if name == "type" && value == r.kind then 1 else 0) + (if name == "privacy" && IsClass(r.classification, value) then 1 else 0)
    + (if name == "tag" then multiset(r.tags)[value] else 0) + (if name == "concept" then multiset(r.concepts)[value] else 0)
    + Listings(r.facets, name, value)
  }

  lemma {:induction false} PairsCount(name: string, values: seq<string>, n: string, v: string)
    ensures Pairs(name, values)[(n, v)] == if n == name then multiset(values)[v] else 0
  {
    if values != [] {
      assert values == [values[0]] + values[1..];
      PairsCount(name, values[1..], n, v);
    }
  }

  lemma {:induction false} FacetPairsCount(facets: seq<(string, seq<string>)>, n: string, v: string)
    ensures FacetPairs(facets)[(n, v)] == Listings(facets, n, v)
  {
    if facets != [] {
      PairsCount(facets[0].0, facets[0].1, n, v);
      FacetPairsCount(facets[1..], n, v);
    }
  }

  lemma ClassAgrees(c: Classification, text: string)
    ensures IsClass(c, text) <==> text == ClassificationText(c)
  {
  }

  lemma RecordCounts(r: Record, n: string, v: string)
    ensures RecordFacets(r)[(n, v)] == CountsFor(r, n, v)
  {
    hide Pairs, FacetPairs, ClassificationText, IsClass;
    ClassAgrees(r.classification, v);
    PairsCount("tag", r.tags, n, v);
    PairsCount("concept", r.concepts, n, v);
    FacetPairsCount(r.facets, n, v);
    assert "type" != "privacy" by { assert "type"[0] != "privacy"[0]; }
  }

  ghost function CountsAmong(items: seq<Record>, name: string, value: string): nat {
    if items == [] then 0 else CountsAmong(items[..|items| - 1], name, value) + CountsFor(items[|items| - 1], name, value)
  }

  /** The facet counts of a list of records are the sums of what each counts. */
  lemma {:induction false} FacetsMean(items: seq<Record>, name: string, value: string)
    ensures Facets(items)[(name, value)] == CountsAmong(items, name, value)
  {
    hide RecordFacets, CountsFor;
    if items != [] {
      FacetsMean(items[..|items| - 1], name, value);
      RecordCounts(items[|items| - 1], name, value);
    }
  }

  // ----- results -----

  /** The picked records' places in the order of the answer: by falling rank if asked for, else as they stand. */
  ghost predicate AnswerOrder(env: Env, items: seq<Record>, q: string, o: Options, relaxed: bool, es: seq<Entry>) {
    && (forall k :: 0 <= k < |es| ==> 0 <= es[k].ordinal < |items| && es[k].item == items[es[k].ordinal])
    && (forall i :: 0 <= i < |items| ==> (Listed(es, i) <==> Picked(env, items[i], q, o, relaxed)))
    && (forall j, k :: 0 <= j < k < |es| ==> Ahead(o, es[j], es[k]))
    && (o.profile.Default? ==> forall k :: 0 <= k < |es| ==> RankSays(env, es[k].item, q, o, es[k].rank))
  }

  ghost predicate Ahead(o: Options, a: Entry, b: Entry) {
    if o.rank then a.rank > b.rank || (a.rank == b.rank && a.ordinal < b.ordinal) else a.ordinal < b.ordinal
  }

  /** The entries' records. */
  ghost predicate ItemsAre(xs: seq<Record>, es: seq<Entry>) {
    |xs| == |es| && forall k :: 0 <= k < |es| ==> xs[k] == es[k].item
  }

  /** The page's rows, when ranks, snippets or matches are asked for. */
  ghost predicate RowsAre(env: Env, rows: seq<Ranked>, es: seq<Entry>, q: string, o: Options) {
    |rows| == |es| && forall k :: 0 <= k < |es| ==> RowIs(env, rows[k], es[k], q, o)
  }

  ghost predicate RowIs(env: Env, row: Ranked, e: Entry, q: string, o: Options) {
    && row.item == e.item && row.rank == e.rank
    && (row.matches == if o.includeMatches then Some(e.matches) else None)
    && (row.snippet == if o.snippets then Some(env.snippet(e.item, e.matches, q, o.snippetLength.GetOr(160))) else None)
  }

  /** Where the page ends. */
  function End(o: Options, total: nat): nat {
    if o.limit.Some? && o.offset + o.limit.value < total then o.offset + o.limit.value else total
  }

  /** The answer: all picked records counted, the page of them in order, and their facet counts. */
  ghost predicate ResultSays(env: Env, items: seq<Record>, q: string, o: Options, relaxed: bool, r: QueryResult) {
    exists es, all :: AnswerOrder(env, items, q, o, relaxed, es) && ItemsAre(all, es) && PageIs(env, es, all, q, o, r)
  }

  ghost predicate PageIs(env: Env, es: seq<Entry>, all: seq<Record>, q: string, o: Options, r: QueryResult) {
    var page := if o.offset < End(o, |es|) then es[o.offset..End(o, |es|)] else [];
    && r.total == |es| && ItemsAre(r.items, page) && (forall name, value :: r.facets[(name, value)] == CountsAmong(all, name, value))
    && (r.rankedItems.Some? <==> o.rank || o.snippets || o.includeMatches)
    && (forall rows :: r.rankedItems == Some(rows) ==> RowsAre(env, rows, page, q, o))
  }

  lemma SortedFacts(env: Env, items: seq<Record>, q: string, o: Options, relaxed: bool)
    ensures var found := Entries(env, items, q, o, 0, relaxed); var es := Sorted(found, o.rank);
      && (forall e :: e in es <==> e in found)
      && (forall j, k :: 0 <= j < k < |es| ==> Ahead(o, es[j], es[k]))
  {
    hide Entries;
    var found := Entries(env, items, q, o, 0, relaxed);
    EntriesPlaced(env, items, q, o, 0, relaxed);
    SortEntries(found, o.rank);
    SortMembers(found, ByRank(o.rank));
    var es := Sorted(found, o.rank);
    forall j, k | 0 <= j < k < |es| ensures Ahead(o, es[j], es[k]) { assert ByRank(o.rank)(es[j], es[k]); }
  }

  lemma PlacedMembers(es: seq<Entry>, items: seq<Record>, e: Entry)
    requires Placed(es, items, 0) && e in es
    ensures 0 <= e.ordinal < |items| && e.item == items[e.ordinal]
  {
  }

  lemma SortedOrder(env: Env, items: seq<Record>, q: string, o: Options, relaxed: bool)
    ensures AnswerOrder(env, items, q, o, relaxed, Sorted(Entries(env, items, q, o, 0, relaxed), o.rank))
  {
    hide Entries, Picked, RankSays, Listed, Sorted, Placed, Ahead;
    var found := Entries(env, items, q, o, 0, relaxed);
    var es := Sorted(found, o.rank);
    EntriesPlaced(env, items, q, o, 0, relaxed);
    SortedFacts(env, items, q, o, relaxed);
    EntriesRanked(env, items, q, o, relaxed);
    forall k | 0 <= k < |es| ensures es[k] in found && 0 <= es[k].ordinal < |items| && es[k].item == items[es[k].ordinal] {
      assert es[k] in es;
      PlacedMembers(found, items, es[k]);
    }
    forall i | 0 <= i < |items| ensures Listed(es, i) <==> Picked(env, items[i], q, o, relaxed) {
      ListedMeans(env, items, q, o, 0, relaxed, i);
      SameListed(found, es, i);
    }
  }

  lemma SameListed(a: seq<Entry>, b: seq<Entry>, i: int)
    requires forall e :: e in a <==> e in b
    ensures Listed(a, i) <==> Listed(b, i)
  {
    if Listed(a, i) {
      var k :| 0 <= k < |a| && a[k].ordinal == i;
      assert a[k] in b;
    }
    if Listed(b, i) {
      var k :| 0 <= k < |b| && b[k].ordinal == i;
      assert b[k] in a;
    }
  }

  lemma {:induction false} EntriesRanked(env: Env, items: seq<Record>, q: string, o: Options, relaxed: bool)
    ensures o.profile.Default? ==> forall e :: e in Entries(env, items, q, o, 0, relaxed) ==> RankSays(env, e.item, q, o, e.rank)
  {
    hide QueryMatches, Passes, RankOf, Merged, RankSays;
    if items != [] && o.profile.Default? {
      EntriesRanked(env, items[..|items| - 1], q, o, relaxed);
      RankMeans(env, items[|items| - 1], q, o);
    }
  }

  lemma ResultIs(env: Env, es: seq<Entry>, ranked: seq<Entry>, q: string, o: Options)
    requires ranked == Sorted(es, o.rank)
    ensures ItemsAre(ItemsOf(ranked), ranked) && PageIs(env, ranked, ItemsOf(ranked), q, o, ResultOf(env, es, q, o))
  {
    hide Sorted, Facets, CountsAmong;
    var page := Slice(ranked, o.offset, o.offset + o.limit.GetOr(|ranked|));
    forall name, value ensures Facets(ItemsOf(ranked))[(name, value)] == CountsAmong(ItemsOf(ranked), name, value) { FacetsMean(ItemsOf(ranked), name, value); }
    assert page == if o.offset < End(o, |ranked|) then ranked[o.offset..End(o, |ranked|)] else [];
  }

  /** A scan's answer. */
  lemma ScanMeans(env: Env, items: seq<Record>, q: string, o: Options, relaxed: bool)
    ensures ResultSays(env, items, q, o, relaxed, ResultOf(env, Entries(env, items, q, o, 0, relaxed), q, o))
  {
    hide Entries, ResultOf, AnswerOrder, PageIs, ItemsAre;
    SortedOrder(env, items, q, o, relaxed);
    var es := Entries(env, items, q, o, 0, relaxed);
    ResultIs(env, es, Sorted(es, o.rank), q, o);
  }

  ghost predicate SomePicked(env: Env, items: seq<Record>, q: string, o: Options, relaxed: bool) {
    exists r :: r in items && Picked(env, r, q, o, relaxed)
  }

  lemma NoneListed(env: Env, items: seq<Record>, q: string, o: Options, relaxed: bool)
    ensures Entries(env, items, q, o, 0, relaxed) != [] <==> SomePicked(env, items, q, o, relaxed)
  {
    hide Entries, Picked;
    var es := Entries(env, items, q, o, 0, relaxed);
    EntriesPlaced(env, items, q, o, 0, relaxed);
    if es != [] {
      assert Listed(es, es[0].ordinal);
      ListedMeans(env, items, q, o, 0, relaxed, es[0].ordinal);
    }
    if r :| r in items && Picked(env, r, q, o, relaxed) {
      var i :| 0 <= i < |items| && items[i] == r;
      ListedMeans(env, items, q, o, 0, relaxed, i);
    }
  }

  /** The whole-index query: what the trimmed, lowered query picks, with overlap relaxed when discovery finds nothing without. */
  lemma WholeMeans(env: Env, items: seq<Record>, query: string, o: Options)
    ensures var q := env.lower(env.trim(query));
      ResultSays(env, items, q, o, o.profile.Discovery? && |q| > 0 && !SomePicked(env, items, q, o, false), WholeQuery(env, items, query, o))
  {
    hide Entries, ResultOf, ResultSays, SomePicked;
    var q := env.lower(env.trim(query));
    NoneListed(env, items, q, o, false);
    ScanMeans(env, items, q, o, false);
    ScanMeans(env, items, q, o, true);
  }

  /** A query without the retry. */
  lemma PlainMeans(env: Env, items: seq<Record>, query: string, o: Options)
    ensures ResultSays(env, items, env.lower(env.trim(query)), o, false, PlainQuery(env, items, query, o))
  {
    hide Entries, ResultOf, ResultSays;
    ScanMeans(env, items, env.lower(env.trim(query)), o, false);
  }
}
