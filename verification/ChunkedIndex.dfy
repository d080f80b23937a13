/** Splitting an index into parts and detail files, and the content a manifest and its loader stand for. */
module ChunkedIndex {
  import opened Wrappers
  import opened Sorting
  import opened Text
  import opened ChunkedSearch
  import DetailId

  datatype PartRef = PartRef(href: string, offset: nat, count: nat)

  datatype Part = Part(offset: nat, items: seq<Record>)

  datatype Manifest = Manifest(total: nat, partSize: nat, facets: Option<multiset<(string, string)>>, parts: seq<PartRef>)

  /** `isPrivacyExcluded`, turned around. */
  predicate Kept(r: Record, includePrivate: bool, includePii: bool) {
    (r.classification.Private? ==> includePrivate) && (r.pii ==> includePii)
  }

  function Keeping(includePrivate: bool, includePii: bool): Record -> bool {
    (r: Record) => Kept(r, includePrivate, includePii)
  }

  /** A slimmed record for the scan parts, and where the full ones go. */
  datatype Projection = Projection(slim: Record -> Record, href: string, encoding: DetailId.Encoding)

  datatype Detail = Detail(id: string, href: string, record: Record)

  /** The records as the scan parts carry them. */
  function Scanned(items: seq<Record>, projection: Option<Projection>): (r: seq<Record>)
    ensures |r| == |items| && (projection.None? ==> r == items)
    ensures projection.Some? ==> forall i :: 0 <= i < |items| ==> r[i] == projection.value.slim(items[i])
  {
    if projection.None? then items else seq(|items|, i requires 0 <= i < |items| => projection.value.slim(items[i]))
  }

  /** One detail file for each kept record, in full, when there is a projection. */
  function Details(items: seq<Record>, projection: Option<Projection>): (r: seq<Detail>)
    ensures |r| == if projection.None? then 0 else |items|
  {
    if projection.None? then []
    else seq(|items|, i requires 0 <= i < |items| => Detail(items[i].id, DetailId.DetailHref(projection.value.href, projection.value.encoding, items[i].id), items[i]))
  }

  /** `part-0000.json` and so on. */
  function Href(i: nat): string {
    "part-" + PadStart(Decimal(i), 4) + ".json"
  }

  /** Private records stay out unless asked for, and so do records with personal data; all others are there as often as before. */
  lemma KeptMeans(index: seq<Record>, includePrivate: bool, includePii: bool, r: Record)
    ensures multiset(Filter(index, Keeping(includePrivate, includePii)))[r] ==
      if (r.classification == Private && !includePrivate) || (r.pii && !includePii) then 0 else multiset(index)[r]
  {
    FilterCount(index, Keeping(includePrivate, includePii), r);
  }

  /** The name's number, written in decimal with zeros in front up to four digits. */
  lemma HrefText(i: nat)
    ensures exists zeros: string ::
      IsPadded(zeros, Decimal(i), 4) && Href(i) == "part-" + zeros + Decimal(i) + ".json"
  {
    PadText(Decimal(i), 4);
    var zeros :| IsPadded(zeros, Decimal(i), 4) && PadStart(Decimal(i), 4) == zeros + Decimal(i);
    assert "part-" + (zeros + Decimal(i)) + ".json" == "part-" + zeros + Decimal(i) + ".json";
  }

  ghost predicate IsPadded(zeros: string, digits: string, width: nat) {
    (forall k :: 0 <= k < |zeros| ==> zeros[k] == '0') && |zeros| == if |digits| < width then width - |digits| else 0
  }

  lemma {:induction false} PadText(s: string, width: nat)
    ensures exists zeros: string :: IsPadded(zeros, s, width) && PadStart(s, width) == zeros + s
    decreases if |s| < width then width - |s| else 0
  {
    if |s| < width {
      PadText("0" + s, width);
      var zeros: string :| IsPadded(zeros, "0" + s, width) && PadStart("0" + s, width) == zeros + ("0" + s);
      assert zeros + ("0" + s) == (zeros + "0") + s;
      assert IsPadded(zeros + "0", s, width);
    } else {
      assert "" + s == s;
      assert IsPadded("", s, width);
    }
  }

  // ----- the partition -----

  /** Part `i` covers places `i * size` up to `(i + 1) * size`. */
  ghost predicate PartRight(items: seq<Record>, size: nat, ref: PartRef, hosted: (string, Part), i: nat) {
    && ref.href == hosted.0 == Href(i)
    && ref.offset == hosted.1.offset == i * size
    && hosted.1.items == Slice(items, i * size, (i + 1) * size)
    && ref.count == |hosted.1.items|
  }

  ghost predicate Partitioned(items: seq<Record>, size: nat, refs: seq<PartRef>, parts: seq<(string, Part)>) {
    |refs| == |parts| && forall i :: 0 <= i < |refs| ==> PartRight(items, size, refs[i], parts[i], i)
  }

  /** `n` parts of this size hold the records, and fewer would not. */
  predicate JustEnough(n: nat, size: nat, total: nat) {
    (n == 0 && total == 0) || (n > 0 && (n - 1) * size < total <= n * size)
  }

  lemma ScannedSlice(items: seq<Record>, projection: Option<Projection>, from: nat, to: nat)
    ensures Scanned(Slice(items, from, to), projection) == Slice(Scanned(items, projection), from, to)
  {
  }

  /** `buildAiwgChunkedIndex`: the facet counts are those of the full records even when the parts are slim. */
  method BuildChunkedIndex(index: seq<Record>, partSize: Option<int>, projection: Option<Projection>, includePrivate: bool, includePii: bool)
    returns (manifest: Manifest, parts: seq<(string, Part)>, details: seq<Detail>)
    ensures var items := Filter(index, Keeping(includePrivate, includePii));
      && manifest.partSize == (if partSize.GetOr(0) > 0 then partSize.value else 500)
      && manifest.total == |items| && manifest.facets == Some(Facets(items))
      && Partitioned(Scanned(items, projection), manifest.partSize, manifest.parts, parts)
      && JustEnough(|parts|, manifest.partSize, |items|)
      && details == Details(items, projection)
  {
    var size := if partSize.GetOr(0) > 0 then partSize.value else 500;
    var items := Filter(index, Keeping(includePrivate, includePii));
    hide Facets, Href, Details, Scanned, Partitioned, Filter, PartRight, JustEnough;
    ghost var scanned := Scanned(items, projection);
    var refs: seq<PartRef> := [];
    parts := [];
    NothingPartitioned(scanned, size);
    var offset, partIndex := 0, 0;
    while offset < |items|
      invariant partIndex == |parts| == |refs| && offset == partIndex * size
      invariant Partitioned(scanned, size, refs, parts)
      invariant partIndex > 0 ==> (partIndex - 1) * size < |items|
      decreases |items| - offset
    {
      var slice := Slice(items, offset, offset + size);
      var href := Href(partIndex);
      NextMultiple(partIndex, size);
      var part := Part(offset, Scanned(slice, projection));
      PartIsRight(items, projection, size, partIndex, slice, part);
      OneMorePart(scanned, size, refs, parts, PartRef(href, offset, |slice|), (href, part));
      parts := parts + [(href, part)];
      refs := refs + [PartRef(href, offset, |slice|)];
      offset, partIndex := offset + size, partIndex + 1;
    }
    EnoughParts(|parts|, size, |items|);
    manifest := Manifest(|items|, size, Some(Facets(items)), refs);
    details := Details(items, projection);
  }

  lemma PartIsRight(items: seq<Record>, projection: Option<Projection>, size: nat, i: nat, slice: seq<Record>, part: Part)
    requires slice == Slice(items, i * size, i * size + size) && part == Part(i * size, Scanned(slice, projection))
    ensures PartRight(Scanned(items, projection), size, PartRef(Href(i), i * size, |slice|), (Href(i), part), i)
  {
    hide Href, Scanned, Slice;
    NextMultiple(i, size);
    ScannedSlice(items, projection, i * size, i * size + size);
  }

  lemma EnoughParts(n: nat, size: nat, total: nat)
    requires n * size >= total && (n > 0 ==> (n - 1) * size < total)
    ensures JustEnough(n, size, total)
  {
  }

  lemma NothingPartitioned(items: seq<Record>, size: nat)
    ensures Partitioned(items, size, [], [])
  {
  }

  lemma OneMorePart(items: seq<Record>, size: nat, refs: seq<PartRef>, parts: seq<(string, Part)>, ref: PartRef, part: (string, Part))
    requires Partitioned(items, size, refs, parts) && PartRight(items, size, ref, part, |refs|)
    ensures Partitioned(items, size, refs + [ref], parts + [part])
  {
    hide PartRight;
  }

  lemma NextMultiple(i: int, size: int)
    ensures (i + 1) * size == i * size + size
  {
  }

  /** Offsets follow on from each other and the counts add up, as the manifest check demands. */
  ghost predicate ContiguousFrom(refs: seq<PartRef>, offset: nat, total: nat) {
    if refs == [] then offset == total
    else refs[0].offset == offset && ContiguousFrom(refs[1..], offset + refs[0].count, total)
  }

  ghost predicate ManifestValid(m: Manifest) {
    ContiguousFrom(m.parts, 0, m.total)
  }

  /** The cache's key for a part. */
  function PartKey(ref: PartRef): string {
    Decimal(ref.offset) + ":" + ref.href
  }

  ghost predicate DistinctKeys(refs: seq<PartRef>) {
    forall i, j :: 0 <= i < j < |refs| ==> PartKey(refs[i]) != PartKey(refs[j])
  }

  /** Parts with one key are one and the same part; only empty parts can be listed twice. */
  ghost predicate KeysAgree(refs: seq<PartRef>) {
    forall a, b :: a in refs && b in refs && PartKey(a) == PartKey(b) ==> a == b
  }

  lemma DistinctAgree(refs: seq<PartRef>)
    requires DistinctKeys(refs)
    ensures KeysAgree(refs)
  {
    hide PartKey;
    forall a, b | a in refs && b in refs && PartKey(a) == PartKey(b) ensures a == b {
      var i :| 0 <= i < |refs| && refs[i] == a;
      var j :| 0 <= j < |refs| && refs[j] == b;
    }
  }

  /** A part's key determines its offset and its href. */
  lemma PartKeyInjective(a: PartRef, b: PartRef)
    requires PartKey(a) == PartKey(b)
    ensures a.offset == b.offset && a.href == b.href
  {
    var d, e := Decimal(a.offset), Decimal(b.offset);
    assert PartKey(a) == d + (":" + a.href) && PartKey(b) == e + (":" + b.href);
    DigitRunOf(d, ":" + a.href);
    DigitRunOf(e, ":" + b.href);
    hide Decimal, DigitRun;
    assert d == PartKey(a)[..|d|] && e == PartKey(b)[..|e|];
    assert a.href == PartKey(a)[|d| + 1..] && b.href == PartKey(b)[|e| + 1..];
    DecimalInjective(a.offset, b.offset);
  }

  lemma {:induction false} PadKeepsValue(s: string, width: nat)
    requires AllDigits(s)
    ensures AllDigits(PadStart(s, width)) && Value(PadStart(s, width)) == Value(s)
    decreases if |s| < width then width - |s| else 0
  {
    if |s| < width {
      ZeroKeepsValue(s);
      PadKeepsValue("0" + s, width);
    }
  }

  lemma {:induction false} ZeroKeepsValue(s: string)
    requires AllDigits(s)
    ensures AllDigits("0" + s) && Value("0" + s) == Value(s)
  {
    if s == "" {
      assert "0"[..0] == "";
      assert "0" + s == "0";
    } else {
      var n := |s| - 1;
      ZeroKeepsValue(s[..n]);
      assert ("0" + s)[..n + 1] == "0" + s[..n];
    }
  }

  /** Part file names are all different. */
  lemma HrefInjective(i: nat, j: nat)
    requires Href(i) == Href(j)
    ensures i == j
  {
    var a, b := PadStart(Decimal(i), 4), PadStart(Decimal(j), 4);
    assert |Href(i)| == |a| + 10 && |Href(j)| == |b| + 10;
    assert a == Href(i)[5..5 + |a|] && b == Href(j)[5..5 + |b|];
    PadKeepsValue(Decimal(i), 4);
    PadKeepsValue(Decimal(j), 4);
    ValueOfDecimal(i);
    ValueOfDecimal(j);
  }

  // ----- what a manifest and its loader stand for -----

  /** The checks on a loaded part. */
  predicate PartValid(part: Part, ref: PartRef) {
    part.offset == ref.offset && |part.items| == ref.count
  }

  /** All parts' records in order, if every part passes its checks. */
  function Content(refs: seq<PartRef>, loader: PartRef -> Part): Option<seq<Record>> {
    if refs == [] then Some([])
    else
      var part := loader(refs[0]);
      var rest := Content(refs[1..], loader);
      if !PartValid(part, refs[0]) || rest.None? then None else Some(part.items + rest.value)
  }

  /** Files served under the names they were written to. */
  function Hosted(parts: seq<(string, Part)>): PartRef -> Part {
    (ref: PartRef) => FileAt(parts, ref.href)
  }

  function FileAt(parts: seq<(string, Part)>, href: string): Part {
    if parts == [] then Part(0, []) else if parts[0].0 == href then parts[0].1 else FileAt(parts[1..], href)
  }

  lemma {:induction false} FileFound(parts: seq<(string, Part)>, i: nat)
    requires i < |parts| && forall j :: 0 <= j < |parts| && parts[j].0 == parts[i].0 ==> j == i
    ensures FileAt(parts, parts[i].0) == parts[i].1
    decreases |parts|
  {
    if i > 0 {
      assert parts[0].0 != parts[i].0;
      forall j | 0 <= j < |parts[1..]| && parts[1..][j].0 == parts[1..][i - 1].0 ensures j == i - 1 {
        assert parts[j + 1].0 == parts[i].0;
      }
      FileFound(parts[1..], i - 1);
    }
  }

  /** From part `i` on: the rest of the records, contiguous offsets. */
  lemma {:induction false} RestRight(items: seq<Record>, size: nat, refs: seq<PartRef>, parts: seq<(string, Part)>, loader: PartRef -> Part, i: nat)
    requires size > 0 && Partitioned(items, size, refs, parts) && i <= |refs|
    requires JustEnough(|refs|, size, |items|)
    requires forall k :: 0 <= k < |refs| ==> loader(refs[k]) == parts[k].1
    ensures Content(refs[i..], loader) == Some(Slice(items, i * size, |items|))
    ensures i < |refs| || items == [] ==> ContiguousFrom(refs[i..], i * size, |items|)
    decreases |refs| - i
  {
    hide Href, Slice, JustEnough;
    if i < |refs| {
      RestRight(items, size, refs, parts, loader, i + 1);
      assert refs[i..][1..] == refs[i + 1..] && refs[i..][0] == refs[i];
      assert PartRight(items, size, refs[i], parts[i], i);
      PlaceOf(i, |refs|, size, |items|);
      SliceSplit(items, i * size, (i + 1) * size);
      hide PartRight;
      if i + 1 == |refs| { assert refs[i + 1..] == []; }
    } else {
      EndsAt(items, size, |refs|);
      assert refs[i..] == [];
    }
  }

  lemma EndsAt(items: seq<Record>, size: nat, n: nat)
    requires JustEnough(n, size, |items|)
    ensures Slice(items, n * size, |items|) == []
    ensures items == [] ==> n * size == 0
  {
    if n > 0 { assert items != [] by { assert (n - 1) * size >= 0; } }
  }

  lemma SliceSplit(items: seq<Record>, from: nat, to: nat)
    requires from < |items| && from <= to
    ensures Slice(items, from, |items|) == Slice(items, from, to) + Slice(items, to, |items|)
    ensures |Slice(items, from, to)| == (if to < |items| then to else |items|) - from
  {
  }

  lemma PlaceOf(i: nat, n: nat, size: nat, total: nat)
    requires i < n && size > 0 && JustEnough(n, size, total)
    ensures i * size < total && (i + 1 == n ==> total <= (i + 1) * size)
    ensures (i + 1) * size == i * size + size
    ensures i + 1 < n ==> (i + 1) * size <= total
  {
    assert i * size <= (n - 1) * size;
    if i + 1 < n { assert (i + 1) * size <= (n - 1) * size; }
  }

  /** A built index, served from the files it was written to, is valid and stands for exactly the records it was built from. */
  lemma BuiltIsWhole(items: seq<Record>, m: Manifest, parts: seq<(string, Part)>)
    requires m.partSize > 0 && m.total == |items| && Partitioned(items, m.partSize, m.parts, parts) && JustEnough(|parts|, m.partSize, |items|)
    ensures ManifestValid(m) && DistinctKeys(m.parts)
    ensures Content(m.parts, Hosted(parts)) == Some(items)
  {
    hide Href, PartKey, Content, ContiguousFrom, FileAt;
    forall k | 0 <= k < |m.parts| ensures Hosted(parts)(m.parts[k]) == parts[k].1 { HostedAt(items, m, parts, k); }
    RestRight(items, m.partSize, m.parts, parts, Hosted(parts), 0);
    assert m.parts[0..] == m.parts && Slice(items, 0, |items|) == items;
    forall i, j | 0 <= i < j < |m.parts| ensures PartKey(m.parts[i]) != PartKey(m.parts[j]) {
      if PartKey(m.parts[i]) == PartKey(m.parts[j]) {
        PartKeyInjective(m.parts[i], m.parts[j]);
        assert PartRight(items, m.partSize, m.parts[i], parts[i], i) && PartRight(items, m.partSize, m.parts[j], parts[j], j);
        HrefInjective(i, j);
      }
    }
  }

  lemma HostedAt(items: seq<Record>, m: Manifest, parts: seq<(string, Part)>, k: nat)
    requires Partitioned(items, m.partSize, m.parts, parts) && k < |m.parts|
    ensures Hosted(parts)(m.parts[k]) == parts[k].1
  {
    hide Href, FileAt, Slice;
    assert PartRight(items, m.partSize, m.parts[k], parts[k], k);
    forall j | 0 <= j < |parts| && parts[j].0 == parts[k].0 ensures j == k {
      assert PartRight(items, m.partSize, m.parts[j], parts[j], j);
      HrefInjective(j, k);
    }
    FileFound(parts, k);
  }

  // ----- full records by id -----

  ghost predicate DistinctIds(items: seq<Record>) {
    forall i, j :: 0 <= i < j < |items| ==> items[i].id != items[j].id
  }

  /** The record in the detail file of this name, the last one written to it. */
  function DetailAt(details: seq<Detail>, href: string): Option<Record> {
    if details == [] then None
    else if details[|details| - 1].href == href then Some(details[|details| - 1].record)
    else DetailAt(details[..|details| - 1], href)
  }

  lemma {:induction false} DetailFound(details: seq<Detail>, i: nat)
    requires i < |details| && forall j :: 0 <= j < |details| && details[j].href == details[i].href ==> j == i
    ensures DetailAt(details, details[i].href) == Some(details[i].record)
    decreases |details|
  {
    if i < |details| - 1 {
      assert details[|details| - 1].href != details[i].href;
      DetailFound(details[..|details| - 1], i);
    }
  }

  /** The detail file for each kept record's id holds that record in full. */
  ghost predicate Resolves(items: seq<Record>, p: Projection) {
    forall i :: 0 <= i < |items| ==>
      DetailAt(Details(items, Some(p)), DetailId.DetailHref(p.href, p.encoding, items[i].id)) == Some(items[i])
  }

  ghost predicate HasPlaceholder(template: string) {
    exists i :: 0 <= i && DetailId.PlaceholderAt(template, i)
  }

  lemma DetailRow(items: seq<Record>, p: Projection, i: nat)
    requires i < |items|
    ensures var d := Details(items, Some(p))[i];
      d.href == DetailId.DetailHref(p.href, p.encoding, items[i].id) && d.record == items[i] && d.id == items[i].id
  {
    hide DetailId.DetailHref;
  }

  /**
    What a projection takes out of the scan parts can be had back by id: every kept record is in the detail file its id
    leads to exactly when the template has a placeholder, or there is at most one record.
   */
  lemma DetailsResolve(items: seq<Record>, p: Projection)
    requires DistinctIds(items)
    ensures Resolves(items, p) <==> HasPlaceholder(p.href) || |items| <= 1
  {
    hide DetailAt, Details, DetailId.DetailHref, HasPlaceholder;
    forall i | 0 <= i < |items| ensures Details(items, Some(p))[i].href == DetailId.DetailHref(p.href, p.encoding, items[i].id) && Details(items, Some(p))[i].record == items[i] {
      DetailRow(items, p, i);
    }
    if HasPlaceholder(p.href) || |items| <= 1 {
      forall i | 0 <= i < |items| ensures DetailAt(Details(items, Some(p)), DetailId.DetailHref(p.href, p.encoding, items[i].id)) == Some(items[i]) {
        forall j | 0 <= j < |items| && j != i ensures Details(items, Some(p))[j].href != Details(items, Some(p))[i].href {
          HrefsApart(p, items[i].id, items[j].id);
        }
        DetailFound(Details(items, Some(p)), i);
      }
    } else {
      HrefsApart(p, items[0].id, items[1].id);
      assert items[0] != items[1];
    }
  }

  lemma HrefsApart(p: Projection, a: string, b: string)
    requires a != b
    ensures DetailId.DetailHref(p.href, p.encoding, a) != DetailId.DetailHref(p.href, p.encoding, b) <==> HasPlaceholder(p.href)
  {
    hide DetailId.DetailHref;
    DetailId.HrefsDistinct(p.href, p.encoding, a, b);
  }
}
