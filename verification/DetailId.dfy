/** Detail file names: the URL-safe base64 form of an id (RFC 4648 section 5, padding removed) or its percent encoding. */
module DetailId {
  import opened Wrappers
  import opened Text
  import opened Utf8

  type Sextet = n: int | 0 <= n < 64

  /** The alphabet of RFC 4648 section 4. */
  function Symbol(n: Sextet): char {
    if n < 26 then ('A' as int + n) as char
    else if n < 52 then ('a' as int + n - 26) as char
    else if n < 62 then ('0' as int + n - 52) as char
    else if n == 62 then '+'
    else '/'
  }

  function Symbols(ns: seq<Sextet>): (r: string)
    ensures |r| == |ns| && forall i :: 0 <= i < |ns| ==> r[i] == Symbol(ns[i])
  {
    if ns == [] then "" else [Symbol(ns[0])] + Symbols(ns[1..])
  }

  /** The sextets of one to three bytes, missing bits zero. */
  function Group(b: seq<Byte>): (r: seq<Sextet>)
    requires 1 <= |b| <= 3
    ensures |r| == |b| + 1
  {
    match |b|
    case 1 => [b[0] / 4, b[0] % 4 * 16]
    case 2 => [b[0] / 4, b[0] % 4 * 16 + b[1] / 16, b[1] % 16 * 4]
    case _ => [b[0] / 4, b[0] % 4 * 16 + b[1] / 16, b[1] % 16 * 4 + b[2] / 64, b[2] % 64]
  }

  function Padding(n: nat): string {
    if n == 0 then "" else "=" + Padding(n - 1)
  }

  /** `btoa`: groups of three bytes, the last one padded. */
  function Btoa(b: seq<Byte>): string
    decreases |b|
  {
    if b == [] then ""
    else if |b| <= 3 then Symbols(Group(b)) + Padding(3 - |b|)
    else Symbols(Group(b[..3])) + Btoa(b[3..])
  }

  /** `replace` of one character by another, everywhere. */
  function ReplaceAll(s: string, from: char, to: char): (r: string)
    ensures |r| == |s| && forall i :: 0 <= i < |s| ==> r[i] == if s[i] == from then to else s[i]
  {
    if s == "" then "" else [if s[0] == from then to else s[0]] + ReplaceAll(s[1..], from, to)
  }

  /** `replace(/=+$/, '')`. */
  function StripEnd(s: string): string {
    if s != "" && s[|s| - 1] == '=' then StripEnd(s[..|s| - 1]) else s
  }

  function Base64Url(b: seq<Byte>): string {
    StripEnd(ReplaceAll(ReplaceAll(Btoa(b), '+', '-'), '/', '_'))
  }

  // ----- the decoder -----

  function SextetOf(c: char): Option<Sextet> {
    if 'A' <= c <= 'Z' then Some(c as int - 'A' as int)
    else if 'a' <= c <= 'z' then Some(c as int - 'a' as int + 26)
    else if '0' <= c <= '9' then Some(c as int - '0' as int + 52)
    else if c == '-' then Some(62)
    else if c == '_' then Some(63)
    else None
  }

  function Sextets(s: string): Option<seq<Sextet>> {
    if s == "" then Some([])
    else
      var rest := Sextets(s[1..]);
      if SextetOf(s[0]).None? || rest.None? then None else Some([SextetOf(s[0]).value] + rest.value)
  }

  function Ungroup(q: seq<Sextet>): seq<Byte>
    requires 2 <= |q| <= 4
  {
    var first: Byte := q[0] as int * 4 + q[1] / 16;
    if |q| == 2 then [first]
    else
      var second: Byte := q[1] as int % 16 * 16 + q[2] / 4;
      if |q| == 3 then [first, second]
      else
        var third: Byte := q[2] as int % 4 * 64 + q[3];
        [first, second, third]
  }

  function Unsextets(q: seq<Sextet>): Option<seq<Byte>>
    decreases |q|
  {
    if q == [] then Some([])
    else if |q| == 1 then None
    else if |q| <= 4 then Some(Ungroup(q))
    else
      var rest := Unsextets(q[4..]);
      if rest.None? then None else Some(Ungroup(q[..4]) + rest.value)
  }

  function DecodeBase64Url(s: string): Option<seq<Byte>> {
    var q := Sextets(s);
    if q.None? then None else Unsextets(q.value)
  }

  // ----- the decoder undoes the encoder -----

  /** The sextets of a byte string, group after group. */
  function AllSextets(b: seq<Byte>): seq<Sextet>
    decreases |b|
  {
    if b == [] then [] else if |b| <= 3 then Group(b) else Group(b[..3]) + AllSextets(b[3..])
  }

  /** The URL-safe symbol. */
  function UrlSymbol(n: Sextet): char {
    if n == 62 then '-' else if n == 63 then '_' else Symbol(n)
  }

  function UrlSymbols(ns: seq<Sextet>): (r: string)
    ensures |r| == |ns| && forall i :: 0 <= i < |ns| ==> r[i] == UrlSymbol(ns[i])
  {
    if ns == [] then "" else [UrlSymbol(ns[0])] + UrlSymbols(ns[1..])
  }

  lemma GroupRoundTrip(b: seq<Byte>)
    requires 1 <= |b| <= 3
    ensures Ungroup(Group(b)) == b
  {
    var q := Group(b);
    assert q[0] as int * 4 + q[1] / 16 == b[0];
    if |b| >= 2 { assert q[1] as int % 16 * 16 + q[2] / 4 == b[1]; }
    if |b| == 3 { assert q[2] as int % 4 * 64 + q[3] == b[2]; }
  }

  lemma {:induction false} UnsextetsRight(b: seq<Byte>)
    ensures Unsextets(AllSextets(b)) == Some(b)
    decreases |b|
  {
    if 0 < |b| <= 3 {
      GroupRoundTrip(b);
    } else if |b| > 3 {
      GroupRoundTrip(b[..3]);
      UnsextetsRight(b[3..]);
      var q := AllSextets(b);
      assert q[..4] == Group(b[..3]) && q[4..] == AllSextets(b[3..]);
      assert |AllSextets(b[3..])| > 0;
      assert b[..3] + b[3..] == b;
    }
  }

  lemma {:induction false} SextetsOfSymbols(ns: seq<Sextet>)
    ensures Sextets(UrlSymbols(ns)) == Some(ns)
  {
    if ns != [] {
      SextetsOfSymbols(ns[1..]);
      assert UrlSymbols(ns)[1..] == UrlSymbols(ns[1..]);
      assert ns == [ns[0]] + ns[1..];
    }
  }

  /** Before replacing and stripping, the text is the symbols and at most two pads. */
  lemma {:induction false} BtoaShape(b: seq<Byte>) returns (pads: nat)
    ensures Btoa(b) == Symbols(AllSextets(b)) + Padding(pads)
    decreases |b|
  {
    hide Group, Symbols;
    if b == [] {
      pads := 0;
      SymbolsOfNone();
    } else if |b| <= 3 {
      pads := 3 - |b|;
    } else {
      pads := BtoaShape(b[3..]);
      SymbolsConcat(Group(b[..3]), AllSextets(b[3..]));
      Joins(Symbols(Group(b[..3])), Symbols(AllSextets(b[3..])), Padding(pads));
    }
  }

  lemma SymbolsOfNone()
    ensures Symbols([]) == "" && Padding(0) == "" && "" + "" == ""
  {
  }

  lemma Joins(a: string, b: string, c: string)
    ensures a + (b + c) == a + b + c
  {
  }

  lemma SymbolsConcat(a: seq<Sextet>, b: seq<Sextet>)
    ensures Symbols(a + b) == Symbols(a) + Symbols(b)
  {
  }

  lemma {:induction false} PaddingIs(n: nat)
    ensures |Padding(n)| == n && forall i :: 0 <= i < n ==> Padding(n)[i] == '='
  {
    if n > 0 { PaddingIs(n - 1); }
  }

  lemma {:induction false} StripPads(s: string, pads: nat)
    requires '=' !in s
    ensures StripEnd(s + Padding(pads)) == s
  {
    var t := s + Padding(pads);
    PaddingIs(pads);
    if pads == 0 {
      assert t == s;
    } else {
      PaddingIs(pads - 1);
      assert t[|t| - 1] == '=';
      assert t[..|t| - 1] == s + Padding(pads - 1);
      StripPads(s, pads - 1);
    }
  }

  lemma SymbolReplaced(n: Sextet)
    ensures UrlSymbol(n) != '=' && Symbol(n) != '-'
    ensures UrlSymbol(n) == var c := if Symbol(n) == '+' then '-' else Symbol(n); if c == '/' then '_' else c
  {
  }

  lemma Replaced(ns: seq<Sextet>, pads: nat)
    ensures ReplaceAll(ReplaceAll(Symbols(ns) + Padding(pads), '+', '-'), '/', '_') == UrlSymbols(ns) + Padding(pads)
    ensures '=' !in UrlSymbols(ns)
  {
    hide Symbols, UrlSymbols, ReplaceAll, Padding, Symbol, UrlSymbol;
    PaddingIs(pads);
    forall i | 0 <= i < |ns| ensures UrlSymbols(ns)[i] != '=' { SymbolReplaced(ns[i]); }
    var t := ReplaceAll(ReplaceAll(Symbols(ns) + Padding(pads), '+', '-'), '/', '_');
    forall i | 0 <= i < |t| ensures t[i] == (UrlSymbols(ns) + Padding(pads))[i] {
      if i < |ns| { SymbolReplaced(ns[i]); }
    }
  }

  /** The encoding is the URL-safe symbols of the sextets, nothing else. */
  lemma EncodesSymbols(b: seq<Byte>)
    ensures Base64Url(b) == UrlSymbols(AllSextets(b))
  {
    hide Btoa, AllSextets, UrlSymbols, Symbols, ReplaceAll, StripEnd;
    var pads := BtoaShape(b);
    Replaced(AllSextets(b), pads);
    StripPads(UrlSymbols(AllSextets(b)), pads);
  }

  /** Decoding undoes encoding for every byte string. */
  lemma Base64UrlRoundTrip(b: seq<Byte>)
    ensures DecodeBase64Url(Base64Url(b)) == Some(b)
  {
    EncodesSymbols(b);
    SextetsOfSymbols(AllSextets(b));
    UnsextetsRight(b);
    hide Base64Url, UrlSymbols, AllSextets, Unsextets, Sextets;
  }

  predicate UrlSafe(c: char) {
    'A' <= c <= 'Z' || 'a' <= c <= 'z' || IsDigit(c) || c == '-' || c == '_'
  }

  lemma Base64UrlIsSafe(b: seq<Byte>)
    ensures forall c :: c in Base64Url(b) ==> UrlSafe(c)
  {
    EncodesSymbols(b);
    hide Base64Url, AllSextets;
  }

  // ----- file names -----

  datatype Encoding = Uri | Base64UrlEncoding

  /** `encodeAiwgDetailId`. */
  function EncodeDetailId(id: string, encoding: Encoding): string {
    match encoding
    case Uri => EncodeComponent(id)
    case Base64UrlEncoding => Base64Url(Bytes(id))
  }

  lemma DetailIdInjective(a: string, b: string, encoding: Encoding)
    requires EncodeDetailId(a, encoding) == EncodeDetailId(b, encoding)
    ensures a == b
  {
    if encoding.Uri? {
      ComponentInjective(a, b);
    } else {
      Base64UrlRoundTrip(Bytes(a));
      Base64UrlRoundTrip(Bytes(b));
      BytesRoundTrip(a);
      BytesRoundTrip(b);
    }
  }

  /** The URI form reads back by removing its percent escapes, the other by decoding base64, to the id's UTF-8 bytes. */
  lemma EncodingMeans(id: string)
    ensures Unpercent(EncodeDetailId(id, Uri)) == Some(Bytes(id))
    ensures DecodeBase64Url(EncodeDetailId(id, Base64UrlEncoding)) == Some(Bytes(id))
    ensures forall c :: c in EncodeDetailId(id, Base64UrlEncoding) ==> UrlSafe(c)
    ensures FromBytes(Bytes(id)) == Some(id)
  {
    UnpercentComponent(id);
    Base64UrlRoundTrip(Bytes(id));
    Base64UrlIsSafe(Bytes(id));
    BytesRoundTrip(id);
  }

  predicate PlaceholderAt(template: string, i: int) {
    0 <= i <= |template| - 4 && template[i..i + 4] == "{id}"
  }

  /** `replace('{id}', …)`: the first placeholder. */
  function Fill(template: string, value: string, from: nat): string
    requires from <= |template|
    decreases |template| - from
  {
    if PlaceholderAt(template, from) then template[..from] + value + template[from + 4..]
    else if from == |template| then template
    else Fill(template, value, from + 1)
  }

  /** `aiwgDetailHrefForId`. */
  function DetailHref(template: string, encoding: Encoding, id: string): string {
    Fill(template, EncodeDetailId(id, encoding), 0)
  }

  /** The first placeholder is replaced, and nothing else; without one the template is the name. */
  lemma {:induction false} FillsFirst(template: string, value: string, from: nat)
    requires from <= |template|
    ensures forall i :: from <= i && PlaceholderAt(template, i) && (forall j :: from <= j < i ==> !PlaceholderAt(template, j)) ==>
      Fill(template, value, from) == template[..i] + value + template[i + 4..]
    ensures (forall i :: from <= i ==> !PlaceholderAt(template, i)) ==> Fill(template, value, from) == template
    decreases |template| - from
  {
    hide PlaceholderAt;
    if !PlaceholderAt(template, from) && from < |template| { FillsFirst(template, value, from + 1); }
    InTemplate(template);
  }

  lemma InTemplate(template: string)
    ensures forall i :: PlaceholderAt(template, i) ==> 0 <= i && i + 4 <= |template| && template[i..i + 4] == "{id}"
  {
  }

  lemma {:induction false} FillDiffers(template: string, x: string, y: string, from: nat)
    requires from <= |template| && x != y
    ensures Fill(template, x, from) != Fill(template, y, from) <==> exists i :: from <= i && PlaceholderAt(template, i)
    decreases |template| - from
  {
    if PlaceholderAt(template, from) {
      SameEndsDiffer(template[..from], x, y, template[from + 4..]);
    } else if from < |template| {
      FillDiffers(template, x, y, from + 1);
    }
  }

  lemma SameEndsDiffer(a: string, x: string, y: string, b: string)
    requires x != y
    ensures a + x + b != a + y + b
  {
    var s, t := a + x + b, a + y + b;
    assert |s| == |t| ==> s[|a|..|a| + |x|] == x && t[|a|..|a| + |y|] == y;
  }

  /** Different ids get different file names exactly when the template has a placeholder, which the builder does not check. */
  lemma HrefsDistinct(template: string, encoding: Encoding, a: string, b: string)
    requires a != b
    ensures DetailHref(template, encoding, a) != DetailHref(template, encoding, b) <==> exists i :: 0 <= i && PlaceholderAt(template, i)
  {
    if EncodeDetailId(a, encoding) == EncodeDetailId(b, encoding) { DetailIdInjective(a, b, encoding); }
    hide EncodeDetailId;
    FillDiffers(template, EncodeDetailId(a, encoding), EncodeDetailId(b, encoding), 0);
  }
}
