/**
  Canonical JSON text: members sorted by key, no spaces. The text determines the value and does not depend on the order
  in which an object's members were written, which a prefix parser for the RFC 8259 grammar shows by undoing it.
 */
module CanonicalJson {
  import opened Wrappers
  import opened Sorting
  import opened Text

  /** A value as the caller holds it: object members in insertion order. Numbers are integers. */
  datatype Json = Null | Bool(b: bool) | Num(n: int) | Str(s: string) | Arr(items: seq<Json>) | Obj(members: seq<Member>)
  datatype Member = Member(key: string, value: Json)

  /** A value as JSON means it: objects are unordered. */
  datatype Datum = NullValue | BoolValue(b: bool) | NumValue(n: int) | StrValue(s: string) | ArrValue(items: seq<Datum>) | ObjValue(members: map<string, Datum>)

  // ----- meaning -----

  ghost predicate WellFormed(j: Json) {
    match j
    case Arr(items) => forall x :: x in items ==> WellFormed(x)
    case Obj(ms) => (forall i, k :: 0 <= i < k < |ms| ==> ms[i].key != ms[k].key) && forall m :: m in ms ==> WellFormed(m.value)
    case _ => true
  }

  function Meaning(j: Json): Datum
    decreases j
  {
    match j
    case Null => NullValue
    case Bool(b) => BoolValue(b)
    case Num(n) => NumValue(n)
    case Str(s) => StrValue(s)
    case Arr(items) => ArrValue(Meanings(items))
    case Obj(ms) => ObjValue(MemberMap(ms))
  }

  function Meanings(items: seq<Json>): (r: seq<Datum>)
    ensures |r| == |items|
    decreases items
  {
    if items == [] then [] else [Meaning(items[0])] + Meanings(items[1..])
  }

  function MemberMap(ms: seq<Member>): map<string, Datum>
    decreases ms
  {
    if ms == [] then map[] else MemberMap(ms[1..])[ms[0].key := Meaning(ms[0].value)]
  }

  // ----- text -----

  function HexDigit(d: nat): char
    requires d < 16
  {
    if d < 10 then ('0' as int + d) as char else ('a' as int + d - 10) as char
  }

  /** The escapes of section 7 that a serializer needs. */
  function Escape(c: char): string {
    if c == '\"' then "\\\""
    else if c == '\\' then "\\\\"
    else if c == '\U{0008}' then "\\b"
    else if c == '\U{000C}' then "\\f"
    else if c == '\n' then "\\n"
    else if c == '\r' then "\\r"
    else if c == '\t' then "\\t"
    else if c < ' ' then "\\u00" + [HexDigit(c as int / 16), HexDigit(c as int % 16)]
    else [c]
  }

  function Escaped(s: string): string {
    if s == "" then "" else Escape(s[0]) + Escaped(s[1..])
  }

  function Quoted(s: string): string {
    "\"" + Escaped(s) + "\""
  }

  function NumberText(n: int): string {
    if n < 0 then "-" + Decimal(-n) else Decimal(n)
  }

  function CommaJoined(parts: seq<string>): string {
    if parts == [] then "" else if |parts| == 1 then parts[0] else parts[0] + "," + CommaJoined(parts[1..])
  }

  function Canonical(less: (string, string) -> bool, j: Json): string
    decreases j
  {
    match j
    case Null => "null"
    case Bool(b) => if b then "true" else "false"
    case Num(n) => NumberText(n)
    case Str(s) => Quoted(s)
    case Arr(items) => "[" + CommaJoined(Canonicals(less, items)) + "]"
    case Obj(ms) => "{" + CommaJoined(EntryTexts(Sort(Entries(less, ms), KeyLess(less)))) + "}"
  }

  function Canonicals(less: (string, string) -> bool, items: seq<Json>): (r: seq<string>)
    ensures |r| == |items|
    decreases items
  {
    if items == [] then [] else [Canonical(less, items[0])] + Canonicals(less, items[1..])
  }

  /** Each member's key with its value's text, in the order written. */
  function Entries(less: (string, string) -> bool, ms: seq<Member>): (r: seq<(string, string)>)
    ensures |r| == |ms|
    decreases ms
  {
    if ms == [] then [] else [(ms[0].key, Canonical(less, ms[0].value))] + Entries(less, ms[1..])
  }

  function KeyLess(less: (string, string) -> bool): ((string, string), (string, string)) -> bool {
    (a: (string, string), b: (string, string)) => less(a.0, b.0)
  }

  function EntryTexts(es: seq<(string, string)>): (r: seq<string>)
    ensures |r| == |es|
  {
    if es == [] then [] else [Quoted(es[0].0) + ":" + es[0].1] + EntryTexts(es[1..])
  }

  // ----- the parser -----

  predicate Starts(s: string, prefix: string) {
    prefix <= s
  }

  function HexValue(c: char): Option<nat> {
    if '0' <= c <= '9' then Some(c as int - '0' as int)
    else if 'a' <= c <= 'f' then Some(c as int - 'a' as int + 10)
    else if 'A' <= c <= 'F' then Some(c as int - 'A' as int + 10)
    else None
  }

  /** One character of a string literal, escaped or not, and what follows it. */
  function ParseChar(s: string): (r: Option<(char, string)>)
    requires s != ""
    ensures r.Some? ==> |r.value.1| < |s|
  {
    if s[0] == '\"' || s[0] < ' ' then None
    else if s[0] != '\\' then Some((s[0], s[1..]))
    else if |s| < 2 then None
    else
      var rest := s[2..];
      match s[1]
      case '\"' => Some(('\"', rest))
      case '\\' => Some(('\\', rest))
      case '/' => Some(('/', rest))
      case 'b' => Some(('\U{0008}', rest))
      case 'f' => Some(('\U{000C}', rest))
      case 'n' => Some(('\n', rest))
      case 'r' => Some(('\r', rest))
      case 't' => Some(('\t', rest))
      case 'u' =>
        if |s| < 6 then None
        else
          var a, b, c, d := HexValue(s[2]), HexValue(s[3]), HexValue(s[4]), HexValue(s[5]);
          if a.None? || b.None? || c.None? || d.None? then None
          else
            var code := 4096 * a.value + 256 * b.value + 16 * c.value + d.value;
            if code < 0xD800 then Some((code as char, s[6..])) else None
      case _ => None
  }

  /** The rest of a string literal after its opening quote. */
  function ParseChars(s: string): (r: Option<(string, string)>)
    ensures r.Some? ==> |r.value.1| < |s|
    decreases |s|
  {
    if s == "" then None
    else if s[0] == '\"' then Some(("", s[1..]))
    else
      var c := ParseChar(s);
      if c.None? then None
      else
        var t := ParseChars(c.value.1);
        if t.None? then None else Some(([c.value.0] + t.value.0, t.value.1))
  }

  function ParseNumber(s: string): (r: Option<(int, string)>)
    ensures r.Some? ==> |r.value.1| < |s|
  {
    var negative := Starts(s, "-");
    var digits := if negative then s[1..] else s;
    var n := DigitRun(digits);
    if !IsNumeral(digits[..n]) then None
    else
      var magnitude: int := Value(digits[..n]);
      Some((if negative then -magnitude else magnitude, digits[n..]))
  }

  function ParseValue(s: string): (r: Option<(Datum, string)>)
    ensures r.Some? ==> |r.value.1| < |s|
    decreases |s|, 0
  {
    if s == "" then None
    else if Starts(s, "null") then Some((NullValue, s[4..]))
    else if Starts(s, "true") then Some((BoolValue(true), s[4..]))
    else if Starts(s, "false") then Some((BoolValue(false), s[5..]))
    else if s[0] == '\"' then
      var t := ParseChars(s[1..]);
      if t.None? then None else Some((StrValue(t.value.0), t.value.1))
    else if Starts(s, "[]") then Some((ArrValue([]), s[2..]))
    else if s[0] == '[' then
      var t := ParseItems(s[1..]);
      if t.None? then None else Some((ArrValue(t.value.0), t.value.1))
    else if Starts(s, "{}") then Some((ObjValue(map[]), s[2..]))
    else if s[0] == '{' then
      var t := ParseMembers(s[1..]);
      if t.None? then None else Some((ObjValue(t.value.0), t.value.1))
    else
      var t := ParseNumber(s);
      if t.None? then None else Some((NumValue(t.value.0), t.value.1))
  }

  function ParseItems(s: string): (r: Option<(seq<Datum>, string)>)
    ensures r.Some? ==> |r.value.1| < |s|
    decreases |s|, 1
  {
    var v := ParseValue(s);
    if v.None? || v.value.1 == "" then None
    else if v.value.1[0] == ']' then Some(([v.value.0], v.value.1[1..]))
    else if v.value.1[0] != ',' then None
    else
      var t := ParseItems(v.value.1[1..]);
      if t.None? then None else Some(([v.value.0] + t.value.0, t.value.1))
  }

  function ParseMembers(s: string): (r: Option<(map<string, Datum>, string)>)
    ensures r.Some? ==> |r.value.1| < |s|
    decreases |s|, 1
  {
    if s == "" || s[0] != '\"' then None
    else
      var k := ParseChars(s[1..]);
      if k.None? || k.value.1 == "" || k.value.1[0] != ':' then None
      else
        var v := ParseValue(k.value.1[1..]);
        if v.None? || v.value.1 == "" then None
        else if v.value.1[0] == '}' then Some((map[k.value.0 := v.value.0], v.value.1[1..]))
        else if v.value.1[0] != ',' then None
        else
          var t := ParseMembers(v.value.1[1..]);
          if t.None? then None else Some((t.value.0[k.value.0 := v.value.0], t.value.1))
  }

  // ----- the parser undoes the text -----

  lemma ParseEscape(c: char, rest: string)
    ensures Escape(c) != "" && ParseChar(Escape(c) + rest) == Some((c, rest))
    ensures Escape(c)[0] != '\"'
  {
    var e := Escape(c);
    var s := e + rest;
    if c < ' ' && |e| == 6 {
      var hi, lo := c as int / 16, c as int % 16;
      assert s[2] == '0' && s[3] == '0' && s[4] == HexDigit(hi) && s[5] == HexDigit(lo) && s[6..] == rest;
      assert HexValue(s[4]) == Some(hi) && HexValue(s[5]) == Some(lo);
      assert c as int == 16 * hi + lo;
    } else if |e| == 2 {
      assert s[2..] == rest;
    } else {
      assert s[1..] == rest;
    }
  }

  lemma {:induction false} ParseEscaped(t: string, rest: string)
    ensures ParseChars(Escaped(t) + "\"" + rest) == Some((t, rest))
  {
    hide Escape, ParseChar;
    var s := Escaped(t) + "\"" + rest;
    if t == "" {
      assert s == "\"" + rest && s[1..] == rest;
    } else {
      var tail := Escaped(t[1..]) + "\"" + rest;
      assert s == Escape(t[0]) + tail;
      ParseEscape(t[0], tail);
      assert s[0] == Escape(t[0])[0];
      ParseEscaped(t[1..], rest);
      assert t == [t[0]] + t[1..];
    }
  }

  lemma ParseQuoted(t: string, rest: string)
    ensures var s := Quoted(t) + rest; s != "" && s[0] == '\"' && ParseChars(s[1..]) == Some((t, rest))
  {
    var s := Quoted(t) + rest;
    assert s[1..] == Escaped(t) + "\"" + rest;
    ParseEscaped(t, rest);
  }

  /** What may follow a value without being taken for part of it. */
  predicate Ends(rest: string) {
    rest == "" || !IsDigit(rest[0])
  }

  lemma ParseDigits(d: string, rest: string)
    requires IsNumeral(d) && Ends(rest)
    ensures ParseNumber(d + rest) == Some((Value(d) as int, rest))
  {
    DigitsRead(d, rest);
    hide DigitRun, Value;
  }

  lemma ParseNegative(d: string, rest: string)
    requires IsNumeral(d) && Ends(rest)
    ensures ParseNumber("-" + (d + rest)) == Some((-(Value(d) as int), rest))
  {
    DigitsRead(d, rest);
    hide DigitRun, Value;
    assert ("-" + (d + rest))[1..] == d + rest;
  }

  lemma DigitsRead(d: string, rest: string)
    requires IsNumeral(d) && Ends(rest)
    ensures var s := d + rest; DigitRun(s) == |d| <= |s| && s[..|d|] == d && s[|d|..] == rest && s[0] == d[0]
  {
    DigitRunOf(d, rest);
  }

  lemma ParseNumberText(n: int, rest: string)
    requires Ends(rest)
    ensures var s := NumberText(n) + rest; s != "" && (IsDigit(s[0]) || s[0] == '-') && ParseNumber(s) == Some((n, rest))
  {
    hide ParseNumber, Decimal, Value;
    var m: nat := if n < 0 then -n else n;
    ValueOfDecimal(m);
    ParseDigits(Decimal(m), rest);
    ParseNegative(Decimal(m), rest);
    assert n < 0 ==> NumberText(n) + rest == "-" + (Decimal(m) + rest);
  }

  lemma {:induction false} InsertEntry(less: (string, string) -> bool, m: Member, ms: seq<Member>, lt: (Member, Member) -> bool)
    requires forall a, b :: lt(a, b) <==> less(a.key, b.key)
    ensures Insert((m.key, Canonical(less, m.value)), Entries(less, ms), KeyLess(less)) == Entries(less, Insert(m, ms, lt))
    decreases |ms|
  {
    hide Canonical;
    var e := (m.key, Canonical(less, m.value));
    if ms == [] || !lt(ms[0], m) {
      assert ([m] + ms)[1..] == ms;
      assert Insert(m, ms, lt) == [m] + ms;
    } else {
      InsertEntry(less, m, ms[1..], lt);
      var r := Insert(m, ms[1..], lt);
      assert ([ms[0]] + r)[1..] == r && ([ms[0]] + r)[0] == ms[0];
      assert Insert(m, ms, lt) == [ms[0]] + r;
      var es := Entries(less, ms);
      assert es[0] == (ms[0].key, Canonical(less, ms[0].value)) && es[1..] == Entries(less, ms[1..]);
    }
  }

  /** Sorting the entries is sorting the members. */
  lemma {:induction false} SortEntries(less: (string, string) -> bool, ms: seq<Member>, lt: (Member, Member) -> bool)
    requires forall a, b :: lt(a, b) <==> less(a.key, b.key)
    ensures Sort(Entries(less, ms), KeyLess(less)) == Entries(less, Sort(ms, lt))
    decreases |ms|
  {
    hide Canonical;
    if ms != [] {
      SortEntries(less, ms[1..], lt);
      InsertEntry(less, ms[0], Sort(ms[1..], lt), lt);
      assert Entries(less, ms)[1..] == Entries(less, ms[1..]);
    }
  }

  ghost predicate DistinctMembers(ms: seq<Member>) {
    forall i, k :: 0 <= i < k < |ms| ==> ms[i].key != ms[k].key
  }

  lemma {:induction false} MemberMapHas(ms: seq<Member>)
    requires DistinctMembers(ms)
    ensures forall m :: m in ms ==> m.key in MemberMap(ms) && MemberMap(ms)[m.key] == Meaning(m.value)
    ensures forall k :: k in MemberMap(ms) ==> exists m :: m in ms && m.key == k
  {
    hide Meaning;
    if ms != [] {
      MemberMapHas(ms[1..]);
      assert forall m :: m in ms <==> m == ms[0] || m in ms[1..];
      assert forall m :: m in ms[1..] ==> m.key != ms[0].key;
    }
  }

  lemma DistinctPermuted(a: seq<Member>, b: seq<Member>)
    requires DistinctMembers(a) && multiset(a) == multiset(b)
    ensures DistinctMembers(b)
  {
    forall i, k | 0 <= i < k < |b| ensures b[i].key != b[k].key {
      assert b == b[..i] + [b[i]] + b[i + 1..k] + [b[k]] + b[k + 1..];
      assert multiset(b) >= multiset{b[i], b[k]};
      assert b[i] in multiset(a) && b[k] in multiset(a);
      assert b[i] in a && b[k] in a;
      if b[i] == b[k] { OnlyOnce(a, b[i]); }
    }
  }

  lemma {:induction false} OnlyOnce(a: seq<Member>, m: Member)
    requires DistinctMembers(a)
    ensures multiset(a)[m] <= 1
  {
    if a != [] {
      assert a == [a[0]] + a[1..];
      OnlyOnce(a[1..], m);
      if m == a[0] { assert m !in a[1..]; }
    }
  }

  lemma SameMembersSameMap(a: seq<Member>, b: seq<Member>)
    requires DistinctMembers(a) && multiset(a) == multiset(b)
    ensures MemberMap(a) == MemberMap(b)
  {
    DistinctPermuted(a, b);
    MemberMapHas(a);
    MemberMapHas(b);
    hide MemberMap, Meaning;
    forall m ensures m in a <==> m in b { assert m in a <==> m in multiset(a); assert m in b <==> m in multiset(b); }
    assert MemberMap(a).Keys == MemberMap(b).Keys;
  }

  lemma CanonicalStart(less: (string, string) -> bool, j: Json)
    ensures var t := Canonical(less, j); t != "" && t[0] != ']' && t[0] != '}' && t[0] != ','
  {
    match j
    case Num(n) => assert n >= 0 ==> IsDigit(Decimal(n)[0]);
    case _ =>
  }

  lemma ItemsLast(v: Datum, text: string, rest: string)
    requires ParseValue(text + ("]" + rest)) == Some((v, "]" + rest))
    ensures ParseItems(text + "]" + rest) == Some(([v], rest))
  {
    hide ParseValue;
    assert text + "]" + rest == text + ("]" + rest);
    assert ("]" + rest)[1..] == rest;
  }

  lemma ItemsMore(v: Datum, text: string, more: string, vs: seq<Datum>, rest: string)
    requires ParseValue(text + ("," + more)) == Some((v, "," + more))
    requires ParseItems(more) == Some((vs, rest))
    ensures ParseItems(text + "," + more) == Some(([v] + vs, rest))
  {
    hide ParseValue;
    assert text + "," + more == text + ("," + more);
    assert ("," + more)[1..] == more;
  }

  /** A non-empty item list, up to and including the closing bracket. */
  lemma {:induction false} ParseCanonicals(less: (string, string) -> bool, j: Json, items: seq<Json>, rest: string)
    requires StrictTotal(less) && items != [] && forall x :: x in items ==> WellFormed(x) && x < j
    ensures ParseItems(CommaJoined(Canonicals(less, items)) + "]" + rest) == Some((Meanings(items), rest))
    ensures var t := CommaJoined(Canonicals(less, items)); t != "" && t[0] != ']'
    decreases j, 0, |items|
  {
    hide ParseValue, ParseItems, Canonical, Meaning, WellFormed, StrictTotal;
    var x := items[0];
    assert x in items;
    var text := Canonical(less, x);
    CanonicalStart(less, x);
    if |items| == 1 {
      assert items[1..] == [] && Canonicals(less, items) == [text] && Meanings(items) == [Meaning(x)];
      ParseCanonical(less, x, "]" + rest);
      ItemsLast(Meaning(x), text, rest);
    } else {
      var more := CommaJoined(Canonicals(less, items[1..]));
      assert Canonicals(less, items)[1..] == Canonicals(less, items[1..]);
      assert CommaJoined(Canonicals(less, items)) == text + "," + more;
      ParseCanonicals(less, j, items[1..], rest);
      ParseCanonical(less, x, "," + (more + "]" + rest));
      ItemsMore(Meaning(x), text, more + "]" + rest, Meanings(items[1..]), rest);
      assert text + "," + more + "]" + rest == text + "," + (more + "]" + rest);
    }
  }

  lemma MembersLast(key: string, v: Datum, text: string, rest: string)
    requires ParseValue(text + ("}" + rest)) == Some((v, "}" + rest))
    ensures ParseMembers(Quoted(key) + ":" + text + "}" + rest) == Some((map[key := v], rest))
  {
    var after := text + ("}" + rest);
    ParseQuoted(key, ":" + after);
    hide ParseValue, Quoted, ParseChars;
    assert Quoted(key) + ":" + text + "}" + rest == Quoted(key) + (":" + after);
    assert (":" + after)[1..] == after && ("}" + rest)[1..] == rest;
  }

  lemma MembersMore(key: string, v: Datum, text: string, more: string, vs: map<string, Datum>, rest: string)
    requires ParseValue(text + ("," + more)) == Some((v, "," + more))
    requires ParseMembers(more) == Some((vs, rest))
    ensures ParseMembers(Quoted(key) + ":" + text + "," + more) == Some((vs[key := v], rest))
  {
    var after := text + ("," + more);
    ParseQuoted(key, ":" + after);
    hide ParseValue, Quoted, ParseChars;
    assert Quoted(key) + ":" + text + "," + more == Quoted(key) + (":" + after);
    assert (":" + after)[1..] == after && ("," + more)[1..] == more;
  }

  /** A non-empty member list, up to and including the closing brace. */
  lemma {:induction false} ParseEntries(less: (string, string) -> bool, j: Json, ms: seq<Member>, rest: string)
    requires StrictTotal(less) && ms != [] && forall m :: m in ms ==> WellFormed(m.value) && m.value < j
    ensures ParseMembers(CommaJoined(EntryTexts(Entries(less, ms))) + "}" + rest) == Some((MemberMap(ms), rest))
    ensures var t := CommaJoined(EntryTexts(Entries(less, ms))); t != "" && t[0] != '}'
    decreases j, 0, |ms|
  {
    hide ParseValue, ParseMembers, Canonical, Meaning, WellFormed, StrictTotal, Escaped;
    var m := ms[0];
    assert m in ms;
    var text := Canonical(less, m.value);
    var own := Quoted(m.key) + ":" + text;
    assert own[0] == '\"';
    if |ms| == 1 {
      assert ms[1..] == [];
      ParseCanonical(less, m.value, "}" + rest);
      MembersLast(m.key, Meaning(m.value), text, rest);
      assert CommaJoined(EntryTexts(Entries(less, ms))) == own;
      assert MemberMap(ms) == map[m.key := Meaning(m.value)];
    } else {
      var more := CommaJoined(EntryTexts(Entries(less, ms[1..])));
      assert EntryTexts(Entries(less, ms))[1..] == EntryTexts(Entries(less, ms[1..]));
      assert CommaJoined(EntryTexts(Entries(less, ms))) == own + "," + more;
      ParseEntries(less, j, ms[1..], rest);
      ParseCanonical(less, m.value, "," + (more + "}" + rest));
      MembersMore(m.key, Meaning(m.value), text, more + "}" + rest, MemberMap(ms[1..]), rest);
      assert own + "," + more + "}" + rest == Quoted(m.key) + ":" + text + "," + (more + "}" + rest);
    }
  }

  function MemberLess(less: (string, string) -> bool): (Member, Member) -> bool {
    (a: Member, b: Member) => less(a.key, b.key)
  }

  /** An array's text from its items' text. */
  lemma ArrayOf(items: seq<Datum>, inner: string, rest: string)
    requires inner != "" && inner[0] != ']'
    requires ParseItems(inner + "]" + rest) == Some((items, rest))
    ensures ParseValue("[" + inner + "]" + rest) == Some((ArrValue(items), rest))
  {
    hide ParseItems;
    var s := "[" + inner + "]" + rest;
    assert s[1..] == inner + "]" + rest && s[0] == '[' && s[1] == inner[0];
  }

  lemma ObjectOf(members: map<string, Datum>, inner: string, rest: string)
    requires inner != "" && inner[0] != '}'
    requires ParseMembers(inner + "}" + rest) == Some((members, rest))
    ensures ParseValue("{" + inner + "}" + rest) == Some((ObjValue(members), rest))
  {
    hide ParseMembers;
    var s := "{" + inner + "}" + rest;
    assert s[1..] == inner + "}" + rest && s[0] == '{' && s[1] == inner[0];
  }

  lemma EmptyOnes(less: (string, string) -> bool, rest: string)
    ensures ParseValue(Canonical(less, Arr([])) + rest) == Some((Meaning(Arr([])), rest))
    ensures ParseValue(Canonical(less, Obj([])) + rest) == Some((Meaning(Obj([])), rest))
  {
    var a, o := "[]" + rest, "{}" + rest;
    assert a[2..] == rest && o[2..] == rest && a[0] == '[' && o[0] == '{';
    assert Canonicals(less, []) == [] && Entries(less, []) == [] && Meanings([]) == [];
    assert EntryTexts(Sort(Entries(less, []), KeyLess(less))) == [];
    assert Canonical(less, Arr([])) == "[]" && Canonical(less, Obj([])) == "{}";
  }

  /** The entries in key order, non-empty, with the map they stand for. */
  lemma ParseSorted(less: (string, string) -> bool, ms: seq<Member>, rest: string)
    requires StrictTotal(less) && WellFormed(Obj(ms)) && ms != []
    ensures var inner := CommaJoined(EntryTexts(Sort(Entries(less, ms), KeyLess(less))));
      inner != "" && inner[0] != '}' && ParseMembers(inner + "}" + rest) == Some((MemberMap(ms), rest))
    decreases Obj(ms), 1
  {
    var sorted := Sort(ms, MemberLess(less));
    SortEntries(less, ms, MemberLess(less));
    SortMembers(ms, MemberLess(less));
    assert forall m :: m in ms ==> WellFormed(m.value) && m.value < Obj(ms);
    hide ParseMembers, CommaJoined, EntryTexts, Entries, StrictTotal, MemberMap, Sort, WellFormed, Insert;
    ParseEntries(less, Obj(ms), sorted, rest);
    SameMembersSameMap(ms, sorted);
  }

  lemma NumberValue(n: int, rest: string)
    requires Ends(rest)
    ensures ParseValue(NumberText(n) + rest) == Some((NumValue(n), rest))
  {
    ParseNumberText(n, rest);
    hide ParseNumber, NumberText;
  }

  lemma StringValue(t: string, rest: string)
    ensures ParseValue(Quoted(t) + rest) == Some((StrValue(t), rest))
  {
    ParseQuoted(t, rest);
    hide ParseChars, Quoted;
  }

  lemma WordValue(less: (string, string) -> bool, j: Json, rest: string)
    requires j.Null? || j.Bool?
    ensures ParseValue(Canonical(less, j) + rest) == Some((Meaning(j), rest))
  {
    var word := Canonical(less, j);
    var s := word + rest;
    assert s[|word|..] == rest && s[..|word|] == word && s[0] == word[0];
    assert Starts(s, word);
  }

  /** The parser undoes the text of a value, whatever follows it. */
  lemma {:induction false} ParseCanonical(less: (string, string) -> bool, j: Json, rest: string)
    requires StrictTotal(less) && WellFormed(j) && Ends(rest)
    ensures ParseValue(Canonical(less, j) + rest) == Some((Meaning(j), rest))
    decreases j, 2
  {
    hide ParseValue;
    match j
    case Num(n) => NumberValue(n, rest);
    case Str(t) => StringValue(t, rest);
    case Arr(items) =>
      if items == [] {
        EmptyOnes(less, rest);
      } else {
        ParseCanonicals(less, j, items, rest);
        ArrayOf(Meanings(items), CommaJoined(Canonicals(less, items)), rest);
        hide ParseItems, CommaJoined, Canonicals, Meanings;
      }
    case Obj(ms) =>
      if ms == [] {
        EmptyOnes(less, rest);
      } else {
        ParseSorted(less, ms, rest);
        ObjectOf(MemberMap(ms), CommaJoined(EntryTexts(Sort(Entries(less, ms), KeyLess(less)))), rest);
        hide ParseMembers, CommaJoined, EntryTexts, Entries, Sort, MemberMap;
      }
    case _ => WordValue(less, j, rest);
  }

  // ----- the text and the value determine each other -----

  lemma {:induction false} EntryAt(less: (string, string) -> bool, ms: seq<Member>, i: nat)
    requires i < |ms|
    ensures Entries(less, ms)[i] == (ms[i].key, Canonical(less, ms[i].value))
    decreases |ms|
  {
    hide Canonical;
    if i > 0 { EntryAt(less, ms[1..], i - 1); }
  }

  lemma OrderOfKeys(less: (string, string) -> bool)
    requires StrictTotal(less)
    ensures StrictWeak(MemberLess(less))
    ensures forall x, y :: KeyLess(less)(x, y) ==> !KeyLess(less)(y, x)
  {
    forall a: Member, b: Member, c: Member | less(a.key, c.key) ensures less(a.key, b.key) || less(b.key, c.key) {
      assert a.key == b.key || less(a.key, b.key) || less(b.key, a.key);
    }
    forall x: (string, string), y: (string, string) | less(x.0, y.0) ensures !less(y.0, x.0) {}
  }

  function Anyhow(): (Member, Member) -> bool {
    (a: Member, b: Member) => true
  }

  /** Members with distinct keys sort into strictly increasing key order. */
  lemma MembersSorted(less: (string, string) -> bool, ms: seq<Member>)
    requires StrictTotal(less) && DistinctMembers(ms)
    ensures StrictlySorted(Sort(ms, MemberLess(less)), MemberLess(less))
  {
    hide StrictWeak, StrictTotal, Sort, Ordered;
    var sorted := Sort(ms, MemberLess(less));
    OrderOfKeys(less);
    SortStable(ms, MemberLess(less), Anyhow());
    DistinctPermuted(ms, sorted);
    OrderedKeys(less, sorted);
  }

  lemma OrderedKeys(less: (string, string) -> bool, sorted: seq<Member>)
    requires StrictTotal(less) && DistinctMembers(sorted) && Ordered(sorted, MemberLess(less), Anyhow())
    ensures StrictlySorted(sorted, MemberLess(less))
  {
    forall i, k | 0 <= i < k < |sorted| ensures MemberLess(less)(sorted[i], sorted[k]) {
      assert Before(MemberLess(less), Anyhow(), sorted[i], sorted[k]);
      assert sorted[i].key != sorted[k].key;
    }
  }

  /** So do their entries. */
  lemma EntriesSorted(less: (string, string) -> bool, ms: seq<Member>)
    requires StrictTotal(less) && DistinctMembers(ms)
    ensures StrictlySorted(Sort(Entries(less, ms), KeyLess(less)), KeyLess(less))
  {
    var sorted := Sort(ms, MemberLess(less));
    MembersSorted(less, ms);
    SortEntries(less, ms, MemberLess(less));
    hide Sort, Entries, StrictTotal;
    forall i, k | 0 <= i < k < |sorted| ensures KeyLess(less)(Entries(less, sorted)[i], Entries(less, sorted)[k]) {
      EntryAt(less, sorted, i);
      EntryAt(less, sorted, k);
      assert MemberLess(less)(sorted[i], sorted[k]);
    }
  }

  /** Two member sequences that stand for the same map, value texts agreeing key by key, have the same entries. */
  lemma SameEntries(less: (string, string) -> bool, a: seq<Member>, b: seq<Member>)
    requires DistinctMembers(a) && DistinctMembers(b) && MemberMap(a).Keys == MemberMap(b).Keys
    requires forall m, n :: m in a && n in b && m.key == n.key ==> Canonical(less, m.value) == Canonical(less, n.value)
    ensures forall e :: e in Entries(less, a) ==> e in Entries(less, b)
  {
    MemberMapHas(a);
    MemberMapHas(b);
    hide Entries, Canonical, MemberMap;
    forall e | e in Entries(less, a) ensures e in Entries(less, b) {
      var i :| 0 <= i < |a| && Entries(less, a)[i] == e;
      EntryAt(less, a, i);
      assert a[i] in a && a[i].key in MemberMap(a).Keys;
      var n :| n in b && n.key == a[i].key;
      var k :| 0 <= k < |b| && b[k] == n;
      EntryAt(less, b, k);
    }
  }

  lemma SameSorted(less: (string, string) -> bool, a: seq<Member>, b: seq<Member>)
    requires StrictTotal(less) && DistinctMembers(a) && DistinctMembers(b) && MemberMap(a).Keys == MemberMap(b).Keys
    requires forall m, n :: m in a && n in b && m.key == n.key ==> Canonical(less, m.value) == Canonical(less, n.value)
    ensures Sort(Entries(less, a), KeyLess(less)) == Sort(Entries(less, b), KeyLess(less))
  {
    hide Insert, Entries, DistinctMembers, Canonical, MemberMap, StrictTotal, StrictWeak, StrictlySorted;
    var es, fs := Entries(less, a), Entries(less, b);
    assert forall e :: e in es <==> e in fs by {
      SameEntries(less, a, b);
      SameEntries(less, b, a);
    }
    EntriesSorted(less, a);
    EntriesSorted(less, b);
    OrderOfKeys(less);
    SortedSame(es, fs, KeyLess(less));
  }

  /** The text depends on the value alone, not on the order in which members were written. */
  lemma {:induction false} MeaningFixesText(less: (string, string) -> bool, a: Json, b: Json)
    requires StrictTotal(less) && WellFormed(a) && WellFormed(b) && Meaning(a) == Meaning(b)
    ensures Canonical(less, a) == Canonical(less, b)
    decreases a, 1
  {
    match a
    case Arr(items) =>
      assert b.Arr?;
      MeaningsFixTexts(less, a, items, b.items);
    case Obj(ms) =>
      assert b.Obj?;
      var ns := b.members;
      MemberMapHas(ms);
      MemberMapHas(ns);
      forall m, n | m in ms && n in ns && m.key == n.key ensures Canonical(less, m.value) == Canonical(less, n.value) {
        assert Meaning(m.value) == Meaning(n.value);
        MeaningFixesText(less, m.value, n.value);
      }
      SameSorted(less, ms, ns);
    case _ =>
  }

  lemma {:induction false} MeaningsFixTexts(less: (string, string) -> bool, x: Json, a: seq<Json>, b: seq<Json>)
    requires StrictTotal(less) && Meanings(a) == Meanings(b)
    requires (forall i :: i in a ==> WellFormed(i) && i < x) && forall i :: i in b ==> WellFormed(i)
    ensures Canonicals(less, a) == Canonicals(less, b)
    decreases x, 0, |a|
  {
    hide Meaning, Canonical, WellFormed, StrictTotal;
    assert |a| == |Meanings(a)| == |Meanings(b)| == |b|;
    if a != [] {
      assert a[0] in a && b[0] in b;
      assert Meanings(a)[0] == Meaning(a[0]) && Meanings(b)[0] == Meaning(b[0]);
      assert Meanings(a)[1..] == Meanings(a[1..]) && Meanings(b)[1..] == Meanings(b[1..]);
      MeaningFixesText(less, a[0], b[0]);
      MeaningsFixTexts(less, x, a[1..], b[1..]);
    }
  }

  /** Canonical text: two values have the same text exactly when they are the same JSON value. */
  lemma TextDeterminesValue(less: (string, string) -> bool, a: Json, b: Json)
    requires StrictTotal(less) && WellFormed(a) && WellFormed(b)
    ensures Canonical(less, a) == Canonical(less, b) <==> Meaning(a) == Meaning(b)
  {
    hide ParseValue, Canonical, Meaning, WellFormed, StrictTotal;
    if Canonical(less, a) == Canonical(less, b) {
      ParseCanonical(less, a, "");
      ParseCanonical(less, b, "");
    }
    if Meaning(a) == Meaning(b) { MeaningFixesText(less, a, b); }
  }
}
