/** UTF-8 (RFC 3629) of Unicode scalar values, and the percent encoding of `encodeURIComponent` on top of it. */
module Utf8 {
  import opened Wrappers
  import opened Text

  type Byte = n: int | 0 <= n < 256

  function CharBytes(c: char): (r: seq<Byte>)
    ensures 1 <= |r| <= 4
  {
    var n := c as int;
    if n < 0x80 then [n]
    else if n < 0x800 then [0xC0 + n / 64, 0x80 + n % 64]
    else if n < 0x1_0000 then [0xE0 + n / 4096, 0x80 + n / 64 % 64, 0x80 + n % 64]
    else [0xF0 + n / 262144, 0x80 + n / 4096 % 64, 0x80 + n / 64 % 64, 0x80 + n % 64]
  }

  function Bytes(s: string): seq<Byte> {
    if s == "" then [] else CharBytes(s[0]) + Bytes(s[1..])
  }

  /** How many bytes a character takes, by its first one. */
  function Width(first: Byte): nat {
    if first < 0x80 then 1 else if first < 0xE0 then 2 else if first < 0xF0 then 3 else 4
  }

  function Code(b: seq<Byte>): int
    requires b != [] && |b| == Width(b[0])
  {
    match |b|
    case 1 => b[0]
    case 2 => (b[0] as int - 0xC0) * 64 + (b[1] as int - 0x80)
    case 3 => (b[0] as int - 0xE0) * 4096 + (b[1] as int - 0x80) * 64 + (b[2] as int - 0x80)
    case _ => (b[0] as int - 0xF0) * 262144 + (b[1] as int - 0x80) * 4096 + (b[2] as int - 0x80) * 64 + (b[3] as int - 0x80)
  }

  predicate IsScalar(n: int) {
    0 <= n < 0xD800 || 0xE000 <= n < 0x11_0000
  }

  function FromBytes(b: seq<Byte>): Option<string>
    decreases |b|
  {
    if b == [] then Some("")
    else
      var w := Width(b[0]);
      if |b| < w || !IsScalar(Code(b[..w])) then None
      else
        var rest := FromBytes(b[w..]);
        if rest.None? then None else Some([Code(b[..w]) as char] + rest.value)
  }

  lemma CharRoundTrip(c: char)
    ensures var b := CharBytes(c); |b| == Width(b[0]) && Code(b) == c as int
  {
    var n := c as int;
    if n >= 0x1_0000 {
      assert n / 4096 / 64 == n / 262144 && n / 64 / 64 == n / 4096;
    } else if n >= 0x800 {
      assert n / 64 / 64 == n / 4096;
    }
  }

  /** Decoding undoes encoding. */
  lemma {:induction false} BytesRoundTrip(s: string)
    ensures FromBytes(Bytes(s)) == Some(s)
  {
    if s != "" {
      var b := CharBytes(s[0]);
      CharRoundTrip(s[0]);
      hide CharBytes, Code, Width;
      assert Bytes(s)[..|b|] == b && Bytes(s)[|b|..] == Bytes(s[1..]) && Bytes(s)[0] == b[0];
      BytesRoundTrip(s[1..]);
      assert s == [s[0]] + s[1..];
    }
  }

  // ----- percent encoding -----

  predicate Unreserved(c: char) {
    'A' <= c <= 'Z' || 'a' <= c <= 'z' || IsDigit(c) || c in "-_.!~*'()"
  }

  function HexChar(d: int): char
    requires 0 <= d < 16
  {
    if d < 10 then ('0' as int + d) as char else ('A' as int + d - 10) as char
  }

  function HexOf(c: char): Option<nat> {
    if IsDigit(c) then Some(c as int - '0' as int) else if 'A' <= c <= 'F' then Some(c as int - 'A' as int + 10) else None
  }

  function Percent(bytes: seq<Byte>): string {
    if bytes == [] then "" else ['%', HexChar(bytes[0] / 16), HexChar(bytes[0] % 16)] + Percent(bytes[1..])
  }

  function EncodeChar(c: char): string {
    if Unreserved(c) then [c] else Percent(CharBytes(c))
  }

  /** `encodeURIComponent`. */
  function EncodeComponent(s: string): string {
    if s == "" then "" else EncodeChar(s[0]) + EncodeComponent(s[1..])
  }

  function Unpercent(t: string): Option<seq<Byte>>
    decreases |t|
  {
    if t == "" then Some([])
    else if t[0] == '%' then
      if |t| < 3 || HexOf(t[1]).None? || HexOf(t[2]).None? then None
      else
        var rest := Unpercent(t[3..]);
        if rest.None? then None else Some([16 * HexOf(t[1]).value + HexOf(t[2]).value] + rest.value)
    else if t[0] as int >= 0x80 then None
    else
      var rest := Unpercent(t[1..]);
      if rest.None? then None else Some([t[0] as int] + rest.value)
  }

  lemma UnpercentOne(byte: Byte, tail: string, rest: seq<Byte>)
    requires Unpercent(tail) == Some(rest)
    ensures Unpercent(['%', HexChar(byte / 16), HexChar(byte % 16)] + tail) == Some([byte] + rest)
  {
    var t := ['%', HexChar(byte / 16), HexChar(byte % 16)] + tail;
    assert t[3..] == tail;
    assert HexOf(t[1]) == Some(byte / 16) && HexOf(t[2]) == Some(byte % 16);
  }

  lemma {:induction false} UnpercentRun(bytes: seq<Byte>, tail: string, rest: seq<Byte>)
    requires Unpercent(tail) == Some(rest)
    ensures Unpercent(Percent(bytes) + tail) == Some(bytes + rest)
  {
    hide Unpercent, HexChar;
    if bytes == [] {
      assert Percent(bytes) + tail == tail && bytes + rest == rest;
    } else {
      UnpercentRun(bytes[1..], tail, rest);
      UnpercentOne(bytes[0], Percent(bytes[1..]) + tail, bytes[1..] + rest);
      assert Percent(bytes) + tail == ['%', HexChar(bytes[0] / 16), HexChar(bytes[0] % 16)] + (Percent(bytes[1..]) + tail);
      assert [bytes[0]] + (bytes[1..] + rest) == bytes + rest;
    }
  }

  lemma UnpercentPlain(c: char, tail: string)
    requires Unreserved(c) && Unpercent(tail).Some?
    ensures Unpercent([c] + tail) == Some(CharBytes(c) + Unpercent(tail).value)
  {
    assert ([c] + tail)[1..] == tail;
    assert c as int < 0x80 && CharBytes(c) == [c as int];
  }

  lemma {:induction false} UnpercentComponent(s: string)
    ensures Unpercent(EncodeComponent(s)) == Some(Bytes(s))
  {
    if s != "" {
      UnpercentComponent(s[1..]);
      if Unreserved(s[0]) {
        UnpercentPlain(s[0], EncodeComponent(s[1..]));
      } else {
        UnpercentRun(CharBytes(s[0]), EncodeComponent(s[1..]), Bytes(s[1..]));
        hide Unpercent, CharBytes, Percent;
      }
    }
  }

  /** The characters RFC 2396 leaves unescaped. */
  ghost predicate Plain(c: char) {
    || 'a' <= c <= 'z' || 'A' <= c <= 'Z' || '0' <= c <= '9'
    || c == '-' || c == '_' || c == '.' || c == '!' || c == '~' || c == '*' || c == '\'' || c == '(' || c == ')'
  }

  lemma {:induction false} PercentIsEscaped(bytes: seq<Byte>)
    ensures |Percent(bytes)| == 3 * |bytes|
    ensures forall i :: 0 <= i < |bytes| ==> Percent(bytes)[3 * i] == '%'
  {
    if bytes != [] {
      PercentIsEscaped(bytes[1..]);
      forall i | 0 < i < |bytes| ensures Percent(bytes)[3 * i] == '%' { assert Percent(bytes)[3 * i] == Percent(bytes[1..])[3 * (i - 1)]; }
    }
  }

  /** Every character stays as it is when it is plain and becomes the escapes of its bytes otherwise. */
  lemma EscapesExactly(c: char, rest: string)
    ensures Plain(c) ==> EncodeComponent([c] + rest) == [c] + EncodeComponent(rest)
    ensures !Plain(c) ==> exists t :: EncodeComponent([c] + rest) == t + EncodeComponent(rest) && Escapes(t, CharBytes(c))
  {
    hide EncodeComponent, CharBytes;
    if !Plain(c) {
      PercentIsEscaped(CharBytes(c));
      PercentReads(CharBytes(c));
      hide Percent, Unpercent;
      EncodesFirst(c, rest);
      assert Escapes(Percent(CharBytes(c)), CharBytes(c));
    } else {
      EncodesFirst(c, rest);
    }
  }

  lemma EncodesFirst(c: char, rest: string)
    ensures EncodeComponent([c] + rest) == (if Plain(c) then [c] else Percent(CharBytes(c))) + EncodeComponent(rest)
  {
    assert ([c] + rest)[1..] == rest;
    hide Percent, CharBytes;
  }

  /** One escape for each byte, which reads back as the byte. */
  ghost predicate Escapes(t: string, bytes: seq<Byte>) {
    |t| == 3 * |bytes| && (forall i :: 0 <= i < |bytes| ==> t[3 * i] == '%') && Unpercent(t) == Some(bytes)
  }

  lemma PercentReads(bytes: seq<Byte>)
    ensures Unpercent(Percent(bytes)) == Some(bytes)
  {
    UnpercentRun(bytes, "", []);
    assert Percent(bytes) + "" == Percent(bytes) && bytes + [] == bytes;
  }

  lemma {:induction false} PercentHasNoSlash(bytes: seq<Byte>)
    ensures '/' !in Percent(bytes)
  {
    if bytes != [] { PercentHasNoSlash(bytes[1..]); }
  }

  lemma {:induction false} ComponentHasNoSlash(s: string)
    ensures '/' !in EncodeComponent(s)
  {
    if s != "" {
      PercentHasNoSlash(CharBytes(s[0]));
      ComponentHasNoSlash(s[1..]);
    }
  }

  /** An encoded component determines the string it came from. */
  lemma ComponentInjective(a: string, b: string)
    requires EncodeComponent(a) == EncodeComponent(b)
    ensures a == b
  {
    UnpercentComponent(a);
    UnpercentComponent(b);
    BytesRoundTrip(a);
    BytesRoundTrip(b);
  }
}
