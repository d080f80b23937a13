/**
  Versions as Semantic Versioning 2.0.0 writes and orders them: a parser for the descriptor schema's pattern, and the
  comparison with its length-then-ASCII rule, which agrees with the precedence of section 11.
 */
module SemanticVersion {
  import opened Wrappers
  import opened Text

  const MAX_SAFE: int := 9007199254740991
  const MAX_LENGTH := 256

  datatype Version = Version(core: seq<nat>, prerelease: seq<string>)

  // ----- the pattern -----

  predicate IsIdentifierChar(c: char) {
    IsDigit(c) || 'A' <= c <= 'Z' || 'a' <= c <= 'z' || c == '-'
  }

  predicate IsIdentifier(s: string) {
    s != "" && forall i :: 0 <= i < |s| ==> IsIdentifierChar(s[i])
  }

  /** A prerelease identifier: when all digits, without a leading zero. */
  predicate IsPrerelease(s: string) {
    IsIdentifier(s) && (AllDigits(s) ==> IsNumeral(s))
  }

  predicate AllIdentifiers(parts: seq<string>) {
    forall i :: 0 <= i < |parts| ==> IsIdentifier(parts[i])
  }

  predicate AllPrerelease(parts: seq<string>) {
    forall i :: 0 <= i < |parts| ==> IsPrerelease(parts[i])
  }

  predicate AllNumerals(parts: seq<string>) {
    forall i :: 0 <= i < |parts| ==> IsNumeral(parts[i])
  }

  function Joined(parts: seq<string>, separator: char): string {
    if parts == [] then "" else if |parts| == 1 then parts[0] else parts[0] + [separator] + Joined(parts[1..], separator)
  }

  function Listed(parts: seq<string>): Option<string> {
    if parts == [] then None else Some(Joined(parts, '.'))
  }

  /** The text of a core, a prerelease (none if empty) and a build (none if empty). */
  function Spelled(core: seq<string>, prerelease: seq<string>, build: seq<string>): string {
    Joined(core, '.') + Ending('-', Listed(prerelease)) + Ending('+', Listed(build))
  }

  ghost predicate DigitText(s: string) {
    forall i :: 0 <= i < |s| ==> '0' <= s[i] <= '9'
  }

  /** `0`, or digits that do not start with one. */
  ghost predicate NumeralText(s: string) {
    s == "0" || (|s| > 0 && '1' <= s[0] <= '9' && DigitText(s))
  }

  ghost predicate IdentifierText(s: string) {
    |s| > 0 && forall i :: 0 <= i < |s| ==> '0' <= s[i] <= '9' || 'A' <= s[i] <= 'Z' || 'a' <= s[i] <= 'z' || s[i] == '-'
  }

  /** An identifier, and a numeral when it is all digits. */
  ghost predicate PrereleaseText(s: string) {
    IdentifierText(s) && (DigitText(s) ==> NumeralText(s))
  }

  /** The pattern, as a grammar: three numerals, then prerelease identifiers after a hyphen, then build identifiers after a plus. */
  ghost predicate Matches(text: string, core: seq<string>, prerelease: seq<string>, build: seq<string>) {
    && |core| == 3 && (forall i :: 0 <= i < |core| ==> NumeralText(core[i]))
    && (forall i :: 0 <= i < |prerelease| ==> PrereleaseText(prerelease[i]))
    && (forall i :: 0 <= i < |build| ==> IdentifierText(build[i]))
    && text == core[0] + "." + core[1] + "." + core[2] + Tail('-', prerelease) + Tail('+', build)
  }

  /** A mark and the identifiers with dots between them; nothing when there are none. */
  ghost function Tail(mark: char, parts: seq<string>): string {
    if parts == [] then "" else [mark] + Dotted(parts)
  }

  ghost function Dotted(parts: seq<string>): string
    requires parts != []
  {
    if |parts| == 1 then parts[0] else Dotted(parts[..|parts| - 1]) + "." + parts[|parts| - 1]
  }

  lemma NumeralsAgree(s: string)
    ensures IsNumeral(s) <==> NumeralText(s)
  {
  }

  lemma IdentifiersText(s: string)
    ensures IsIdentifier(s) <==> IdentifierText(s)
    ensures IsPrerelease(s) <==> PrereleaseText(s)
  {
    NumeralsAgree(s);
  }

  lemma {:induction false} DottedIs(parts: seq<string>)
    requires parts != []
    ensures Dotted(parts) == Joined(parts, '.')
  {
    if |parts| > 1 {
      DottedIs(parts[..|parts| - 1]);
      JoinedLast(parts[..|parts| - 1], parts[|parts| - 1]);
      assert parts == parts[..|parts| - 1] + [parts[|parts| - 1]];
    }
  }

  lemma {:induction false} JoinedLast(parts: seq<string>, last: string)
    requires parts != []
    ensures Joined(parts + [last], '.') == Joined(parts, '.') + "." + last
  {
    if |parts| > 1 {
      assert (parts + [last])[1..] == parts[1..] + [last];
      JoinedLast(parts[1..], last);
    } else {
      assert (parts + [last])[1..] == [last];
    }
  }

  /** The grammar is what the parser's checks and spelling say. */
  lemma MatchesAgree(text: string, core: seq<string>, prerelease: seq<string>, build: seq<string>)
    ensures Matches(text, core, prerelease, build) <==>
      |core| == 3 && AllNumerals(core) && AllPrerelease(prerelease) && AllIdentifiers(build) && text == Spelled(core, prerelease, build)
  {
    hide IsNumeral, IsPrerelease, IsIdentifier, NumeralText, PrereleaseText, IdentifierText;
    forall s ensures IsNumeral(s) <==> NumeralText(s) { NumeralsAgree(s); }
    forall s ensures (IsIdentifier(s) <==> IdentifierText(s)) && (IsPrerelease(s) <==> PrereleaseText(s)) { IdentifiersText(s); }
    if |core| == 3 { CoreText(core); }
    TailIs('-', prerelease);
    TailIs('+', build);
    hide Joined, Tail, Ending, Listed;
  }

  lemma CoreText(core: seq<string>)
    requires |core| == 3
    ensures Joined(core, '.') == core[0] + "." + core[1] + "." + core[2]
  {
    assert core == [core[0], core[1], core[2]];
    JoinedLast([core[0], core[1]], core[2]);
    JoinedLast([core[0]], core[1]);
    assert [core[0]] + [core[1]] == [core[0], core[1]] && [core[0], core[1]] + [core[2]] == core;
  }

  lemma TailIs(mark: char, parts: seq<string>)
    ensures Tail(mark, parts) == Ending(mark, Listed(parts))
  {
    if parts != [] { DottedIs(parts); }
  }

  // ----- the parser -----

  /** How many characters come before the first `c`. */
  function Until(s: string, c: char): (n: nat)
    ensures n <= |s| && c !in s[..n] && (n < |s| ==> s[n] == c)
  {
    if s == "" || s[0] == c then 0
    else
      var n := Until(s[1..], c);
      assert s[..n + 1] == [s[0]] + s[1..][..n];
      n + 1
  }

  function Split(s: string, c: char): (r: seq<string>)
    ensures r != []
    decreases |s|
  {
    var n := Until(s, c);
    if n == |s| then [s] else [s[..n]] + Split(s[n + 1..], c)
  }

  function Pieces(text: string): (string, Option<string>, Option<string>) {
    var (rest, build) := Cut(text, '+');
    var (front, pre) := Cut(rest, '-');
    (front, pre, build)
  }

  function Values(parts: seq<string>): (r: seq<nat>)
    requires AllNumerals(parts)
    ensures |r| == |parts|
    ensures forall i :: 0 <= i < |parts| ==> r[i] == Value(parts[i])
  {
    if parts == [] then [] else [Value(parts[0])] + Values(parts[1..])
  }

  function ParseVersion(text: string): Option<Version> {
    var (front, pre, build) := Pieces(text);
    var core := Split(front, '.');
    var prerelease := if pre.None? then [] else Split(pre.value, '.');
    if |text| > MAX_LENGTH || |core| != 3 || !AllNumerals(core) || !AllPrerelease(prerelease) then None
    else if build.Some? && !AllIdentifiers(Split(build.value, '.')) then None
    else if exists i :: 0 <= i < 3 && Values(core)[i] > MAX_SAFE then None
    else Some(Version(Values(core), prerelease))
  }

  // ----- the parser reads exactly the pattern -----

  lemma {:induction false} UntilOf(a: string, b: string, c: char)
    requires c !in a && (b == "" || b[0] == c)
    ensures Until(a + b, c) == |a|
  {
    if a == "" {
      assert a + b == b;
    } else {
      assert (a + b)[1..] == a[1..] + b;
      UntilOf(a[1..], b, c);
    }
  }

  lemma SplitStep(first: string, rest: string, c: char)
    requires c !in first
    ensures Split(first + [c] + rest, c) == [first] + Split(rest, c)
  {
    var s := first + [c] + rest;
    assert s == first + ([c] + rest);
    UntilOf(first, [c] + rest, c);
    hide Until;
    assert s[..|first|] == first && s[|first| + 1..] == rest;
  }

  lemma {:induction false} SplitJoined(parts: seq<string>, c: char)
    requires parts != [] && forall i :: 0 <= i < |parts| ==> c !in parts[i]
    ensures Split(Joined(parts, c), c) == parts
    decreases |parts|
  {
    if |parts| == 1 {
      UntilOf(parts[0], "", c);
      assert parts[0] + "" == parts[0];
    } else {
      SplitJoined(parts[1..], c);
      hide Split;
      SplitStep(parts[0], Joined(parts[1..], c), c);
    }
  }

  lemma {:induction false} JoinedSplit(s: string, c: char)
    ensures Joined(Split(s, c), c) == s
    decreases |s|
  {
    var n := Until(s, c);
    if n < |s| {
      JoinedSplit(s[n + 1..], c);
      JoinedStep(s[..n], Split(s[n + 1..], c), c);
      RejoinAt(s, n);
      hide Joined;
    }
  }

  lemma RejoinAt(s: string, n: nat)
    requires n < |s|
    ensures s == s[..n] + [s[n]] + s[n + 1..]
  {
  }

  lemma JoinedStep(first: string, rest: seq<string>, c: char)
    requires rest != []
    ensures Joined([first] + rest, c) == first + [c] + Joined(rest, c)
  {
    assert ([first] + rest)[1..] == rest;
  }

  lemma {:induction false} JoinedWithout(parts: seq<string>, separator: char, c: char)
    requires c != separator && forall i :: 0 <= i < |parts| ==> c !in parts[i]
    ensures c !in Joined(parts, separator)
    decreases |parts|
  {
    if |parts| > 1 { JoinedWithout(parts[1..], separator, c); }
  }

  /** A text cut at its first `c`: what comes before, and what comes after if there is a `c`. */
  function Cut(text: string, c: char): (string, Option<string>) {
    var n := Until(text, c);
    (text[..n], if n == |text| then None else Some(text[n + 1..]))
  }

  function Ending(c: char, tail: Option<string>): string {
    if tail.None? then "" else [c] + tail.value
  }

  lemma CutOf(front: string, c: char, tail: Option<string>)
    requires c !in front
    ensures Cut(front + Ending(c, tail), c) == (front, tail)
  {
    var s := front + Ending(c, tail);
    UntilOf(front, Ending(c, tail), c);
    hide Until;
    assert s[..|front|] == front;
    assert tail.Some? ==> s[|front| + 1..] == tail.value;
  }

  lemma CutRejoins(text: string, c: char)
    ensures text == Cut(text, c).0 + Ending(c, Cut(text, c).1)
  {
    var n := Until(text, c);
    assert n < |text| ==> text == text[..n] + ([c] + text[n + 1..]);
  }

  lemma PiecesOf(front: string, pre: Option<string>, build: Option<string>)
    requires '-' !in front && '+' !in front && (pre.Some? ==> '+' !in pre.value)
    ensures Pieces(front + Ending('-', pre) + Ending('+', build)) == (front, pre, build)
  {
    CutOf(front + Ending('-', pre), '+', build);
    CutOf(front, '-', pre);
    hide Cut;
  }

  /** What the pattern matches, the parser reads as it is spelled, within the length and safe-integer bounds. */
  lemma ParsesSpelled(text: string, core: seq<string>, prerelease: seq<string>, build: seq<string>)
    requires Matches(text, core, prerelease, build)
    ensures AllNumerals(core)
    ensures ParseVersion(text) ==
      if |text| <= 256 && forall i :: 0 <= i < 3 ==> Value(core[i]) < 0x20_0000_0000_0000 then Some(Version(Values(core), prerelease)) else None
  {
    MatchesAgree(text, core, prerelease, build);
    hide Matches;
    JoinedWithout(core, '.', '-');
    JoinedWithout(core, '.', '+');
    JoinedWithout(prerelease, '.', '+');
    PiecesOf(Joined(core, '.'), Listed(prerelease), Listed(build));
    SplitJoined(core, '.');
    if prerelease != [] { SplitJoined(prerelease, '.'); }
    if build != [] { SplitJoined(build, '.'); }
    hide Joined, Pieces, Split, Value, IsPrerelease, IsNumeral, IsIdentifier, Ending;
  }

  /** Whatever the parser accepts, the pattern matches. */
  lemma ParsedMatches(text: string) returns (core: seq<string>, build: seq<string>)
    requires ParseVersion(text).Some?
    ensures Matches(text, core, ParseVersion(text).value.prerelease, build) && Values(core) == ParseVersion(text).value.core
  {
    var (front, pre, tail) := Pieces(text);
    core := Split(front, '.');
    var prerelease := if pre.None? then [] else Split(pre.value, '.');
    build := if tail.None? then [] else Split(tail.value, '.');
    JoinedSplit(front, '.');
    if pre.Some? { JoinedSplit(pre.value, '.'); }
    if tail.Some? { JoinedSplit(tail.value, '.'); }
    PiecesRejoin(text);
    MatchesAgree(text, core, prerelease, build);
    hide Joined, Pieces, Split, Value, IsPrerelease, IsNumeral, IsIdentifier, Matches;
  }

  lemma PiecesRejoin(text: string)
    ensures var (front, pre, build) := Pieces(text); text == front + Ending('-', pre) + Ending('+', build)
  {
    CutRejoins(text, '+');
    CutRejoins(Cut(text, '+').0, '-');
    hide Cut, Ending;
  }

  // ----- the comparison -----

  /** One pair of differing identifiers. */
  function CompareIdentifiers(l: string, r: string): int {
    var leftNumeric, rightNumeric := l != "" && AllDigits(l), r != "" && AllDigits(r);
    if leftNumeric != rightNumeric then (if leftNumeric then -1 else 1)
    else if leftNumeric && |l| != |r| then (if |l| > |r| then 1 else -1)
    else if StringLess(r, l) then 1 else -1
  }

  function ComparePrereleases(a: seq<string>, b: seq<string>): int
    decreases |a| + |b|
  {
    if a == [] && b == [] then 0
    else if a == [] then -1
    else if b == [] then 1
    else if a[0] == b[0] then ComparePrereleases(a[1..], b[1..])
    else CompareIdentifiers(a[0], b[0])
  }

  function CompareCores(a: seq<nat>, b: seq<nat>): int
    requires |a| == |b|
  {
    if a == [] then 0 else if a[0] != b[0] then (if a[0] > b[0] then 1 else -1) else CompareCores(a[1..], b[1..])
  }

  function Compare(a: Version, b: Version): int
    requires |a.core| == |b.core| == 3
  {
    var core := CompareCores(a.core, b.core);
    if core != 0 then core
    else if a.prerelease == [] || b.prerelease == [] then (if a.prerelease != [] then -1 else if b.prerelease != [] then 1 else 0)
    else ComparePrereleases(a.prerelease, b.prerelease)
  }

  /** `compareVersions`. */
  function CompareVersions(left: string, right: string): Option<int> {
    var a, b := ParseVersion(left), ParseVersion(right);
    if a.None? || b.None? then None else Some(Compare(a.value, b.value))
  }

  /** The first loop. */
  method CompareCoreParts(x: seq<nat>, y: seq<nat>) returns (c: int)
    requires |x| == |y| == 3
    ensures c == CompareCores(x, y)
  {
    var i := 0;
    assert x[0..] == x && y[0..] == y;
    while i < 3
      invariant 0 <= i <= 3 && CompareCores(x, y) == CompareCores(x[i..], y[i..])
    {
      assert x[i..][1..] == x[i + 1..] && y[i..][1..] == y[i + 1..];
      if x[i] != y[i] { return if x[i] > y[i] then 1 else -1; }
      i := i + 1;
    }
    return 0;
  }

  /** The second loop. */
  method ComparePrereleaseParts(p: seq<string>, q: seq<string>) returns (c: int)
    ensures c == ComparePrereleases(p, q)
  {
    var k := 0;
    assert p[0..] == p && q[0..] == q;
    hide CompareIdentifiers;
    while k < |p| || k < |q|
      invariant k <= |p| && k <= |q| && ComparePrereleases(p, q) == ComparePrereleases(p[k..], q[k..])
      decreases |p| + |q| - k
    {
      if k >= |p| { return -1; }
      if k >= |q| { return 1; }
      assert p[k..][1..] == p[k + 1..] && q[k..][1..] == q[k + 1..];
      if p[k] != q[k] { return CompareIdentifiers(p[k], q[k]); }
      k := k + 1;
    }
    return 0;
  }

  /** The comparison as it runs, with its early returns. */
  method CompareVersionTexts(left: string, right: string) returns (c: Option<int>)
    ensures c == CompareVersions(left, right)
  {
    var a, b := ParseVersion(left), ParseVersion(right);
    if a.None? || b.None? { return None; }
    ParsedCore(left);
    ParsedCore(right);
    hide ParseVersion, CompareCores, ComparePrereleases;
    var core := CompareCoreParts(a.value.core, b.value.core);
    if core != 0 { return Some(core); }
    var p, q := a.value.prerelease, b.value.prerelease;
    if p == [] || q == [] { return Some(if p != [] then -1 else if q != [] then 1 else 0); }
    var pre := ComparePrereleaseParts(p, q);
    return Some(pre);
  }

  lemma ParsedCore(text: string)
    requires ParseVersion(text).Some?
    ensures |ParseVersion(text).value.core| == 3 && AllPrerelease(ParseVersion(text).value.prerelease)
  {
    hide Pieces, Split, IsPrerelease;
  }

  // ----- precedence as section 11 states it -----

  predicate IsNumeric(s: string) {
    s != "" && AllDigits(s)
  }

  /** Numeric identifiers compare numerically and are lower than the others, which compare in ASCII order. */
  predicate LowerIdentifier(a: string, b: string) {
    if IsNumeric(a) then (if IsNumeric(b) then Value(a) < Value(b) else true)
    else !IsNumeric(b) && StringLess(a, b)
  }

  /** The first differing identifier decides; without one, fewer identifiers are lower. */
  ghost predicate LowerPrerelease(a: seq<string>, b: seq<string>) {
    exists i :: LowerFrom(a, b, i)
  }

  ghost predicate LowerFrom(a: seq<string>, b: seq<string>, i: int) {
    0 <= i <= |a| && i < |b| && a[..i] == b[..i] && (i < |a| ==> LowerIdentifier(a[i], b[i]))
  }

  ghost predicate LowerCore(a: seq<nat>, b: seq<nat>)
    requires |a| == |b| == 3
  {
    a[0] < b[0] || (a[0] == b[0] && (a[1] < b[1] || (a[1] == b[1] && a[2] < b[2])))
  }

  /** Section 11: lower precedence. */
  ghost predicate Lower(a: Version, b: Version)
    requires |a.core| == |b.core| == 3
  {
    LowerCore(a.core, b.core)
    || (a.core == b.core && a.prerelease != [] && (b.prerelease == [] || LowerPrerelease(a.prerelease, b.prerelease)))
  }

  // ----- length, then ASCII, is numeric order -----

  function Pow10(n: nat): (r: nat)
    ensures r >= 1
  {
    if n == 0 then 1 else 10 * Pow10(n - 1)
  }

  lemma TenTimes(d: nat, p: nat, rest: nat, last: nat)
    ensures 10 * (d * p + rest) + last == d * (10 * p) + (10 * rest + last)
  {
  }

  lemma {:induction false} ValueFromHead(s: string)
    requires s != "" && AllDigits(s)
    ensures Value(s) == DigitValue(s[0]) * Pow10(|s| - 1) + Value(s[1..])
  {
    var n := |s| - 1;
    if n == 0 {
      assert s[..0] == "" && s[1..] == "";
    } else {
      ValueFromHead(s[..n]);
      assert s[..n][1..] == s[1..][..n - 1] && s[1..][n - 1] == s[n] && s[..n][0] == s[0];
      TenTimes(DigitValue(s[0]), Pow10(n - 1), Value(s[1..][..n - 1]), DigitValue(s[n]));
      assert Value(s) == 10 * Value(s[..n]) + DigitValue(s[n]);
      assert Value(s[1..]) == 10 * Value(s[1..][..n - 1]) + DigitValue(s[n]);
      assert Pow10(n) == 10 * Pow10(n - 1);
      hide Value, Pow10;
    }
  }

  lemma {:induction false} ValueBelow(s: string)
    requires AllDigits(s)
    ensures Value(s) < Pow10(|s|)
  {
    if s != "" { ValueBelow(s[..|s| - 1]); }
  }

  lemma AtLeastOnce(d: nat, p: nat)
    requires d >= 1
    ensures d * p >= p
  {
  }

  lemma ValueAtLeast(s: string)
    requires IsNumeral(s) && |s| > 1
    ensures Value(s) >= Pow10(|s| - 1)
  {
    ValueFromHead(s);
    AtLeastOnce(DigitValue(s[0]), Pow10(|s| - 1));
    hide Value, Pow10;
  }

  lemma {:induction false} Pow10Grows(m: nat, n: nat)
    requires m <= n
    ensures Pow10(m) <= Pow10(n)
  {
    if m < n { Pow10Grows(m, n - 1); }
  }

  lemma ShorterIsLess(a: string, b: string)
    requires IsNumeral(a) && IsNumeral(b) && |a| < |b|
    ensures Value(a) < Value(b)
  {
    ValueBelow(a);
    ValueAtLeast(b);
    Pow10Grows(|a|, |b| - 1);
  }

  lemma HigherDigit(d: nat, e: nat, p: nat, rest: nat)
    requires d < e && rest < p
    ensures d * p + rest < e * p
  {
    assert (d + 1) * p == d * p + p;
    assert (d + 1) * p <= e * p;
  }

  lemma HeadDecides(a: string, b: string)
    requires a != "" && |a| == |b| && AllDigits(a) && AllDigits(b) && a[0] < b[0]
    ensures Value(a) < Value(b)
  {
    hide Value, Pow10;
    ValueFromHead(a);
    ValueFromHead(b);
    ValueBelow(a[1..]);
    HigherDigit(DigitValue(a[0]), DigitValue(b[0]), Pow10(|a| - 1), Value(a[1..]));
  }

  lemma {:induction false} SameLengthOrder(a: string, b: string)
    requires |a| == |b| && AllDigits(a) && AllDigits(b)
    ensures StringLess(a, b) <==> Value(a) < Value(b)
    ensures Value(a) == Value(b) ==> a == b
  {
    if a != "" {
      if a[0] < b[0] {
        HeadDecides(a, b);
      } else if b[0] < a[0] {
        HeadDecides(b, a);
      } else {
        ValueFromHead(a);
        ValueFromHead(b);
        SameLengthOrder(a[1..], b[1..]);
        assert a == [a[0]] + a[1..] && b == [b[0]] + b[1..];
      }
    }
  }

  /** Two numeric identifiers without leading zeros: length, then ASCII, is integer order. */
  lemma NumeralOrder(a: string, b: string)
    requires IsNumeral(a) && IsNumeral(b)
    ensures Value(a) < Value(b) <==> |a| < |b| || (|a| == |b| && StringLess(a, b))
    ensures Value(a) == Value(b) <==> a == b
  {
    if |a| < |b| {
      ShorterIsLess(a, b);
    } else if |b| < |a| {
      ShorterIsLess(b, a);
    } else {
      SameLengthOrder(a, b);
    }
  }

  // ----- the comparison agrees with section 11 -----

  lemma IdentifiersAgree(a: string, b: string)
    requires IsPrerelease(a) && IsPrerelease(b)
    ensures a == b ==> !LowerIdentifier(a, b)
    ensures a != b ==> (CompareIdentifiers(a, b) == -1 <==> LowerIdentifier(a, b)) && (CompareIdentifiers(a, b) == 1 <==> LowerIdentifier(b, a))
  {
    StringOrder(a, b);
    if IsNumeric(a) && IsNumeric(b) {
      NumeralOrder(a, b);
      NumeralOrder(b, a);
    }
    hide StringLess, Value, AllDigits;
  }

  lemma LowerStep(a: seq<string>, b: seq<string>)
    requires a != [] && b != [] && a[0] == b[0] && IsPrerelease(a[0])
    ensures LowerPrerelease(a, b) <==> LowerPrerelease(a[1..], b[1..])
  {
    IdentifiersAgree(a[0], b[0]);
    hide LowerIdentifier, IsPrerelease;
    forall i | 0 <= i <= |a| - 1 && i < |b| - 1 ensures LowerFrom(a, b, i + 1) <==> LowerFrom(a[1..], b[1..], i) {
      assert a[..i + 1] == [a[0]] + a[1..][..i] && b[..i + 1] == [b[0]] + b[1..][..i];
      assert a[1..][..i] == a[..i + 1][1..] && b[1..][..i] == b[..i + 1][1..];
    }
    if i :| LowerFrom(a, b, i) { assert i > 0 ==> LowerFrom(a[1..], b[1..], i - 1); }
    if i :| LowerFrom(a[1..], b[1..], i) { assert LowerFrom(a, b, i + 1); }
  }

  /** The first identifiers differ: they decide. */
  lemma LowerNow(a: seq<string>, b: seq<string>)
    requires b != [] && (a == [] || a[0] != b[0])
    ensures LowerPrerelease(a, b) <==> a == [] || LowerIdentifier(a[0], b[0])
  {
    hide LowerIdentifier;
    if a == [] || LowerIdentifier(a[0], b[0]) { assert LowerFrom(a, b, 0); }
    FirstOfPrefix(a, b);
  }

  lemma FirstOfPrefix(a: seq<string>, b: seq<string>)
    ensures forall i :: 0 < i <= |a| && i <= |b| && a[..i] == b[..i] ==> a[0] == b[0]
  {
    forall i | 0 < i <= |a| && i <= |b| && a[..i] == b[..i] ensures a[0] == b[0] {
      assert a[..i][0] == a[0] && b[..i][0] == b[0];
    }
  }

  lemma NothingIsLowest(a: seq<string>)
    ensures !LowerPrerelease(a, [])
  {
  }

  lemma {:induction false} PrereleasesAgree(a: seq<string>, b: seq<string>)
    requires AllPrerelease(a) && AllPrerelease(b)
    ensures ComparePrereleases(a, b) < 0 <==> LowerPrerelease(a, b)
    ensures ComparePrereleases(a, b) > 0 <==> LowerPrerelease(b, a)
    ensures ComparePrereleases(a, b) == 0 <==> a == b
    decreases |a| + |b|
  {
    hide CompareIdentifiers, LowerIdentifier, IsPrerelease, LowerPrerelease;
    NothingIsLowest(a);
    NothingIsLowest(b);
    if a == [] || b == [] {
      if b != [] { LowerNow(a, b); }
      if a != [] { LowerNow(b, a); }
    } else if a[0] == b[0] {
      LowerStep(a, b);
      LowerStep(b, a);
      PrereleasesAgree(a[1..], b[1..]);
      assert a == [a[0]] + a[1..] && b == [b[0]] + b[1..];
    } else {
      IdentifiersAgree(a[0], b[0]);
      LowerNow(a, b);
      LowerNow(b, a);
      IdentifierSign(a[0], b[0]);
    }
  }

  lemma IdentifierSign(a: string, b: string)
    ensures CompareIdentifiers(a, b) == 1 || CompareIdentifiers(a, b) == -1
  {
  }

  lemma CoresAgree(a: seq<nat>, b: seq<nat>)
    requires |a| == |b| == 3
    ensures CompareCores(a, b) < 0 <==> LowerCore(a, b)
    ensures CompareCores(a, b) > 0 <==> LowerCore(b, a)
    ensures CompareCores(a, b) == 0 <==> a == b
  {
    assert a == [a[0], a[1], a[2]] && b == [b[0], b[1], b[2]];
    var a1, b1, a2, b2 := a[1..], b[1..], a[1..][1..], b[1..][1..];
    assert a2[1..] == [] && b2[1..] == [];
    assert CompareCores(a2, b2) == if a[2] != b[2] then (if a[2] > b[2] then 1 else -1) else 0;
    assert CompareCores(a1, b1) == if a[1] != b[1] then (if a[1] > b[1] then 1 else -1) else CompareCores(a2, b2);
  }

  ghost predicate Proper(v: Version) {
    |v.core| == 3 && AllPrerelease(v.prerelease)
  }

  /** The comparison is the precedence of section 11; versions that differ only in build compare as equal. */
  lemma CompareAgrees(a: Version, b: Version)
    requires Proper(a) && Proper(b)
    ensures Compare(a, b) < 0 <==> Lower(a, b)
    ensures Compare(a, b) > 0 <==> Lower(b, a)
    ensures Compare(a, b) == 0 <==> a == b
  {
    CoresAgree(a.core, b.core);
    PrereleasesAgree(a.prerelease, b.prerelease);
    hide CompareCores, ComparePrereleases, LowerCore, LowerPrerelease, IsPrerelease;
  }

  lemma LowerIdentifierTransitive(a: string, b: string, c: string)
    requires LowerIdentifier(a, b) && LowerIdentifier(b, c)
    ensures LowerIdentifier(a, c)
  {
    if !IsNumeric(a) && !IsNumeric(b) && !IsNumeric(c) { StringTransitive(a, b, c); }
  }

  lemma {:induction false} PrereleaseTransitive(a: seq<string>, b: seq<string>, c: seq<string>)
    requires LowerPrerelease(a, b) && LowerPrerelease(b, c)
    ensures LowerPrerelease(a, c)
  {
    hide LowerIdentifier;
    var i :| LowerFrom(a, b, i);
    var k :| LowerFrom(b, c, k);
    var m := if i < k then i else k;
    assert a[..m] == a[..i][..m] && b[..m] == b[..i][..m] && b[..m] == b[..k][..m] && c[..m] == c[..k][..m];
    if i < k {
      assert b[..k][i] == c[..k][i];
    } else if k < i {
      assert a[..i][k] == b[..i][k];
    } else if i < |a| {
      LowerIdentifierTransitive(a[i], b[i], c[i]);
    }
    assert LowerFrom(a, c, m);
  }

  lemma LowerTransitive(a: Version, b: Version, c: Version)
    requires |a.core| == |b.core| == |c.core| == 3
    requires Lower(a, b) && Lower(b, c)
    ensures Lower(a, c)
  {
    hide LowerPrerelease;
    if LowerPrerelease(a.prerelease, b.prerelease) && LowerPrerelease(b.prerelease, c.prerelease) {
      PrereleaseTransitive(a.prerelease, b.prerelease, c.prerelease);
    }
    NothingIsLowest(b.prerelease);
  }

  /** No higher than: on well-formed versions the comparison is a total preorder. */
  ghost predicate AtMost(a: string, b: string) {
    CompareVersions(a, b).Some? && CompareVersions(a, b).value <= 0
  }

  lemma ParsedProper(text: string)
    requires ParseVersion(text).Some?
    ensures Proper(ParseVersion(text).value)
  {
    ParsedCore(text);
  }

  /** Total and transitive on every well-formed version; defined on nothing else. */
  lemma TotalPreorder(a: string, b: string, c: string)
    ensures CompareVersions(a, b).Some? <==> ParseVersion(a).Some? && ParseVersion(b).Some?
    ensures ParseVersion(a).Some? && ParseVersion(b).Some? ==> AtMost(a, b) || AtMost(b, a)
    ensures AtMost(a, b) && AtMost(b, c) ==> AtMost(a, c)
  {
    hide ParseVersion, Compare, Lower, Proper;
    if ParseVersion(a).Some? && ParseVersion(b).Some? {
      var x, y := ParseVersion(a).value, ParseVersion(b).value;
      ParsedProper(a);
      ParsedProper(b);
      AgreeBothWays(x, y);
      if ParseVersion(c).Some? {
        ParsedProper(c);
        CompareTransitive(x, y, ParseVersion(c).value);
      }
    }
  }

  lemma AgreeBothWays(a: Version, b: Version)
    requires Proper(a) && Proper(b)
    ensures Compare(a, b) <= 0 || Compare(b, a) <= 0
  {
    CompareAgrees(a, b);
    CompareAgrees(b, a);
    hide Compare, Lower;
  }

  lemma CompareTransitive(a: Version, b: Version, c: Version)
    requires Proper(a) && Proper(b) && Proper(c)
    ensures Compare(a, b) <= 0 && Compare(b, c) <= 0 ==> Compare(a, c) <= 0
  {
    CompareAgrees(a, b);
    CompareAgrees(b, c);
    CompareAgrees(a, c);
    if Lower(a, b) && Lower(b, c) { LowerTransitive(a, b, c); }
    hide Compare, Lower;
  }
}
