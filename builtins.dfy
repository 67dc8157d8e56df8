/** The few Python built-ins the core leans on, stated exactly:
    `str.isspace`, `str.strip`, `str.lower`, `str.upper`, `str.join`,
    string ordering `<`, and `round(x, 2)` on exact values. */
module Builtins {

  // ---------------------------------------------------------------------------
  // Characters and case
  // ---------------------------------------------------------------------------

  /** `c.isspace()`, which is also what `\s` matches in a `str` pattern. */
  predicate IsSpace(c: char) {
    || c == ' '
    || '\t' <= c <= '\r'
    || '\U{1C}' <= c <= '\U{1F}'
    || c == '\U{85}' || c == '\U{A0}' || c == '\U{1680}'
    || '\U{2000}' <= c <= '\U{200A}'
    || c == '\U{2028}' || c == '\U{2029}' || c == '\U{202F}' || c == '\U{205F}' || c == '\U{3000}'
  }

  function LowerChar(c: char): char {
    if 'A' <= c <= 'Z' then (c as int + 32) as char else c
  }

  function UpperChar(c: char): char {
    if 'a' <= c <= 'z' then (c as int - 32) as char else c
  }

  /** `s.lower()` (ASCII letters only). */
  function Lower(s: string): string {
    seq(|s|, i requires 0 <= i < |s| => LowerChar(s[i]))
  }

  /** `s.upper()` (ASCII letters only). */
  function Upper(s: string): string {
    seq(|s|, i requires 0 <= i < |s| => UpperChar(s[i]))
  }

  /** No lower-case ASCII letter is left in `s`. */
  predicate IsUpper(s: string) {
    forall i :: 0 <= i < |s| ==> !('a' <= s[i] <= 'z')
  }

  /** Upper-casing leaves no lower-case letter behind, and a string without one
      is its own upper-case form; hence `Upper` is idempotent. */
  lemma UpperNormalizes(s: string)
    ensures IsUpper(Upper(s))
    ensures IsUpper(s) ==> Upper(s) == s
    ensures Upper(Upper(s)) == Upper(s)
  {
  }

  // ---------------------------------------------------------------------------
  // strip
  // ---------------------------------------------------------------------------

  /** `s.lstrip()` */
  function StripLeft(s: string): (r: string)
    ensures |r| <= |s| && r == s[|s| - |r|..]
    ensures r == [] || !IsSpace(r[0])
    ensures forall i :: 0 <= i < |s| - |r| ==> IsSpace(s[i])
  {
    if s != [] && IsSpace(s[0]) then StripLeft(s[1..]) else s
  }

  /** `s.rstrip()` */
  function StripRight(s: string): (r: string)
    ensures |r| <= |s| && r == s[..|r|]
    ensures r == [] || !IsSpace(r[|r| - 1])
    ensures forall i :: |r| <= i < |s| ==> IsSpace(s[i])
  {
    if s != [] && IsSpace(s[|s| - 1]) then StripRight(s[..|s| - 1]) else s
  }

  /** `s.strip()` */
  function Strip(s: string): string {
    StripRight(StripLeft(s))
  }

  /** A string that neither starts nor ends with whitespace is its own strip. */
  lemma StripUnpadded(s: string)
    requires s == [] || (!IsSpace(s[0]) && !IsSpace(s[|s| - 1]))
    ensures Strip(s) == s
  {
    assert StripLeft(s) == s;
  }

  /** `"FOB".strip().lower() == "fob".strip().lower()` */
  lemma FobExample()
    ensures Lower(Strip("FOB")) == Lower(Strip("fob")) == "fob"
  {
    StripUnpadded("FOB");
    assert Lower("FOB") == "fob";
    StripUnpadded("fob");
  }

  // ---------------------------------------------------------------------------
  // join and substrings
  // ---------------------------------------------------------------------------

  /** `sep.join(parts)` */
  function Join(parts: seq<string>, sep: string): string {
    if |parts| == 0 then ""
    else if |parts| == 1 then parts[0]
    else parts[0] + sep + Join(parts[1..], sep)
  }

  /** The separator goes only between parts: appending a part appends the
      separator and the part, and nothing follows the last part. */
  lemma {:induction false} JoinAppend(parts: seq<string>, x: string, sep: string)
    requires parts != []
    ensures Join(parts + [x], sep) == Join(parts, sep) + sep + x
  {
    if |parts| > 1 {
      assert (parts + [x])[1..] == parts[1..] + [x];
      JoinAppend(parts[1..], x, sep);
    }
  }

  /** `x in s` for strings: `x` occurs in `s` as a contiguous substring. */
  predicate IsInfix(x: string, s: string)
    decreases |s|
  {
    x <= s || (s != [] && IsInfix(x, s[1..]))
  }

  lemma {:induction false} InfixOfConcat(a: string, x: string, b: string)
    ensures IsInfix(x, a + x + b)
  {
    if a == [] {
      assert a + x + b == x + b;
    } else {
      assert (a + x + b)[1..] == a[1..] + x + b;
      InfixOfConcat(a[1..], x, b);
    }
  }

  /** Every part occurs in the joined string. */
  lemma {:induction false} JoinContainsPart(parts: seq<string>, sep: string, k: nat)
    requires k < |parts|
    ensures IsInfix(parts[k], Join(parts, sep))
  {
    if |parts| == 1 {
      InfixOfConcat("", parts[0], "");
    } else if k == 0 {
      InfixOfConcat("", parts[0], sep + Join(parts[1..], sep));
      assert "" + parts[0] + (sep + Join(parts[1..], sep)) == Join(parts, sep);
    } else {
      JoinContainsPart(parts[1..], sep, k - 1);
      InfixOfSuffix(parts[k], Join(parts[1..], sep), parts[0] + sep);
    }
  }

  lemma {:induction false} InfixOfSuffix(x: string, s: string, p: string)
    requires IsInfix(x, s)
    ensures IsInfix(x, p + s)
  {
    if p != [] {
      assert (p + s)[1..] == p[1..] + s;
      InfixOfSuffix(x, s, p[1..]);
    } else {
      assert p + s == s;
    }
  }

  // ---------------------------------------------------------------------------
  // Ordering of strings
  // ---------------------------------------------------------------------------

  /** `a < b` on Python strings: lexicographic by code point, a proper prefix
      sorting first. */
  predicate Less(a: string, b: string) {
    if a == [] then b != []
    else b != [] && (a[0] < b[0] || (a[0] == b[0] && Less(a[1..], b[1..])))
  }

  lemma {:induction false} LessIrreflexive(a: string)
    ensures !Less(a, a)
  {
    if a != [] {
      LessIrreflexive(a[1..]);
    }
  }

  lemma {:induction false} LessTransitive(a: string, b: string, c: string)
    requires Less(a, b) && Less(b, c)
    ensures Less(a, c)
  {
    if a != [] && a[0] == b[0] && b[0] == c[0] {
      LessTransitive(a[1..], b[1..], c[1..]);
    }
  }

  lemma {:induction false} LessTotal(a: string, b: string)
    requires a != b
    ensures Less(a, b) || Less(b, a)
  {
    if a != [] && b != [] && a[0] == b[0] {
      assert a == [a[0]] + a[1..] && b == [b[0]] + b[1..];
      LessTotal(a[1..], b[1..]);
    }
  }

  lemma LessAsymmetric(a: string, b: string)
    requires Less(a, b)
    ensures !Less(b, a)
  {
    if Less(b, a) {
      LessTransitive(a, b, a);
      LessIrreflexive(a);
    }
  }

  // ---------------------------------------------------------------------------
  // round(x, 2)
  // ---------------------------------------------------------------------------

  /** `round(y)` of an exact value: the nearest integer, a tie going to the
      even neighbour. */
  function RoundHalfEven(y: real): (n: int)
    ensures y - 0.5 <= n as real <= y + 0.5
    ensures (n as real - y == 0.5 || y - n as real == 0.5) ==> n % 2 == 0
  {
    var f := y.Floor;
    var d := y - f as real;
    if d < 0.5 then f
    else if d > 0.5 then f + 1
    else if f % 2 == 0 then f
    else f + 1
  }

  /** `x` has at most two decimal places. */
  predicate HasTwoDecimals(x: real) {
    (x * 100.0).Floor as real == x * 100.0
  }

  /** `round(x, 2)`: the closest value with two decimal places, a tie going to
      the even last digit. */
  function Round2(x: real): (r: real)
    ensures HasTwoDecimals(r)
    ensures x - 0.005 <= r <= x + 0.005
  {
    RoundHalfEven(x * 100.0) as real / 100.0
  }

  /** A value with two decimals is left alone, so rounding twice is rounding once. */
  lemma Round2Fixes(x: real)
    ensures HasTwoDecimals(x) ==> Round2(x) == x
    ensures Round2(Round2(x)) == Round2(x)
  {
    forall y: real | HasTwoDecimals(y) ensures Round2(y) == y {
      var n := (y * 100.0).Floor;
      assert y * 100.0 == n as real;
      assert RoundHalfEven(y * 100.0) == n;
    }
  }

  /** Rounding yields a negative number exactly when the input is below
      -0.005; the values in [-0.005, 0) round to zero. */
  lemma Round2Negative(x: real)
    ensures Round2(x) < 0.0 <==> x < -0.005
  {
    var n := RoundHalfEven(x * 100.0);
    assert Round2(x) == n as real / 100.0;
    if x < -0.005 {
      assert x * 100.0 < -0.5;
      assert n < 0;
    } else {
      assert x * 100.0 >= -0.5;
      if x * 100.0 == -0.5 {
        assert (x * 100.0).Floor == -1;
        assert n == 0;
      }
      assert n >= 0;
    }
  }
}
