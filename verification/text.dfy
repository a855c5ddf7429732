/** String helpers with the semantics of the JavaScript built-ins the
    client uses: `String.prototype.trim`, the `\s`/`\S` regex classes,
    `x?.trim() || fallback`, `String(n)` and `Array.prototype.join`. */
module Text {
  import opened Wrappers

  /** The ECMAScript WhiteSpace and LineTerminator code points: exactly the
      characters `trim` strips and the regex class `\s` matches. */
  predicate IsWhitespace(c: char) {
    || c == '\t' || c == '\n' || c == '\U{000B}' || c == '\U{000C}' || c == '\r'
    || c == ' ' || c == '\U{00A0}' || c == '\U{1680}'
    || ('\U{2000}' <= c <= '\U{200A}')
    || c == '\U{2028}' || c == '\U{2029}' || c == '\U{202F}' || c == '\U{205F}'
    || c == '\U{3000}' || c == '\U{FEFF}'
  }

  /** Every character of `s` is whitespace (vacuously true of ""). */
  predicate IsBlank(s: string) {
    forall i :: 0 <= i < |s| ==> IsWhitespace(s[i])
  }

  /** `s` neither starts nor ends with whitespace. */
  predicate IsTrimmed(s: string) {
    s == "" || (!IsWhitespace(s[0]) && !IsWhitespace(s[|s| - 1]))
  }

  /** Drops the leading whitespace: the result is the longest suffix of `s`
      that does not start with whitespace. */
  function TrimStart(s: string): (r: string)
    ensures |r| <= |s| && r == s[|s| - |r|..]
    ensures IsBlank(s[..|s| - |r|])
    ensures r == "" || !IsWhitespace(r[0])
  {
    if |s| > 0 && IsWhitespace(s[0]) then
      var r := TrimStart(s[1..]);
      assert s[..|s| - |r|] == [s[0]] + s[1..][..|s| - 1 - |r|];
      r
    else
      s
  }

  /** Drops the trailing whitespace: the result is the longest prefix of `s`
      that does not end with whitespace. */
  function TrimEnd(s: string): (r: string)
    ensures |r| <= |s| && r == s[..|r|]
    ensures IsBlank(s[|r|..])
    ensures r == "" || !IsWhitespace(r[|r| - 1])
  {
    if |s| > 0 && IsWhitespace(s[|s| - 1]) then
      var r := TrimEnd(s[..|s| - 1]);
      assert s[|r|..] == s[..|s| - 1][|r|..] + [s[|s| - 1]];
      r
    else
      s
  }

  /** Two blank strings joined are blank. */
  lemma {:induction false} BlankJoin(a: string, b: string)
    requires IsBlank(a) && IsBlank(b)
    ensures IsBlank(a + b)
  {
    forall i | 0 <= i < |a + b| ensures IsWhitespace((a + b)[i]) {
      if i >= |a| { assert (a + b)[i] == b[i - |a|]; }
    }
  }

  /** A string blank on both sides of a cut is blank. */
  lemma {:induction false} BlankSplit(s: string, k: nat)
    requires k <= |s| && IsBlank(s[..k]) && IsBlank(s[k..])
    ensures IsBlank(s)
  {
    assert s == s[..k] + s[k..];
    BlankJoin(s[..k], s[k..]);
  }

  /** Nothing is left after stripping both ends only of a blank string. */
  lemma {:induction false} TrimBothEmpty(s: string)
    requires TrimEnd(TrimStart(s)) == ""
    ensures IsBlank(s)
  {
    var t := TrimStart(s);
    var k := |s| - |t|;
    assert IsBlank(s[..k]);
    assert IsBlank(s[k..]) by {
      assert IsBlank(t[|TrimEnd(t)|..]);
      assert t[|TrimEnd(t)|..] == t == s[k..];
    }
    BlankSplit(s, k);
  }

  /** What is left after stripping both ends starts with a character of `s`
      that is not whitespace. */
  lemma {:induction false} TrimBothNonEmpty(s: string)
    requires TrimEnd(TrimStart(s)) != ""
    ensures !IsBlank(s) && IsTrimmed(TrimEnd(TrimStart(s)))
  {
    var t := TrimStart(s);
    var r := TrimEnd(t);
    assert r[0] == t[0];
    assert s[|s| - |t|] == t[0];
  }

  /** `s.trim()`: what is left of `s` after stripping whitespace on both
      sides, a prefix of what `TrimStart` leaves; it is empty exactly when
      `s` is blank. */
  function Trim(s: string): (r: string)
    ensures IsTrimmed(r)
    ensures r == "" <==> IsBlank(s)
    ensures |r| <= |TrimStart(s)| && r == TrimStart(s)[..|r|]
  {
    var r := TrimEnd(TrimStart(s));
    if r == "" then
      TrimBothEmpty(s);
      r
    else
      TrimBothNonEmpty(s);
      r
  }

  /** A string without surrounding whitespace is its own trim. */
  lemma {:induction false} TrimOfTrimmed(s: string)
    requires IsTrimmed(s)
    ensures Trim(s) == s
  {
    if s != "" {
      assert TrimStart(s) == s;
      assert TrimEnd(s) == s;
    }
  }

  /** Trimming twice is trimming once. */
  lemma {:induction false} TrimIdempotent(s: string)
    ensures Trim(Trim(s)) == Trim(s)
  {
    TrimOfTrimmed(Trim(s));
  }

  /** `o?.trim() || fallback` for an optional string: the trimmed text when
      it is non-blank, the fallback otherwise (absent, empty or blank). */
  function TrimOr(o: Option<string>, fallback: string): (r: string)
    ensures o.Some? && !IsBlank(o.value) ==> r == Trim(o.value) && r != ""
    ensures o.None? || IsBlank(o.value) ==> r == fallback
    ensures IsTrimmed(fallback) ==> IsTrimmed(r)
  {
    if o.Some? && Trim(o.value) != "" then Trim(o.value) else fallback
  }

  /** The decimal digits of a natural number, most significant first. */
  function NatToString(n: nat): (r: string)
    ensures |r| >= 1
    ensures forall i :: 0 <= i < |r| ==> '0' <= r[i] <= '9'
  {
    var d := ['0' + (n % 10) as char];
    if n < 10 then d else NatToString(n / 10) + d
  }

  /** A non-empty run of decimal digits. */
  predicate IsDigits(s: string) {
    |s| >= 1 && forall i :: 0 <= i < |s| ==> '0' <= s[i] <= '9'
  }

  /** The value of a run of decimal digits, most significant first. */
  function DigitsValue(s: string): nat
    requires forall i :: 0 <= i < |s| ==> '0' <= s[i] <= '9'
  {
    if s == [] then 0
    else DigitsValue(s[..|s| - 1]) * 10 + (s[|s| - 1] - '0') as nat
  }

  /** Reading back the decimal text of a number gives the number. */
  lemma {:induction false} NatToStringRoundTrip(n: nat)
    ensures IsDigits(NatToString(n))
    ensures DigitsValue(NatToString(n)) == n
  {
    var d := ['0' + (n % 10) as char];
    if n >= 10 {
      NatToStringRoundTrip(n / 10);
      var r := NatToString(n / 10) + d;
      assert r[..|r| - 1] == NatToString(n / 10);
    }
  }

  /** `String(n)` for an integer. */
  function IntToString(n: int): (r: string)
    ensures |r| >= 1
  {
    if n < 0 then "-" + NatToString(-n) else NatToString(n)
  }

  /** `parts.join(sep)`. */
  function Join(parts: seq<string>, sep: string): string {
    if |parts| == 0 then ""
    else if |parts| == 1 then parts[0]
    else parts[0] + sep + Join(parts[1..], sep)
  }

  // ----- The email pattern /\S+@\S+\.\S+/ (unanchored) -----

  /** No whitespace in the half-open range s[i..j]. */
  predicate NonSpace(s: string, i: int, j: int)
    requires 0 <= i <= j <= |s|
  {
    forall k :: i <= k < j ==> !IsWhitespace(s[k])
  }

  /** The regex matches the slice s[p..e] with its '@' at index a and its
      '.' at index d: three non-empty whitespace-free runs around them. */
  predicate RegexMatchAt(s: string, p: int, a: int, d: int, e: int) {
    && 0 <= p < a && a + 1 < d && d + 1 < e <= |s|
    && s[a] == '@' && s[d] == '.'
    && NonSpace(s, p, a) && NonSpace(s, a + 1, d) && NonSpace(s, d + 1, e)
  }

  /** `/\S+@\S+\.\S+/.test(s)`: some slice of `s` matches the pattern. */
  ghost predicate RegexTest(s: string) {
    exists p, a, d, e :: RegexMatchAt(s, p, a, d, e)
  }

  /** The shortest form of a match: an '@' at a with a non-space before it,
      a '.' at d with a non-space after it, and only non-spaces between. */
  predicate EmailShapeAt(s: string, a: int, d: int) {
    && 1 <= a && a + 1 < d && d + 1 < |s|
    && s[a] == '@' && s[d] == '.'
    && !IsWhitespace(s[a - 1]) && !IsWhitespace(s[d + 1])
    && NonSpace(s, a + 1, d)
  }

  /** A decidable form of the email test, searching for the shortest match. */
  predicate LooksLikeEmail(s: string) {
    exists a, d | 0 <= a < |s| && 0 <= d < |s| :: EmailShapeAt(s, a, d)
  }

  /** The decidable form agrees with the regex on every string: every match
      contains a shortest one, and a shortest one is a match. */
  lemma {:induction false} LooksLikeEmailIsRegexTest(s: string)
    ensures LooksLikeEmail(s) <==> RegexTest(s)
  {
    if LooksLikeEmail(s) {
      var a, d :| 0 <= a < |s| && 0 <= d < |s| && EmailShapeAt(s, a, d);
      assert RegexMatchAt(s, a - 1, a, d, d + 2);
    }
    if RegexTest(s) {
      var p, a, d, e :| RegexMatchAt(s, p, a, d, e);
      assert EmailShapeAt(s, a, d);
    }
  }
}
