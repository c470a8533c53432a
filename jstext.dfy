/**
  The pieces of ECMAScript string behaviour that the SDK's guards depend on:
  `String.prototype.trim`, `startsWith`, ASCII lower-casing, the text that
  `split(sep).pop()` yields, the UTF-16 `length` of a string, and the decimal
  rendering of an integer inside a template literal.
 */
module JsText {
  import opened Common

  /** The WhiteSpace and LineTerminator code points of ECMAScript: TAB, LF, VT,
      FF, CR, the Unicode space separators (category Zs), LS, PS and the byte
      order mark. */
  predicate IsWhiteSpace(c: char) {
    || c == '\t' || c == '\n' || c == '\U{000B}' || c == '\U{000C}' || c == '\r'
    || c == ' ' || c == '\U{00A0}' || c == '\U{1680}'
    || ('\U{2000}' <= c <= '\U{200A}')
    || c == '\U{2028}' || c == '\U{2029}' || c == '\U{202F}' || c == '\U{205F}'
    || c == '\U{3000}' || c == '\U{FEFF}'
  }

  /** Every character of `s` is white space (the empty string included). */
  predicate AllWhiteSpace(s: string) {
    forall i :: 0 <= i < |s| ==> IsWhiteSpace(s[i])
  }

  /** `s` with its leading white space removed: the longest suffix of `s`
      that does not start with white space. */
  function TrimStart(s: string): (r: string)
    ensures |r| <= |s| && r == s[|s| - |r|..]
    ensures forall i :: 0 <= i < |s| - |r| ==> IsWhiteSpace(s[i])
    ensures r == [] || !IsWhiteSpace(r[0])
  {
    if |s| > 0 && IsWhiteSpace(s[0]) then
      var r := TrimStart(s[1..]);
      assert forall i :: 1 <= i < |s| ==> s[i] == s[1..][i - 1];
      r
    else s
  }

  /** `s` with its trailing white space removed: the longest prefix of `s`
      that does not end with white space. */
  function TrimEnd(s: string): (r: string)
    ensures |r| <= |s| && r == s[..|r|]
    ensures forall i :: |r| <= i < |s| ==> IsWhiteSpace(s[i])
    ensures r == [] || !IsWhiteSpace(r[|r| - 1])
  {
    if |s| > 0 && IsWhiteSpace(s[|s| - 1]) then
      var r := TrimEnd(s[..|s| - 1]);
      assert forall i :: 0 <= i < |s| - 1 ==> s[i] == s[..|s| - 1][i];
      r
    else s
  }

  /** `s.trim()`.  The result is empty exactly when `s` is all white space,
      and otherwise neither starts nor ends with white space. */
  function Trim(s: string): (r: string)
    ensures r == [] <==> AllWhiteSpace(s)
    ensures r != [] ==> !IsWhiteSpace(r[0]) && !IsWhiteSpace(r[|r| - 1])
    ensures |r| <= |s|
  {
    TrimFacts(s);
    TrimEnd(TrimStart(s))
  }

  lemma TrimFacts(s: string)
    ensures var r := TrimEnd(TrimStart(s));
      && (r == [] <==> AllWhiteSpace(s))
      && (r != [] ==> !IsWhiteSpace(r[0]))
  {
    var t := TrimStart(s);
    TrimStartEmpty(s);
    TrimEndOfTrimmedStart(t);
  }

  lemma TrimStartEmpty(s: string)
    ensures TrimStart(s) == [] <==> AllWhiteSpace(s)
  {
    var t := TrimStart(s);
    if t != [] {
      assert t[0] == s[|s| - |t|];
    }
  }

  lemma TrimEndOfTrimmedStart(t: string)
    requires t == [] || !IsWhiteSpace(t[0])
    ensures TrimEnd(t) == [] <==> t == []
    ensures TrimEnd(t) != [] ==> TrimEnd(t)[0] == t[0]
  {
  }

  /** `!s?.trim()`: the argument is undefined, empty or only white space. */
  predicate IsBlank(s: Option<string>) {
    s.None? || Trim(s.value) == []
  }

  /** Text after a non-blank string does not make it blank. */
  lemma NotAllWhiteSpacePrefix(a: string, b: string)
    requires !AllWhiteSpace(a)
    ensures !AllWhiteSpace(a + b)
  {
    var i :| 0 <= i < |a| && !IsWhiteSpace(a[i]);
    assert (a + b)[i] == a[i];
  }

  /** Trimming a string that neither starts nor ends with white space
      leaves it unchanged; in particular trimming is idempotent. */
  lemma TrimUnchanged(s: string)
    requires s == [] || (!IsWhiteSpace(s[0]) && !IsWhiteSpace(s[|s| - 1]))
    ensures Trim(s) == s
  {
    if s != [] {
      assert TrimStart(s) == s;
      assert TrimEnd(s) == s;
    }
  }

  lemma TrimIdempotent(s: string)
    ensures Trim(Trim(s)) == Trim(s)
  {
    TrimUnchanged(Trim(s));
  }

  /** Leading white space is skipped up to the first other character. */
  lemma TrimStartPadded(a: string, rest: string)
    requires AllWhiteSpace(a)
    requires rest != [] && !IsWhiteSpace(rest[0])
    ensures TrimStart(a + rest) == rest
  {
    var s := a + rest;
    var t := TrimStart(s);
    var p := |s| - |t|;
    assert s[|a|] == rest[0];
    assert p <= |a|;
    assert t[0] == s[p];
    assert forall k :: 0 <= k < |a| ==> s[k] == a[k];
    assert p == |a|;
  }

  /** Trailing white space is dropped back to the last other character. */
  lemma TrimEndPadded(rest: string, b: string)
    requires AllWhiteSpace(b)
    requires rest != [] && !IsWhiteSpace(rest[|rest| - 1])
    ensures TrimEnd(rest + b) == rest
  {
    var s := rest + b;
    var t := TrimEnd(s);
    assert s[|rest| - 1] == rest[|rest| - 1];
    assert |t| >= |rest|;
    assert t[|t| - 1] == s[|t| - 1];
    assert forall k :: |rest| <= k < |s| ==> s[k] == b[k - |rest|];
    assert |t| == |rest|;
  }

  /** Trimming a core padded with white space on both sides gives the core
      back, when the core has no white space at its ends. */
  lemma TrimOfPadded(a: string, c: string, b: string)
    requires AllWhiteSpace(a) && AllWhiteSpace(b)
    requires c != [] && !IsWhiteSpace(c[0]) && !IsWhiteSpace(c[|c| - 1])
    ensures Trim(a + c + b) == c
  {
    assert a + c + b == a + (c + b);
    TrimStartPadded(a, c + b);
    assert (c + b)[|c| - 1] == c[|c| - 1];
    TrimEndPadded(c, b);
  }

  /** `s.startsWith(prefix)`. */
  predicate StartsWith(s: string, prefix: string) {
    |prefix| <= |s| && s[..|prefix|] == prefix
  }

  /** A string made by putting text after `prefix` starts with `prefix`. */
  lemma StartsWithConcat(prefix: string, rest: string)
    ensures StartsWith(prefix + rest, prefix)
  {
    assert (prefix + rest)[..|prefix|] == prefix;
  }

  /** `c.toLowerCase()` for the ASCII letters; every other character is kept. */
  function LowerAscii(c: char): char {
    if 'A' <= c <= 'Z' then (c as int + 32) as char else c
  }

  /** `s.toLowerCase()` restricted to ASCII: no upper-case ASCII letter
      is left. */
  function ToLowerAscii(s: string): (r: string)
    ensures |r| == |s|
    ensures forall i :: 0 <= i < |r| ==> !('A' <= r[i] <= 'Z')
  {
    seq(|s|, i requires 0 <= i < |s| => LowerAscii(s[i]))
  }

  /** Lower-casing a lower-cased string changes nothing. */
  lemma ToLowerAsciiIdempotent(s: string)
    ensures ToLowerAscii(ToLowerAscii(s)) == ToLowerAscii(s)
  {
    var t := ToLowerAscii(s);
    assert forall i :: 0 <= i < |t| ==> LowerAscii(t[i]) == t[i];
  }

  /** `s.split(sep).pop()`: the text after the last `sep`, or all of `s` when
      it has none.  Characterised as the longest suffix of `s` free of `sep`. */
  function AfterLast(s: string, sep: char): (r: string)
    ensures |r| <= |s| && r == s[|s| - |r|..]
    ensures sep !in r
    ensures |r| < |s| ==> s[|s| - |r| - 1] == sep
  {
    if |s| == 0 then []
    else if s[|s| - 1] == sep then []
    else AfterLast(s[..|s| - 1], sep) + [s[|s| - 1]]
  }

  /** The segment after the last separator of `front + [sep] + last`, when
      `last` has no separator, is `last`. */
  lemma {:induction false} AfterLastOfJoin(front: string, sep: char, last: string)
    requires sep !in last
    ensures AfterLast(front + [sep] + last, sep) == last
  {
    var s := front + [sep] + last;
    var r := AfterLast(s, sep);
    assert s[|s| - |last|..] == last;
    assert s[|s| - |last| - 1] == sep;
    assert forall k :: |s| - |r| <= k < |s| ==> s[k] == r[k - (|s| - |r|)];
    assert |r| <= |last|;
    assert forall k :: |s| - |last| <= k < |s| ==> s[k] == last[k - (|s| - |last|)];
    assert |r| >= |last|;
  }

  /** A string without the separator is its own last segment. */
  lemma AfterLastWhole(s: string, sep: char)
    requires sep !in s
    ensures AfterLast(s, sep) == s
  {
    var r := AfterLast(s, sep);
    assert forall k :: 0 <= k < |s| ==> s[k] != sep;
  }

  /** The string's `length`: UTF-16 code units, so characters outside the
      Basic Multilingual Plane count twice. */
  function Utf16Length(s: string): (n: nat)
    ensures |s| <= n <= 2 * |s|
  {
    if s == [] then 0 else (if s[0] as int >= 0x1_0000 then 2 else 1) + Utf16Length(s[1..])
  }

  /** A string of Basic Multilingual Plane characters has as many code units
      as characters. */
  lemma {:induction false} Utf16LengthBmp(s: string)
    requires forall i :: 0 <= i < |s| ==> s[i] as int < 0x1_0000
    ensures Utf16Length(s) == |s|
  {
    if s != [] {
      Utf16LengthBmp(s[1..]);
    }
  }

  /** Code units of a concatenation add up. */
  lemma {:induction false} Utf16Append(a: string, b: string)
    ensures Utf16Length(a + b) == Utf16Length(a) + Utf16Length(b)
  {
    if a == [] {
      assert a + b == b;
    } else {
      Utf16Append(a[1..], b);
      assert (a + b)[1..] == a[1..] + b;
    }
  }

  function DigitChar(d: nat): char
    requires d < 10
  {
    ('0' as int + d) as char
  }

  predicate IsDigit(c: char) {
    '0' <= c <= '9'
  }

  /** Decimal digits of `n`, most significant first, no leading zeros. */
  function NatToString(n: nat): (r: string)
    ensures r != [] && forall i :: 0 <= i < |r| ==> IsDigit(r[i])
    ensures r[0] == '0' ==> r == "0"
  {
    if n < 10 then [DigitChar(n)] else NatToString(n / 10) + [DigitChar(n % 10)]
  }

  /** The number a string of decimal digits denotes. */
  function DigitsValue(s: string): nat
    requires forall i :: 0 <= i < |s| ==> IsDigit(s[i])
  {
    if s == [] then 0
    else
      assert IsDigit(s[|s| - 1]);
      DigitsValue(s[..|s| - 1]) * 10 + (s[|s| - 1] as int - '0' as int)
  }

  /** Reading the decimal rendering back gives the number. */
  lemma {:induction false} NatToStringRoundTrip(n: nat)
    ensures DigitsValue(NatToString(n)) == n
  {
    if n >= 10 {
      NatToStringRoundTrip(n / 10);
      var r := NatToString(n);
      assert r[..|r| - 1] == NatToString(n / 10);
    }
  }

  /** `${n}` for a safe integer `n` (magnitude at most 2^53 - 1), which
      JavaScript writes as plain decimal.  Larger magnitudes, which
      JavaScript rounds and from 10^21 on writes in exponent form, are
      rendered here with their exact digits. */
  function NumberToString(n: int): string {
    if n < 0 then "-" + NatToString(-n) else NatToString(n)
  }

  /** The rendering of an integer reads back as that integer: its digits
      after an optional minus sign denote its magnitude. */
  lemma NumberToStringRoundTrip(n: int)
    ensures var r := NumberToString(n);
            && r != []
            && (n >= 0 ==> (forall i :: 0 <= i < |r| ==> IsDigit(r[i])) && DigitsValue(r) == n)
            && (n < 0 ==> r[0] == '-' && (forall i :: 1 <= i < |r| ==> IsDigit(r[i]))
                          && DigitsValue(r[1..]) == -n)
  {
    if n < 0 {
      NatToStringRoundTrip(-n);
      assert NumberToString(n)[1..] == NatToString(-n);
    } else {
      NatToStringRoundTrip(n);
    }
  }
}
