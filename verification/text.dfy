/**
 * The Python string primitives the matching code relies on: character
 * classes, `str.lower`, `str.strip`, `str.split`, `in`, `str.join`,
 * `str.replace(x, "")`, `str(int)`, `int(str)` and `float(str)`.
 */
module Text {
  import opened Wrappers

  // ---------------------------------------------------------------------
  // Character classes

  /** `str.isspace()`: what `\s` matches in a str pattern and what `strip()` removes. */
  predicate IsSpace(c: char) {
    var n := c as int;
    (9 <= n <= 13) || (28 <= n <= 32) || n == 0x85 || n == 0xA0 || n == 0x1680
    || (0x2000 <= n <= 0x200A) || n == 0x2028 || n == 0x2029 || n == 0x202F
    || n == 0x205F || n == 0x3000
  }

  predicate IsAsciiDigit(c: char) { '0' <= c <= '9' }
  predicate IsAsciiLower(c: char) { 'a' <= c <= 'z' }
  predicate IsAsciiUpper(c: char) { 'A' <= c <= 'Z' }
  predicate IsAsciiAlnum(c: char) { IsAsciiLower(c) || IsAsciiUpper(c) || IsAsciiDigit(c) }
  predicate IsAscii(c: char) { c as int < 128 }

  // ---------------------------------------------------------------------
  // Case mapping

  /** `str.lower()` on one character: ASCII and Latin-1 capitals, plus the two
      non-ASCII capitals whose lower case contains an ASCII letter. */
  function LowerChar(c: char): (r: string)
    ensures IsAscii(c) ==> r == [if IsAsciiUpper(c) then (c as int + 32) as char else c]
  {
    var n := c as int;
    if IsAsciiUpper(c) || (0xC0 <= n <= 0xDE && n != 0xD7) then [(n + 32) as char]
    else if n == 0x130 then ['i', '\U{0307}']      // LATIN CAPITAL LETTER I WITH DOT ABOVE
    else if n == 0x212A then ['k']                 // KELVIN SIGN
    else [c]
  }

  function Lower(s: string): string
    decreases |s|
  {
    if s == [] then [] else LowerChar(s[0]) + Lower(s[1..])
  }

  lemma {:induction false} LowerAppend(a: string, b: string)
    ensures Lower(a + b) == Lower(a) + Lower(b)
    decreases |a|
  {
    if a != [] {
      assert (a + b)[0] == a[0] && (a + b)[1..] == a[1..] + b;
      LowerAppend(a[1..], b);
      calc {
        Lower(a + b);
        LowerChar(a[0]) + Lower(a[1..] + b);
        LowerChar(a[0]) + (Lower(a[1..]) + Lower(b));
        (LowerChar(a[0]) + Lower(a[1..])) + Lower(b);
        Lower(a) + Lower(b);
      }
    } else {
      assert a + b == b;
    }
  }

  /** On ASCII text `Lower` maps each character to one character. */
  lemma {:induction false} LowerAscii(s: string)
    requires forall i :: 0 <= i < |s| ==> IsAscii(s[i])
    ensures |Lower(s)| == |s|
    ensures forall i :: 0 <= i < |s| ==> Lower(s)[i] == LowerChar(s[i])[0]
    decreases |s|
  {
    if s != [] {
      LowerAscii(s[1..]);
      forall i | 1 <= i < |s|
        ensures Lower(s)[i] == LowerChar(s[i])[0]
      {
        assert s[1..][i - 1] == s[i];
      }
    }
  }

  // ---------------------------------------------------------------------
  // Trimming

  function TrimLeft(s: string, p: char -> bool): (r: string)
    ensures |r| <= |s| && r == s[|s| - |r|..]
    ensures r == [] || !p(r[0])
    ensures forall i :: 0 <= i < |s| - |r| ==> p(s[i])
    decreases |s|
  {
    if s != [] && p(s[0]) then
      var r := TrimLeft(s[1..], p);
      assert forall i :: 1 <= i < |s| ==> s[i] == s[1..][i - 1];
      r
    else s
  }

  function TrimRight(s: string, p: char -> bool): (r: string)
    ensures |r| <= |s| && r == s[..|r|]
    ensures r == [] || !p(r[|r| - 1])
    ensures forall i :: |r| <= i < |s| ==> p(s[i])
    decreases |s|
  {
    if s != [] && p(s[|s| - 1]) then TrimRight(s[..|s| - 1], p) else s
  }

  /** `r` is `s` with a run of characters `p` accepts cut from each end. */
  ghost predicate CutFromEnds(s: string, r: string, p: char -> bool) {
    exists i: nat :: CutAt(s, r, p, i)
  }

  /** The same, with the `i` characters before `r` cut from the front. */
  ghost predicate CutAt(s: string, r: string, p: char -> bool, i: nat) {
    i + |r| <= |s| && r == s[i..i + |r|]
    && (forall k :: 0 <= k < i ==> p(s[k]))
    && (forall k :: i + |r| <= k < |s| ==> p(s[k]))
  }

  /** The characters of a piece cut at `i` are those of `s` from `i` on. */
  lemma CutAtChars(s: string, r: string, p: char -> bool, i: nat)
    requires CutAt(s, r, p, i)
    ensures i + |r| <= |s| && forall k :: 0 <= k < |r| ==> r[k] == s[i + k]
  {
  }

  /** Trimming both ends cuts off only characters `p` accepts. */
  lemma TrimBothCuts(s: string, p: char -> bool)
    ensures CutFromEnds(s, TrimRight(TrimLeft(s, p), p), p)
  {
    var u := TrimLeft(s, p);
    var r := TrimRight(u, p);
    var i := |s| - |u|;
    assert u == s[i..];
    assert r == u[..|r|];
    assert s[i..][..|r|] == s[i..i + |r|];
    forall k | i + |r| <= k < |s| ensures p(s[k]) {
      assert s[k] == u[k - i];
    }
    assert forall k :: 0 <= k < i ==> p(s[k]);
    assert CutAt(s, r, p, i);
  }

  /** `s.strip()`: the white space at both ends removed, and no more. */
  function Strip(s: string): (r: string)
    ensures r == [] || (!IsSpace(r[0]) && !IsSpace(r[|r| - 1]))
    ensures CutFromEnds(s, r, IsSpace)
  {
    TrimBothCuts(s, IsSpace);
    TrimRight(TrimLeft(s, IsSpace), IsSpace)
  }

  /** The stripped text is a contiguous piece of the original. */
  lemma StripIsSlice(s: string) returns (i: nat)
    ensures i + |Strip(s)| <= |s| && Strip(s) == s[i..i + |Strip(s)|]
  {
    i :| CutAt(s, Strip(s), IsSpace, i);
  }

  /** Trimming stops at the first character `p` rejects. */
  lemma {:induction false} TrimLeftIs(t: string, p: char -> bool, n: nat)
    requires n <= |t| && (n == |t| || !p(t[n]))
    requires forall m :: 0 <= m < n ==> p(t[m])
    ensures TrimLeft(t, p) == t[n..]
    decreases n
  {
    if n == 0 {
      assert t[0..] == t;
    } else {
      TrimLeftIs(t[1..], p, n - 1);
      assert t[1..][n - 1..] == t[n..];
    }
  }

  /** Trimming stops after the last character `p` rejects. */
  lemma {:induction false} TrimRightIs(t: string, p: char -> bool, n: nat)
    requires n <= |t| && (n == 0 || !p(t[n - 1]))
    requires forall m :: n <= m < |t| ==> p(t[m])
    ensures TrimRight(t, p) == t[..n]
    decreases |t| - n
  {
    if n == |t| {
      assert t[..n] == t;
    } else {
      TrimRightIs(t[..|t| - 1], p, n);
      assert t[..|t| - 1][..n] == t[..n];
    }
  }

  // ---------------------------------------------------------------------
  // Searching

  predicate StartsWith(s: string, prefix: string) {
    |prefix| <= |s| && s[..|prefix|] == prefix
  }

  /** Python's `sub in s`. */
  predicate Contains(s: string, sub: string)
    decreases |s|
  {
    StartsWith(s, sub) || (s != [] && Contains(s[1..], sub))
  }

  lemma {:induction false} ContainsSuffix(a: string, b: string)
    ensures Contains(a + b, b)
    decreases |a|
  {
    if a == [] {
      assert (a + b)[..|b|] == b;
    } else {
      assert (a + b)[1..] == a[1..] + b;
      ContainsSuffix(a[1..], b);
    }
  }

  /** Text that contains `a + b` contains `a`. */
  lemma {:induction false} ContainsPrefix(s: string, a: string, b: string)
    requires Contains(s, a + b)
    ensures Contains(s, a)
    decreases |s|
  {
    if StartsWith(s, a + b) {
      assert s[..|a|] == (a + b)[..|a|] == a;
    } else {
      ContainsPrefix(s[1..], a, b);
    }
  }

  lemma {:induction false} ContainsSelf(s: string)
    ensures Contains(s, s)
  {
    assert s[..|s|] == s;
  }

  /** The first index of `c` in `s`, if any. */
  function IndexOf(s: string, c: char): (r: Option<nat>)
    ensures r.None? <==> c !in s
    ensures r.Some? ==> r.value < |s| && s[r.value] == c && c !in s[..r.value]
    decreases |s|
  {
    if s == [] then None
    else if s[0] == c then Some(0)
    else match IndexOf(s[1..], c)
      case None => None
      case Some(k) => Some(k + 1)
  }

  // ---------------------------------------------------------------------
  // Splitting and joining

  /** `s.split(sep)` for a one-character separator. */
  function SplitOn(s: string, sep: char): (parts: seq<string>)
    ensures |parts| >= 1
    decreases |s|
  {
    if s == [] then [""]
    else
      var rest := SplitOn(s[1..], sep);
      if s[0] == sep then [""] + rest else [[s[0]] + rest[0]] + rest[1..]
  }

  lemma {:induction false} SplitOnNoSep(s: string, sep: char)
    requires sep !in s
    ensures SplitOn(s, sep) == [s]
    decreases |s|
  {
    if s != [] {
      SplitOnNoSep(s[1..], sep);
      assert s[0] != sep;
      assert [s[0]] + s[1..] == s;
    }
  }

  lemma {:induction false} SplitOnAppend(a: string, sep: char, b: string)
    requires sep !in a
    ensures SplitOn(a + [sep] + b, sep) == [a] + SplitOn(b, sep)
    decreases |a|
  {
    if a == [] {
      assert a + [sep] + b == [sep] + b;
      assert ([sep] + b)[1..] == b;
    } else {
      assert (a + [sep] + b)[1..] == a[1..] + [sep] + b;
      SplitOnAppend(a[1..], sep, b);
      assert [a[0]] + a[1..] == a;
    }
  }

  /** The end of the run of non-space characters starting at `i`. */
  function WordEnd(s: string, i: nat): (k: nat)
    requires i <= |s|
    ensures i <= k <= |s|
    ensures k == |s| || IsSpace(s[k])
    ensures forall j :: i <= j < k ==> !IsSpace(s[j])
    decreases |s| - i
  {
    if i == |s| || IsSpace(s[i]) then i else WordEnd(s, i + 1)
  }

  /** `s.split()`: the maximal runs of non-space characters. */
  function Words(s: string): (ws: seq<string>)
    decreases |s|
  {
    if s == [] then []
    else if IsSpace(s[0]) then Words(s[1..])
    else
      var k := WordEnd(s, 1);
      [s[..k]] + Words(s[k..])
  }

  /** A single run of non-space characters is one word. */
  lemma WordsOne(w: string)
    requires w != [] && forall j :: 0 <= j < |w| ==> !IsSpace(w[j])
    ensures Words(w) == [w]
  {
    assert WordEnd(w, 1) == |w|;
    assert w[..|w|] == w && w[|w|..] == [];
  }

  /** Two runs of non-space characters around one space are two words. */
  lemma WordsTwo(a: string, b: string)
    requires a != [] && forall j :: 0 <= j < |a| ==> !IsSpace(a[j])
    requires b != [] && forall j :: 0 <= j < |b| ==> !IsSpace(b[j])
    ensures Words(a + " " + b) == [a, b]
  {
    assert a + " " + b == a + (" " + b);
    WordsAfterWord(a, " " + b);
    assert (" " + b)[1..] == b;
    WordsOne(b);
  }

  /** A word followed by white space is the first word. */
  lemma WordsAfterWord(a: string, rest: string)
    requires a != [] && forall j :: 0 <= j < |a| ==> !IsSpace(a[j])
    requires rest != [] && IsSpace(rest[0])
    ensures Words(a + rest) == [a] + Words(rest)
  {
    var s := a + rest;
    assert s[0] == a[0];
    assert s[|a|] == rest[0];
    assert forall j :: 0 <= j < |a| ==> s[j] == a[j];
    assert WordEnd(s, 1) == |a|;
    assert s[..|a|] == a && s[|a|..] == rest;
  }

  function Join(sep: string, parts: seq<string>): string
    decreases |parts|
  {
    if parts == [] then ""
    else if |parts| == 1 then parts[0]
    else parts[0] + sep + Join(sep, parts[1..])
  }

  /** `s.replace(pat, "")`: every non-overlapping occurrence, left to right. */
  function RemoveAll(s: string, pat: string): (r: string)
    ensures |r| <= |s|
    decreases |s|
  {
    if pat == [] || |s| < |pat| then s
    else if s[..|pat|] == pat then RemoveAll(s[|pat|..], pat)
    else [s[0]] + RemoveAll(s[1..], pat)
  }

  // ---------------------------------------------------------------------
  // Numbers as text

  function DigitChar(d: nat): (c: char)
    requires d < 10
    ensures IsAsciiDigit(c)
  {
    ('0' as int + d) as char
  }

  function DigitValue(c: char): nat
    requires IsAsciiDigit(c)
  {
    c as int - '0' as int
  }

  predicate AllDigits(s: string) {
    forall i :: 0 <= i < |s| ==> IsAsciiDigit(s[i])
  }

  /** The decimal digits of `n`, most significant first. */
  function NatToString(n: nat): (r: string)
    ensures |r| >= 1 && AllDigits(r)
    decreases n
  {
    if n < 10 then [DigitChar(n)] else NatToString(n / 10) + [DigitChar(n % 10)]
  }

  /** `str(n)`. */
  function IntToString(n: int): (r: string)
    ensures |r| >= 1
    ensures forall i :: 0 <= i < |r| ==> IsAsciiDigit(r[i]) || r[i] == '-'
  {
    if n < 0 then "-" + NatToString(-n) else NatToString(n)
  }

  /** `abs(n)` on an integer. */
  function AbsInt(n: int): nat { if n < 0 then -n else n }

  function DigitsValue(s: string): nat
    requires AllDigits(s)
    decreases |s|
  {
    if s == [] then 0 else DigitsValue(s[..|s| - 1]) * 10 + DigitValue(s[|s| - 1])
  }

  lemma {:induction false} DigitsValueOfNat(n: nat)
    ensures DigitsValue(NatToString(n)) == n
    decreases n
  {
    if n >= 10 {
      var r := NatToString(n);
      assert r[..|r| - 1] == NatToString(n / 10);
      DigitsValueOfNat(n / 10);
    }
  }

  /** `int(s)` for ASCII decimal text: surrounding white space, an optional
      sign, one or more digits. */
  function ParseInt(s: string): Option<int> {
    ParseSigned(Strip(s))
  }

  /** A stripped numeral: an optional sign, then digits. */
  function ParseSigned(t: string): Option<int> {
    if t != [] && (t[0] == '-' || t[0] == '+') then
      match ParseDigits(t[1..])
      case None => None
      case Some(v) => Some(if t[0] == '-' then -(v as int) else v)
    else ParseDigits(t)
  }

  /** One or more decimal digits. */
  function ParseDigits(ds: string): Option<nat> {
    if ds != [] && AllDigits(ds) then Some(DigitsValue(ds)) else None
  }

  lemma StripNoSpaceEnds(s: string)
    requires s != [] && !IsSpace(s[0]) && !IsSpace(s[|s| - 1])
    ensures Strip(s) == s
  {
  }

  /** A run of digits parses as its decimal value. */
  lemma ParseIntDigits(t: string)
    requires t != [] && AllDigits(t)
    ensures ParseInt(t) == Some(DigitsValue(t))
  {
    StripNoSpaceEnds(t);
  }

  /** A minus sign and a run of digits parse as the negated value. */
  lemma ParseIntNegative(ds: string)
    requires ds != [] && AllDigits(ds)
    ensures ParseInt("-" + ds) == Some(-(DigitsValue(ds) as int))
  {
    var t := "-" + ds;
    assert t[0] == '-' && t[|t| - 1] == ds[|ds| - 1];
    StripNoSpaceEnds(t);
    assert ParseInt(t) == ParseSigned(t);
    ParseSignedNegative(ds);
  }

  lemma ParseSignedNegative(ds: string)
    requires ds != [] && AllDigits(ds)
    ensures ParseSigned("-" + ds) == Some(-(DigitsValue(ds) as int))
  {
    var t := "-" + ds;
    assert t[0] == '-' && t[1..] == ds;
  }

  /** `int()` rejects text holding a character that is neither white space,
      a digit nor a sign. */
  lemma ParseIntRejects(s: string, j: nat)
    requires j < |s| && !IsSpace(s[j]) && !IsAsciiDigit(s[j]) && s[j] != '-' && s[j] != '+'
    ensures ParseInt(s).None?
  {
    var t := Strip(s);
    var i: nat :| CutAt(s, t, IsSpace, i);
    assert i <= j < i + |t|;
    assert t[j - i] == s[j];
    if t[0] == '-' || t[0] == '+' {
      assert t[1..][j - i - 1] == s[j];
    }
  }

  /** `int(str(n)) == n`. */
  lemma IntToStringRoundTrip(n: int)
    ensures ParseInt(IntToString(n)) == Some(n)
  {
    if n < 0 {
      var ds := NatToString(-n);
      DigitsValueOfNat(-n);
      assert DigitsValue(ds) == -n;
      ParseIntNegative(ds);
      assert ParseInt("-" + ds) == Some(n);
      assert IntToString(n) == "-" + ds;
    } else {
      var ds := NatToString(n);
      DigitsValueOfNat(n);
      ParseIntDigits(ds);
    }
  }

  function Pow10(n: nat): (r: nat)
    ensures r >= 1
  {
    if n == 0 then 1 else 10 * Pow10(n - 1)
  }

  /** The first index of 'e' or 'E', or |s|. */
  function ExponentMark(s: string): (k: nat)
    ensures k <= |s|
    ensures forall i :: 0 <= i < k ==> s[i] != 'e' && s[i] != 'E'
    decreases |s|
  {
    if s == [] || s[0] == 'e' || s[0] == 'E' then 0 else 1 + ExponentMark(s[1..])
  }

  /** A decimal mantissa `digits[.digits]` or `.digits`. */
  function ParseMantissa(m: string): Option<real> {
    match IndexOf(m, '.')
    case None =>
      if m != [] && AllDigits(m) then Some(DigitsValue(m) as real) else None
    case Some(d) =>
      var whole, frac := m[..d], m[d + 1..];
      if AllDigits(whole) && AllDigits(frac) && |whole| + |frac| >= 1 then
        Some(DigitsValue(whole) as real + DigitsValue(frac) as real / Pow10(|frac|) as real)
      else None
  }

  /** The exponent digits after 'e' or 'E', with an optional sign. */
  function ParseExponent(e: string): Option<int> {
    if e != [] && (e[0] == '-' || e[0] == '+') then
      (if e[1..] != [] && AllDigits(e[1..]) then
         Some(if e[0] == '-' then -(DigitsValue(e[1..]) as int) else DigitsValue(e[1..]))
       else None)
    else if e != [] && AllDigits(e) then Some(DigitsValue(e))
    else None
  }

  /** `m * 10 ** e`, one power of ten at a time. */
  function Scale(m: real, e: int): real
    decreases if e < 0 then -e else e
  {
    if e == 0 then m else if e > 0 then Scale(m, e - 1) * 10.0 else Scale(m, e + 1) / 10.0
  }

  /** `float(s)` for finite decimal text: surrounding white space, an optional
      sign, a mantissa and an optional exponent `e[sign]digits`. */
  function ParseFloat(s: string): Option<real> {
    var t := Strip(s);
    var negative := t != [] && t[0] == '-';
    var body := if t != [] && (t[0] == '-' || t[0] == '+') then t[1..] else t;
    match ParseUnsigned(body)
    case None => None
    case Some(magnitude) => Some(if negative then -magnitude else magnitude)
  }

  /** A mantissa and an optional exponent, without a sign. */
  function ParseUnsigned(body: string): Option<real> {
    var k := ExponentMark(body);
    var mantissa := ParseMantissa(body[..k]);
    var exponent := if k == |body| then Some(0) else ParseExponent(body[k + 1..]);
    if mantissa.None? || exponent.None? then None
    else Some(Scale(mantissa.value, exponent.value))
  }

  /** `float()` of a run of digits is its decimal value. */
  lemma ParseFloatDigits(ds: string)
    requires ds != [] && AllDigits(ds)
    ensures ParseFloat(ds) == Some(DigitsValue(ds) as real)
  {
    StripNoSpaceEnds(ds);
    assert ds[0] != '-' && ds[0] != '+';
    ExponentMarkNone(ds);
    ParseFloatNoExponent(ds);
    assert '.' !in ds;
  }

  /** Without a sign and an exponent, `float()` is the mantissa's value. */
  lemma ParseFloatNoExponent(s: string)
    requires Strip(s) != [] && Strip(s)[0] != '-' && Strip(s)[0] != '+'
    requires ExponentMark(Strip(s)) == |Strip(s)|
    ensures ParseFloat(s) == ParseMantissa(Strip(s))
  {
    UnsignedNoExponent(Strip(s));
  }

  lemma UnsignedNoExponent(t: string)
    requires ExponentMark(t) == |t|
    ensures ParseUnsigned(t) == ParseMantissa(t)
  {
    assert t[..|t|] == t;
  }

  /** `float("a.f")` for runs of digits `a` and `f`, not both empty, is
      `a + f / 10 ** |f|`. */
  lemma ParseFloatFraction(a: string, f: string)
    requires AllDigits(a) && AllDigits(f) && |a| + |f| >= 1
    ensures ParseFloat(a + "." + f)
            == Some(DigitsValue(a) as real + DigitsValue(f) as real / Pow10(|f|) as real)
  {
    var t := a + "." + f;
    DottedPieces(a, f);
    DottedNoExponent(t, a, f);
    MantissaFraction(t, a, f);
  }

  lemma DottedPieces(a: string, f: string)
    ensures var t := a + "." + f;
            |t| == |a| + 1 + |f| && t[|a|] == '.' && t[..|a|] == a && t[|a| + 1..] == f
  {
    var t := a + "." + f;
    assert t == a + ("." + f);
    assert t[|a|..] == "." + f;
    assert t[|a| + 1..] == ("." + f)[1..];
  }

  lemma DottedNoExponent(t: string, a: string, f: string)
    requires AllDigits(a) && AllDigits(f) && |a| + |f| >= 1
    requires |t| == |a| + 1 + |f| && t[|a|] == '.' && t[..|a|] == a && t[|a| + 1..] == f
    ensures ParseFloat(t) == ParseMantissa(t)
  {
    DottedChars(t, a, f);
    StripNoSpaceEnds(t);
    ExponentMarkNone(t);
    ParseFloatNoExponent(t);
  }

  lemma DottedChars(t: string, a: string, f: string)
    requires AllDigits(a) && AllDigits(f)
    requires |t| == |a| + 1 + |f| && t[|a|] == '.' && t[..|a|] == a && t[|a| + 1..] == f
    ensures forall k :: 0 <= k < |t| ==> IsAsciiDigit(t[k]) || t[k] == '.'
  {
    forall k | 0 <= k < |t| ensures IsAsciiDigit(t[k]) || t[k] == '.' {
      if k < |a| {
        assert t[k] == t[..|a|][k];
      } else if k > |a| {
        assert t[k] == t[|a| + 1..][k - |a| - 1];
      }
    }
  }

  lemma MantissaFraction(t: string, a: string, f: string)
    requires AllDigits(a) && AllDigits(f) && |a| + |f| >= 1
    requires |t| == |a| + 1 + |f| && t[|a|] == '.' && t[..|a|] == a && t[|a| + 1..] == f
    ensures ParseMantissa(t)
            == Some(DigitsValue(a) as real + DigitsValue(f) as real / Pow10(|f|) as real)
  {
    assert forall k :: 0 <= k < |a| ==> t[k] == a[k] && t[k] != '.';
    IndexOfAt(t, '.', |a|);
  }

  /** `c` at `n` and nowhere before it: `IndexOf` finds `n`. */
  lemma IndexOfAt(t: string, c: char, n: nat)
    requires n < |t| && t[n] == c && forall k :: 0 <= k < n ==> t[k] != c
    ensures IndexOf(t, c) == Some(n)
  {
    assert t[n] in t;
  }

  /** Text without an 'e' or 'E' has no exponent part. */
  lemma {:induction false} ExponentMarkNone(ds: string)
    requires forall k :: 0 <= k < |ds| ==> ds[k] != 'e' && ds[k] != 'E'
    ensures ExponentMark(ds) == |ds|
    decreases |ds|
  {
    if ds != [] {
      ExponentMarkNone(ds[1..]);
    }
  }

  /** The first word of stripped text `" " + w + " " + rest` is `w`. */
  lemma StripFirstWord(w: string, rest: string)
    requires w != [] && forall k :: 0 <= k < |w| ==> !IsSpace(w[k])
    ensures var ws := Words(Strip(" " + w + " " + rest)); ws != [] && ws[0] == w
  {
    SpacedChars(w, rest);
    StrippedWord(" " + w + " " + rest, w);
  }

  lemma SpacedChars(w: string, rest: string)
    ensures var s := " " + w + " " + rest;
            |s| == |w| + 2 + |rest| && s[0] == ' ' && s[1 + |w|] == ' '
            && forall k :: 0 <= k < |w| ==> s[1 + k] == w[k]
  {
  }

  /** Text of a space, the word `w` and then a space or nothing more strips
      to text whose first word is `w`. */
  lemma StrippedWord(s: string, w: string)
    requires w != [] && forall k :: 0 <= k < |w| ==> !IsSpace(w[k])
    requires |w| + 2 <= |s| && IsSpace(s[0]) && IsSpace(s[1 + |w|])
    requires forall k :: 0 <= k < |w| ==> s[1 + k] == w[k]
    ensures var ws := Words(Strip(s)); ws != [] && ws[0] == w
  {
    var r := Strip(s);
    var i: nat :| CutAt(s, r, IsSpace, i);
    CutAtChars(s, r, IsSpace, i);
    assert s[1] == w[0] && !IsSpace(s[1]);
    assert s[|w|] == w[|w| - 1] && !IsSpace(s[|w|]);
    assert i <= 1;
    assert |w| < i + |r|;
    assert i == 1;
    assert |r| == |w| || IsSpace(r[|w|]);
    FirstWord(r, w);
  }

  /** Text that begins with the word `w` has `w` as its first word. */
  lemma FirstWord(r: string, w: string)
    requires w != [] && forall k :: 0 <= k < |w| ==> !IsSpace(w[k])
    requires |w| <= |r| && forall k :: 0 <= k < |w| ==> r[k] == w[k]
    requires |r| == |w| || IsSpace(r[|w|])
    ensures Words(r) != [] && Words(r)[0] == w
  {
    if |r| == |w| {
      assert r == w;
      WordsOne(w);
    } else {
      assert r == w + r[|w|..];
      WordsAfterWord(w, r[|w|..]);
    }
  }
}
