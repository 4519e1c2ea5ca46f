/**
 The string operations behind the search box and the stored semester values:
 `String.prototype.trim`, `toLowerCase`, `includes`, `String(n)` and `Number(p)`.
 Strings are sequences of Unicode scalar values.
 */
module Strings {
  import opened Options

  // ---------------- trim ----------------

  /** The characters `trim` removes: ECMAScript WhiteSpace and LineTerminator. */
  predicate IsJsWhitespace(c: char) {
    || c == '\t' || c == '\n' || c == '\U{B}' || c == '\U{C}' || c == '\r' || c == ' '
    || c == '\U{A0}' || c == '\U{1680}' || ('\U{2000}' <= c <= '\U{200A}')
    || c == '\U{2028}' || c == '\U{2029}' || c == '\U{202F}' || c == '\U{205F}'
    || c == '\U{3000}' || c == '\U{FEFF}'
  }

  predicate AllWhitespace(s: string) {
    forall k :: 0 <= k < |s| ==> IsJsWhitespace(s[k])
  }

  /** Drops leading whitespace: the result is the suffix of `s` that starts at its first non-whitespace character. */
  function TrimStart(s: string): (r: string)
    ensures |r| <= |s| && r == s[|s| - |r|..]
    ensures AllWhitespace(s[..|s| - |r|])
    ensures |r| > 0 ==> !IsJsWhitespace(r[0])
  {
    if |s| > 0 && IsJsWhitespace(s[0]) then TrimStart(s[1..]) else s
  }

  /** Drops trailing whitespace: the result is the prefix of `s` that ends at its last non-whitespace character. */
  function TrimEnd(s: string): (r: string)
    ensures |r| <= |s| && r == s[..|r|]
    ensures AllWhitespace(s[|r|..])
    ensures |r| > 0 ==> !IsJsWhitespace(r[|r| - 1])
  {
    if |s| > 0 && IsJsWhitespace(s[|s| - 1]) then TrimEnd(s[..|s| - 1]) else s
  }

  /** JavaScript's `trim`: whitespace removed from both ends. */
  function Trim(s: string): (r: string)
    ensures r == [] <==> AllWhitespace(s)
    ensures |r| > 0 ==> !IsJsWhitespace(r[0]) && !IsJsWhitespace(r[|r| - 1])
  {
    TrimNothingLeft(s);
    TrimEndsKept(s);
    TrimEnd(TrimStart(s))
  }

  /** After trimming both ends, neither end of what is left is whitespace. */
  lemma TrimEndsKept(s: string)
    ensures |TrimEnd(TrimStart(s))| > 0 ==>
              !IsJsWhitespace(TrimEnd(TrimStart(s))[0]) && !IsJsWhitespace(TrimEnd(TrimStart(s))[|TrimEnd(TrimStart(s))| - 1])
  {
    var t := TrimStart(s);
    var r := TrimEnd(t);
    if |r| > 0 {
      assert r[0] == t[0];
    }
  }

  /** `trim` cuts only whitespace, and only from the two ends: what it keeps is a slice of the input. */
  lemma TrimKeepsMiddle(s: string)
    ensures exists i, j :: 0 <= i <= j <= |s| && Trim(s) == s[i..j] && AllWhitespace(s[..i]) && AllWhitespace(s[j..])
  {
    var t := TrimStart(s);
    var r := TrimEnd(t);
    SuffixPrefix(s, t, r);
    var i := |s| - |t|;
    var j := i + |r|;
    assert Trim(s) == r == s[i..j];
    assert AllWhitespace(s[..i]) && AllWhitespace(s[j..]);
  }

  /** A prefix `r` of a suffix `t` of `s` is a slice of `s`; what follows `r` in `t` follows it in `s`. */
  lemma SuffixPrefix(s: string, t: string, r: string)
    requires |t| <= |s| && t == s[|s| - |t|..]
    requires |r| <= |t| && r == t[..|r|] && AllWhitespace(t[|r|..])
    ensures r == s[|s| - |t|..|s| - |t| + |r|]
    ensures AllWhitespace(s[|s| - |t| + |r|..])
  {
    var i := |s| - |t|;
    var j := i + |r|;
    forall k | 0 <= k < |r|
      ensures r[k] == s[i + k]
    {
      assert r[k] == t[k] == s[i..][k];
    }
    assert r == s[i..j];
    forall k | 0 <= k < |s| - j
      ensures IsJsWhitespace(s[j..][k])
    {
      assert s[j..][k] == t[|r| + k] == t[|r|..][k];
    }
  }

  /** Trimming both ends leaves nothing exactly when every character is whitespace. */
  lemma TrimNothingLeft(s: string)
    ensures TrimEnd(TrimStart(s)) == [] <==> AllWhitespace(s)
  {
    var t := TrimStart(s);
    var p := |s| - |t|;
    if TrimEnd(t) == [] {
      assert t[0..] == t;
      assert t == [];
      assert s[..p] == s;
    }
  }

  // ---------------- toLowerCase ----------------

  /** Upper-case letters with a one-to-one lower-case partner 32 code points above: ASCII A-Z and Latin-1 À-Þ except ×. */
  predicate IsUpperLatin(c: char) {
    ('A' <= c <= 'Z') || ('\U{C0}' <= c <= '\U{DE}' && c != '\U{D7}')
  }

  function LowerChar(c: char): (r: char)
    ensures IsUpperLatin(c) ==> r as int == c as int + 32
    ensures !IsUpperLatin(c) ==> r == c
    ensures !IsUpperLatin(r)
  {
    if IsUpperLatin(c) then (c as int + 32) as char else c
  }

  /**
   `s.toLowerCase()` on the letters above: no upper-case letter is left, each
   one becomes its lower-case partner, and every other character stays put.
   */
  function Lower(s: string): (r: string)
    ensures |r| == |s|
    ensures forall k :: 0 <= k < |s| ==> !IsUpperLatin(r[k])
    ensures forall k :: 0 <= k < |s| && !IsUpperLatin(s[k]) ==> r[k] == s[k]
    ensures forall k :: 0 <= k < |s| && IsUpperLatin(s[k]) ==> r[k] as int == s[k] as int + 32
  {
    seq(|s|, k requires 0 <= k < |s| => LowerChar(s[k]))
  }

  /** Lower-casing twice is lower-casing once. */
  lemma LowerIdempotent(s: string)
    ensures Lower(Lower(s)) == Lower(s)
  {
  }

  lemma LowerSlice(s: string, i: nat, j: nat)
    requires i <= j <= |s|
    ensures Lower(s[i..j]) == Lower(s)[i..j]
  {
  }

  /** Lower-casing never turns whitespace into non-whitespace or back, so it commutes with `trim`. */
  lemma {:induction false} LowerTrimCommute(s: string)
    ensures Lower(Trim(s)) == Trim(Lower(s))
  {
    LowerTrimStartCommute(s);
    LowerTrimEndCommute(TrimStart(s));
  }

  lemma {:induction false} LowerTrimStartCommute(s: string)
    ensures Lower(TrimStart(s)) == TrimStart(Lower(s))
  {
    if |s| > 0 && IsJsWhitespace(s[0]) {
      LowerSlice(s, 1, |s|);
      assert s[1..|s|] == s[1..];
      assert Lower(s[1..]) == Lower(s)[1..];
      assert Lower(s)[0] == s[0];
      LowerTrimStartCommute(s[1..]);
    } else {
      assert |s| > 0 ==> !IsJsWhitespace(Lower(s)[0]);
    }
  }

  lemma {:induction false} LowerTrimEndCommute(s: string)
    ensures Lower(TrimEnd(s)) == TrimEnd(Lower(s))
  {
    if |s| > 0 && IsJsWhitespace(s[|s| - 1]) {
      LowerSlice(s, 0, |s| - 1);
      assert Lower(s)[|s| - 1] == s[|s| - 1];
      LowerTrimEndCommute(s[..|s| - 1]);
    } else {
      assert |s| > 0 ==> !IsJsWhitespace(Lower(s)[|s| - 1]);
    }
  }

  // ---------------- includes ----------------

  /** Reference meaning of "`needle` occurs in `hay`": some window of `hay` equals `needle`. */
  ghost predicate OccursIn(needle: string, hay: string) {
    exists i :: OccursAt(needle, hay, i)
  }

  predicate OccursAt(needle: string, hay: string, i: int) {
    0 <= i <= |hay| - |needle| && hay[i..i + |needle|] == needle
  }

  /** `hay.includes(needle)`, by trying each start position in turn. */
  function Includes(hay: string, needle: string): (r: bool)
    ensures r <==> OccursIn(needle, hay)
  {
    if |needle| <= |hay| && hay[..|needle|] == needle then
      assert OccursAt(needle, hay, 0);
      true
    else if |hay| == 0 then
      false
    else
      OccursShift(needle, hay);
      Includes(hay[1..], needle)
  }

  /** When `needle` is not a prefix of `hay`, it occurs in `hay` exactly when it occurs in the tail. */
  lemma OccursShift(needle: string, hay: string)
    requires |hay| > 0
    requires !(|needle| <= |hay| && hay[..|needle|] == needle)
    ensures OccursIn(needle, hay) <==> OccursIn(needle, hay[1..])
  {
    if OccursIn(needle, hay) {
      var i :| OccursAt(needle, hay, i);
      assert i != 0;
      assert hay[1..][i - 1..i - 1 + |needle|] == needle;
      assert OccursAt(needle, hay[1..], i - 1);
    }
    if OccursIn(needle, hay[1..]) {
      var i :| OccursAt(needle, hay[1..], i);
      assert hay[i + 1..i + 1 + |needle|] == needle;
      assert OccursAt(needle, hay, i + 1);
    }
  }

  // ---------------- String(n) and Number(p) ----------------

  predicate IsDigit(c: char) {
    '0' <= c <= '9'
  }

  function DigitChar(d: nat): (c: char)
    requires d < 10
    ensures IsDigit(c) && DigitValue(c) == d
  {
    ('0' as int + d) as char
  }

  function DigitValue(c: char): nat
    requires IsDigit(c)
  {
    c as int - '0' as int
  }

  /** The value of a string of decimal digits, most significant first. */
  function DigitsValue(s: string): nat
    requires forall k :: 0 <= k < |s| ==> IsDigit(s[k])
  {
    if |s| == 0 then 0
    else 10 * DigitsValue(s[..|s| - 1]) + DigitValue(s[|s| - 1])
  }

  /** `String(n)` for a natural number: its decimal digits without leading zeros. */
  function NatToString(n: nat): (r: string)
    ensures |r| > 0
    ensures forall k :: 0 <= k < |r| ==> IsDigit(r[k])
    ensures |r| > 1 ==> r[0] != '0'
  {
    if n < 10 then [DigitChar(n)] else NatToString(n / 10) + [DigitChar(n % 10)]
  }

  /** An integer written out in decimal, with a leading minus sign when negative, as a template literal does. */
  function IntToString(i: int): string {
    if i < 0 then "-" + NatToString(-i) else NatToString(i)
  }

  /**
   `Number(p)` on a stored semester string, restricted to plain decimal
   numerals: a non-empty run of digits reads as its value, anything else as
   not-a-number.
   */
  function ParseDecimal(s: string): (r: Option<nat>)
    ensures r.Some? <==> |s| > 0 && forall k :: 0 <= k < |s| ==> IsDigit(s[k])
  {
    if |s| > 0 && forall k :: 0 <= k < |s| ==> IsDigit(s[k]) then Some(DigitsValue(s)) else None
  }

  /** Writing a number and reading it back gives the number. */
  lemma {:induction false} ParseNatToString(n: nat)
    ensures ParseDecimal(NatToString(n)) == Some(n)
  {
    DigitsOfNatToString(n);
  }

  lemma {:induction false} DigitsOfNatToString(n: nat)
    ensures DigitsValue(NatToString(n)) == n
  {
    var r := NatToString(n);
    if n >= 10 {
      DigitsOfNatToString(n / 10);
      assert r[..|r| - 1] == NatToString(n / 10);
    }
  }
  /** A leading zero does not change what `Number` reads: "03" reads as 3, and "0x" is no number because "x" is none. */
  lemma ParseLeadingZero(s: string)
    requires |s| > 1 && s[0] == '0'
    ensures ParseDecimal(s) == ParseDecimal(s[1..])
  {
    if forall k :: 0 <= k < |s| ==> IsDigit(s[k]) {
      DigitsValueLeadingZero(s);
    } else {
      var k :| 0 <= k < |s| && !IsDigit(s[k]);
      assert !IsDigit(s[1..][k - 1]);
    }
  }

  /** A numeral without leading zeros is exactly how `String` writes the number it reads as. */
  lemma ParseCanonical(s: string)
    requires ParseDecimal(s).Some? && (|s| == 1 || s[0] != '0')
    ensures NatToString(ParseDecimal(s).value) == s
  {
    CanonicalDigits(s);
  }

  lemma {:induction false} DigitsValueLeadingZero(s: string)
    requires |s| > 0 && s[0] == '0' && forall k :: 0 <= k < |s| ==> IsDigit(s[k])
    ensures DigitsValue(s) == DigitsValue(s[1..])
  {
    if |s| > 1 {
      var p := s[..|s| - 1];
      DigitsValueLeadingZero(p);
      assert p[1..] == s[1..][..|s| - 2];
      assert s[1..][|s| - 2] == s[|s| - 1];
    }
  }

  lemma {:induction false} DigitsValuePositive(s: string)
    requires |s| > 0 && s[0] != '0' && forall k :: 0 <= k < |s| ==> IsDigit(s[k])
    ensures DigitsValue(s) > 0
  {
    if |s| > 1 {
      DigitsValuePositive(s[..|s| - 1]);
    }
  }

  lemma {:induction false} CanonicalDigits(s: string)
    requires |s| > 0 && (|s| == 1 || s[0] != '0') && forall k :: 0 <= k < |s| ==> IsDigit(s[k])
    ensures NatToString(DigitsValue(s)) == s
  {
    var n := DigitsValue(s);
    if |s| == 1 {
      assert s[..0] == [];
      assert n == 10 * DigitsValue(s[..0]) + DigitValue(s[0]);
      assert DigitsValue(s[..0]) == 0;
      assert DigitValue(s[0]) < 10;
      assert [DigitChar(n)] == s;
    } else {
      var p := s[..|s| - 1];
      DigitsValuePositive(p);
      CanonicalDigits(p);
      assert n / 10 == DigitsValue(p) && n % 10 == DigitValue(s[|s| - 1]);
      assert s == p + [s[|s| - 1]];
    }
  }
}
