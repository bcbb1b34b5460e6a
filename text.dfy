/**
 * The string operations the components rely on: decimal rendering of numbers
 * (`Number.prototype.toString`, `padStart(2, '0')`), `String.prototype.trim`
 * and `toLowerCase`.
 */
module Text {

  predicate IsDigit(c: char) {
    '0' <= c <= '9'
  }

  predicate AllDigits(s: string) {
    forall i :: 0 <= i < |s| ==> IsDigit(s[i])
  }

  function DigitValue(c: char): (d: nat)
    requires IsDigit(c)
    ensures d < 10
  {
    (c as int) - ('0' as int)
  }

  function DigitChar(d: nat): (c: char)
    requires d < 10
    ensures IsDigit(c) && DigitValue(c) == d
  {
    (('0' as int) + d) as char
  }

  /** The number a string of decimal digits denotes (most significant digit first). */
  function DigitsValue(s: string): nat
    requires AllDigits(s)
  {
    if s == [] then 0 else DigitsValue(s[..|s| - 1]) * 10 + DigitValue(s[|s| - 1])
  }

  /** The decimal form of a natural number: at least one digit, no leading zero. */
  function NatToString(n: nat): (r: string)
    ensures 1 <= |r| && AllDigits(r)
    ensures |r| == 1 <==> n < 10
    ensures |r| > 1 ==> r[0] != '0'
    decreases n
  {
    if n < 10 then [DigitChar(n)] else NatToString(n / 10) + [DigitChar(n % 10)]
  }

  /** The decimal form of an integer, with a leading '-' for a negative one. */
  function IntToString(i: int): (r: string)
    ensures 1 <= |r|
    ensures r[0] == '-' <==> i < 0
    ensures i >= 0 ==> r == NatToString(i)
  {
    if i < 0 then "-" + NatToString(-i) else NatToString(i)
  }

  lemma {:induction false} NatToStringRoundTrip(n: nat)
    ensures DigitsValue(NatToString(n)) == n
    decreases n
  {
    if n >= 10 {
      var r := NatToString(n);
      NatToStringRoundTrip(n / 10);
      assert r[..|r| - 1] == NatToString(n / 10);
    }
  }

  /** Distinct numbers have distinct decimal forms. */
  lemma NatToStringInjective(a: nat, b: nat)
    ensures NatToString(a) == NatToString(b) <==> a == b
  {
    if NatToString(a) == NatToString(b) {
      NatToStringRoundTrip(a);
      NatToStringRoundTrip(b);
    }
  }

  /** Distinct integers have distinct decimal forms. */
  lemma IntToStringInjective(a: int, b: int)
    ensures IntToString(a) == IntToString(b) <==> a == b
  {
    if IntToString(a) == IntToString(b) {
      if a < 0 {
        assert IntToString(a)[1..] == NatToString(-a);
        assert IntToString(b)[1..] == NatToString(-b);
        NatToStringInjective(-a, -b);
      } else {
        NatToStringInjective(a, b);
      }
    }
  }

  /** A string made of a part without the marker `c` and then the marker starts that marker at
      the first occurrence, so no longer such part can describe the same string. */
  lemma MarkerBound(x: string, y: string, u: string, v: string, c: char)
    requires c !in x
    requires x + [c] + y == u + [c] + v
    ensures |x| <= |u|
  {
    var s := u + [c] + v;
    assert s[|u|] == c;
    assert forall i :: 0 <= i < |x| ==> s[i] == x[i];
  }

  /** Two strings that each reach a marker character before any other occurrence of it split a
      common string at the same place. */
  lemma SplitAtMarker(x: string, y: string, u: string, v: string, c: char)
    requires c !in x && c !in u
    requires x + [c] + y == u + [c] + v
    ensures x == u && y == v
  {
    MarkerBound(x, y, u, v, c);
    MarkerBound(u, v, x, y, c);
    var s := x + [c] + y;
    assert x == s[..|x|] && u == s[..|u|];
    assert y == s[|x| + 1..] && v == s[|u| + 1..];
  }

  /** A line of two fields, `a + p + x + q`, whose separator `p` holds a marker character that
      neither the first field nor the text before the marker holds, determines both fields. */
  lemma TwoFieldLine(a: string, x: string, b: string, y: string, p: string, q: string, k: nat, c: char)
    requires k < |p| && p[k] == c && c !in p[..k] && c !in a && c !in b
    requires a + p + x + q == b + p + y + q
    ensures a == b && x == y
  {
    var front, back := p[..k], p[k + 1..];
    assert p == front + [c] + back;
    assert a + p + x + q == (a + front) + [c] + (back + x + q);
    assert b + p + y + q == (b + front) + [c] + (back + y + q);
    SplitAtMarker(a + front, back + x + q, b + front, back + y + q, c);
    assert a == (a + front)[..|a|] && b == (b + front)[..|b|];
    assert x == (back + x + q)[|back|..|back| + |x|] && y == (back + y + q)[|back|..|back| + |y|];
  }

  /** A number written in front of text that does not start with a digit can be read off again:
      both the number and the text that follows it are determined. */
  lemma NumberPrefixUnique(a: nat, b: nat, x: string, y: string)
    requires x != [] && !IsDigit(x[0]) && y != [] && !IsDigit(y[0])
    ensures NatToString(a) + x == NatToString(b) + y <==> a == b && x == y
  {
    var s, t := NatToString(a), NatToString(b);
    if s + x == t + y {
      assert s == (s + x)[..|s|];
      assert t == (t + y)[..|t|];
      NatToStringInjective(a, b);
      assert x == (s + x)[|s|..];
      assert y == (t + y)[|t|..];
    }
  }

  /** A leading zero does not change the number a digit string denotes. */
  lemma {:induction false} LeadingZeroValue(s: string)
    requires AllDigits(s)
    ensures AllDigits("0" + s) && DigitsValue("0" + s) == DigitsValue(s)
    decreases |s|
  {
    var t := "0" + s;
    if s != [] {
      LeadingZeroValue(s[..|s| - 1]);
      assert t[..|t| - 1] == "0" + s[..|s| - 1];
    } else {
      assert t[..0] == [];
    }
  }

  /** `s.padStart(2, '0')`: zeros in front until the string has two characters. */
  function PadStart2(s: string): (r: string)
    ensures |r| == if |s| < 2 then 2 else |s|
    ensures r[|r| - |s|..] == s
    ensures forall i :: 0 <= i < |r| - |s| ==> r[i] == '0'
  {
    if |s| == 0 then "00" else if |s| == 1 then "0" + s else s
  }

  /** Padding a digit string with zeros keeps its value. */
  lemma PadStart2Value(s: string)
    requires AllDigits(s)
    ensures AllDigits(PadStart2(s)) && DigitsValue(PadStart2(s)) == DigitsValue(s)
  {
    if |s| == 0 {
      assert "00" == "0" + "0";
      LeadingZeroValue("0");
      LeadingZeroValue("");
    } else if |s| == 1 {
      LeadingZeroValue(s);
    }
  }

  /** The characters `String.prototype.trim` removes: ECMAScript WhiteSpace and LineTerminator. */
  predicate IsWhitespace(c: char) {
    || c == '\t' || c == '\n' || c == '\U{000B}' || c == '\U{000C}' || c == '\r' || c == ' '
    || c == '\U{00A0}' || c == '\U{1680}' || ('\U{2000}' <= c <= '\U{200A}')
    || c == '\U{2028}' || c == '\U{2029}' || c == '\U{202F}' || c == '\U{205F}'
    || c == '\U{3000}' || c == '\U{FEFF}'
  }

  /** A string that is empty once trimmed. */
  predicate IsBlank(s: string) {
    forall i :: 0 <= i < |s| ==> IsWhitespace(s[i])
  }

  function TrimStart(s: string): (r: string)
    ensures |r| <= |s| && r == s[|s| - |r|..]
    ensures IsBlank(s[..|s| - |r|])
    ensures r == [] || !IsWhitespace(r[0])
  {
    if s != [] && IsWhitespace(s[0]) then
      var t := s[1..];
      var r := TrimStart(t);
      var k := |t| - |r|;
      assert t[k..] == s[k + 1..];
      var front := s[..k + 1];
      assert front == [s[0]] + t[..k];
      forall i | 0 <= i < |front| ensures IsWhitespace(front[i]) {
        if i > 0 {
          assert front[i] == t[..k][i - 1];
        }
      }
      r
    else
      s
  }

  function TrimEnd(s: string): (r: string)
    ensures |r| <= |s| && r == s[..|r|]
    ensures IsBlank(s[|r|..])
    ensures r == [] || !IsWhitespace(r[|r| - 1])
  {
    if s != [] && IsWhitespace(s[|s| - 1]) then
      var t := s[..|s| - 1];
      var r := TrimEnd(t);
      assert t[..|r|] == s[..|r|];
      var back := s[|r|..];
      assert back == t[|r|..] + [s[|s| - 1]];
      forall i | 0 <= i < |back| ensures IsWhitespace(back[i]) {
        if i < |t| - |r| {
          assert back[i] == t[|r|..][i];
        }
      }
      r
    else
      s
  }

  /** `s.trim()`: what is left of `s` once the whitespace at both ends is taken off; it is empty
      exactly when `s` is blank. */
  function Trim(s: string): (r: string)
    ensures |r| <= |s|
    ensures r == [] || (!IsWhitespace(r[0]) && !IsWhitespace(r[|r| - 1]))
    ensures r == [] <==> IsBlank(s)
    ensures exists k :: 0 <= k <= |s| - |r| && r == s[k..k + |r|] && IsBlank(s[..k]) && IsBlank(s[k + |r|..])
  {
    var t := TrimStart(s);
    var r := TrimEnd(t);
    BlankSplit(s, |s| - |t|);
    SliceOfSuffix(s, t, r);
    r
  }

  /** A prefix `r` of a suffix `t` of `s` is the slice of `s` where `t` starts, and what follows
      it in `s` is what follows it in `t`. */
  lemma SliceOfSuffix(s: string, t: string, r: string)
    requires |t| <= |s| && t == s[|s| - |t|..]
    requires |r| <= |t| && r == t[..|r|]
    ensures var k := |s| - |t|; r == s[k..k + |r|] && s[k + |r|..] == t[|r|..]
  {
  }

  /** `!s.trim()`: whether nothing is left of `s` once it is trimmed. */
  method TrimsToEmpty(s: string) returns (empty: bool)
    ensures empty <==> IsBlank(s)
  {
    empty := Trim(s) == "";
  }

  lemma BlankSplit(s: string, k: nat)
    requires k <= |s|
    ensures IsBlank(s) <==> IsBlank(s[..k]) && IsBlank(s[k..])
  {
    if IsBlank(s[..k]) && IsBlank(s[k..]) {
      forall i | 0 <= i < |s| ensures IsWhitespace(s[i]) {
        if i < k { assert s[i] == s[..k][i]; } else { assert s[i] == s[k..][i - k]; }
      }
    }
  }

  /** Trimming twice is trimming once. */
  lemma TrimIdempotent(s: string)
    ensures Trim(Trim(s)) == Trim(s)
  {
    var r := Trim(s);
    if r != [] {
      assert !IsWhitespace(r[0]);
      assert TrimStart(r) == r;
      assert TrimEnd(r) == r;
    }
  }

  /** A number written after a common prefix and before a non-digit is read back whole: the
      prefix, the number and the rest are all determined. */
  lemma PrefixedNumberUnique(p: string, a: nat, b: nat, x: string, y: string)
    requires x != [] && !IsDigit(x[0]) && y != [] && !IsDigit(y[0])
    ensures p + NatToString(a) + x == p + NatToString(b) + y <==> a == b && x == y
  {
    var u, v := NatToString(a) + x, NatToString(b) + y;
    assert p + NatToString(a) + x == p + u && p + NatToString(b) + y == p + v;
    NumberPrefixUnique(a, b, x, y);
    if p + u == p + v {
      assert u == (p + u)[|p|..] && v == (p + v)[|p|..];
    }
  }

  /** Lower-casing of the Basic Latin capitals; every other character is left as it is. */
  function LowerChar(c: char): char {
    if 'A' <= c <= 'Z' then ((c as int) + 32) as char else c
  }

  function UpperChar(c: char): char {
    if 'a' <= c <= 'z' then ((c as int) - 32) as char else c
  }

  /** `s.toLowerCase()` restricted to Basic Latin letters. */
  function ToLower(s: string): (r: string)
    ensures |r| == |s| && forall i :: 0 <= i < |s| ==> r[i] == LowerChar(s[i])
  {
    seq(|s|, i requires 0 <= i < |s| => LowerChar(s[i]))
  }
}
