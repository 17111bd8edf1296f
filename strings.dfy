/**
 * String operations of the JavaScript runtime that the dashboard relies on:
 * `String.prototype.trim`, the decimal rendering `String(n)` of an integer,
 * and `Array.prototype.join` / `String.prototype.split`.
 */
module Strings {

  /** ECMAScript WhiteSpace and LineTerminator code points (what `trim` removes). */
  predicate IsJsWhitespace(c: char) {
    || c == '\t' || c == '\n' || c == '\U{000B}' || c == '\U{000C}' || c == '\r'
    || c == ' ' || c == '\U{00A0}' || c == '\U{1680}'
    || ('\U{2000}' <= c <= '\U{200A}')
    || c == '\U{2028}' || c == '\U{2029}' || c == '\U{202F}' || c == '\U{205F}'
    || c == '\U{3000}' || c == '\U{FEFF}'
  }

  /** Every character is whitespace (the empty string included). */
  predicate IsBlank(s: string) {
    forall i :: 0 <= i < |s| ==> IsJsWhitespace(s[i])
  }

  /** `s` with its leading whitespace removed: a suffix of `s`. */
  function TrimStart(s: string): (r: string)
    ensures |r| <= |s| && r == s[|s| - |r|..]
    ensures r != [] ==> !IsJsWhitespace(r[0])
    ensures IsBlank(s[..|s| - |r|])
  {
    if s != [] && IsJsWhitespace(s[0]) then
      var t := s[1..];
      var r := TrimStart(t);
      assert r == s[|s| - |r|..] by { assert t[|t| - |r|..] == s[|s| - |r|..]; }
      assert s[..|s| - |r|] == [s[0]] + t[..|t| - |r|];
      r
    else s
  }

  /** `s` with its trailing whitespace removed: a prefix of `s`. */
  function TrimEnd(s: string): (r: string)
    ensures |r| <= |s| && r == s[..|r|]
    ensures r != [] ==> !IsJsWhitespace(r[|r| - 1])
    ensures IsBlank(s[|r|..])
  {
    if s != [] && IsJsWhitespace(s[|s| - 1]) then
      var t := s[..|s| - 1];
      var r := TrimEnd(t);
      assert r == s[..|r|] by { assert t[..|r|] == s[..|r|]; }
      assert s[|r|..] == t[|r|..] + [s[|s| - 1]];
      r
    else s
  }

  /** `String.prototype.trim`. */
  function Trim(s: string): string {
    TrimEnd(TrimStart(s))
  }

  /** `s.trim()` is empty (falsy) exactly when `s` is all whitespace. */
  lemma TrimEmptyIffBlank(s: string)
    ensures Trim(s) == [] <==> IsBlank(s)
  {
    var t := TrimStart(s);
    if Trim(s) == [] {
      assert IsBlank(t[0..]);
      assert t == [];
      assert s[..|s|] == s;
    } else {
      var r := Trim(s);
      assert r[0] == t[0];
      assert !IsJsWhitespace(t[0]);
      assert s[|s| - |t|] == t[0];
    }
  }

  /** The digit character for `d`. */
  function DigitChar(d: nat): char
    requires d < 10
  {
    "0123456789"[d]
  }

  predicate IsDigit(c: char) {
    '0' <= c <= '9'
  }

  /** The numeric value of a digit character. */
  function DigitValue(c: char): (d: nat)
    requires IsDigit(c)
    ensures d < 10
  {
    (c as int - '0' as int) as nat
  }

  /** The decimal digits of `n`, most significant first, without leading zeros. */
  function NatToDecimal(n: nat): (s: string)
    ensures |s| >= 1
    ensures forall i :: 0 <= i < |s| ==> IsDigit(s[i])
    ensures |s| > 1 ==> s[0] != '0'
    decreases n
  {
    if n < 10 then [DigitChar(n)] else NatToDecimal(n / 10) + [DigitChar(n % 10)]
  }

  /** `String(i)` for an integer-valued number of moderate size. */
  function IntToDecimal(i: int): string {
    if i < 0 then "-" + NatToDecimal(-i) else NatToDecimal(i)
  }

  /** Reads back a non-empty string of decimal digits. */
  function ParseNat(s: string): nat
    requires |s| >= 1 && forall i :: 0 <= i < |s| ==> IsDigit(s[i])
    decreases |s|
  {
    if |s| == 1 then DigitValue(s[0])
    else ParseNat(s[..|s| - 1]) * 10 + DigitValue(s[|s| - 1])
  }

  /** An optionally `-`-signed, non-empty run of decimal digits. */
  predicate IsIntLiteral(s: string) {
    if |s| >= 1 && s[0] == '-' then |s| >= 2 && forall i :: 1 <= i < |s| ==> IsDigit(s[i])
    else |s| >= 1 && forall i :: 0 <= i < |s| ==> IsDigit(s[i])
  }

  /** Reads back an optionally `-`-signed decimal integer. */
  function ParseInt(s: string): int
    requires IsIntLiteral(s)
  {
    if s[0] == '-' then 0 - ParseNat(s[1..]) else ParseNat(s)
  }

  lemma {:induction false} NatToDecimalRoundTrip(n: nat)
    ensures ParseNat(NatToDecimal(n)) == n
    decreases n
  {
    if n >= 10 {
      var s := NatToDecimal(n);
      NatToDecimalRoundTrip(n / 10);
      assert s[..|s| - 1] == NatToDecimal(n / 10);
    }
  }

  /** The decimal rendering of an integer is read back as the same integer. */
  lemma IntToDecimalRoundTrip(i: int)
    ensures IsIntLiteral(IntToDecimal(i)) && ParseInt(IntToDecimal(i)) == i
  {
    var s := IntToDecimal(i);
    if i < 0 {
      NatToDecimalRoundTrip(-i);
      assert s[1..] == NatToDecimal(-i);
      assert forall k :: 1 <= k < |s| ==> s[k] == s[1..][k - 1];
    } else {
      NatToDecimalRoundTrip(i);
    }
  }

  /** The rendering is injective: distinct integers print differently. */
  lemma IntToDecimalInjective(i: int, j: int)
    requires IntToDecimal(i) == IntToDecimal(j)
    ensures i == j
  {
    IntToDecimalRoundTrip(i);
    IntToDecimalRoundTrip(j);
  }

  /** `parts.join(sep)`. */
  function Join(parts: seq<string>, sep: string): string
    decreases |parts|
  {
    if |parts| == 0 then ""
    else if |parts| == 1 then parts[0]
    else parts[0] + sep + Join(parts[1..], sep)
  }

  /** A join ends with its last part. */
  lemma {:induction false} JoinEndsWithLast(parts: seq<string>, sep: string)
    requires |parts| >= 1
    ensures var j := Join(parts, sep); var last := parts[|parts| - 1];
      |last| <= |j| && j[|j| - |last|..] == last
    decreases |parts|
  {
    if |parts| > 1 {
      JoinEndsWithLast(parts[1..], sep);
      var tail := Join(parts[1..], sep);
      var j := parts[0] + sep + tail;
      assert j[|parts[0] + sep|..] == tail;
      assert j[|j| - |parts[|parts| - 1]|..] == tail[|tail| - |parts[|parts| - 1]|..];
    }
  }

  /** `s.split(sep)` for a non-empty separator: cut at every leftmost occurrence. */
  function Split(s: string, sep: string): (r: seq<string>)
    requires |sep| > 0
    ensures |r| >= 1
    decreases |s|
  {
    if |sep| <= |s| && s[..|sep|] == sep then [""] + Split(s[|sep|..], sep)
    else if s == [] then [""]
    else
      var rest := Split(s[1..], sep);
      [[s[0]] + rest[0]] + rest[1..]
  }

  /** One unfolding of `Split` at a position where the separator does not start. */
  lemma SplitStep(s: string, sep: string)
    requires |sep| > 0 && s != [] && s[0] != sep[0]
    ensures Split(s, sep) == [[s[0]] + Split(s[1..], sep)[0]] + Split(s[1..], sep)[1..]
  {
    if |sep| <= |s| {
      assert s[..|sep|][0] == s[0];
    }
  }

  /** A string with no occurrence of the separator's first character is not cut. */
  lemma {:induction false} SplitNoSeparator(x: string, sep: string, rest: string)
    requires |sep| > 0
    requires forall i :: 0 <= i < |x| ==> x[i] != sep[0]
    ensures Split(x + rest, sep) == if |x| == 0 then Split(rest, sep)
                                    else [x + Split(rest, sep)[0]] + Split(rest, sep)[1..]
    decreases |x|
  {
    if |x| == 0 {
      assert x + rest == rest;
    } else {
      var s := x + rest;
      var x' := x[1..];
      assert s[0] == x[0];
      assert s[1..] == x' + rest;
      SplitStep(s, sep);
      SplitNoSeparator(x', sep, rest);
      var tail := Split(rest, sep);
      if |x'| == 0 {
        assert x' + rest == rest;
        assert [s[0]] + tail[0] == x + tail[0];
      } else {
        assert [s[0]] + (x' + tail[0]) == x + tail[0];
      }
    }
  }

  /**
   * `split` undoes `join` when no part contains the separator's first
   * character (so no occurrence of the separator starts inside a part).
   */
  lemma {:induction false} SplitJoin(parts: seq<string>, sep: string)
    requires |sep| > 0 && |parts| >= 1
    requires forall p, i :: p in parts && 0 <= i < |p| ==> p[i] != sep[0]
    ensures Split(Join(parts, sep), sep) == parts
    decreases |parts|
  {
    if |parts| == 1 {
      SplitNoSeparator(parts[0], sep, "");
      assert parts[0] + "" == parts[0];
    } else {
      var tail := Join(parts[1..], sep);
      SplitJoin(parts[1..], sep);
      var s := sep + tail;
      assert s[..|sep|] == sep;
      assert s[|sep|..] == tail;
      assert Split(s, sep) == [""] + parts[1..];
      SplitNoSeparator(parts[0], sep, s);
      assert parts[0] + sep + tail == parts[0] + s;
      var r := Split(s, sep);
      assert r[0] == "" && r[1..] == parts[1..];
      if |parts[0]| == 0 {
        assert [""] + parts[1..] == parts;
      } else {
        assert parts[0] + r[0] == parts[0];
        assert [parts[0]] + parts[1..] == parts;
      }
    }
  }
}
