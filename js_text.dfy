/** The string operations of the JavaScript runtime that the application relies on:
    trimming, joining, digit scanning and the decimal rendering of integers.
    Strings are sequences of Unicode scalar values; `Utf16Length` gives the
    length JavaScript reports, which counts UTF-16 code units. */
module JsText {

  /** The characters String.prototype.trim removes: the WhiteSpace and
      LineTerminator code points of ECMA-262 (sections 12.2 and 12.3). */
  predicate IsSpace(c: char) {
    || c == '\t' || c == '\n' || c == '\U{B}' || c == '\U{C}' || c == '\r' || c == ' '
    || c == '\U{A0}' || c == '\U{1680}' || ('\U{2000}' <= c <= '\U{200A}')
    || c == '\U{2028}' || c == '\U{2029}' || c == '\U{202F}' || c == '\U{205F}'
    || c == '\U{3000}' || c == '\U{FEFF}'
  }

  /** `s` with its leading white space removed. */
  function TrimStart(s: string): (r: string)
    ensures |r| <= |s|
  {
    if s != [] && IsSpace(s[0]) then TrimStart(s[1..]) else s
  }

  /** `s` with its trailing white space removed. */
  function TrimEnd(s: string): (r: string)
    ensures |r| <= |s|
  {
    if s != [] && IsSpace(s[|s| - 1]) then TrimEnd(s[..|s| - 1]) else s
  }

  /** String.prototype.trim. */
  function Trim(s: string): (r: string)
    ensures |r| <= |s|
  {
    TrimEnd(TrimStart(s))
  }

  /** TrimStart drops a prefix made only of white space and stops at the first
      other character. */
  lemma {:induction false} TrimStartSpec(s: string)
    ensures TrimStart(s) == s[|s| - |TrimStart(s)|..]
    ensures TrimStart(s) != [] ==> !IsSpace(TrimStart(s)[0])
    ensures forall i :: 0 <= i < |s| - |TrimStart(s)| ==> IsSpace(s[i])
  {
    if s != [] && IsSpace(s[0]) {
      TrimStartSpec(s[1..]);
    }
  }

  /** TrimEnd drops a suffix made only of white space and stops at the last
      other character. */
  lemma {:induction false} TrimEndSpec(s: string)
    ensures TrimEnd(s) == s[..|TrimEnd(s)|]
    ensures TrimEnd(s) != [] ==> !IsSpace(TrimEnd(s)[|TrimEnd(s)| - 1])
    ensures forall i :: |TrimEnd(s)| <= i < |s| ==> IsSpace(s[i])
  {
    if s != [] && IsSpace(s[|s| - 1]) {
      TrimEndSpec(s[..|s| - 1]);
    }
  }

  /** Trim keeps the infix of `s` that starts at `a`: everything before and after
      it is white space, and it neither starts nor ends with white space. So the
      result is empty exactly when `s` is all white space. */
  lemma TrimSpec(s: string) returns (a: nat)
    ensures a + |Trim(s)| <= |s| && Trim(s) == s[a..a + |Trim(s)|]
    ensures forall i :: 0 <= i < a || a + |Trim(s)| <= i < |s| ==> IsSpace(s[i])
    ensures Trim(s) != [] ==> !IsSpace(Trim(s)[0]) && !IsSpace(Trim(s)[|Trim(s)| - 1])
    ensures Trim(s) == [] <==> forall i :: 0 <= i < |s| ==> IsSpace(s[i])
  {
    var t := TrimStart(s);
    TrimStartSpec(s);
    TrimEndSpec(t);
    a := |s| - |t|;
    var r := Trim(s);
    assert r == t[..|r|];
    assert t == s[a..];
    forall i | a + |r| <= i < |s|
      ensures IsSpace(s[i])
    {
      assert s[i] == t[i - a];
    }
    if r != [] {
      assert r[0] == t[0];
      assert !IsSpace(s[a]);
    }
  }

  /** Trimming is idempotent. */
  lemma TrimIdempotent(s: string)
    ensures Trim(Trim(s)) == Trim(s)
  {
    var _ := TrimSpec(s);
    var r := Trim(s);
    if r != [] {
      assert TrimStart(r) == r;
      assert TrimEnd(r) == r;
    }
  }

  /** A character outside the Basic Multilingual Plane, which UTF-16 encodes
      as a surrogate pair. */
  predicate IsAstral(c: char) {
    c as int >= 0x10000
  }

  /** `s.length`: the number of UTF-16 code units, two for each astral
      character and one for every other. */
  function Utf16Length(s: string): (n: nat)
    ensures |s| <= n <= 2 * |s|
    ensures n == |s| <==> forall i :: 0 <= i < |s| ==> !IsAstral(s[i])
  {
    if s == [] then 0
    else
      var rest := Utf16Length(s[1..]);
      assert forall i :: 1 <= i < |s| ==> s[1..][i - 1] == s[i];
      (if IsAstral(s[0]) then 2 else 1) + rest
  }

  /** `a` occurs in `b` starting at position `k`. */
  predicate InfixAt(a: string, b: string, k: nat) {
    k + |a| <= |b| && b[k..k + |a|] == a
  }

  ghost predicate IsInfix(a: string, b: string) {
    exists k: nat :: InfixAt(a, b, k)
  }

  predicate StartsWith(s: string, prefix: string) {
    |prefix| <= |s| && s[..|prefix|] == prefix
  }

  /** String.prototype.includes, decided without a quantifier. */
  function Contains(s: string, part: string): (b: bool)
    ensures b <==> IsInfix(part, s)
  {
    if StartsWith(s, part) then
      assert InfixAt(part, s, 0);
      true
    else if s == [] then
      assert forall k: nat :: !InfixAt(part, s, k);
      false
    else
      var b := Contains(s[1..], part);
      assert b ==> IsInfix(part, s) by {
        if b {
          var k: nat :| InfixAt(part, s[1..], k);
          assert s[k + 1..k + 1 + |part|] == s[1..][k..k + |part|];
          assert InfixAt(part, s, k + 1);
        }
      }
      assert IsInfix(part, s) ==> b by {
        if IsInfix(part, s) {
          var k: nat :| InfixAt(part, s, k);
          assert k != 0;
          assert s[1..][k - 1..k - 1 + |part|] == s[k..k + |part|];
          assert InfixAt(part, s[1..], k - 1);
        }
      }
      b
  }

  /** Array.prototype.join over strings. */
  function Join(xs: seq<string>, sep: string): string {
    if xs == [] then ""
    else if |xs| == 1 then xs[0]
    else xs[0] + sep + Join(xs[1..], sep)
  }

  /** Every joined element can be read back out of the joined text. */
  lemma {:induction false} JoinContainsEach(xs: seq<string>, sep: string, i: nat)
    requires i < |xs|
    ensures IsInfix(xs[i], Join(xs, sep))
  {
    var j := Join(xs, sep);
    if |xs| == 1 {
      assert InfixAt(xs[0], j, 0);
    } else if i == 0 {
      assert j[..|xs[0]|] == xs[0];
      assert InfixAt(xs[0], j, 0);
    } else {
      JoinContainsEach(xs[1..], sep, i - 1);
      var rest := Join(xs[1..], sep);
      var k: nat :| InfixAt(xs[i], rest, k);
      var off := |xs[0] + sep|;
      assert j == (xs[0] + sep) + rest;
      assert j[off + k..off + k + |xs[i]|] == rest[k..k + |xs[i]|];
      assert InfixAt(xs[i], j, off + k);
    }
  }

  /** Every joined element can still be read back behind a prefix. */
  lemma PrefixedJoinContainsEach(prefix: string, xs: seq<string>, sep: string, i: nat)
    requires i < |xs|
    ensures IsInfix(xs[i], prefix + Join(xs, sep))
  {
    var joined := Join(xs, sep);
    JoinContainsEach(xs, sep, i);
    var k: nat :| InfixAt(xs[i], joined, k);
    assert (prefix + joined)[|prefix| + k..|prefix| + k + |xs[i]|] == joined[k..k + |xs[i]|];
    assert InfixAt(xs[i], prefix + joined, |prefix| + k);
  }

  /** The value of a digit character in bases up to 36; 36 for a non-digit. */
  function DigitValue(c: char): (d: nat)
    ensures d <= 36
  {
    if '0' <= c <= '9' then c as nat - '0' as nat
    else if 'a' <= c <= 'z' then c as nat - 'a' as nat + 10
    else if 'A' <= c <= 'Z' then c as nat - 'A' as nat + 10
    else 36
  }

  predicate IsDigit(c: char, radix: nat) {
    DigitValue(c) < radix
  }

  /** The length of the longest prefix of `s` made of digits of `radix`. */
  function LeadingDigits(s: string, radix: nat): (n: nat)
    ensures n <= |s|
  {
    if s != [] && IsDigit(s[0], radix) then 1 + LeadingDigits(s[1..], radix) else 0
  }

  /** The scanned prefix is made of digits, and what follows it, if anything,
      is not a digit; a string of digits is scanned to its end. */
  lemma {:induction false} LeadingDigitsSpec(s: string, radix: nat)
    ensures forall i :: 0 <= i < LeadingDigits(s, radix) ==> IsDigit(s[i], radix)
    ensures LeadingDigits(s, radix) < |s| ==> !IsDigit(s[LeadingDigits(s, radix)], radix)
    ensures (forall i :: 0 <= i < |s| ==> IsDigit(s[i], radix)) ==> LeadingDigits(s, radix) == |s|
  {
    if s != [] && IsDigit(s[0], radix) {
      LeadingDigitsSpec(s[1..], radix);
      assert forall i :: 1 <= i < |s| ==> s[1..][i - 1] == s[i];
    }
  }

  /** The number that the digit string `s` denotes in base `radix`. */
  function DigitsValue(s: string, radix: nat): nat {
    if s == [] then 0
    else DigitsValue(s[..|s| - 1], radix) * radix + DigitValue(s[|s| - 1])
  }

  function DigitChar(d: nat): (c: char)
    requires d < 10
    ensures DigitValue(c) == d
  {
    ['0', '1', '2', '3', '4', '5', '6', '7', '8', '9'][d]
  }

  /** The shortest decimal numeral of `n`; it reads back as `n`. */
  function NatToString(n: nat): (s: string)
    ensures s != []
  {
    if n < 10 then [DigitChar(n)] else NatToString(n / 10) + [DigitChar(n % 10)]
  }

  /** The numeral of `n` is made of decimal digits and reads back as `n`. */
  lemma {:induction false} NatToStringSpec(n: nat)
    ensures forall i :: 0 <= i < |NatToString(n)| ==> IsDigit(NatToString(n)[i], 10)
    ensures DigitsValue(NatToString(n), 10) == n
  {
    if n >= 10 {
      NatToStringSpec(n / 10);
      var s := NatToString(n);
      assert s[..|s| - 1] == NatToString(n / 10);
    }
  }

  /** The decimal numeral of an integer, with a leading '-' when negative. */
  function IntToString(i: int): (s: string)
    ensures s != []
  {
    if i < 0 then "-" + NatToString(-i) else NatToString(i)
  }
}
