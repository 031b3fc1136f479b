/** JavaScript values as the request handlers and validators see them, with the
    conversions the code applies to them: truthiness (`!x`, `if (x)`, `Boolean(x)`),
    `String(x)` and `Number(x)`. Numbers are exact finite reals: NaN is the absent
    result of a conversion, and the rounding of IEEE doubles is not modelled. */
module Js {
  import opened Wrappers
  import opened JsText

  datatype Value =
    | Undefined
    | Null
    | Bool(b: bool)
    | Num(n: real)
    | Str(s: string)
    | Arr(items: seq<Value>)
    | Obj(fields: map<string, Value>)
      /** a driver ObjectId, built by `new ObjectId(source)` */
    | Oid(source: Value)
      /** a Date object holding a time value in milliseconds */
    | Date(time: int)

  /** The truth value JavaScript gives `v` in a condition. */
  predicate Truthy(v: Value) {
    match v
    case Undefined => false
    case Null => false
    case Bool(b) => b
    case Num(n) => n != 0.0
    case Str(s) => s != ""
    case _ => true
  }

  /** Reading a property of a plain record: `undefined` when it is absent. */
  function Get(m: map<string, Value>, k: string): Value {
    if k in m then m[k] else Undefined
  }

  /** `v.k` for the property names the application reads: arrays, ObjectIds and
      Dates have none of them. */
  function Prop(v: Value, k: string): Value {
    if v.Obj? then Get(v.fields, k) else Undefined
  }

  /** `typeof v === "object" && v !== null` */
  predicate IsObject(v: Value) {
    v.Arr? || v.Obj? || v.Oid? || v.Date?
  }

  /** Number.isInteger on a finite number. */
  predicate IsInteger(x: real) {
    x.Floor as real == x
  }

  function Pow10(n: nat): (p: real)
    ensures p >= 1.0
  {
    if n == 0 then 1.0 else 10.0 * Pow10(n - 1)
  }

  /** 10 raised to an integer power. */
  function Scale(e: int): (p: real)
    ensures p > 0.0
  {
    if e >= 0 then Pow10(e) else 1.0 / Pow10(-e)
  }

  /** Up to `fuel` decimal digits of a fraction in [0, 1), without trailing zeros. */
  function FractionDigits(f: real, fuel: nat): string
    requires 0.0 <= f < 1.0
    decreases fuel
  {
    if fuel == 0 || f == 0.0 then ""
    else
      var d := (f * 10.0).Floor;
      [DigitChar(d)] + FractionDigits(f * 10.0 - d as real, fuel - 1)
  }

  /** `String(x)` for a number in positional notation. */
  function NumberToString(x: real): string {
    if x < 0.0 then "-" + UnsignedToString(-x) else UnsignedToString(x)
  }

  function UnsignedToString(x: real): string
    requires x >= 0.0
  {
    NatToString(x.Floor) + if IsInteger(x) then "" else "." + FractionDigits(x - x.Floor as real, 20)
  }

  /** `String(v)`; an array renders as its elements joined by ",", with `null` and
      `undefined` elements rendered empty. */
  function ToStr(v: Value): string
    decreases v, 1
  {
    match v
    case Undefined => "undefined"
    case Null => "null"
    case Bool(b) => if b then "true" else "false"
    case Num(n) => NumberToString(n)
    case Str(s) => s
    case Arr(items) => ItemsToStr(v, items)
    case Obj(_) => "[object Object]"
    case Oid(source) => ToStr(source)
    case Date(t) => IntToString(t)
  }

  function ItemsToStr(ghost parent: Value, items: seq<Value>): string
    requires forall i :: 0 <= i < |items| ==> items[i] < parent
    decreases parent, 0, |items|
  {
    if items == [] then ""
    else
      var last := items[|items| - 1];
      var shown := if last.Undefined? || last.Null? then "" else ToStr(last);
      if |items| == 1 then shown else ItemsToStr(parent, items[..|items| - 1]) + "," + shown
  }

  /** The base announced by the second character of a "0x", "0o" or "0b" prefix; 0 for none. */
  function RadixOfPrefix(c: char): nat {
    if c == 'x' || c == 'X' then 16
    else if c == 'o' || c == 'O' then 8
    else if c == 'b' || c == 'B' then 2
    else 0
  }

  /** An exponent part "e", optional sign, digits to the end of the text. */
  function ExponentPart(tail: string): Option<int> {
    if |tail| >= 2 && (tail[0] == 'e' || tail[0] == 'E') then
      var negative := tail[1] == '-';
      var digits := if tail[1] == '-' || tail[1] == '+' then tail[2..] else tail[1..];
      var magnitude: int := DigitsValue(digits, 10);
      if digits != [] && LeadingDigits(digits, 10) == |digits| then
        Some(if negative then -magnitude else magnitude)
      else None
    else None
  }

  /** The parts of an unsigned decimal numeral: the digits before the point,
      the digits after it, and whatever follows them. */
  datatype Numeral = Numeral(whole: string, fraction: string, tail: string)

  function SplitNumeral(u: string): Numeral {
    var i := LeadingDigits(u, 10);
    var rest := u[i..];
    if rest != [] && rest[0] == '.' then
      var j := LeadingDigits(rest[1..], 10);
      Numeral(u[..i], rest[1..][..j], rest[1..][j..])
    else
      Numeral(u[..i], "", rest)
  }

  function Magnitude(n: Numeral): real {
    DigitsValue(n.whole, 10) as real + DigitsValue(n.fraction, 10) as real / Pow10(|n.fraction|)
  }

  /** A leading '-' makes a decimal literal negative. */
  predicate NegativeSign(t: string) {
    t != [] && t[0] == '-'
  }

  /** A decimal literal without its sign, if it has one. */
  function Unsigned(t: string): string {
    if t != [] && (t[0] == '-' || t[0] == '+') then t[1..] else t
  }

  /** A decimal literal: optional sign, digits with an optional fraction (at least
      one digit in all), optional exponent. */
  function DecimalLiteral(t: string): Option<real> {
    var n := SplitNumeral(Unsigned(t));
    if n.whole == [] && n.fraction == [] then None
    else
      var signed := if NegativeSign(t) then -Magnitude(n) else Magnitude(n);
      if n.tail == [] then Some(signed)
      else
        match ExponentPart(n.tail)
        case None => None
        case Some(e) => Some(signed * Scale(e))
  }

  /** The digits after a radix prefix, read in that radix when they are all
      digits of it. */
  function RadixDigits(digits: string, radix: nat): Option<real> {
    if LeadingDigits(digits, radix) == |digits| then Some(DigitsValue(digits, radix) as real) else None
  }

  /** "0x", "0o" or "0b" followed by at least one more character. */
  predicate HasRadixPrefix(t: string) {
    |t| > 2 && t[0] == '0' && RadixOfPrefix(t[1]) != 0
  }

  /** `Number(s)` for a string: white space around the numeral is ignored and the
      empty string is 0; "0x", "0o" and "0b" introduce unsigned integers in base
      16, 8 and 2. None stands for NaN. */
  function StringToNumber(s: string): Option<real> {
    var t := Trim(s);
    if t == "" then Some(0.0)
    else if HasRadixPrefix(t) then
      match RadixOfPrefix(t[1])
      case 16 => RadixDigits(t[2..], 16)
      case 8 => RadixDigits(t[2..], 8)
      case _ => RadixDigits(t[2..], 2)
    else DecimalLiteral(t)
  }

  /** `Number(v)`; None stands for NaN. Arrays, plain objects and ObjectIds are
      converted through their string form, as ToPrimitive does. */
  function ToNumber(v: Value): Option<real> {
    match v
    case Undefined => None
    case Null => Some(0.0)
    case Bool(b) => Some(if b then 1.0 else 0.0)
    case Num(n) => Some(n)
    case Str(s) => StringToNumber(s)
    case Date(t) => Some(t as real)
    case _ => StringToNumber(ToStr(v))
  }

  /** A run of decimal digits splits into a whole part and nothing else. */
  lemma SplitDigits(u: string)
    requires forall i :: 0 <= i < |u| ==> IsDigit(u[i], 10)
    ensures SplitNumeral(u) == Numeral(u, "", "")
  {
    LeadingDigitsSpec(u, 10);
    assert u[..|u|] == u;
  }

  /** A numeral with no fraction and no tail is worth its whole digits. */
  lemma WholeMagnitude(u: string)
    ensures Magnitude(Numeral(u, "", "")) == DigitsValue(u, 10) as real
  {
  }

  /** The sign of `-u` or of `u`, for digits `u`, is read off the first character. */
  lemma SignedDigits(t: string, u: string, negative: bool)
    requires u != [] && IsDigit(u[0], 10)
    requires t == if negative then "-" + u else u
    ensures Unsigned(t) == u && NegativeSign(t) == negative
  {
    if negative {
      assert t[0] == '-' && t[1..] == u;
    } else {
      assert t[0] != '-' && t[0] != '+';
    }
  }

  /** A literal whose unsigned part is a non-empty run of digits `u` and nothing
      else is worth the value of `u`, with its sign. */
  lemma WholeLiteral(t: string, u: string, negative: bool)
    requires u != [] && SplitNumeral(Unsigned(t)) == Numeral(u, "", "") && NegativeSign(t) == negative
    ensures DecimalLiteral(t) == Some(if negative then -(DigitsValue(u, 10) as real) else DigitsValue(u, 10) as real)
  {
    WholeMagnitude(u);
  }

  /** A non-empty run of decimal digits, optionally signed, is a decimal literal
      worth its digits' value. */
  lemma DigitsLiteral(t: string, u: string, negative: bool)
    requires u != [] && forall i :: 0 <= i < |u| ==> IsDigit(u[i], 10)
    requires t == if negative then "-" + u else u
    ensures DecimalLiteral(t) == Some(if negative then -(DigitsValue(u, 10) as real) else DigitsValue(u, 10) as real)
  {
    SplitDigits(u);
    SignedDigits(t, u, negative);
    WholeLiteral(t, u, negative);
  }

  /** A numeral made of decimal digits alone, optionally signed, has no white
      space to trim. */
  lemma NumeralUntrimmed(t: string)
    requires t != [] && !IsSpace(t[0]) && !IsSpace(t[|t| - 1])
    ensures Trim(t) == t
  {
    assert TrimStart(t) == t;
    assert TrimEnd(t) == t;
  }

  /** An integer-valued number is rendered exactly as the integer. */
  lemma IntegerNumberToString(i: int)
    ensures NumberToString(i as real) == IntToString(i)
  {
    assert (i as real).Floor == i;
    if i < 0 {
      assert (-(i as real)).Floor == -i;
      assert IsInteger(-(i as real));
    } else {
      assert IsInteger(i as real);
    }
  }

  /** A numeral that starts with a sign or a decimal digit other than a radix
      prefix, with nothing to trim, is read as a decimal literal. */
  lemma DecimalStringToNumber(s: string)
    requires s != [] && Trim(s) == s
    requires s[0] == '-' || (IsDigit(s[0], 10) && (|s| > 1 ==> IsDigit(s[1], 10)))
    ensures StringToNumber(s) == DecimalLiteral(s)
  {
  }

  /** `Number(s)` for a string value is the string conversion. */
  lemma ToNumberOfString(s: string)
    ensures ToNumber(Str(s)) == StringToNumber(s)
  {
  }

  /** A non-empty run of decimal digits, optionally preceded by '-', reads back
      as its value. */
  lemma SignedDigitsReadBack(u: string, negative: bool)
    requires u != [] && forall i :: 0 <= i < |u| ==> IsDigit(u[i], 10)
    ensures StringToNumber(if negative then "-" + u else u)
         == Some(if negative then -(DigitsValue(u, 10) as real) else DigitsValue(u, 10) as real)
  {
    var t := if negative then "-" + u else u;
    assert t[|t| - 1] == u[|u| - 1];
    assert IsDigit(u[0], 10) && IsDigit(u[|u| - 1], 10);
    NumeralUntrimmed(t);
    if !negative && |t| > 1 {
      assert IsDigit(t[1], 10);
    }
    DecimalStringToNumber(t);
    DigitsLiteral(t, u, negative);
  }

  /** The numeral of `n`, optionally preceded by '-', reads back as `n` or `-n`. */
  lemma NumeralReadBack(n: nat, negative: bool)
    ensures StringToNumber(if negative then "-" + NatToString(n) else NatToString(n))
         == Some(if negative then -(n as real) else n as real)
  {
    NatToStringSpec(n);
    SignedDigitsReadBack(NatToString(n), negative);
  }

  /** The decimal rendering of an integer reads back as that integer. */
  lemma IntToStringReadBack(i: int)
    ensures StringToNumber(IntToString(i)) == Some(i as real)
  {
    var negative := i < 0;
    var n: nat := if negative then -i else i;
    assert IntToString(i) == if negative then "-" + NatToString(n) else NatToString(n);
    NumeralReadBack(n, negative);
  }

  /** Number(String(i)) == i for every integer: the decimal rendering of an
      integer is read back exactly by the numeric coercion. */
  lemma IntegerStringRoundTrip(i: int)
    ensures ToNumber(Str(IntToString(i))) == Some(i as real)
    ensures ToNumber(Str(NumberToString(i as real))) == Some(i as real)
  {
    IntToStringReadBack(i);
    IntegerNumberToString(i);
    ToNumberOfString(IntToString(i));
  }
}
