/**
 * Exact-arithmetic stand-ins for the JavaScript number operations the
 * application relies on: `Math.abs`, `Math.min`, `Number.prototype.toFixed(2)`
 * and `parseFloat`. Money is a `real`; there is no binary floating point.
 */
module Numbers {
  import opened Options
  import Strings

  function Abs(x: real): (r: real)
    ensures r >= 0.0 && (r == x || r == -x)
  {
    if x < 0.0 then -x else x
  }

  function Min(a: real, b: real): (r: real)
    ensures r <= a && r <= b && (r == a || r == b)
  {
    if a <= b then a else b
  }

  /**
   * The number of hundredths that `x.toFixed(2)` writes: `x * 100` rounded
   * to the nearest integer, a tie going to the larger magnitude (toFixed
   * picks the larger n for x >= 0 and formats -x behind a minus sign for x < 0).
   */
  function Cents(x: real): (c: int)
    ensures x >= 0.0 ==> c >= 0 && x * 100.0 - 0.5 < c as real <= x * 100.0 + 0.5
    ensures x < 0.0 ==> c <= 0 && x * 100.0 - 0.5 <= c as real < x * 100.0 + 0.5
  {
    if x >= 0.0 then (x * 100.0 + 0.5).Floor else -((-x) * 100.0 + 0.5).Floor
  }

  /** `parseFloat(x.toFixed(2))`: x rounded to two decimals (see ParseToFixed2). */
  function Round2(x: real): (r: real)
    ensures Abs(r - x) <= 0.005
    ensures r * 100.0 == Cents(x) as real
  {
    Cents(x) as real / 100.0
  }

  /** Rounding an amount that is already in whole hundredths leaves it as it is. */
  lemma Round2Idempotent(x: real)
    ensures Round2(Round2(x)) == Round2(x)
  {
    var c := Cents(x);
    var c' := Cents(c as real / 100.0);
    assert c' == c;
  }

  /** Any amount above the 0.005 threshold rounds to at least one hundredth. */
  lemma Round2AboveThreshold(x: real)
    requires x > 0.005
    ensures Round2(x) >= 0.01
  {
    assert Cents(x) >= 1;
  }

  // ---------------------------------------------------------------------------
  // Decimal digits

  predicate IsDigit(c: char) {
    '0' <= c <= '9'
  }

  predicate AllDigits(s: string) {
    forall k :: 0 <= k < |s| ==> IsDigit(s[k])
  }

  /** The value of a digit character (0 for any other character). */
  function DigitValue(c: char): (d: nat)
    ensures d < 10
  {
    if IsDigit(c) then c as int - '0' as int else 0
  }

  function DigitChar(d: nat): (c: char)
    requires d < 10
    ensures IsDigit(c) && DigitValue(c) == d
  {
    ('0' as int + d) as char
  }

  /** The value of a string of decimal digits, most significant first. */
  function DigitsValue(ds: string): nat
  {
    if ds == [] then 0 else DigitsValue(ds[..|ds| - 1]) * 10 + DigitValue(ds[|ds| - 1])
  }

  /** The decimal numeral of n, without leading zeros ("0" for zero). */
  function NatToDigits(n: nat): (s: string)
    ensures |s| > 0 && AllDigits(s)
  {
    if n < 10 then [DigitChar(n)] else NatToDigits(n / 10) + [DigitChar(n % 10)]
  }

  /** The longest prefix of s made of digits. */
  function LeadingDigits(s: string): (ds: string)
    ensures |ds| <= |s| && ds == s[..|ds|] && AllDigits(ds)
    ensures |ds| == |s| || !IsDigit(s[|ds|])
  {
    if |s| > 0 && IsDigit(s[0]) then [s[0]] + LeadingDigits(s[1..]) else []
  }

  // ---------------------------------------------------------------------------
  // toFixed(2) and parseFloat

  /** `x.toFixed(2)`: an optional minus sign, the whole part, a point and exactly two decimals. */
  function ToFixed2(x: real): string
  {
    FixedString(x < 0.0, CentsMagnitude(x))
  }

  function CentsMagnitude(x: real): nat
  {
    var c := Cents(x);
    if c < 0 then -c else c
  }

  lemma Round2ByMagnitude(x: real)
    ensures Round2(x) == if x < 0.0 then -(CentsMagnitude(x) as real / 100.0) else CentsMagnitude(x) as real / 100.0
  {
  }

  /** A minus sign when `negative`, then m hundredths written as whole part, point and two decimals. */
  function FixedString(negative: bool, m: nat): string
  {
    if negative then "-" + Hundredths(m) else Hundredths(m)
  }

  /** m hundredths written as whole part, point and two decimals. */
  function Hundredths(m: nat): (s: string)
    ensures |s| > 0 && IsDigit(s[0])
  {
    NatToDigits(m / 100) + ("." + [DigitChar(m / 10 % 10), DigitChar(m % 10)])
  }

  /** The value of an exponent part ("e", an optional sign, digits) at the start of s; 0 when there is none. */
  function ExponentOf(s: string): int
  {
    if |s| >= 2 && (s[0] == 'e' || s[0] == 'E') then
      var u := if s[1] == '-' || s[1] == '+' then s[2..] else s[1..];
      var ds := LeadingDigits(u);
      if ds == [] then 0 else if s[1] == '-' then -(DigitsValue(ds) as int) else DigitsValue(ds)
    else 0
  }

  /** The value of digits written after a decimal point: "25" is 0.25. */
  function FractionValue(ds: string): real
  {
    if ds == [] then 0.0 else (DigitValue(ds[0]) as real + FractionValue(ds[1..])) / 10.0
  }

  /** m times ten to the power e. */
  function Scale(m: real, e: int): real
    decreases if e < 0 then -e else e
  {
    if e == 0 then m else if e > 0 then Scale(m, e - 1) * 10.0 else Scale(m, e + 1) / 10.0
  }

  /**
   * A decimal literal as `parseFloat` reads it: its sign, the digits before
   * and after the point, and the value of its exponent part.
   */
  datatype Literal = Literal(negative: bool, whole: string, fraction: string, exponent: int)

  /** The number a literal denotes. */
  function Value(l: Literal): real
  {
    var m := Scale(DigitsValue(l.whole) as real + FractionValue(l.fraction), l.exponent);
    if l.negative then -m else m
  }

  /**
   * The unsigned decimal literal at the start of u: digits, an optional
   * point with digits, an optional exponent; at least one digit before or
   * after the point. What follows the literal is ignored.
   */
  function ParseUnsigned(u: string): Option<Literal>
  {
    var ip := LeadingDigits(u);
    var rest := u[|ip|..];
    var hasPoint := |rest| > 0 && rest[0] == '.';
    var fp := if hasPoint then LeadingDigits(rest[1..]) else [];
    if ip == [] && fp == [] then None
    else
      var after := if hasPoint then rest[1 + |fp|..] else rest;
      Some(Literal(false, ip, fp, ExponentOf(after)))
  }

  /**
   * The literal `parseFloat(s)` reads: it skips leading white space, reads an
   * optional sign and the longest decimal literal after it, and ignores the
   * rest; `None` when no digit starts the literal.
   */
  function ParseFloat(s: string): Option<Literal>
  {
    var t := Strings.TrimStart(s);
    var signed := |t| > 0 && (t[0] == '-' || t[0] == '+');
    match ParseUnsigned(if signed then t[1..] else t)
    case None => None
    case Some(l) => Some(l.(negative := signed && t[0] == '-'))
  }

  /** `parseFloat(s)` as a number; `None` stands for NaN. */
  function ParseNumber(s: string): Option<real>
  {
    match ParseFloat(s)
    case None => None
    case Some(l) => Some(Value(l))
  }

  lemma NoDigitsParseUnsigned(u: string)
    requires forall k :: 0 <= k < |u| ==> !IsDigit(u[k])
    ensures ParseUnsigned(u) == None
  {
    assert LeadingDigits(u) == [];
    assert u[0..] == u;
    if |u| > 0 && u[0] == '.' {
      assert u[1..] == [] || !IsDigit(u[1..][0]);
      assert LeadingDigits(u[1..]) == [];
    }
  }

  /** A string with no digit at all parses to NaN; in particular the empty field does. */
  lemma ParseNumberNeedsDigit(s: string)
    requires forall k :: 0 <= k < |s| ==> !IsDigit(s[k])
    ensures ParseNumber(s) == None
  {
    var t := Strings.TrimStart(s);
    var signed := |t| > 0 && (t[0] == '-' || t[0] == '+');
    var u := if signed then t[1..] else t;
    assert u == s[|s| - |u|..];
    forall k | 0 <= k < |u| ensures !IsDigit(u[k]) {
      assert u[k] == s[|s| - |u| + k];
    }
    NoDigitsParseUnsigned(u);
  }

  lemma {:induction false} LeadingDigitsOfDigits(ds: string, rest: string)
    requires AllDigits(ds)
    requires rest == [] || !IsDigit(rest[0])
    ensures LeadingDigits(ds + rest) == ds
  {
    if ds != [] {
      assert (ds + rest)[1..] == ds[1..] + rest;
      LeadingDigitsOfDigits(ds[1..], rest);
    }
  }

  lemma {:induction false} DigitsValueOfNat(n: nat)
    ensures DigitsValue(NatToDigits(n)) == n
  {
    if n >= 10 {
      var s := NatToDigits(n);
      assert s[..|s| - 1] == NatToDigits(n / 10);
      DigitsValueOfNat(n / 10);
    }
  }

  lemma FractionValueOfTwo(d1: nat, d2: nat)
    requires d1 < 10 && d2 < 10
    ensures FractionValue([DigitChar(d1), DigitChar(d2)]) == (d1 * 10 + d2) as real / 100.0
  {
    var f := [DigitChar(d1), DigitChar(d2)];
    assert f[1..] == [DigitChar(d2)];
    assert [DigitChar(d2)][1..] == [];
    assert FractionValue([DigitChar(d2)]) == d2 as real / 10.0;
  }

  /** The literal `toFixed(2)` writes for m hundredths, with the given sign. */
  function FixedLiteral(negative: bool, m: nat): Literal
  {
    Literal(negative, NatToDigits(m / 100), [DigitChar(m / 10 % 10), DigitChar(m % 10)], 0)
  }

  lemma HundredthsSplit(m: nat)
    ensures (m / 100) as real + ((m / 10 % 10) * 10 + m % 10) as real / 100.0 == m as real / 100.0
  {
    assert m / 10 == (m / 100) * 10 + m / 10 % 10;
    assert m == (m / 10) * 10 + m % 10;
    assert (m / 100) * 100 + (m / 10 % 10) * 10 + m % 10 == m;
  }

  /** The literal for m hundredths denotes m / 100, negated behind a minus sign. */
  lemma ValueOfFixedLiteral(negative: bool, m: nat)
    ensures Value(FixedLiteral(negative, m)) == if negative then -(m as real / 100.0) else m as real / 100.0
  {
    DigitsValueOfNat(m / 100);
    FractionValueOfTwo(m / 10 % 10, m % 10);
    HundredthsSplit(m);
  }

  /** The digits `toFixed(2)` writes for m hundredths read back as that literal. */
  lemma ParseHundredths(m: nat)
    ensures ParseUnsigned(Hundredths(m)) == Some(FixedLiteral(false, m))
  {
    var ds := NatToDigits(m / 100);
    var f := [DigitChar(m / 10 % 10), DigitChar(m % 10)];
    var u := ds + ("." + f);
    LeadingDigitsOfDigits(ds, "." + f);
    assert u[|ds|..] == "." + f;
    LeadingDigitsOfDigits(f, []);
    assert f + [] == f;
    assert u[|ds|..][1..] == f;
    assert u[|ds|..][1 + |f|..] == [];
  }

  /** A signed count of hundredths, as `toFixed(2)` writes it, reads back as the same literal. */
  lemma ParseFixedString(negative: bool, m: nat)
    ensures ParseFloat(FixedString(negative, m)) == Some(FixedLiteral(negative, m))
  {
    var h := Hundredths(m);
    ParseHundredths(m);
    var s := FixedString(negative, m);
    Strings.TrimStartNonSpace(s);
    if negative {
      assert s[1..] == h;
    }
  }

  /** Reading back what `toFixed(2)` wrote gives the amount rounded to two decimals. */
  lemma ParseToFixed2(x: real)
    ensures ParseNumber(ToFixed2(x)) == Some(Round2(x))
  {
    ParseFixedString(x < 0.0, CentsMagnitude(x));
    ValueOfFixedLiteral(x < 0.0, CentsMagnitude(x));
    Round2ByMagnitude(x);
  }

  /** Evaluates `parseFloat(x.toFixed(2))`, the way the settlement loop rounds each amount. */
  method RoundViaString(x: real) returns (r: real)
    ensures r == Round2(x)
  {
    var parsed := ParseNumber(ToFixed2(x));
    ParseToFixed2(x);
    r := parsed.value;
  }
}
