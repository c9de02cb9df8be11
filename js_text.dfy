/** The conversions between numbers and text that the components rely on:
    printing an integer (template literals), `parseFloat`, `parseInt` and the
    `Number(text)` coercion that a comparison such as `text <= 0` performs.
    Numbers are exact: a decimal literal denotes the rational it spells. */
module JsText {
  import opened Common

  /** A JavaScript number as these components see it: a finite value or NaN. */
  datatype Num = NaN | Finite(value: real)

  predicate IsDigit(c: char) {
    '0' <= c <= '9'
  }

  predicate AllDigits(s: string) {
    forall i :: 0 <= i < |s| ==> IsDigit(s[i])
  }

  function DigitChar(d: int): (c: char)
    requires 0 <= d < 10
    ensures IsDigit(c) && c as int - 48 == d
  {
    (48 + d) as char
  }

  function DigitValue(c: char): int
    requires IsDigit(c)
  {
    c as int - 48
  }

  /** The decimal text of a natural number, without leading zeros. */
  function NatText(n: nat): (s: string)
    ensures s != [] && AllDigits(s)
  {
    if n < 10 then [DigitChar(n)] else NatText(n / 10) + [DigitChar(n % 10)]
  }

  /** 10 to the power k. */
  function Pow10(k: nat): (p: nat)
    ensures p >= 1
  {
    if k == 0 then 1 else 10 * Pow10(k - 1)
  }

  /** A natural number below 10^w is written with at most w digits. */
  lemma {:induction false} NatTextLength(n: nat, w: nat)
    requires 1 <= w && n < Pow10(w)
    ensures |NatText(n)| <= w
  {
    if n >= 10 {
      NatTextLength(n / 10, w - 1);
    }
  }

  /** `${n}` for an integer. */
  function IntText(n: int): (s: string)
    ensures s != []
    ensures forall i :: 0 <= i < |s| ==> IsDigit(s[i]) || s[i] == '-'
  {
    if n < 0 then "-" + NatText(-n) else NatText(n)
  }

  /** String.prototype.padStart(width, "0"). */
  function PadZeros(s: string, width: nat): (r: string)
    ensures |r| >= width
    ensures AllDigits(s) ==> AllDigits(r)
    decreases width - |s|
  {
    if |s| >= width then s else PadZeros("0" + s, width)
  }

  /** The value of a run of decimal digits. */
  function DigitsValue(s: string): nat
    requires AllDigits(s)
  {
    if s == [] then 0 else DigitsValue(s[..|s| - 1]) * 10 + DigitValue(s[|s| - 1])
  }

  /** The value of the digits after a decimal point: `0.d1d2...` is
      `(d1 + 0.d2...) / 10`. */
  function FractionValue(s: string): (v: real)
    requires AllDigits(s)
    ensures 0.0 <= v <= 1.0
  {
    if s == [] then 0.0 else (DigitValue(s[0]) as real + FractionValue(s[1..])) / 10.0
  }

  /** The number of digits at the front of `s`. */
  function LeadingDigits(s: string): (n: nat)
    ensures n <= |s| && AllDigits(s[..n])
    ensures n < |s| ==> !IsDigit(s[n])
  {
    if s != [] && IsDigit(s[0]) then 1 + LeadingDigits(s[1..]) else 0
  }

  /** The longest prefix of `t` of the form `digits [. digits]` or `. digits`:
      how many characters it spans and the value it spells; None when there
      is no such prefix. */
  function UnsignedDecimal(t: string): Option<(nat, real)> {
    var n := LeadingDigits(t);
    var hasPoint := n < |t| && t[n] == '.';
    var f := if hasPoint then LeadingDigits(t[n + 1..]) else 0;
    var frac := if hasPoint then t[n + 1..][..f] else "";
    if n == 0 && f == 0 then None
    else
      Some((n + (if hasPoint then 1 + f else 0),
            DigitsValue(t[..n]) as real + FractionValue(frac)))
  }

  /** UnsignedDecimal after an optional '+' or '-'. */
  function SignedDecimal(t: string): Option<(nat, real)> {
    var signed := t != [] && (t[0] == '+' || t[0] == '-');
    var body := if signed then t[1..] else t;
    match UnsignedDecimal(body)
    case None => None
    case Some(scan) =>
      Some((scan.0 + (if signed then 1 else 0), if signed && t[0] == '-' then -scan.1 else scan.1))
  }

  /** parseFloat: the longest numeric prefix after leading whitespace. */
  function ParseFloat(s: string): Num {
    match SignedDecimal(TrimStart(s))
    case None => NaN
    case Some(scan) => Finite(scan.1)
  }

  /** Number(s): the whole trimmed text must be numeric; an empty one is 0. */
  function ToNumber(s: string): Num {
    var t := Trim(s);
    if t == "" then Finite(0.0)
    else
      match SignedDecimal(t)
      case Some(scan) => if scan.0 == |t| then Finite(scan.1) else NaN
      case None => NaN
  }

  /** parseInt(s) in base 10: the leading integer after whitespace, None for NaN. */
  function ParseInt(s: string): Option<int> {
    var t := TrimStart(s);
    var negative := t != [] && t[0] == '-';
    var body := if t != [] && (t[0] == '+' || t[0] == '-') then t[1..] else t;
    var n := LeadingDigits(body);
    if n == 0 then None
    else
      var v: int := DigitsValue(body[..n]);
      Some(if negative then -v else v)
  }

  // ---------------------------------------------------------------------
  // Printing and parsing are inverse on integers.

  lemma {:induction false} NatTextValue(n: nat)
    ensures DigitsValue(NatText(n)) == n
  {
    if n >= 10 {
      NatTextValue(n / 10);
      var s := NatText(n / 10) + [DigitChar(n % 10)];
      assert s[..|s| - 1] == NatText(n / 10);
    }
  }

  lemma NoWhitespaceInDigits(s: string)
    requires AllDigits(s)
    ensures TrimStart(s) == s && Trim(s) == s
  {
  }

  lemma LeadingDigitsAll(s: string)
    requires AllDigits(s)
    ensures LeadingDigits(s) == |s|
  {
    if s != [] {
      LeadingDigitsAll(s[1..]);
    }
  }

  /** A run of digits scans as a whole, to the value it spells. */
  lemma UnsignedDigits(s: string)
    requires s != [] && AllDigits(s)
    ensures UnsignedDecimal(s) == Some((|s|, DigitsValue(s) as real))
  {
    LeadingDigitsAll(s);
    assert s[..|s|] == s;
  }

  /** A run of digits scans as a whole, sign scanning included. */
  lemma SignedDigits(s: string)
    requires s != [] && AllDigits(s)
    ensures SignedDecimal(s) == Some((|s|, DigitsValue(s) as real))
  {
    UnsignedDigits(s);
    assert IsDigit(s[0]);
  }

  /** A minus sign before a run of digits negates its value. */
  lemma MinusDigits(t: string)
    requires |t| > 1 && t[0] == '-' && AllDigits(t[1..])
    ensures SignedDecimal(t) == Some((|t|, -(DigitsValue(t[1..]) as real)))
  {
    UnsignedDigits(t[1..]);
  }

  /** parseFloat reads back the text of a natural number. */
  lemma ParseFloatNatText(n: nat)
    ensures ParseFloat(NatText(n)) == Finite(n as real)
    ensures ToNumber(NatText(n)) == Finite(n as real)
  {
    var s := NatText(n);
    NoWhitespaceInDigits(s);
    SignedDigits(s);
    NatTextValue(n);
  }

  /** Number() reads back the text of any integer. */
  lemma ToNumberIntText(n: int)
    ensures ToNumber(IntText(n)) == Finite(n as real)
  {
    if n >= 0 {
      ParseFloatNatText(n);
    } else {
      var s := NatText(-n);
      var t := IntText(n);
      assert t == "-" + s && t[1..] == s;
      MinusDigits(t);
      NatTextValue(-n);
      assert TrimStart(t) == t;
      assert TrimEnd(t) == t by {
        assert IsDigit(t[|t| - 1]);
      }
    }
  }

  /** parseInt reads a run of digits whole. */
  lemma ParseIntDigits(t: string)
    requires t != [] && AllDigits(t)
    ensures ParseInt(t) == Some(DigitsValue(t))
  {
    NoWhitespaceInDigits(t);
    LeadingDigitsAll(t);
    assert IsDigit(t[0]) && t[..|t|] == t;
  }

  /** parseInt reads a minus sign and a run of digits whole. */
  lemma ParseIntMinusDigits(t: string)
    requires |t| > 1 && t[0] == '-' && AllDigits(t[1..])
    ensures ParseInt(t) == Some(-(DigitsValue(t[1..]) as int))
  {
    LeadingDigitsAll(t[1..]);
    assert t[1..][..|t| - 1] == t[1..];
    assert TrimStart(t) == t;
  }

  /** parseInt reads back the text of any integer. */
  lemma ParseIntIntText(n: int)
    ensures ParseInt(IntText(n)) == Some(n)
  {
    if n >= 0 {
      ParseIntDigits(NatText(n));
      NatTextValue(n);
    } else {
      var s := NatText(-n);
      var t := IntText(n);
      assert t == "-" + s && t[1..] == s;
      ParseIntMinusDigits(t);
      NatTextValue(-n);
    }
  }

  /** Different integers have different decimal texts. */
  lemma IntTextInjective(m: int, n: int)
    requires IntText(m) == IntText(n)
    ensures m == n
  {
    ParseIntIntText(m);
    ParseIntIntText(n);
  }
}
