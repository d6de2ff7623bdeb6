/** JavaScript's `Number(string)` (StringToNumber of ECMAScript, section
    7.1.4.1.1 of ECMA-262) on exact reals: blank is 0; `0x`, `0o` and `0b`
    prefixes read hexadecimal, octal and binary digits; otherwise an
    optional sign followed by `Infinity` or a decimal literal with an
    optional fraction and exponent; anything else is NaN. A magnitude at or
    above 2^1024 - 2^970 rounds to Infinity. Rounding to the nearest double
    below that bound is not modelled. */
module JsNumber {
  import opened Text

  datatype Number = NaN | Infinity(negative: bool) | Finite(value: real)

  /** 2^1024 - 2^970: the smallest magnitude that rounds to Infinity. */
  const OverflowThreshold: real := 179769313486231580793728971405303415079934132710037826936173778980444968292764750946649017977587207096330286416692887910946555547851940402630657488671505820681908902000708383676273854845817711531764475730270069855571366959622842914819860834936475292719074168444365510704342711559699508093042880177904174497792.0

  /** A non-negative magnitude with its sign, as a double would hold it. */
  function Magnitude(negative: bool, m: real): (n: Number)
    requires m >= 0.0
    ensures n.Finite? <==> m < OverflowThreshold
    ensures n.Finite? ==> n.value == (if negative then -m else m)
  {
    if m >= OverflowThreshold then Infinity(negative) else Finite(if negative then -m else m)
  }

  function Pow(b: nat, k: nat): (r: nat)
    ensures b > 0 ==> r > 0
  {
    if k == 0 then 1 else b * Pow(b, k - 1)
  }

  /** 10^k for any integer exponent. */
  function Pow10(k: int): (r: real)
    ensures r > 0.0
  {
    if k >= 0 then Pow(10, k) as real else 1.0 / (Pow(10, -k) as real)
  }

  /** The value of a digit in base 16, or 16 for a non-digit. */
  function HexDigit(c: char): nat {
    if '0' <= c <= '9' then c as int - '0' as int
    else if 'a' <= c <= 'f' then c as int - 'a' as int + 10
    else if 'A' <= c <= 'F' then c as int - 'A' as int + 10
    else 16
  }

  predicate RadixDigits(s: string, radix: nat) {
    forall i :: 0 <= i < |s| ==> HexDigit(s[i]) < radix
  }

  function RadixValue(s: string, radix: nat): nat
    requires RadixDigits(s, radix)
  {
    if |s| == 0 then 0 else RadixValue(s[..|s| - 1], radix) * radix + HexDigit(s[|s| - 1])
  }

  /** `0x…`, `0o…` or `0b…`: at least one digit of the radix, no sign. */
  function NonDecimal(digits: string, radix: nat): Number {
    if |digits| > 0 && RadixDigits(digits, radix) then Magnitude(false, RadixValue(digits, radix) as real) else NaN
  }

  /** Index of the first `c` in `s`, or `|s|`. */
  function IndexOf(s: string, c: char): (k: nat)
    ensures k <= |s| && (k < |s| ==> s[k] == c)
    ensures forall i :: 0 <= i < k ==> s[i] != c
  {
    if |s| == 0 || s[0] == c then 0 else 1 + IndexOf(s[1..], c)
  }

  predicate AllDigits(s: string) {
    forall i :: 0 <= i < |s| ==> IsDigit(s[i])
  }

  /** The exponent after `e`: an optional sign and at least one digit. */
  function Exponent(s: string): Option<int> {
    var digits := if |s| > 0 && (s[0] == '+' || s[0] == '-') then s[1..] else s;
    if IsDigits(digits) then
      var v: int := DigitsValue(digits);
      Some(if |s| > 0 && s[0] == '-' then -v else v)
    else None
  }

  datatype Option<T> = None | Some(value: T)

  /** An unsigned decimal literal: digits with at most one `.`, at least one
      digit in all, then an optional exponent. */
  function Decimal(body: string): Option<real> {
    var e := Min(IndexOf(body, 'e'), IndexOf(body, 'E'));
    var mantissa := body[..e];
    var exponent := if e == |body| then Some(0) else Exponent(body[e + 1..]);
    var dot := IndexOf(mantissa, '.');
    var whole := mantissa[..dot];
    var fraction := if dot < |mantissa| then mantissa[dot + 1..] else "";
    if exponent.None? || !AllDigits(whole) || !AllDigits(fraction) || |whole| + |fraction| == 0 then None
    else
      assert AllDigits(whole + fraction);
      Some(DigitsValue(whole + fraction) as real * Pow10(exponent.value - |fraction|))
  }

  function Min(a: nat, b: nat): nat { if a <= b then a else b }

  /** `Number(s)` */
  function ToNumber(s: string): Number {
    var t := Trim(s);
    if t == "" then Finite(0.0)
    else if |t| >= 2 && t[0] == '0' && (t[1] == 'x' || t[1] == 'X') then NonDecimal(t[2..], 16)
    else if |t| >= 2 && t[0] == '0' && (t[1] == 'o' || t[1] == 'O') then NonDecimal(t[2..], 8)
    else if |t| >= 2 && t[0] == '0' && (t[1] == 'b' || t[1] == 'B') then NonDecimal(t[2..], 2)
    else
      var negative := t[0] == '-';
      var body := if t[0] == '-' || t[0] == '+' then t[1..] else t;
      if body == "Infinity" then Infinity(negative)
      else
        var m := Decimal(body);
        if m.None? then NaN
        else
          DecimalNonNegative(body);
          Magnitude(negative, m.value)
  }

  lemma DecimalNonNegative(body: string)
    ensures Decimal(body).Some? ==> Decimal(body).value >= 0.0
  {
  }

  /** A string of decimal digits reads as its value (or Infinity when it is
      too long for a double). */
  lemma DigitsNumber(s: string)
    requires IsDigits(s)
    ensures ToNumber(s) == Magnitude(false, DigitsValue(s) as real)
  {
    DigitsTrim(s);
    assert IsDigit(s[0]);
    assert |s| >= 2 ==> IsDigit(s[1]);
    assert s != "Infinity" by {
      if |s| == 8 {
        assert !IsDigit("Infinity"[0]);
      }
    }
    DecimalDigits(s);
    UnsignedNumber(s);
  }

  /** A trimmed literal with no sign and no radix prefix reads as its
      decimal value. */
  lemma UnsignedNumber(s: string)
    requires Trim(s) == s && |s| > 0 && s[0] != '-' && s[0] != '+' && s != "Infinity"
    requires |s| >= 2 && s[0] == '0' ==> !(s[1] in "xXoObB")
    requires Decimal(s).Some?
    ensures Decimal(s).value >= 0.0
    ensures ToNumber(s) == Magnitude(false, Decimal(s).value)
  {
    DecimalNonNegative(s);
  }

  lemma DigitsTrim(s: string)
    requires IsDigits(s)
    ensures Trim(s) == s
  {
    assert IsDigit(s[0]) && IsDigit(s[|s| - 1]);
    TrimUnchanged(s);
  }

  /** A string of decimal digits is a decimal literal without fraction or
      exponent. */
  lemma DecimalDigits(s: string)
    requires IsDigits(s)
    ensures Decimal(s) == Some(DigitsValue(s) as real)
  {
    NotIn(s, 'e');
    NotIn(s, 'E');
    NotIn(s, '.');
    DecimalPlain(s);
  }

  /** A literal without `e`, `E` and `.` is its digits. */
  lemma DecimalPlain(s: string)
    requires IndexOf(s, 'e') == |s| && IndexOf(s, 'E') == |s| && IndexOf(s, '.') == |s|
    requires IsDigits(s)
    ensures Decimal(s) == Some(DigitsValue(s) as real)
  {
    assert s[..|s|] == s;
    assert AllDigits(s);
    assert s + "" == s;
    assert Pow10(0 - 0) == 1.0;
  }

  lemma NotIn(s: string, c: char)
    requires IsDigits(s) && !IsDigit(c)
    ensures IndexOf(s, c) == |s|
  {
  }

  lemma HexExample()
    ensures ToNumber("0x10") == Finite(16.0)
  {
    TrimHex();
    HexValue();
  }

  lemma TrimHex()
    ensures Trim("0x10") == "0x10"
  {
    TrimUnchanged("0x10");
  }

  lemma HexValue()
    ensures NonDecimal("0x10"[2..], 16) == Finite(16.0)
  {
    assert "0x10"[2..] == "10";
    assert "10"[..1] == "1";
    assert "1"[..0] == "";
  }

  lemma InfinityExample()
    ensures ToNumber("-Infinity") == Infinity(true)
  {
    TrimInfinity();
    assert "-Infinity"[1..] == "Infinity";
  }

  lemma TrimInfinity()
    ensures Trim("-Infinity") == "-Infinity"
  {
    TrimUnchanged("-Infinity");
  }

  /** Trailing garbage makes NaN, unlike `parseInt`. */
  lemma GarbageExample()
    ensures ToNumber("12abc") == NaN
  {
    TrimGarbage();
    GarbageDecimal();
  }

  lemma TrimGarbage()
    ensures Trim("12abc") == "12abc"
  {
    TrimUnchanged("12abc");
  }

  lemma GarbageDecimal()
    ensures Decimal("12abc") == None
  {
    var s := "12abc";
    assert IndexOf(s, 'e') == 5 && IndexOf(s, 'E') == 5 by {
      assert s[1..] == "2abc" && s[2..] == "abc" && s[3..] == "bc" && s[4..] == "c" && s[5..] == "";
    }
    assert s[..5] == s;
    assert IndexOf(s, '.') == 5 by {
      assert s[1..] == "2abc" && s[2..] == "abc" && s[3..] == "bc" && s[4..] == "c" && s[5..] == "";
    }
    assert !IsDigit(s[2]);
  }
}
