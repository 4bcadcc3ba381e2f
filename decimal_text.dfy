/**
  Decimals as text: `str(d)` for exponents from -6 to 0, where Python never
  uses scientific notation, and `Decimal(s)` for the grammar sign, digits,
  optional point, digits.
*/
module DecimalText {
  import opened Wrappers
  import opened Decimals
  import opened Strings

  predicate IsDigit(c: char)
  {
    '0' <= c <= '9'
  }

  predicate AllDigits(s: string)
  {
    forall i :: 0 <= i < |s| ==> IsDigit(s[i])
  }

  function DigitChar(n: nat): (c: char)
    requires n < 10
    ensures IsDigit(c) && (c as int) - ('0' as int) == n
  {
    ('0' as int + n) as char
  }

  /** Decimal digits of n, most significant first, "0" for zero. */
  function NatStr(n: nat): (s: string)
    ensures |s| >= 1 && AllDigits(s)
  {
    if n < 10 then [DigitChar(n)] else NatStr(n / 10) + [DigitChar(n % 10)]
  }

  /** Python's `str(i)` for an int. */
  function IntStr(i: int): string
  {
    if i < 0 then "-" + NatStr(-i) else NatStr(i)
  }

  /** The number a digit string denotes, as `int(s)` reads it. */
  function DigitsValue(s: string): nat
    requires AllDigits(s)
  {
    if s == [] then 0
    else DigitsValue(s[..|s| - 1]) * 10 + ((s[|s| - 1] as int) - ('0' as int))
  }

  /** s left-padded with zeros to n characters. */
  function PadZeros(s: string, n: nat): (r: string)
    requires |s| <= n
    ensures |r| == n
    decreases n - |s|
  {
    if |s| == n then s else PadZeros(['0'] + s, n)
  }

  /**
    `str(d)` for an exponent from -6 to 0, where Python prints plainly: a
    minus sign for a negative coefficient, the integer part (at least "0"),
    and, unless the exponent is 0, a point and exactly -exp fractional digits.
  */
  function Format(d: Decimal): string
    requires -6 <= d.exp <= 0
  {
    var body := FormatMagnitude(Abs(d.coef), -d.exp);
    if d.coef < 0 then "-" + body else body
  }

  /** The digits of m * 10^-p with a point before the last p of them. */
  function FormatMagnitude(m: nat, p: nat): string
  {
    if p == 0 then NatStr(m)
    else
      var (whole, frac) := DivModPow(m, p);
      NatStrShorterThanPower(frac, p);
      NatStr(whole) + "." + PadZeros(NatStr(frac), p)
  }

  /** m split at its last p digits; DivModPowValue puts the parts back together. */
  function DivModPow(m: nat, p: nat): (qr: (nat, nat))
    ensures qr.1 < Pow10(p)
  {
    DivMod(m, Pow10(p))
  }

  function DivMod(m: nat, d: int): (qr: (nat, nat))
    requires d >= 1
    ensures qr.1 < d
  {
    (m / d, m % d)
  }

  lemma DivModPowValue(m: nat, p: nat)
    ensures DivModPow(m, p).0 * Pow10(p) + DivModPow(m, p).1 == m
  {
    var d := Pow10(p);
    assert (m / d) * d + m % d == m;
  }

  function ParseUnsigned(s: string): Option<Decimal>
  {
    var k := IndexOf(s, '.');
    var whole := s[..k];
    var frac := if k < |s| then s[k + 1..] else "";
    if AllDigits(whole) && AllDigits(frac) && |whole| + |frac| > 0 then
      Some(Decimal(DigitsValue(whole + frac), -|frac|))
    else
      None
  }

  /** `Decimal(s)`, None where Python raises InvalidOperation. */
  function Parse(s: string): Option<Decimal>
  {
    if |s| > 0 && (s[0] == '-' || s[0] == '+') then
      match ParseUnsigned(s[1..])
      case None => None
      case Some(d) => Some(if s[0] == '-' then Decimal(-d.coef, d.exp) else d)
    else
      ParseUnsigned(s)
  }

  // ---------------------------------------------------------------------
  // Digit strings

  lemma {:induction false} NatStrShorterThanPower(n: nat, k: nat)
    requires k >= 1
    ensures |NatStr(n)| <= k <==> n < Pow10(k)
  {
    if n >= 10 && k > 1 {
      NatStrShorterThanPower(n / 10, k - 1);
    }
    if n >= 10 && k == 1 {
      assert |NatStr(n)| >= 2 by { assert |NatStr(n)| == |NatStr(n / 10)| + 1; }
    }
    if n < 10 {
      PowerAtLeastTen(k);
    }
  }

  lemma DigitsHaveNoPointOrSpace(s: string)
    requires AllDigits(s)
    ensures Free(s, '.') && Free(s, ' ')
  {
  }

  lemma PowerAtLeastTen(k: nat)
    requires k >= 1
    ensures Pow10(k) >= 10
  {
  }

  lemma {:induction false} DigitsValueAppend(a: string, b: string)
    requires AllDigits(a) && AllDigits(b)
    ensures AllDigits(a + b)
    ensures DigitsValue(a + b) == DigitsValue(a) * Pow10(|b|) + DigitsValue(b)
    decreases |b|
  {
    if b == [] {
      assert a + b == a;
    } else {
      var b' := b[..|b| - 1];
      var digit := (b[|b| - 1] as int) - ('0' as int);
      assert (a + b)[..|a + b| - 1] == a + b';
      assert (a + b)[|a + b| - 1] == b[|b| - 1];
      DigitsValueAppend(a, b');
      assert DigitsValue(a + b) == DigitsValue(a + b') * 10 + digit;
      assert DigitsValue(b) == DigitsValue(b') * 10 + digit;
      ShiftOneDigit(DigitsValue(a), Pow10(|b'|), DigitsValue(b'), digit);
    }
  }

  /** The arithmetic of appending one digit: x * 10^(k+1) + (v * 10 + d) == (x * 10^k + v) * 10 + d. */
  lemma ShiftOneDigit(x: int, p: int, v: int, d: int)
    ensures x * (10 * p) + (v * 10 + d) == (x * p + v) * 10 + d
  {
  }

  lemma {:induction false} DigitsValueOfNatStr(n: nat)
    ensures DigitsValue(NatStr(n)) == n
  {
    if n >= 10 {
      DigitsValueOfNatStr(n / 10);
      var s := NatStr(n);
      assert s[..|s| - 1] == NatStr(n / 10);
    } else {
      var s := NatStr(n);
      assert s[..|s| - 1] == [];
    }
  }

  lemma {:induction false} PadZerosKeepsValue(s: string, n: nat)
    requires |s| <= n && AllDigits(s)
    ensures AllDigits(PadZeros(s, n)) && DigitsValue(PadZeros(s, n)) == DigitsValue(s)
    decreases n - |s|
  {
    if |s| < n {
      DigitsValueAppend(['0'], s);
      PadZerosKeepsValue(['0'] + s, n);
    }
  }

  // ---------------------------------------------------------------------
  // Properties of str() and Decimal()

  lemma {:induction false} ParseFormatMagnitude(m: nat, p: nat)
    ensures ParseUnsigned(FormatMagnitude(m, p)) == Some(Decimal(m, -(p as int)))
  {
    if p == 0 {
      ParseWholeDigits(m);
    } else {
      var qr := DivModPow(m, p);
      DivModPowValue(m, p);
      NatStrShorterThanPower(qr.1, p);
      var a, f := NatStr(qr.0), PadZeros(NatStr(qr.1), p);
      assert FormatMagnitude(m, p) == a + "." + f;
      PointedDigits(qr.0, qr.1, p);
      PointedValue(a, f, qr.0, qr.1, p, m);
      ParseWithPoint(a, f, m, -(p as int));
    }
  }

  /** The digits of m alone read back as m with exponent 0. */
  lemma ParseWholeDigits(m: nat)
    ensures ParseUnsigned(NatStr(m)) == Some(Decimal(m, 0))
  {
    var body := NatStr(m);
    DigitsHaveNoPointOrSpace(body);
    IndexOfAbsent(body, '.');
    assert body[..|body|] == body;
    DigitsValueOfNatStr(m);
    assert body + "" == body;
  }

  /** The two digit strings of "whole.frac", frac padded to p digits, and what they denote. */
  lemma PointedDigits(whole: nat, frac: nat, p: nat)
    requires |NatStr(frac)| <= p
    ensures AllDigits(NatStr(whole)) && DigitsValue(NatStr(whole)) == whole
    ensures AllDigits(PadZeros(NatStr(frac), p)) && DigitsValue(PadZeros(NatStr(frac), p)) == frac
  {
    PadZerosKeepsValue(NatStr(frac), p);
    DigitsValueOfNatStr(whole);
    DigitsValueOfNatStr(frac);
  }

  /** Running the whole digits into p fractional digits gives whole * 10^p + frac. */
  lemma PointedValue(a: string, f: string, whole: nat, frac: nat, p: nat, m: nat)
    requires AllDigits(a) && DigitsValue(a) == whole
    requires AllDigits(f) && DigitsValue(f) == frac && |f| == p
    requires whole * Pow10(p) + frac == m
    ensures AllDigits(a + f) && DigitsValue(a + f) == m
  {
    DigitsValueAppend(a, f);
  }

  /** Digits, a point and digits read as the digits run together, scaled by the fraction's length. */
  lemma ParseWithPoint(a: string, f: string, v: int, e: int)
    requires AllDigits(a) && AllDigits(f) && |a| >= 1
    requires AllDigits(a + f) && DigitsValue(a + f) == v && e == -|f|
    ensures ParseUnsigned(a + "." + f) == Some(Decimal(v, e))
  {
    var body := a + "." + f;
    DigitsHaveNoPointOrSpace(a);
    IndexOfAfter(a, '.', f);
    assert body[..|a|] == a;
    assert body[|a| + 1..] == f;
  }

  lemma FormatMagnitudeStartsWithDigit(m: nat, p: nat)
    ensures |FormatMagnitude(m, p)| >= 1 && IsDigit(FormatMagnitude(m, p)[0])
  {
    if p > 0 {
      var (whole, _) := DivModPow(m, p);
      assert FormatMagnitude(m, p)[0] == NatStr(whole)[0];
    }
  }

  /** An unsigned literal that starts with a digit reads the same through Parse. */
  lemma ParseUnsignedLiteral(body: string, x: Decimal)
    requires |body| >= 1 && IsDigit(body[0]) && ParseUnsigned(body) == Some(x)
    ensures Parse(body) == Some(x)
  {
  }

  /** A minus sign before an unsigned literal negates the coefficient. */
  lemma ParseMinus(body: string, coef: int, exp: int)
    requires ParseUnsigned(body) == Some(Decimal(coef, exp))
    ensures ("-" + body)[1..] == body
    ensures Parse("-" + body) == Some(Decimal(-coef, exp))
  {
    assert ("-" + body)[1..] == body;
  }

  /** `Decimal(str(d))` gives d back, coefficient and exponent alike. */
  lemma {:induction false} ParseFormat(d: Decimal)
    requires -6 <= d.exp <= 0
    ensures Parse(Format(d)) == Some(d)
  {
    var p: nat := -d.exp;
    if d.coef < 0 {
      var m: nat := -d.coef;
      assert d == Decimal(-(m as int), -(p as int));
      ParseFormatNegative(m, p);
    } else {
      var m: nat := d.coef;
      assert d == Decimal(m, -(p as int));
      ParseFormatNonNegative(m, p);
    }
  }

  lemma ParseFormatNonNegative(m: nat, p: nat)
    requires p <= 6
    ensures Parse(Format(Decimal(m, -(p as int)))) == Some(Decimal(m, -(p as int)))
  {
    FormatNonNegative(m, p);
    ParsePositive(m, p);
  }

  lemma ParseFormatNegative(m: nat, p: nat)
    requires p <= 6 && m > 0
    ensures Parse(Format(Decimal(-(m as int), -(p as int)))) == Some(Decimal(-(m as int), -(p as int)))
  {
    FormatNegative(m, p);
    ParseNegative(m, p);
  }

  lemma FormatNonNegative(m: nat, p: nat)
    requires p <= 6
    ensures Format(Decimal(m, -(p as int))) == FormatMagnitude(m, p)
  {
    var d := Decimal(m, -(p as int));
    assert Abs(d.coef) == m;
    assert -d.exp == p as int;
  }

  lemma FormatNegative(m: nat, p: nat)
    requires p <= 6 && m > 0
    ensures Format(Decimal(-(m as int), -(p as int))) == "-" + FormatMagnitude(m, p)
  {
    var d := Decimal(-(m as int), -(p as int));
    assert Abs(d.coef) == m;
    assert -d.exp == p as int;
  }

  lemma ParseNegative(m: nat, p: nat)
    ensures Parse("-" + FormatMagnitude(m, p)) == Some(Decimal(-(m as int), -(p as int)))
  {
    ParseFormatMagnitude(m, p);
    ParseMinus(FormatMagnitude(m, p), m, -(p as int));
  }

  lemma ParsePositive(m: nat, p: nat)
    ensures Parse(FormatMagnitude(m, p)) == Some(Decimal(m, -(p as int)))
  {
    ParseFormatMagnitude(m, p);
    FormatMagnitudeStartsWithDigit(m, p);
    ParseUnsignedLiteral(FormatMagnitude(m, p), Decimal(m, -(p as int)));
  }

  /** `str(d)` is never empty, and it starts with '-' exactly when d is negative, else with a digit. */
  lemma FormatSign(d: Decimal)
    requires -6 <= d.exp <= 0
    ensures |Format(d)| >= 1
    ensures Format(d)[0] == '-' <==> d.coef < 0
    ensures d.coef >= 0 ==> IsDigit(Format(d)[0])
  {
    var m: nat, p: nat := Abs(d.coef), -d.exp;
    FormatMagnitudeStartsWithDigit(m, p);
    if d.coef < 0 {
      assert Format(d) == "-" + FormatMagnitude(m, p);
    } else {
      assert Format(d) == FormatMagnitude(m, p);
    }
  }

  /**
    What `Decimal(s)` can return here: nothing for the empty string, never
    a positive exponent, and a negative coefficient only after a leading '-'.
  */
  lemma ParseShape(s: string)
    ensures Parse("") == None
    ensures Parse(s).Some? ==> Parse(s).value.exp <= 0 && |s| >= 1
    ensures Parse(s).Some? && Parse(s).value.coef < 0 ==> s[0] == '-'
  {
    assert IndexOf("", '.') == 0;
    if |s| > 0 && (s[0] == '-' || s[0] == '+') {
      ParseUnsignedShape(s[1..]);
    } else {
      ParseUnsignedShape(s);
    }
  }

  lemma ParseUnsignedShape(s: string)
    ensures ParseUnsigned(s).Some? ==> ParseUnsigned(s).value.exp <= 0 && ParseUnsigned(s).value.coef >= 0 && |s| >= 1
  {
  }

  /**
    The length the view tests for a 2-place amount, `len(str(q).replace('.', ''))`:
    the digits of the integer part, two fractional digits and one more for
    a minus sign.
  */
  lemma {:induction false} LengthWithoutPoint(q: Decimal)
    requires q.exp == -2
    ensures |Remove(Format(q), '.')| ==
            |NatStr(Abs(q.coef) / 100)| + 2 + (if q.coef < 0 then 1 else 0)
  {
    var m := Abs(q.coef);
    assert Pow10(2) == 100;
    var (whole, frac) := DivModPow(m, 2);
    assert whole == m / 100;
    var sign := if q.coef < 0 then "-" else "";
    var a := NatStr(whole);
    NatStrShorterThanPower(frac, 2);
    var f := PadZeros(NatStr(frac), 2);
    assert Format(q) == sign + a + "." + f;
    RemoveAppend(sign + a + ".", f, '.');
    RemoveAppend(sign + a, ".", '.');
    RemoveAppend(sign, a, '.');
    RemoveAbsent(sign, '.');
    DigitsHaveNoPointOrSpace(a);
    RemoveAbsent(a, '.');
    assert AllDigits(f) by { PadZerosKeepsValue(NatStr(frac), 2); }
    DigitsHaveNoPointOrSpace(f);
    RemoveAbsent(f, '.');
    assert Remove(".", '.') == [];
  }
}
