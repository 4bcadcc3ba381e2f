/**
  Exact decimals in the shape of Python's `decimal.Decimal`: an integer
  coefficient and an integer exponent, the value being coef * 10^exp.
  Two representations of one value (0.5 and 0.50) are different decimals,
  as they are in Python; `SameValue` compares values.
*/
module Decimals {

  datatype Decimal = Decimal(coef: int, exp: int)

  function Pow10(n: nat): (r: nat)
    ensures r >= 1
  {
    if n == 0 then 1 else 10 * Pow10(n - 1)
  }

  function Abs(x: int): nat
  {
    if x < 0 then -x else x
  }

  /** The coefficient of d once d is written with exponent e (e <= d.exp). */
  function Scaled(d: Decimal, e: int): int
    requires e <= d.exp
  {
    d.coef * Pow10(d.exp - e)
  }

  function MinExp(a: Decimal, b: Decimal): int
  {
    if a.exp <= b.exp then a.exp else b.exp
  }

  /** a and b denote the same number. */
  predicate SameValue(a: Decimal, b: Decimal)
  {
    Scaled(a, MinExp(a, b)) == Scaled(b, MinExp(a, b))
  }

  /** Python's `d > 0` (and Decimal truthiness: nonzero). */
  predicate IsPositive(d: Decimal)
  {
    d.coef > 0
  }

  /** Exact product, as `a * b` gives while the result fits the context. */
  function Mul(a: Decimal, b: Decimal): (r: Decimal)
    ensures r.exp == a.exp + b.exp
    ensures r.coef == 0 <==> a.coef == 0 || b.coef == 0
    ensures r.coef > 0 <==> (a.coef > 0 && b.coef > 0) || (a.coef < 0 && b.coef < 0)
  {
    Decimal(a.coef * b.coef, a.exp + b.exp)
  }

  /**
    The product depends on its factors only through their values: equal
    values give products of equal value (0.5 * 3 and 0.50 * 3.0, say).
  */
  lemma MulKeepsValue(a: Decimal, a': Decimal, b: Decimal, b': Decimal)
    requires SameValue(a, a') && SameValue(b, b')
    ensures SameValue(Mul(a, b), Mul(a', b'))
  {
    var f, g := MinExp(a, a'), MinExp(b, b');
    ScaledProduct(a, b, f, g);
    ScaledProduct(a', b', f, g);
    SameValueBelow(Mul(a, b), Mul(a', b'), f + g);
  }

  /** Written with exponent f + g, a product is the product of its factors written with f and g. */
  lemma ScaledProduct(a: Decimal, b: Decimal, f: int, g: int)
    requires f <= a.exp && g <= b.exp
    ensures Scaled(Mul(a, b), f + g) == Scaled(a, f) * Scaled(b, g)
  {
    var p, q := Pow10(a.exp - f), Pow10(b.exp - g);
    Pow10Add(a.exp - f, b.exp - g);
    assert Mul(a, b).exp - (f + g) == (a.exp - f) + (b.exp - g);
    Rearrange(a.coef, b.coef, p, q);
  }

  lemma Rearrange(w: int, x: int, y: int, z: int)
    ensures (w * x) * (y * z) == (w * y) * (x * z)
  {
  }

  /** Equal coefficients at any common exponent at or below both mean equal values. */
  lemma SameValueBelow(x: Decimal, y: Decimal, h: int)
    requires h <= x.exp && h <= y.exp
    requires Scaled(x, h) == Scaled(y, h)
    ensures SameValue(x, y)
  {
    var m := MinExp(x, y);
    ScaledBelow(x, m, h);
    ScaledBelow(y, m, h);
    Cancel(Scaled(x, m), Scaled(y, m), Pow10(m - h));
  }

  /** Lowering the exponent from m to h multiplies the coefficient by 10^(m - h). */
  lemma ScaledBelow(x: Decimal, m: int, h: int)
    requires h <= m <= x.exp
    ensures Scaled(x, h) == Scaled(x, m) * Pow10(m - h)
  {
    Pow10Add(x.exp - m, m - h);
    assert x.exp - h == (x.exp - m) + (m - h);
    Associate(x.coef, Pow10(x.exp - m), Pow10(m - h));
  }

  lemma Associate(c: int, u: int, p: int)
    ensures c * (u * p) == (c * u) * p
  {
  }

  lemma Cancel(x: int, y: int, p: int)
    requires p >= 1 && x * p == y * p
    ensures x == y
  {
    assert (x - y) * p == 0;
  }

  /**
    The rounding rule ROUND_HALF_EVEN: q is an integer nearest to n / m,
    and on a tie q is even.
  */
  predicate NearestEven(n: int, m: nat, q: int)
    requires m >= 1
  {
    && 2 * Abs(q * m - n) <= m
    && (2 * Abs(q * m - n) == m ==> q % 2 == 0)
  }

  /** Half-even rounding of a magnitude n / m. */
  function RoundMagnitude(n: nat, m: nat): (q: nat)
    requires m >= 1
  {
    var q, r := n / m, n % m;
    if 2 * r > m then q + 1
    else if 2 * r < m then q
    else if q % 2 == 0 then q
    else q + 1
  }

  /** Python's decimal rounds the magnitude and keeps the sign. */
  function RoundHalfEven(n: int, m: nat): (q: int)
    requires m >= 1
  {
    if n >= 0 then RoundMagnitude(n, m) else -(RoundMagnitude(-n, m) as int)
  }

  lemma {:induction false} RoundMagnitudeIsNearestEven(n: nat, m: nat)
    requires m >= 1
    ensures NearestEven(n, m, RoundMagnitude(n, m))
  {
    var q, r := n / m, n % m;
    assert n == q * m + r;
    assert (q + 1) * m - n == m - r;
    assert q * m - n == -r;
  }

  lemma {:induction false} RoundHalfEvenIsNearestEven(n: int, m: nat)
    requires m >= 1
    ensures NearestEven(n, m, RoundHalfEven(n, m))
  {
    if n >= 0 {
      RoundMagnitudeIsNearestEven(n, m);
    } else {
      RoundMagnitudeIsNearestEven(-n, m);
      var q := RoundMagnitude(-n, m);
      assert (-q) * m - n == -(q * m - (-n));
      assert (-q) % 2 == 0 <==> q % 2 == 0;
    }
  }

  /** The rounding rule leaves no choice: at most one q satisfies it. */
  lemma {:induction false} NearestEvenIsUnique(n: int, m: nat, q1: int, q2: int)
    requires m >= 1
    requires NearestEven(n, m, q1) && NearestEven(n, m, q2)
    ensures q1 == q2
  {
    if q1 != q2 {
      var lo, hi := if q1 < q2 then q1 else q2, if q1 < q2 then q2 else q1;
      var a, b := lo * m - n, hi * m - n;
      var k := hi - lo;
      Distribute(hi, lo, m);
      MultiplyAtLeast(k, m);
      assert b - a == m && 2 * Abs(a) == m && 2 * Abs(b) == m;
      assert lo % 2 == 0 && hi % 2 == 0;
      MultiplyOnce(k, m);
      assert false;
    }
  }

  lemma Distribute(x: int, y: int, m: int)
    ensures x * m - y * m == (x - y) * m
  {
  }

  lemma MultiplyAtLeast(k: int, m: nat)
    requires k >= 1
    ensures k * m >= m
  {
  }

  lemma MultiplyOnce(k: int, m: nat)
    requires k >= 1 && m >= 1 && k * m == m
    ensures k == 1
  {
    if k > 1 {
      assert k * m == (k - 1) * m + m;
      MultiplyAtLeast(k - 1, m);
    }
  }

  /**
    `d.quantize(Decimal(10) ** -(places as int))`: d written with exactly `places`
    fractional digits, rounding half-even when digits are dropped.
  */
  function Quantize(d: Decimal, places: nat): (r: Decimal)
    ensures r.exp == -(places as int)
    ensures d.exp >= -(places as int) ==> SameValue(r, d)
    ensures d.exp < -(places as int) ==> NearestEven(d.coef, Pow10(-(places as int) - d.exp), r.coef)
  {
    if d.exp >= -(places as int) then
      Decimal(d.coef * Pow10(d.exp + places), -(places as int))
    else
      RoundHalfEvenIsNearestEven(d.coef, Pow10(-(places as int) - d.exp));
      Decimal(RoundHalfEven(d.coef, Pow10(-(places as int) - d.exp)), -(places as int))
  }

  /** Python's default context carries 28 digits. */
  const ContextPrecision: nat := 28

  /**
    `quantize` signals InvalidOperation, raised under the default traps, when
    its result would need more coefficient digits than the context carries.
  */
  predicate QuantizeFitsContext(d: Decimal, places: nat)
  {
    Abs(Quantize(d, places).coef) < Pow10(ContextPrecision)
  }

  lemma {:induction false} Pow10Add(a: nat, b: nat)
    ensures Pow10(a + b) == Pow10(a) * Pow10(b)
  {
    if a > 0 {
      Pow10Add(a - 1, b);
    }
  }

  /** A 2-place amount within the field's 15 digits is well inside the context. */
  lemma FieldDigitsFitContext(d: Decimal)
    ensures Abs(Quantize(d, 2).coef) < Pow10(15) ==> QuantizeFitsContext(d, 2)
  {
    Pow10Monotone(15, ContextPrecision);
  }

  lemma {:induction false} Pow10Monotone(a: nat, b: nat)
    requires a <= b
    ensures Pow10(a) <= Pow10(b)
  {
    if a < b {
      Pow10Monotone(a, b - 1);
    }
  }

  /** Quantizing to at least as many places as d has fits the context exactly when the widened coefficient does. */
  lemma WidenedFitsContext(d: Decimal, places: nat)
    requires d.exp >= -(places as int)
    ensures QuantizeFitsContext(d, places) <==>
            Abs(d.coef) * Pow10((d.exp + places) as nat) < Pow10(ContextPrecision)
  {
    var k: nat := d.exp + places;
    assert Quantize(d, places).coef == d.coef * Pow10(k);
    AbsOfMultiple(d.coef, Pow10(k));
  }

  /** A whole number of magnitude 10^26 or more needs over 28 digits at two places. */
  lemma WholeNumberOverContext(d: Decimal)
    requires d.exp == 0 && Abs(d.coef) >= Pow10(26)
    ensures !QuantizeFitsContext(d, 2)
  {
    WidenedFitsContext(d, 2);
    Pow10Add(26, 2);
    assert Pow10(2) == 100;
  }

  /** 92.00 needs 28 digits at 26 places and 29 at 27 places. */
  lemma NinetyTwoAtContextEdge()
    ensures QuantizeFitsContext(Decimal(9200, -2), 26)
    ensures !QuantizeFitsContext(Decimal(9200, -2), 27)
  {
    WidenedFitsContext(Decimal(9200, -2), 26);
    WidenedFitsContext(Decimal(9200, -2), 27);
    Pow10Add(24, 4);
    Pow10Add(25, 3);
  }

  lemma AbsOfMultiple(c: int, p: nat)
    ensures Abs(c * p) == Abs(c) * p
  {
    if c < 0 {
      assert -(c * p) == (-c) * p;
    }
  }

  /** Quantizing to the exponent a decimal already has changes nothing. */
  lemma QuantizeIdempotent(d: Decimal, places: nat)
    ensures Quantize(Quantize(d, places), places) == Quantize(d, places)
  {
  }

  /** Quantizing a 2-place value to more places only appends zeros. */
  lemma QuantizeWidens(d: Decimal, places: nat)
    requires places >= 2
    ensures Quantize(Quantize(d, 2), places).coef == Quantize(d, 2).coef * Pow10(places - 2)
    ensures SameValue(Quantize(Quantize(d, 2), places), Quantize(d, 2))
  {
  }

  /**
    Quantizing a 2-place value to fewer places rounds a second time, which
    can differ from rounding once: 0.149 gives 0.15 and then 0.2, but 0.1
    when rounded to one place directly.
  */
  lemma QuantizeNarrowsTwice()
    ensures Quantize(Quantize(Decimal(149, -3), 2), 1) == Decimal(2, -1)
    ensures Quantize(Decimal(149, -3), 1) == Decimal(1, -1)
  {
    assert Pow10(1) == 10;
    assert Pow10(2) == 100;
  }
}
