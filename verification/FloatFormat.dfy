/**
  Binary floating-point encodings with e exponent bits and f fraction bits, and the values they
  stand for (IEEE 754-2008, section 3.4).
 */
module FloatFormat {
  import opened Arithmetic
  import opened Bits

  datatype Float = Float(sign: bool, exp: nat, frac: nat)

  predicate Fits(e: nat, f: nat, x: Float) { x.exp < Pow2(e) && x.frac < Pow2(f) }

  /** 2^(e-1) - 1 */
  function Bias(e: nat): nat
    requires e > 0
  {
    Pow2(e - 1) - 1
  }

  /** Neither zero, subnormal, infinite nor NaN. */
  predicate Normal(e: nat, f: nat, x: Float) { Fits(e, f, x) && 1 <= x.exp <= Pow2(e) - 2 }

  /** The significand with its hidden bit: the value is significand * 2^(exp - bias - f). */
  function Significand(f: nat, x: Float): nat { Pow2(f) + x.frac }

  /** A significand below 2^(f+1) loses only its hidden bit. */
  lemma HiddenBit(f: nat, s: nat)
    requires Pow2(f) <= s < Pow2(f + 1)
    ensures Pow2(f) + s % Pow2(f) == s && s % Pow2(f) < Pow2(f)
  {
    DivUnique(s, Pow2(f), 1, s - Pow2(f));
  }

  /** 2^k for any integer k. */
  function Scale(k: int): real
    decreases if k < 0 then -k else k
  {
    if k == 0 then 1.0 else if k > 0 then 2.0 * Scale(k - 1) else Scale(k + 1) / 2.0
  }

  lemma {:induction false} ScaleStep(k: int)
    ensures Scale(k + 1) == 2.0 * Scale(k) && Scale(k) > 0.0
    decreases if k < 0 then -k else k
  {
    if k > 0 { ScaleStep(k - 1); } else if k < 0 { ScaleStep(k + 1); }
  }

  lemma {:induction false} ScaleAdd(j: int, n: nat)
    ensures Scale(j + n) == Scale(j) * (Pow2(n) as real)
  {
    if n > 0 {
      ScaleAdd(j, n - 1);
      ScaleStep(j + n - 1);
      RealDouble(Scale(j), Pow2(n - 1) as real);
    }
  }

  lemma ScaleIsPow(n: nat)
    ensures Scale(n) == Pow2(n) as real
  {
    ScaleAdd(0, n);
    assert Scale(0) == 1.0;
  }

  lemma ScaleUp(j: int, n: nat)
    ensures Scale(j + n) == Scale(j) * Scale(n)
  {
    ScaleAdd(j, n);
    ScaleIsPow(n);
  }

  lemma ScaleDown(j: int, k: int)
    requires k < 0
    ensures Scale(j + k) == Scale(j) * Scale(k)
  {
    var n: nat := 0 - k;
    var p := Pow2(n) as real;
    ScaleAdd(j + k, n);
    ScaleAdd(k, n);
    assert Scale(k) * p == 1.0;
    RealInverse(Scale(j + k), Scale(j), Scale(k), p);
  }

  /** Exponents of a product add. */
  lemma ScaleMul(j: int, k: int)
    ensures Scale(j + k) == Scale(j) * Scale(k)
  {
    if k >= 0 {
      ScaleUp(j, k);
    } else {
      ScaleDown(j, k);
    }
  }

  /** n * u, by repeated addition. */
  function Times(n: nat, u: real): real {
    if n == 0 then 0.0 else Times(n - 1, u) + u
  }

  lemma {:induction false} TimesIsProduct(n: nat, u: real)
    ensures Times(n, u) == n as real * u
  {
    if n > 0 { TimesIsProduct(n - 1, u); }
  }

  /** The magnitude of a normal number. */
  function Magnitude(e: nat, f: nat, x: Float): real
    requires e > 0
  {
    Times(Significand(f, x), Ulp(e, f, x))
  }

  /** The exponent of the last place of a normal number. */
  function Exp(e: nat, f: nat, x: Float): int
    requires e > 0
  {
    x.exp - Bias(e) - f
  }

  /** One unit in the last place of a normal number. */
  function Ulp(e: nat, f: nat, x: Float): real
    requires e > 0
  {
    Scale(Exp(e, f, x))
  }

  lemma {:induction false} TimesMul(n: nat, u: real, w: real)
    ensures Times(n, u) * w == Times(n, u * w)
  {
    TimesIsProduct(n, u);
    TimesIsProduct(n, u * w);
    RealSame(Times(n, u), w, n as real * u, w);
    RealAssoc(n as real, u, w);
  }

  lemma {:induction false} TimesTimes(x: nat, y: nat, u: real)
    ensures Times(x, Times(y, u)) == Times(x * y, u)
  {
    if x > 0 {
      TimesTimes(x - 1, y, u);
      MulPlus(x - 1, 1, y);
      MulAtMost(0, x - 1, y);
      TimesPlus((x - 1) * y, y, u);
    }
  }

  lemma {:induction false} TimesMulIs(x: nat, u: real, b: real, c: real)
    requires u * b == c
    ensures Times(x, u) * b == Times(x, c)
  {
    TimesMul(x, u, b);
  }

  lemma {:induction false} MulTimes(y: nat, u: real, v: real, w: real)
    requires u * v == w
    ensures u * Times(y, v) == Times(y, w)
  {
    TimesMul(y, v, u);
    RealSwap(u, Times(y, v));
    RealSwap(u, v);
  }

  /** Scaled integers multiply. */
  lemma {:induction false} TimesProduct(x: nat, u: real, y: nat, v: real, w: real)
    requires u * v == w
    ensures Times(x, u) * Times(y, v) == Times(x * y, w)
  {
    MulTimes(y, u, v, w);
    TimesMulIs(x, u, Times(y, v), Times(y, w));
    TimesTimes(x, y, w);
  }

  /** A significand at scale t + q is the integer significand * 2^q at scale t. */
  lemma {:induction false} Rescale(s: nat, q: nat, t: int, r: nat)
    requires s * Pow2(q) == r
    ensures Times(s, Scale(t + q)) == Times(r, Scale(t))
  {
    ScaleAdd(t, q);
    RealAssoc(s as real, Scale(t), Pow2(q) as real);
    CastMul(s, Pow2(q));
    TimesIsProduct(s, Scale(t + q));
    TimesIsProduct(r, Scale(t));
  }

  lemma {:induction false} TimesPlus(m: nat, n: nat, u: real)
    ensures Times(m + n, u) == Times(m, u) + Times(n, u)
  {
    TimesIsProduct(m, u);
    TimesIsProduct(n, u);
    TimesIsProduct(m + n, u);
  }

  lemma {:induction false} TimesOrder(m: nat, n: nat, u: real)
    requires u > 0.0
    ensures m <= n ==> Times(m, u) <= Times(n, u)
    ensures m < n ==> Times(m, u) < Times(n, u)
  {
    if m < n {
      TimesPlus(m, n - m, u);
      TimesIsProduct(n - m, u);
      RealMulBelow(0.0, (n - m) as real, u);
    }
  }

  lemma {:induction false} HalfPlace(t: int, d: nat)
    requires d >= 1
    ensures Times(Pow2(d - 1), Scale(t)) == Scale(t + d) / 2.0
  {
    TimesIsProduct(Pow2(d - 1), Scale(t));
    ScaleAdd(t, d - 1);
    ScaleStep(t + d - 1);
  }
}
