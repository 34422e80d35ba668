/**
  The floating-point multiplier (fp_mul.sv without DEBUG_FPU) for every exponent width and every
  fraction width of at least three: fracmul, expadd, normalize, round, normalize.
 */
module FloatMultiply {
  import opened Arithmetic
  import opened Bits
  import opened FloatFormat

  // ---------------------------------------------------------------- as the RTL computes it

  /** normalize: a mantissa of f + 5 bits whose top bit is set moves down by one; the two lowest
      bits are and-ed into the last one. */
  function NormMant(f: nat, m: nat): nat {
    if m >= Pow2(f + 4) then 2 * (m / 4) + (if m % 4 == 3 then 1 else 0) else m
  }
  function NormExp(f: nat, m: nat, x: int): int { if m >= Pow2(f + 4) then x + 1 else x }

  /** round: bit 2 decides. */
  function RoundMant(m: nat): nat { if (m / 4) % 2 == 1 then 8 * (m / 8 + 1) else m }

  /** w_prod[2*(FW+1)-1:FW-3] */
  function TopBits(f: nat, p: nat): nat
    requires f >= 3
  {
    Quot(p, Pow2(f - 3))
  }

  /** The mantissa path and the exponent adjustments behind it. */
  function Mantissa(f: nat, p: nat): nat
    requires f >= 3
  {
    NormMant(f, RoundMant(NormMant(f, TopBits(f, p))))
  }
  function Exponent(f: nat, p: nat, x: int): int
    requires f >= 3
  {
    var m := TopBits(f, p);
    NormExp(f, RoundMant(NormMant(f, m)), NormExp(f, m, x))
  }

  /** An exponent register of e + 1 bits, then cut to e bits; the model keeps e bits of the sum. */
  function CutExp(e: nat, x: int): nat { x % Pow2(e) }

  predicate IsZeroBits(x: Float) { !x.sign && x.exp == 0 && x.frac == 0 }
  predicate IsInfinity(e: nat, x: Float) { x.exp == Pow2(e) - 1 && x.frac == 0 }

  function Multiply(e: nat, f: nat, a: Float, b: Float): Float
    requires e > 0 && f >= 3
  {
    var sign := a.sign != b.sign;
    if IsZeroBits(a) || IsZeroBits(b) then Float(sign, 0, 0)
    else if IsInfinity(e, a) || IsInfinity(e, b) then Float(sign, Pow2(e) - 1, 0)
    else
      var p := Significand(f, a) * Significand(f, b);
      Float(sign, CutExp(e, Exponent(f, p, a.exp + b.exp - Bias(e))), (Mantissa(f, p) / 8) % Pow2(f))
  }

  // ---------------------------------------------------------------- rounding

  /** The weight of the last significand bit within the product: 2^f, or 2^(f+1) for a product
      of at least two. */
  function Drop(f: nat, p: nat): nat { if p >= Pow2(2 * f + 1) then f + 1 else f }

  /** Round half away from zero at weight u = 2h. */
  function HalfUp(p: nat, h: nat): nat
    requires h > 0
  {
    Quot(p, 2 * h) + Quot(p, h) % 2
  }

  /** Independent reference: r is a multiple of 2h nearest to p, and a tie goes up. */
  ghost predicate IsNearest(p: nat, h: nat, r: nat) {
    && (exists k: nat :: r == k * (2 * h))
    && r - p <= h && p - r < h
  }

  lemma HalfUpError(p: nat, h: nat, q: nat, bit: nat, r: nat)
    requires h > 0 && p == (2 * q + bit) * h + r && r < h && bit <= 1
    ensures IsNearest(p, h, (q + bit) * (2 * h))
  {
    MulPlus(2 * q, bit, h);
    MulPlus(q, bit, 2 * h);
    MulSwap(2, q, h);
    MulSwap(q, 2, h);
  }

  lemma HalfUpIsNearest(p: nat, h: nat)
    requires h > 0
    ensures IsNearest(p, h, HalfUp(p, h) * (2 * h))
  {
    DivMod(p, h);
    DivDiv(p, h, 2);
    var q, bit := p / (2 * h), (p / h) % 2;
    assert p / h == 2 * q + bit;
    HalfUpError(p, h, q, bit, p % h);
  }

  /** No other multiple of 2h is nearer. */
  lemma NothingNearer(p: nat, h: nat, r: nat, k: nat)
    requires h > 0 && IsNearest(p, h, r)
    ensures var x := k * (2 * h);
            (if r >= p then r - p else p - r) <= (if x >= p then x - p else p - x)
  {
    var j: nat :| r == j * (2 * h);
    if k > j {
      MulAtMost(j + 1, k, 2 * h);
      MulPlus(j, 1, 2 * h);
    } else if k < j {
      MulAtMost(k, j - 1, 2 * h);
      MulMinus(j, 1, 2 * h);
    }
  }

  // ---------------------------------------------------------------- the mantissa path

  lemma ProductRange(f: nat, a: nat, b: nat)
    requires Pow2(f) <= a < Pow2(f + 1) && Pow2(f) <= b < Pow2(f + 1)
    ensures Pow2(2 * f) <= a * b < Pow2(2 * f + 2)
  {
    MulAtMost(Pow2(f), a, Pow2(f));
    MulAtMost(Pow2(f), b, a);
    MulSwap(1, a, b);
    MulSwap(1, a, Pow2(f));
    Pow2Add(f, f);
    MulBelow(a, Pow2(f + 1), Pow2(f + 1));
    MulAtMost(b, Pow2(f + 1), a);
    MulSwap(1, a, Pow2(f + 1));
    Pow2Add(f + 1, f + 1);
  }

  /** Shifting the product by f - 3, and then by three more, or four more. */
  lemma TopBitsShift(f: nat, p: nat, k: nat)
    requires f >= 3
    ensures TopBits(f, p) / Pow2(k) == p / Pow2(f - 3 + k)
  {
    DivDiv(p, Pow2(f - 3), Pow2(k));
    Pow2Add(f - 3, k);
  }

  lemma SmallPowers()
    ensures Pow2(0) == 1 && Pow2(1) == 2 && Pow2(2) == 4 && Pow2(3) == 8 && Pow2(4) == 16
  {
  }

  /** The top bit of the cut product says whether the product reaches 2^(2f+1). */
  lemma TopBitTest(f: nat, p: nat)
    requires f >= 3
    ensures TopBits(f, p) >= Pow2(f + 4) <==> p >= Pow2(2 * f + 1)
  {
    Pow2Add(f + 4, f - 3);
    if p >= Pow2(2 * f + 1) {
      DivAtLeast(p, Pow2(f - 3), Pow2(f + 4));
    } else {
      DivBelow(p, Pow2(f - 3), Pow2(f + 4));
    }
  }

  lemma HalvedParts(m: nat, x: nat)
    requires x <= 1
    ensures (2 * (m / 4) + x) / 8 == m / 16 && (2 * (m / 4) + x) / 4 == m / 8
  {
    var t := m / 4;
    DivDiv(m, 4, 4);
    DivDiv(m, 4, 2);
    DivUnique(2 * t + x, 8, t / 4, 2 * (t % 4) + x);
    DivUnique(2 * t + x, 4, t / 2, 2 * (t % 2) + x);
  }

  /** After the first normalize the significand is the product cut at its last bit, and bit 2 is the
      first dropped bit. */
  lemma FirstNormalize(f: nat, p: nat)
    requires f >= 3
    ensures var m1, s := NormMant(f, TopBits(f, p)), Drop(f, p);
            m1 / 8 == p / Pow2(s) && (m1 / 4) % 2 == (p / Pow2(s - 1)) % 2
  {
    var m := TopBits(f, p);
    TopBitTest(f, p);
    SmallPowers();
    if m >= Pow2(f + 4) {
      HalvedParts(m, if m % 4 == 3 then 1 else 0);
      TopBitsShift(f, p, 4);
      TopBitsShift(f, p, 3);
    } else {
      TopBitsShift(f, p, 3);
      TopBitsShift(f, p, 2);
    }
  }

  /** Rounding adds the first dropped bit. */
  lemma RoundAdds(m1: nat)
    ensures RoundMant(m1) / 8 == m1 / 8 + (m1 / 4) % 2
    ensures (m1 / 4) % 2 == 1 ==> RoundMant(m1) % 8 == 0
  {
  }

  lemma RoundedSignificand(f: nat, p: nat)
    requires f >= 3
    ensures var h := Pow2(Drop(f, p) - 1);
            RoundMant(NormMant(f, TopBits(f, p))) / 8 == HalfUp(p, h)
  {
    FirstNormalize(f, p);
    RoundAdds(NormMant(f, TopBits(f, p)));
    assert Pow2(Drop(f, p)) == 2 * Pow2(Drop(f, p) - 1);
  }

  /** The rounded significand has f + 1 bits, or is exactly 2^(f+1). */
  lemma RoundedRange(f: nat, p: nat)
    requires f >= 3 && Pow2(2 * f) <= p < Pow2(2 * f + 2)
    ensures var s := HalfUp(p, Pow2(Drop(f, p) - 1)); Pow2(f) <= s <= Pow2(f + 1)
  {
    var d := Drop(f, p);
    var u := Pow2(d);
    assert u == 2 * Pow2(d - 1);
    if d == f + 1 {
      Pow2Add(f, f + 1);
      Pow2Add(f + 1, f + 1);
    } else {
      Pow2Add(f, f);
      Pow2Add(f + 1, f);
    }
    DivAtLeast(p, u, Pow2(f));
    DivBelow(p, u, Pow2(f + 1));
  }

  /** Whether rounding carries out of the significand. */
  function Carry(f: nat, p: nat): nat
    requires f >= 1
  {
    if HalfUp(p, Pow2(Drop(f, p) - 1)) == Pow2(f + 1) then 1 else 0
  }

  lemma CarryTest(f: nat, m2: nat)
    ensures m2 >= Pow2(f + 4) <==> m2 / 8 >= Pow2(f + 1)
  {
    Pow2Add(3, f + 1);
    SmallPowers();
  }

  lemma CarriedMantissa(f: nat, m2: nat)
    requires m2 / 8 == Pow2(f + 1) && m2 % 8 == 0
    ensures NormMant(f, m2) / 8 == Pow2(f)
  {
    CarryTest(f, m2);
    assert m2 == 8 * Pow2(f + 1) == 16 * Pow2(f);
    assert m2 / 4 == 4 * Pow2(f) && m2 % 4 == 0;
  }

  /** The mantissa path yields the rounded product, renormalised when rounding carries out, and the
      exponent counts both normalisations. */
  lemma MantissaResult(f: nat, p: nat, x: int)
    requires f >= 3 && Pow2(2 * f) <= p < Pow2(2 * f + 2)
    ensures var s, d, c := HalfUp(p, Pow2(Drop(f, p) - 1)), Drop(f, p), Carry(f, p);
            && Exponent(f, p, x) == x + (d - f) + c
            && Pow2(f) + (Mantissa(f, p) / 8) % Pow2(f) == (if c == 1 then Pow2(f) else s)
  {
    var m1 := NormMant(f, TopBits(f, p));
    var m2 := RoundMant(m1);
    var s := HalfUp(p, Pow2(Drop(f, p) - 1));
    RoundedSignificand(f, p);
    RoundedRange(f, p);
    TopBitTest(f, p);
    CarryTest(f, m2);
    if s == Pow2(f + 1) {
      NoCarryYet(f, p);
      RoundAdds(m1);
      CarriedMantissa(f, m2);
      DivUnique(Pow2(f), Pow2(f), 1, 0);
    } else {
      HiddenBit(f, s);
    }
  }

  /** Before rounding the significand is below 2^(f+1). */
  lemma NoCarryYet(f: nat, p: nat)
    requires f >= 3 && Pow2(2 * f) <= p < Pow2(2 * f + 2)
    ensures NormMant(f, TopBits(f, p)) / 8 < Pow2(f + 1)
  {
    FirstNormalize(f, p);
    Pow2Add(f + 1, Drop(f, p));
    DivBelow(p, Pow2(Drop(f, p)), Pow2(f + 1));
  }

  // ---------------------------------------------------------------- the product

  /** The exact product of the significands. */
  function Product(f: nat, a: Float, b: Float): nat { Significand(f, a) * Significand(f, b) }

  /** The exponent field that the result needs. */
  function ResultExp(e: nat, f: nat, a: Float, b: Float): int
    requires e > 0 && f >= 3
  {
    Exponent(f, Product(f, a, b), a.exp + b.exp - Bias(e))
  }

  lemma SignificandRange(e: nat, f: nat, x: Float)
    requires Fits(e, f, x)
    ensures Pow2(f) <= Significand(f, x) < Pow2(f + 1)
  {
  }

  /** The fields of a product of normal numbers. */
  lemma ProductFields(e: nat, f: nat, a: Float, b: Float)
    requires e > 0 && f >= 3 && Normal(e, f, a) && Normal(e, f, b) && 1 <= ResultExp(e, f, a, b) <= Pow2(e) - 2
    ensures Multiply(e, f, a, b) ==
            Float(a.sign != b.sign, ResultExp(e, f, a, b), (Mantissa(f, Product(f, a, b)) / 8) % Pow2(f))
    ensures Normal(e, f, Multiply(e, f, a, b))
  {
    SmallMod(ResultExp(e, f, a, b), Pow2(e));
    FractionFits(f, Mantissa(f, Product(f, a, b)) / 8);
  }

  lemma NormalProductRange(e: nat, f: nat, a: Float, b: Float)
    requires Normal(e, f, a) && Normal(e, f, b)
    ensures Pow2(2 * f) <= Product(f, a, b) < Pow2(2 * f + 2)
  {
    SignificandRange(e, f, a);
    SignificandRange(e, f, b);
    ProductRange(f, Significand(f, a), Significand(f, b));
  }

  /** The integer that the result stands for at the scale of the exact product. */
  function Rounded(f: nat, p: nat): nat
    requires f >= 1
  {
    HalfUp(p, Pow2(Drop(f, p) - 1)) * Pow2(Drop(f, p))
  }

  /** A carried-out significand weighs twice as much. */
  lemma CarriedWeight(f: nat, p: nat, s: nat)
    requires f >= 1 && s == (if Carry(f, p) == 1 then Pow2(f) else HalfUp(p, Pow2(Drop(f, p) - 1)))
    ensures s * Pow2(Drop(f, p) + Carry(f, p)) == Rounded(f, p)
  {
    if Carry(f, p) == 1 { MulSwap(Pow2(f), 2, Pow2(Drop(f, p))); }
  }

  lemma ResultSignificand(e: nat, f: nat, a: Float, b: Float)
    requires e > 0 && f >= 3 && Normal(e, f, a) && Normal(e, f, b) && 1 <= ResultExp(e, f, a, b) <= Pow2(e) - 2
    ensures var y, p := Multiply(e, f, a, b), Product(f, a, b);
            && Significand(f, y) == (if Carry(f, p) == 1 then Pow2(f) else HalfUp(p, Pow2(Drop(f, p) - 1)))
            && y.sign == (a.sign != b.sign)
            && y.exp == a.exp + b.exp - Bias(e) + (Drop(f, p) - f) + Carry(f, p)
  {
    ProductFields(e, f, a, b);
    NormalProductRange(e, f, a, b);
    MantissaResult(f, Product(f, a, b), a.exp + b.exp - Bias(e));
  }

  /** The result in integers: its significand, scaled by its exponent, is the multiple of the last
      place nearest to the exact product, ties away from zero. */
  lemma MultiplyInteger(e: nat, f: nat, a: Float, b: Float)
    requires e > 0 && f >= 3 && Normal(e, f, a) && Normal(e, f, b) && 1 <= ResultExp(e, f, a, b) <= Pow2(e) - 2
    ensures var y, p := Multiply(e, f, a, b), Product(f, a, b);
            var d, c := Drop(f, p), Carry(f, p);
            && Normal(e, f, y) && y.sign == (a.sign != b.sign)
            && y.exp == a.exp + b.exp - Bias(e) + (d - f) + c
            && Significand(f, y) * Pow2(d + c) == Rounded(f, p)
  {
    var p, s := Product(f, a, b), Significand(f, Multiply(e, f, a, b));
    assert Normal(e, f, Multiply(e, f, a, b)) by { ProductFields(e, f, a, b); }
    ResultSignificand(e, f, a, b);
    assert s * Pow2(Drop(f, p) + Carry(f, p)) == Rounded(f, p) by { CarriedWeight(f, p, s); }
  }

  lemma FractionFits(f: nat, s: nat)
    ensures s % Pow2(f) < Pow2(f)
  {
    DivMod(s, Pow2(f));
  }

  // ---------------------------------------------------------------- zeros, infinities and the exponent range

  predicate IsZero(x: Float) { x.exp == 0 && x.frac == 0 }
  predicate IsNan(e: nat, x: Float) { x.exp == Pow2(e) - 1 && x.frac != 0 }

  /** 1.0 or -1.0 */
  predicate IsUnit(e: nat, x: Float)
    requires e > 0
  {
    x.exp == Bias(e) && x.frac == 0
  }

  predicate ZeroTimesInfinity(e: nat, a: Float, b: Float) {
    (IsZero(a) && IsInfinity(e, b)) || (IsInfinity(e, a) && IsZero(b))
  }

  /** IEEE 754-2008, sections 6.1, 6.3 and 7.2: what the product y of a and b must be when one of them is zero
      or infinite and none is a NaN. */
  ghost predicate SpecialProduct(e: nat, a: Float, b: Float, y: Float) {
    if ZeroTimesInfinity(e, a, b) then IsNan(e, y)
    else if IsInfinity(e, a) || IsInfinity(e, b) then y == Float(a.sign != b.sign, Pow2(e) - 1, 0)
    else y == Float(a.sign != b.sign, 0, 0)
  }

  /** A negative zero is only recognised beside a positive zero, and is harmless beside one. */
  predicate HarmlessBeside(e: nat, z: Float, x: Float)
    requires e > 0
  {
    z.sign && IsZero(z) ==> IsZeroBits(x) || IsUnit(e, x)
  }

  lemma HalfUpOfMultiple(s: nat, h: nat, p: nat)
    requires h > 0 && p == s * (2 * h)
    ensures HalfUp(p, h) == s
  {
    Multiple(s, 2 * h);
    MulSwap(s, 2, h);
    Multiple(2 * s, h);
  }

  lemma UnitRange(f: nat, s: nat)
    requires Pow2(f) <= s < Pow2(f + 1)
    ensures Pow2(2 * f) <= Pow2(f) * s < Pow2(2 * f + 1)
  {
    ProductRange(f, Pow2(f), s);
    MulSwap(1, Pow2(f), s);
    MulBelow(s, Pow2(f + 1), Pow2(f));
    Pow2Add(f + 1, f);
  }

  /** A significand of 2^f changes nothing. */
  lemma UnitProduct(f: nat, s: nat, p: nat)
    requires f >= 3 && Pow2(f) <= s < Pow2(f + 1) && p == Pow2(f) * s
    ensures Pow2(2 * f) <= p < Pow2(2 * f + 2) && Drop(f, p) == f && HalfUp(p, Pow2(f - 1)) == s && Carry(f, p) == 0
  {
    UnitRange(f, s);
    MulSwap(1, Pow2(f), s);
    HalfUpOfMultiple(s, Pow2(f - 1), p);
  }

  /** A negative zero is multiplied as if it were 2^(-bias): the other operand, with its exponent lowered. */
  lemma NegativeZeroFirst(e: nat, f: nat, a: Float, b: Float)
    requires e > 0 && f >= 3 && Fits(e, f, b) && a.sign && IsZero(a) && !IsZeroBits(b) && !IsInfinity(e, b)
    requires e > 1
    ensures Multiply(e, f, a, b) == Float(!b.sign, CutExp(e, b.exp - Bias(e)), b.frac)
  {
    Pow2Mono(1, e);
    UnitProduct(f, Significand(f, b), Pow2(f) * Significand(f, b));
    MantissaResult(f, Pow2(f) * Significand(f, b), b.exp - Bias(e));
  }
  lemma NegativeZeroSecond(e: nat, f: nat, a: Float, b: Float)
    requires e > 0 && f >= 3 && Fits(e, f, a) && b.sign && IsZero(b) && !IsZeroBits(a) && !IsInfinity(e, a)
    requires e > 1
    ensures Multiply(e, f, a, b) == Float(!a.sign, CutExp(e, a.exp - Bias(e)), a.frac)
  {
    MulSwap(1, Significand(f, a), Significand(f, b));
    NegativeZeroFirst(e, f, b, a);
  }

  /** The lowered exponent is zero only for 1.0. */
  lemma LoweredExponent(e: nat, x: nat)
    requires e > 0 && x < Pow2(e)
    ensures CutExp(e, x - Bias(e)) == 0 <==> x == Bias(e)
  {
    if x < Bias(e) {
      DivUnique(x - Bias(e), Pow2(e), -1, x - Bias(e) + Pow2(e));
    } else {
      SmallMod(x - Bias(e), Pow2(e));
    }
  }

  /** With a zero or an infinite operand the product is the one of IEEE 754 exactly when it is not zero times
      infinity and a negative zero meets only a positive zero, 1.0 or -1.0. */
  lemma SpecialsExactly(e: nat, f: nat, a: Float, b: Float)
    requires e > 1 && f >= 3 && Fits(e, f, a) && Fits(e, f, b) && !IsNan(e, a) && !IsNan(e, b)
    requires IsZero(a) || IsZero(b) || IsInfinity(e, a) || IsInfinity(e, b)
    ensures SpecialProduct(e, a, b, Multiply(e, f, a, b)) <==>
            !ZeroTimesInfinity(e, a, b) && (IsInfinity(e, a) || IsInfinity(e, b) ||
            (HarmlessBeside(e, a, b) && HarmlessBeside(e, b, a)))
  {
    Pow2Mono(1, e);
    if IsZeroBits(a) || IsZeroBits(b) || IsInfinity(e, a) || IsInfinity(e, b) {
    } else if IsZero(a) {
      NegativeZeroFirst(e, f, a, b);
      LoweredExponent(e, b.exp);
    } else {
      NegativeZeroSecond(e, f, a, b);
      LoweredExponent(e, a.exp);
    }
  }

  lemma CutOnce(e: nat, x: int)
    requires 0 - Pow2(e) <= x < 2 * Pow2(e)
    ensures CutExp(e, x) == if x < 0 then x + Pow2(e) else if x < Pow2(e) then x else x - Pow2(e)
  {
    if x < 0 {
      DivUnique(x, Pow2(e), -1, x + Pow2(e));
    } else if x < Pow2(e) {
      DivUnique(x, Pow2(e), 0, x);
    } else {
      DivUnique(x, Pow2(e), 1, x - Pow2(e));
    }
  }

  /** The exponent that the result needs, before it is cut. */
  lemma NeededExponent(e: nat, f: nat, a: Float, b: Float)
    requires e > 1 && f >= 3 && Normal(e, f, a) && Normal(e, f, b)
    ensures var p := Product(f, a, b);
            && ResultExp(e, f, a, b) == a.exp + b.exp - Bias(e) + (Drop(f, p) - f) + Carry(f, p)
            && 0 - Pow2(e) <= ResultExp(e, f, a, b) < 2 * Pow2(e)
            && Pow2(f) + (Mantissa(f, p) / 8) % Pow2(f) ==
               if Carry(f, p) == 1 then Pow2(f) else HalfUp(p, Pow2(Drop(f, p) - 1))
  {
    NormalProductRange(e, f, a, b);
    MantissaResult(f, Product(f, a, b), a.exp + b.exp - Bias(e));
    Pow2Mono(2, e);
  }

  lemma WrappedFields(e: nat, f: nat, a: Float, b: Float)
    requires e > 1 && f >= 3 && Normal(e, f, a) && Normal(e, f, b)
    ensures Multiply(e, f, a, b) == Float(a.sign != b.sign, CutExp(e, ResultExp(e, f, a, b)),
                                          (Mantissa(f, Product(f, a, b)) / 8) % Pow2(f))
  {
  }

  /** The exponent field wraps around: a product of normal numbers out of range has the right significand with
      an exponent off by 2^e, and becomes neither infinite nor zero. */
  lemma ExponentWraps(e: nat, f: nat, a: Float, b: Float)
    requires e > 1 && f >= 3 && Normal(e, f, a) && Normal(e, f, b)
    ensures var y, x, p := Multiply(e, f, a, b), ResultExp(e, f, a, b), Product(f, a, b);
            && y.sign == (a.sign != b.sign)
            && x == a.exp + b.exp - Bias(e) + (Drop(f, p) - f) + Carry(f, p)
            && y.exp == (if x < 0 then x + Pow2(e) else if x < Pow2(e) then x else x - Pow2(e))
            && Significand(f, y) == (if Carry(f, p) == 1 then Pow2(f) else HalfUp(p, Pow2(Drop(f, p) - 1)))
  {
    NeededExponent(e, f, a, b);
    WrappedFields(e, f, a, b);
    CutOnce(e, ResultExp(e, f, a, b));
  }

  // ---------------------------------------------------------------- in the reals

  /** y lies at most half a place above x and less than half a place below it. */
  ghost predicate WithinHalf(y: real, x: real, place: real) {
    y - x <= place / 2.0 && x - y < place / 2.0
  }

  /** A rounded integer at scale t against the exact one. */
  lemma {:induction false} NearestAtScale(p: nat, h: nat, r: nat, d: nat, t: int)
    requires d >= 1 && h == Pow2(d - 1) && IsNearest(p, h, r)
    ensures WithinHalf(Times(r, Scale(t)), Times(p, Scale(t)), Scale(t + d))
  {
    var u := Scale(t);
    ScaleStep(t);
    HalfPlace(t, d);
    TimesPlus(p, h, u);
    TimesPlus(r, h, u);
    TimesOrder(r, p + h, u);
    TimesOrder(p, r + h, u);
  }

  lemma RoundedIsNearest(f: nat, p: nat)
    requires f >= 1
    ensures IsNearest(p, Pow2(Drop(f, p) - 1), Rounded(f, p))
  {
    HalfUpIsNearest(p, Pow2(Drop(f, p) - 1));
  }

  /** The result's significand and exponent against the scale of the exact product. */
  lemma ResultScale(e: nat, f: nat, a: Float, b: Float) returns (q: nat)
    requires e > 0 && f >= 3 && Normal(e, f, a) && Normal(e, f, b) && 1 <= ResultExp(e, f, a, b) <= Pow2(e) - 2
    ensures var y := Multiply(e, f, a, b);
            var d := Drop(f, Product(f, a, b));
            && d <= q <= d + 1
            && Significand(f, y) * Pow2(q) == Rounded(f, Product(f, a, b))
            && Exp(e, f, y) == Exp(e, f, a) + Exp(e, f, b) + q
  {
    MultiplyInteger(e, f, a, b);
    q := Drop(f, Product(f, a, b)) + Carry(f, Product(f, a, b));
  }

  lemma {:induction false} ResultAtScale(e: nat, f: nat, a: Float, b: Float, t: int) returns (q: nat, r: nat)
    requires e > 0 && f >= 3 && Normal(e, f, a) && Normal(e, f, b) && 1 <= ResultExp(e, f, a, b) <= Pow2(e) - 2
    requires t == Exp(e, f, a) + Exp(e, f, b)
    ensures var y, d := Multiply(e, f, a, b), Drop(f, Product(f, a, b));
            && d <= q <= d + 1 && IsNearest(Product(f, a, b), Pow2(d - 1), r)
            && Magnitude(e, f, y) == Times(r, Scale(t)) && Ulp(e, f, y) == Scale(t + q)
  {
    var y := Multiply(e, f, a, b);
    q := ResultScale(e, f, a, b);
    r := Rounded(f, Product(f, a, b));
    RoundedIsNearest(f, Product(f, a, b));
    Rescale(Significand(f, y), q, t, r);
  }

  lemma {:induction false} PlaceGrows(k: int, c: nat)
    requires c <= 1
    ensures Scale(k) <= Scale(k + c)
  {
    ScaleStep(k);
  }

  lemma UlpProduct(e: nat, f: nat, a: Float, b: Float)
    requires e > 0
    ensures Ulp(e, f, a) * Ulp(e, f, b) == Scale(Exp(e, f, a) + Exp(e, f, b))
  {
    ScaleMul(Exp(e, f, a), Exp(e, f, b));
  }

  lemma {:induction false} ExactProduct(e: nat, f: nat, a: Float, b: Float)
    requires e > 0
    ensures Magnitude(e, f, a) * Magnitude(e, f, b) == Times(Product(f, a, b), Scale(Exp(e, f, a) + Exp(e, f, b)))
  {
    UlpProduct(e, f, a, b);
    TimesProduct(Significand(f, a), Ulp(e, f, a), Significand(f, b), Ulp(e, f, b), Scale(Exp(e, f, a) + Exp(e, f, b)));
  }

  /** The last place of the exact product's own binade. */
  function Place(e: nat, f: nat, a: Float, b: Float): real
    requires e > 0
  {
    Scale(Exp(e, f, a) + Exp(e, f, b) + Drop(f, Product(f, a, b)))
  }

  lemma PlaceBelowUlp(e: nat, f: nat, a: Float, b: Float, q: nat, t: int)
    requires e > 0 && t == Exp(e, f, a) + Exp(e, f, b)
    requires Drop(f, Product(f, a, b)) <= q <= Drop(f, Product(f, a, b)) + 1
    ensures Place(e, f, a, b) <= Scale(t + q)
  {
    var d := Drop(f, Product(f, a, b));
    PlaceGrows(t + d, q - d);
  }

  /** The result against the exact product of the significands at its scale. */
  lemma ResultWithinHalf(e: nat, f: nat, a: Float, b: Float)
    requires e > 0 && f >= 3 && Normal(e, f, a) && Normal(e, f, b) && 1 <= ResultExp(e, f, a, b) <= Pow2(e) - 2
    ensures var y, exact := Multiply(e, f, a, b), Times(Product(f, a, b), Scale(Exp(e, f, a) + Exp(e, f, b)));
            WithinHalf(Magnitude(e, f, y), exact, Place(e, f, a, b)) && Place(e, f, a, b) <= Ulp(e, f, y)
  {
    var t := Exp(e, f, a) + Exp(e, f, b);
    var d := Drop(f, Product(f, a, b));
    var q, r := ResultAtScale(e, f, a, b, t);
    NearestAtScale(Product(f, a, b), Pow2(d - 1), r, d, t);
    PlaceBelowUlp(e, f, a, b, q, t);
  }

  lemma SameWithin(y: real, x: real, x': real, place: real)
    requires WithinHalf(y, x, place) && x' == x
    ensures WithinHalf(y, x', place)
  {
  }

  /** For normal operands and an in-range result exponent the product is rounded to nearest, ties away
      from zero: the error is at most half of the last place of the product's own binade, and the
      exact product never lies a full half above the result. */
  lemma MultiplyRoundsToNearest(e: nat, f: nat, a: Float, b: Float)
    requires e > 0 && f >= 3 && Normal(e, f, a) && Normal(e, f, b) && 1 <= ResultExp(e, f, a, b) <= Pow2(e) - 2
    ensures var y := Multiply(e, f, a, b);
            && WithinHalf(Magnitude(e, f, y), Magnitude(e, f, a) * Magnitude(e, f, b), Place(e, f, a, b))
            && Place(e, f, a, b) <= Ulp(e, f, y)
  {
    ResultWithinHalf(e, f, a, b);
    ExactProduct(e, f, a, b);
    SameWithin(Magnitude(e, f, Multiply(e, f, a, b)), Times(Product(f, a, b), Scale(Exp(e, f, a) + Exp(e, f, b))),
               Magnitude(e, f, a) * Magnitude(e, f, b), Place(e, f, a, b));
  }
}
