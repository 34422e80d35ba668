/**
  The floating-point comparator (fp_compare.sv) for every exponent and fraction width, against the
  order of the encoded values (IEEE 754-2008, section 5.11).
 */
module FloatCompare {
  import opened Arithmetic
  import opened Bits
  import opened FloatFormat

  // ---------------------------------------------------------------- as the RTL computes it

  predicate IsZero(x: Float) { x.exp == 0 && x.frac == 0 }

  /** The sign with negative zero taken as positive. */
  predicate Negative(x: Float) { !IsZero(x) && x.sign }

  /** w_lt_t and w_gt_t */
  predicate LessBits(a: Float, b: Float) {
    var same := Negative(a) == Negative(b);
    || (Negative(a) && !Negative(b))
    || (same && a.exp < b.exp)
    || (same && a.exp == b.exp && a.frac < b.frac)
  }
  predicate GreaterBits(a: Float, b: Float) {
    var same := Negative(a) == Negative(b);
    || (Negative(b) && !Negative(a))
    || (same && a.exp > b.exp)
    || (same && a.exp == b.exp && a.frac > b.frac)
  }

  /** w_lt, w_eq and w_le */
  predicate Less(a: Float, b: Float) {
    if Negative(a) && Negative(b) then GreaterBits(a, b) else LessBits(a, b)
  }
  predicate Equal(a: Float, b: Float) { a == b || (IsZero(a) && IsZero(b)) }
  predicate LessEqual(a: Float, b: Float) { Less(a, b) || Equal(a, b) }

  // ---------------------------------------------------------------- the order of values

  predicate IsNan(e: nat, x: Float) { x.exp == Pow2(e) - 1 && x.frac != 0 }

  /** The magnitude in units of the smallest subnormal; infinity ranks above every finite number. */
  function Rank(f: nat, x: Float): nat {
    if x.exp == 0 then x.frac else Significand(f, x) * Pow2(x.exp - 1)
  }

  /** The encoded value in the same units. */
  function Value(f: nat, x: Float): int { if x.sign then 0 - Rank(f, x) else Rank(f, x) }

  lemma RankZero(f: nat, x: Float)
    ensures Rank(f, x) == 0 <==> IsZero(x)
  {
    if x.exp > 0 { MulBelow(0, Significand(f, x), Pow2(x.exp - 1)); }
  }

  /** A larger exponent outweighs every fraction. */
  lemma LargerExponent(e: nat, f: nat, a: Float, b: Float)
    requires Fits(e, f, a) && Fits(e, f, b) && a.exp < b.exp
    ensures Rank(f, a) < Rank(f, b)
  {
    MulAtMost(Pow2(f), Significand(f, b), Pow2(b.exp - 1));
    if a.exp == 0 {
      MulAtMost(1, Pow2(b.exp - 1), Pow2(f));
      MulSwap(1, Pow2(b.exp - 1), Pow2(f));
    } else {
      MulBelow(Significand(f, a), Pow2(f + 1), Pow2(a.exp - 1));
      Pow2Add(f + 1, a.exp - 1);
      Pow2Add(f, b.exp - 1);
      Pow2Mono(f + a.exp, f + (b.exp - 1));
    }
  }

  lemma LargerFraction(f: nat, a: Float, b: Float)
    requires a.exp == b.exp && a.frac < b.frac
    ensures Rank(f, a) < Rank(f, b)
  {
    if a.exp > 0 { MulBelow(Significand(f, a), Significand(f, b), Pow2(a.exp - 1)); }
  }

  /** Magnitudes are ordered as the exponent and fraction fields, lexicographically. */
  lemma RankOrder(e: nat, f: nat, a: Float, b: Float)
    requires Fits(e, f, a) && Fits(e, f, b)
    ensures Rank(f, a) < Rank(f, b) <==> a.exp < b.exp || (a.exp == b.exp && a.frac < b.frac)
    ensures Rank(f, a) == Rank(f, b) <==> a.exp == b.exp && a.frac == b.frac
  {
    if a.exp < b.exp {
      LargerExponent(e, f, a, b);
    } else if b.exp < a.exp {
      LargerExponent(e, f, b, a);
    } else if a.frac < b.frac {
      LargerFraction(f, a, b);
    } else if b.frac < a.frac {
      LargerFraction(f, b, a);
    }
  }

  /** The comparator's LT, LE and EQ are the order of the encoded values, with subnormals, infinities
      and signed zeros; a NaN ranks beyond infinity. */
  lemma ComparatorIsOrder(e: nat, f: nat, a: Float, b: Float)
    requires Fits(e, f, a) && Fits(e, f, b)
    ensures Less(a, b) <==> Value(f, a) < Value(f, b)
    ensures Equal(a, b) <==> Value(f, a) == Value(f, b)
    ensures LessEqual(a, b) <==> Value(f, a) <= Value(f, b)
  {
    RankZero(f, a);
    RankZero(f, b);
    RankOrder(e, f, a, b);
    RankOrder(e, f, b, a);
  }

  // ---------------------------------------------------------------- NaN operands

  /** IEEE 754's relations: false as soon as an operand is a NaN. */
  predicate Unordered(e: nat, a: Float, b: Float) { IsNan(e, a) || IsNan(e, b) }
  predicate IeeeLess(e: nat, f: nat, a: Float, b: Float) { !Unordered(e, a, b) && Value(f, a) < Value(f, b) }
  predicate IeeeEqual(e: nat, f: nat, a: Float, b: Float) { !Unordered(e, a, b) && Value(f, a) == Value(f, b) }
  predicate IeeeLessEqual(e: nat, f: nat, a: Float, b: Float) { !Unordered(e, a, b) && Value(f, a) <= Value(f, b) }

  /** The three outputs are all IEEE's exactly when neither operand is a NaN or the signed rank of b, as
      its fields give it, lies below that of a, in which case all three are low. */
  lemma IeeeExactly(e: nat, f: nat, a: Float, b: Float)
    requires Fits(e, f, a) && Fits(e, f, b)
    ensures (&& (Less(a, b) <==> IeeeLess(e, f, a, b))
             && (Equal(a, b) <==> IeeeEqual(e, f, a, b))
             && (LessEqual(a, b) <==> IeeeLessEqual(e, f, a, b)))
            <==> !Unordered(e, a, b) || Value(f, b) < Value(f, a)
  {
    ComparatorIsOrder(e, f, a, b);
    ComparatorIsOrder(e, f, b, a);
  }

  /** A NaN is never unordered here: it equals itself, and of any two operands one is reported at most
      the other. */
  lemma NanIsOrdered(e: nat, f: nat, x: Float, b: Float)
    requires Fits(e, f, x) && Fits(e, f, b) && IsNan(e, x)
    ensures Equal(x, x) && (LessEqual(x, b) || LessEqual(b, x))
    ensures !IeeeEqual(e, f, x, x) && !IeeeLessEqual(e, f, x, b) && !IeeeLessEqual(e, f, b, x)
  {
    ComparatorIsOrder(e, f, x, b);
    ComparatorIsOrder(e, f, b, x);
  }

  /** Infinity lies above every finite number. */
  lemma InfinityIsLargest(e: nat, f: nat, inf: Float, x: Float)
    requires Fits(e, f, inf) && Fits(e, f, x) && inf.exp == Pow2(e) - 1 && inf.frac == 0 && !inf.sign
    requires x.exp < Pow2(e) - 1
    ensures Value(f, x) < Value(f, inf)
  {
    LargerExponent(e, f, x, inf);
  }

  /** The rank of a normal number is its magnitude in units of the smallest subnormal. */
  lemma RankIsMagnitude(e: nat, f: nat, x: Float)
    requires e > 0 && x.exp >= 1
    ensures Magnitude(e, f, x) == Times(Rank(f, x), Scale(1 - Bias(e) - f))
  {
    Rescale(Significand(f, x), x.exp - 1, 1 - Bias(e) - f, Rank(f, x));
  }
}
