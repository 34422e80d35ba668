/**
  Integer to floating-point conversion (fp_convert.sv) and truncation back (fp_trunc_to_int32.sv),
  without DEBUG_FPU, for registers of w = 2^lg bits and every format that fits.
 */
module FloatConvert {
  import opened Arithmetic
  import opened Bits
  import opened TwosComplement
  import opened PriorityEncoder
  import opened FloatFormat

  // ---------------------------------------------------------------- bits

  /** The w bits of n < 2^w, bit 0 first. */
  function ToBits(n: nat, w: nat): (b: seq<bool>)
    ensures |b| == w
  {
    if w == 0 then [] else ToBits(Below(n, w - 1), w - 1) + [n >= Pow2(w - 1)]
  }

  /** n without bit k and above, for n < 2^(k+1). */
  function Below(n: nat, k: nat): nat { if n >= Pow2(k) then n - Pow2(k) else n }

  lemma {:induction false} ValueOfBits(n: nat, w: nat)
    requires n < Pow2(w)
    ensures Value(ToBits(n, w)) == n
  {
    if w > 0 {
      ValueOfBits(Below(n, w - 1), w - 1);
      assert ToBits(n, w)[..w - 1] == ToBits(Below(n, w - 1), w - 1);
    }
  }

  /** The encoder finds the power of two just below a number. */
  lemma EncoderBounds(lg: nat, n: nat)
    requires lg >= 2 && 0 < n < Pow2(Pow2(lg))
    ensures var y := FindFirstSet(lg, ToBits(n, Pow2(lg)));
            y < Pow2(lg) && Pow2(y) <= n < Pow2(y + 1)
  {
    var b := ToBits(n, Pow2(lg));
    ValueOfBits(n, Pow2(lg));
    if !AnySet(b) { NoneSetIsZero(b); }
    FindFirstSetIsHighest(lg, b);
    HighestBounds(b, FindFirstSet(lg, b));
  }

  // ---------------------------------------------------------------- as the RTL computes it

  predicate Bit(x: nat, k: nat) { Quot(x, Pow2(k)) % 2 == 1 }

  /** t_mant_full: the leading one is shifted out. */
  function Shifted(w: nat, y: nat, mag: nat): nat
    requires y <= w
  {
    (mag * Pow2(w - y)) % Pow2(w)
  }

  /** t_round */
  function RoundUp(w: nat, f: nat, y: nat, full: nat): nat
    requires f < w
  {
    if Bit(full, w - f - 1) && Bit(full, w - f) && y > f then 1 else 0
  }

  /** t_mant */
  function Fraction(w: nat, f: nat, y: nat, mag: nat): nat
    requires y <= w && f < w
  {
    var full := Shifted(w, y, mag);
    (Quot(full, Pow2(w - f)) + RoundUp(w, f, y, full)) % Pow2(f)
  }

  function Convert(lg: nat, e: nat, f: nat, x: nat): Float
    requires lg >= 2 && e > 0 && f < Pow2(lg) && x < Pow2(Pow2(lg))
  {
    var w := Pow2(lg);
    var neg := x >= Pow2(w - 1);
    var mag := if neg then Negate(w, x) else x;
    if x == 0 then Float(false, 0, 0)
    else
      EncoderBounds(lg, mag);
      var y := FindFirstSet(lg, ToBits(mag, w));
      Float(neg, (Bias(e) + y) % Pow2(e), Fraction(w, f, y, mag))
  }

  /** fp_trunc_to_int32 for a w-bit register of which `out` bits are kept. */
  function Truncate(w: nat, e: nat, f: nat, out: nat, x: Float): nat
    requires e > 0
  {
    if x.exp < Bias(e) then 0
    else
      var dist := x.exp - Bias(e) + 1;
      var shift := if dist > w then w else dist;
      var t := Quot(Significand(f, x) * Pow2(shift), Pow2(f + 1)) % Pow2(w);
      (if x.sign then Negate(w, t) else t) % Pow2(out)
  }

  // ---------------------------------------------------------------- conversion

  /** x encodes the non-negative integer v exactly: significand * 2^(exp - bias) = v * 2^f. */
  ghost predicate Encodes(e: nat, f: nat, x: Float, v: nat)
    requires e > 0
  {
    x.exp >= Bias(e) && Significand(f, x) * Pow2(x.exp - Bias(e)) == v * Pow2(f)
  }

  /** The shift drops exactly the leading one. */
  lemma ShiftedIs(w: nat, y: nat, mag: nat)
    requires y < w && Pow2(y) <= mag < Pow2(y + 1)
    ensures (mag - Pow2(y)) * Pow2(w - y) >= 0 && Shifted(w, y, mag) == (mag - Pow2(y)) * Pow2(w - y)
  {
    var rest, p := mag - Pow2(y), Pow2(w - y);
    Pow2Add(y, w - y);
    MulPlus(Pow2(y), rest, p);
    MulAtMost(0, rest, p);
    MulBelow(rest, Pow2(y), p);
    DivUnique(mag * p, Pow2(w), 1, rest * p);
  }

  /** With at most f bits below the leading one the fraction is exact. */
  lemma FractionIs(w: nat, f: nat, y: nat, rest: nat)
    requires y <= f < w && rest < Pow2(y)
    ensures rest * Pow2(w - y) >= 0 && rest * Pow2(f - y) >= 0
    ensures (rest * Pow2(w - y)) / Pow2(w - f) == rest * Pow2(f - y) < Pow2(f)
  {
    Pow2Add(f - y, w - f);
    MulSwap(rest, Pow2(f - y), Pow2(w - f));
    MulAtMost(0, rest, Pow2(f - y));
    Multiple(rest * Pow2(f - y), Pow2(w - f));
    Pow2Add(y, f - y);
    MulBelow(rest, Pow2(y), Pow2(f - y));
  }

  lemma EncodedValue(f: nat, y: nat, rest: nat)
    requires y <= f
    ensures (Pow2(f) + rest * Pow2(f - y)) * Pow2(y) == (Pow2(y) + rest) * Pow2(f)
  {
    MulPlus(Pow2(f), rest * Pow2(f - y), Pow2(y));
    MulPlus(Pow2(y), rest, Pow2(f));
    Pow2Add(f - y, y);
    MulSwap(rest, Pow2(f - y), Pow2(y));
    MulSwap(1, Pow2(f), Pow2(y));
  }

  /** Integers of at most f + 1 bits, and 2^(f+1), are converted exactly. */
  lemma FractionExact(w: nat, f: nat, y: nat, mag: nat)
    requires y < w && f < w && Pow2(y) <= mag < Pow2(y + 1) && (y <= f || mag == Pow2(f + 1))
    ensures (Pow2(f) + Fraction(w, f, y, mag)) * Pow2(y) == mag * Pow2(f) && Fraction(w, f, y, mag) < Pow2(f)
  {
    var rest := mag - Pow2(y);
    ShiftedIs(w, y, mag);
    if y <= f {
      FractionIs(w, f, y, rest);
      SmallMod(rest * Pow2(f - y), Pow2(f));
      EncodedValue(f, y, rest);
    } else {
      SamePower(y, f + 1, mag);
      SmallMod(0, Pow2(w - f));
      SmallMod(0, Pow2(w - f - 1));
      SmallMod(0, Pow2(f));
      MulSwap(1, Pow2(f), Pow2(f + 1));
    }
  }

  /** A power of two has its leading one at its exponent. */
  lemma SamePower(y: nat, k: nat, n: nat)
    requires Pow2(y) <= n < Pow2(y + 1) && n == Pow2(k)
    ensures y == k && n - Pow2(y) == 0
  {
    if k > y { Pow2Mono(y + 1, k); }
    if k < y { Pow2Mono(k + 1, y); }
  }

  /** The magnitude of a signed number, and the number with a given sign. */
  function Size(v: int): nat { if v >= 0 then v else 0 - v }
  function Signed(neg: bool, t: nat): int { if neg then 0 - t else t }

  /** v fits a signed register of k bits. */
  predicate FitsSigned(k: nat, v: int)
    requires k > 0
  {
    0 - Pow2(k - 1) <= v < Pow2(k - 1)
  }

  lemma PatternFits(w: nat, v: int)
    requires w > 0 && FitsSigned(w, v)
    ensures 0 <= Pattern(w, v) < Pow2(w) && Size(v) < Pow2(w)
    ensures (Pattern(w, v) >= Pow2(w - 1) <==> v < 0) && (v < 0 ==> Negate(w, Pattern(w, v)) == Size(v))
  {
    assert Pow2(w) == 2 * Pow2(w - 1);
  }

  lemma MagnitudeExact(lg: nat, f: nat, mag: nat) returns (y: nat)
    requires lg >= 2 && f < Pow2(lg) && 0 < mag < Pow2(Pow2(lg)) && mag <= Pow2(f + 1)
    ensures y == FindFirstSet(lg, ToBits(mag, Pow2(lg))) < Pow2(lg)
    ensures (Pow2(f) + Fraction(Pow2(lg), f, y, mag)) * Pow2(y) == mag * Pow2(f)
    ensures Fraction(Pow2(lg), f, y, mag) < Pow2(f)
  {
    EncoderBounds(lg, mag);
    y := FindFirstSet(lg, ToBits(mag, Pow2(lg)));
    if y > f { LeadingBelow(y, f, mag); }
    FractionExact(Pow2(lg), f, y, mag);
  }

  /** Converting v with |v| <= 2^(f+1) is exact. */
  lemma ConvertExact(lg: nat, e: nat, f: nat, v: int)
    requires lg >= 2 && e > 0 && f < Pow2(lg) && v != 0 && FitsSigned(Pow2(lg), v) && Size(v) <= Pow2(f + 1)
    requires Bias(e) + Pow2(lg) <= Pow2(e)
    ensures 0 <= Pattern(Pow2(lg), v) < Pow2(Pow2(lg))
    ensures var x := Convert(lg, e, f, Pattern(Pow2(lg), v));
            x.sign == (v < 0) && Fits(e, f, x) && Encodes(e, f, x, Size(v))
  {
    PatternFits(Pow2(lg), v);
    var y := MagnitudeExact(lg, f, Size(v));
    ConvertFields(lg, e, f, v, y);
    SmallMod(Bias(e) + y, Pow2(e));
    EncodesFrom(e, f, v < 0, y, Fraction(Pow2(lg), f, y, Size(v)), Size(v));
  }

  lemma EncodesFrom(e: nat, f: nat, neg: bool, y: nat, frac: nat, mag: nat)
    requires e > 0 && (Pow2(f) + frac) * Pow2(y) == mag * Pow2(f)
    ensures Encodes(e, f, Float(neg, Bias(e) + y, frac), mag)
  {
  }

  lemma ConvertFields(lg: nat, e: nat, f: nat, v: int, y: nat)
    requires lg >= 2 && e > 0 && f < Pow2(lg) && v != 0 && FitsSigned(Pow2(lg), v)
    requires 0 <= Pattern(Pow2(lg), v) < Pow2(Pow2(lg)) && y == FindFirstSet(lg, ToBits(Size(v), Pow2(lg))) < Pow2(lg)
    ensures Convert(lg, e, f, Pattern(Pow2(lg), v)) ==
            Float(v < 0, (Bias(e) + y) % Pow2(e), Fraction(Pow2(lg), f, y, Size(v)))
  {
    PatternFits(Pow2(lg), v);
  }

  lemma LeadingBelow(y: nat, f: nat, mag: nat)
    requires Pow2(y) <= mag <= Pow2(f + 1) && y > f
    ensures mag == Pow2(f + 1)
  {
    Pow2Mono(f + 1, y);
  }

  // ---------------------------------------------------------------- integers that need rounding

  lemma CancelFactor(rest: nat, a: nat, b: nat, c: nat)
    requires a > 0 && b > 0 && c == a * b
    ensures rest * a >= 0 && c > 0 && (rest * a) / c == rest / b
  {
    Multiple(rest, a);
    DivDiv(rest * a, a, b);
  }

  lemma ShiftCancel(rest: nat, k: nat, j: nat)
    ensures rest * Pow2(k) >= 0 && Quot(rest * Pow2(k), Pow2(j + k)) == rest / Pow2(j)
  {
    Pow2Add(j, k);
    MulSwap(1, Pow2(j), Pow2(k));
    CancelFactor(rest, Pow2(k), Pow2(j), Pow2(j + k));
  }

  /** The upper half of a remainder is the next bit of the quotient. */
  lemma HalfBit(rest: nat, h: nat)
    requires h > 0
    ensures (rest / h) % 2 == 1 <==> 2 * (rest % (2 * h)) >= 2 * h
  {
    var q, r := rest / (2 * h), rest % (2 * h);
    DivMod(rest, 2 * h);
    MulSwap(q, 2, h);
    if r >= h {
      MulPlus(2 * q, 1, h);
      DivUnique(rest, h, 2 * q + 1, r - h);
    } else {
      DivUnique(rest, h, 2 * q, r);
    }
  }

  /** The bits below the leading one of mag, cut at u = 2^(y - f) with y - f > 0: q is kept, d dropped. */
  ghost predicate Cut(f: nat, y: nat, mag: nat, u: nat, q: nat, d: nat) {
    f < y && Pow2(y) <= mag < Pow2(y + 1) && u == Pow2(y - f) && mag - Pow2(y) == q * u + d && d < u
  }

  /** One is added if the last kept bit and the first dropped bit are both set. */
  function Increment(kept: nat, dropped: nat, u: nat): nat { if kept % 2 == 1 && 2 * dropped >= u then 1 else 0 }

  lemma FractionRounds(w: nat, f: nat, y: nat, mag: nat, u: nat, q: nat, d: nat)
    requires y < w && Cut(f, y, mag, u, q, d)
    ensures Fraction(w, f, y, mag) == (q + Increment(q, d, u)) % Pow2(f)
  {
    var rest := mag - Pow2(y);
    ShiftedIs(w, y, mag);
    ShiftCancel(rest, w - y, y - f);
    ShiftCancel(rest, w - y, y - f - 1);
    HalfBit(rest, Pow2(y - f - 1));
    DivUnique(rest, u, q, d);
  }

  /** The kept bits of the magnitude, with and without the hidden bit. */
  lemma CutBits(f: nat, y: nat, mag: nat, u: nat, k: nat, d: nat)
    requires f < y && Pow2(y) <= mag < Pow2(y + 1) && u == Pow2(y - f) && mag == k * u + d && d < u
    ensures Pow2(f) <= k < Pow2(f + 1) && Cut(f, y, mag, u, k - Pow2(f), d)
  {
    Pow2Add(f, y - f);
    Pow2Add(f + 1, y - f);
    if k >= Pow2(f + 1) { MulAtMost(Pow2(f + 1), k, u); }
    if k < Pow2(f) {
      MulAtMost(k + 1, Pow2(f), u);
      MulPlus(k, 1, u);
    }
    MulMinus(k, Pow2(f), u);
  }

  /** All kept bits set and the first dropped bit set: the increment is lost. */
  predicate Overflows(f: nat, kept: nat, dropped: nat, u: nat) { kept == Pow2(f + 1) - 1 && 2 * dropped >= u }

  /** The significand of a converted integer that needs rounding. */
  function RoundedTo(f: nat, kept: nat, dropped: nat, u: nat): nat {
    if Overflows(f, kept, dropped, u) then Pow2(f)
    else kept + Increment(kept, dropped, u)
  }

  /** The increment fits, or carries out of the fraction. */
  lemma Incremented(f: nat, q: nat, up: nat)
    requires f >= 1 && q < Pow2(f) && up <= 1
    ensures (q + up) % Pow2(f) == if q == Pow2(f) - 1 && up == 1 then 0 else q + up
  {
    if q == Pow2(f) - 1 && up == 1 {
      Multiple(1, Pow2(f));
    } else {
      SmallMod(q + up, Pow2(f));
    }
  }

  lemma OddTop(f: nat)
    requires f >= 1
    ensures (Pow2(f) - 1) % 2 == 1 && Pow2(f) % 2 == 0 && Pow2(f + 1) == Pow2(f) + Pow2(f)
  {
    var h := Pow2(f - 1);
    assert Pow2(f) == h + h && Pow2(f) - 1 == 2 * (h - 1) + 1;
  }

  lemma SameIncrement(f: nat, q: nat, d: nat, u: nat)
    requires f >= 1
    ensures Increment(Pow2(f) + q, d, u) == Increment(q, d, u)
  {
    OddTop(f);
  }

  lemma RoundedFrom(f: nat, q: nat, d: nat, u: nat, frac: nat)
    requires f >= 1 && q < Pow2(f)
    requires frac == if q == Pow2(f) - 1 && Increment(q, d, u) == 1 then 0 else q + Increment(q, d, u)
    ensures Pow2(f) + frac == RoundedTo(f, Pow2(f) + q, d, u)
  {
    OddTop(f);
    SameIncrement(f, q, d, u);
  }

  lemma SignificandRounds(w: nat, f: nat, y: nat, mag: nat, u: nat, k: nat, d: nat)
    requires 1 <= f < y < w && Pow2(y) <= mag < Pow2(y + 1) && u == Pow2(y - f) && mag == k * u + d && d < u
    ensures Pow2(f) + Fraction(w, f, y, mag) == RoundedTo(f, k, d, u)
  {
    CutBits(f, y, mag, u, k, d);
    CutSignificand(w, f, y, mag, u, k - Pow2(f), d);
  }

  lemma CutSignificand(w: nat, f: nat, y: nat, mag: nat, u: nat, q: nat, d: nat)
    requires f >= 1 && y < w && Cut(f, y, mag, u, q, d) && q < Pow2(f)
    ensures Pow2(f) + Fraction(w, f, y, mag) == RoundedTo(f, Pow2(f) + q, d, u)
  {
    FractionRounds(w, f, y, mag, u, q, d);
    Incremented(f, q, Increment(q, d, u));
    RoundedFrom(f, q, d, u, Fraction(w, f, y, mag));
  }

  /** The distance of the converted value, at scale u, from the magnitude. */
  function Distance(s: nat, u: nat, mag: nat): nat { if s * u >= mag then s * u - mag else mag - s * u }

  /** s is mag = k * u + d rounded at unit u: the error is below one unit unless the increment is lost, and at
      most half a unit exactly when, besides, an even significand does not drop more than half a unit. */
  ghost predicate RoundsTo(f: nat, s: nat, u: nat, mag: nat, k: nat, d: nat) {
    && s == RoundedTo(f, k, d, u)
    && (Distance(s, u, mag) < u <==> !Overflows(f, k, d, u))
    && (2 * Distance(s, u, mag) <= u <==> !Overflows(f, k, d, u) && !(k % 2 == 0 && 2 * d > u))
  }

  lemma DistanceIs(s: nat, k: nat, d: nat, u: nat, mag: nat)
    requires mag == k * u + d && d < u
    ensures s == k ==> Distance(s, u, mag) == d
    ensures s == k + 1 ==> Distance(s, u, mag) == u - d
    ensures s < k ==> Distance(s, u, mag) >= u
  {
    if s == k + 1 {
      MulPlus(k, 1, u);
    } else if s < k {
      MulMinus(k, s, u);
      MulAtMost(1, k - s, u);
    }
  }

  lemma RoundingError(f: nat, mag: nat, u: nat, k: nat, d: nat)
    requires f >= 1 && mag == k * u + d && d < u
    ensures RoundsTo(f, RoundedTo(f, k, d, u), u, mag, k, d)
  {
    OddTop(f);
    Pow2Mono(1, f);
    DistanceIs(RoundedTo(f, k, d, u), k, d, u, mag);
  }

  lemma FractionError(w: nat, f: nat, y: nat, mag: nat, u: nat, k: nat, d: nat)
    requires 1 <= f < y < w && Pow2(y) <= mag < Pow2(y + 1) && u == Pow2(y - f) && mag == k * u + d && d < u
    ensures RoundsTo(f, Pow2(f) + Fraction(w, f, y, mag), u, mag, k, d)
  {
    SignificandRounds(w, f, y, mag, u, k, d);
    RoundingError(f, mag, u, k, d);
  }

  lemma Divided(mag: nat, u: nat) returns (k: nat, d: nat)
    requires u > 0
    ensures mag == k * u + d && d < u
  {
    k, d := mag / u, mag % u;
    DivMod(mag, u);
  }

  lemma EncoderFinds(lg: nat, f: nat, v: int) returns (y: nat)
    requires lg >= 2 && f < Pow2(lg) && FitsSigned(Pow2(lg), v) && Size(v) >= Pow2(f + 1)
    ensures f < y < Pow2(lg) && Pow2(y) <= Size(v) < Pow2(y + 1) && y == FindFirstSet(lg, ToBits(Size(v), Pow2(lg)))
  {
    PatternFits(Pow2(lg), v);
    EncoderBounds(lg, Size(v));
    y := FindFirstSet(lg, ToBits(Size(v), Pow2(lg)));
    if y <= f { Pow2Mono(y + 1, f + 1); }
  }

  lemma LeadingOne(lg: nat, e: nat, f: nat, v: int) returns (y: nat)
    requires lg >= 2 && e > 0 && f < Pow2(lg) && FitsSigned(Pow2(lg), v) && Size(v) >= Pow2(f + 1)
    requires Bias(e) + Pow2(lg) <= Pow2(e)
    ensures f < y < Pow2(lg) && Pow2(y) <= Size(v) < Pow2(y + 1) && 0 <= Pattern(Pow2(lg), v) < Pow2(Pow2(lg))
    ensures Convert(lg, e, f, Pattern(Pow2(lg), v)) == Float(v < 0, Bias(e) + y, Fraction(Pow2(lg), f, y, Size(v)))
  {
    y := EncoderFinds(lg, f, v);
    assert 0 <= Pattern(Pow2(lg), v) < Pow2(Pow2(lg)) by { PatternFits(Pow2(lg), v); }
    ConvertFields(lg, e, f, v, y);
    SmallMod(Bias(e) + y, Pow2(e));
  }

  /** Converting an integer of more than f + 1 bits: the exponent is that of its leading one, and the
      significand is its size k * u + d rounded as above at the unit u of that exponent. */
  lemma ConvertRounds(lg: nat, e: nat, f: nat, v: int) returns (u: nat, k: nat, d: nat)
    requires lg >= 2 && e > 0 && 1 <= f < Pow2(lg) && FitsSigned(Pow2(lg), v) && Size(v) >= Pow2(f + 1)
    requires Bias(e) + Pow2(lg) <= Pow2(e)
    ensures 0 <= Pattern(Pow2(lg), v) < Pow2(Pow2(lg)) && Size(v) == k * u + d && d < u
    ensures var x := Convert(lg, e, f, Pattern(Pow2(lg), v));
            && x.sign == (v < 0) && x.exp > Bias(e) + f
            && Pow2(x.exp - Bias(e)) <= Size(v) < Pow2(x.exp - Bias(e) + 1)
            && u == Pow2(x.exp - Bias(e) - f) && RoundsTo(f, Significand(f, x), u, Size(v), k, d)
  {
    var y := LeadingOne(lg, e, f, v);
    u := Pow2(y - f);
    k, d := Divided(Size(v), u);
    FractionError(Pow2(lg), f, y, Size(v), u, k, d);
  }

  lemma LeadingOf25(y: nat)
    requires y > 23 && Pow2(y) <= Pow2(25) - 1
    ensures y == 24
  {
    if y > 24 { Pow2Mono(25, y); }
  }

  /** In single precision 2^25 - 1 becomes 2^24. */
  lemma IncrementLost()
    ensures Pow2(5) == 32 && 0 <= Pattern(32, Pow2(25) - 1) < Pow2(32)
    ensures Convert(5, 8, 23, Pattern(32, Pow2(25) - 1)) == Float(false, Bias(8) + 24, 0)
  {
    MachineSizes();
    Pow2Mono(25, 31);
    var y := LeadingOne(5, 8, 23, Pow2(25) - 1);
    LeadingOf25(y);
    SignificandRounds(32, 23, 24, Pow2(25) - 1, 2, Pow2(24) - 1, 1);
  }

  // ---------------------------------------------------------------- truncation

  /** t is the integer part of significand * 2^(exp - bias - f). */
  ghost predicate IntegerPart(e: nat, f: nat, x: Float, t: nat)
    requires e > 0 && x.exp >= Bias(e)
  {
    t * Pow2(f) <= Significand(f, x) * Pow2(x.exp - Bias(e)) < (t + 1) * Pow2(f)
  }

  lemma CancelTwo(n: nat, d: nat)
    requires d > 0
    ensures (2 * n) / (2 * d) == n / d
  {
    DivMod(n, d);
    MulSwap(2, n / d, d);
    MulSwap(n / d, 2, d);
    DivUnique(2 * n, 2 * d, n / d, 2 * (n % d));
  }

  lemma ShiftedQuotient(s: nat, k: nat, f: nat)
    ensures s * Pow2(k) >= 0 && s * Pow2(k + 1) >= 0
    ensures Quot(s * Pow2(k + 1), Pow2(f + 1)) == (s * Pow2(k)) / Pow2(f)
  {
    MulAtMost(0, s, Pow2(k));
    MulSwap(s, 2, Pow2(k));
    CancelTwo(s * Pow2(k), Pow2(f));
  }

  lemma IntegerPartIs(e: nat, f: nat, x: Float)
    requires e > 0 && x.exp >= Bias(e)
    ensures IntegerPart(e, f, x, Quot(Significand(f, x) * Pow2(x.exp - Bias(e)), Pow2(f)))
  {
    var n := Significand(f, x) * Pow2(x.exp - Bias(e));
    DivMod(n, Pow2(f));
    MulPlus(n / Pow2(f), 1, Pow2(f));
  }

  lemma PartBelow(f: nat, s: nat, k: nat)
    requires s < Pow2(f + 1)
    ensures Quot(s * Pow2(k), Pow2(f)) < Pow2(k + 1)
  {
    MulBelow(s, Pow2(f + 1), Pow2(k));
    MulAtMost(0, s, Pow2(k));
    Pow2Add(f + 1, k);
    Pow2Add(k + 1, f);
    DivBelow(s * Pow2(k), Pow2(f), Pow2(k + 1));
  }

  /** A small register value, negated or not, keeps its low bits. */
  lemma KeptBits(w: nat, out: nat, neg: bool, t: nat)
    requires 1 <= out <= w && t <= Pow2(out - 1) && (!neg ==> t < Pow2(out - 1))
    ensures (if neg then Negate(w, t) else t) % Pow2(out) == Pattern(out, Signed(neg, t))
  {
    assert Pow2(out) == 2 * Pow2(out - 1);
    Pow2Mono(out, w);
    if neg && t > 0 {
      Pow2Add(w - out, out);
      MulMinus(Pow2(w - out), 1, Pow2(out));
      DivUnique(Pow2(w) - t, Pow2(out), Pow2(w - out) - 1, Pow2(out) - t);
    } else {
      SmallMod(t, Pow2(out));
    }
  }

  /** Truncation is exact rounding toward zero wherever the integer part fits the result. */
  lemma TruncateTowardZero(w: nat, e: nat, f: nat, out: nat, x: Float)
    requires e > 0 && Fits(e, f, x) && 1 <= out <= w && Bias(e) <= x.exp < Bias(e) + w
    requires var t := Quot(Significand(f, x) * Pow2(x.exp - Bias(e)), Pow2(f));
             t <= Pow2(out - 1) && (!x.sign ==> t < Pow2(out - 1))
    ensures var t := Quot(Significand(f, x) * Pow2(x.exp - Bias(e)), Pow2(f));
            IntegerPart(e, f, x, t) && Truncate(w, e, f, out, x) == Pattern(out, Signed(x.sign, t))
  {
    var k := x.exp - Bias(e);
    var t := Quot(Significand(f, x) * Pow2(k), Pow2(f));
    IntegerPartIs(e, f, x);
    ShiftedQuotient(Significand(f, x), k, f);
    PartBelow(f, Significand(f, x), k);
    Pow2Mono(k + 1, w);
    SmallMod(t, Pow2(w));
    KeptBits(w, out, x.sign, t);
  }

  /** In particular for every magnitude below 2^(out-1). */
  lemma TruncateInRange(w: nat, e: nat, f: nat, out: nat, x: Float)
    requires e > 0 && Fits(e, f, x) && 1 <= out <= w && Bias(e) <= x.exp && x.exp - Bias(e) + 1 < out
    ensures var t := Quot(Significand(f, x) * Pow2(x.exp - Bias(e)), Pow2(f));
            IntegerPart(e, f, x, t) && Truncate(w, e, f, out, x) == Pattern(out, Signed(x.sign, t))
  {
    var k := x.exp - Bias(e);
    PartBelow(f, Significand(f, x), k);
    Pow2Mono(k + 1, out - 1);
    TruncateTowardZero(w, e, f, out, x);
  }

  // ---------------------------------------------------------------- round trip

  lemma EncodedPart(e: nat, f: nat, x: Float, v: nat)
    requires e > 0 && Encodes(e, f, x, v)
    ensures Quot(Significand(f, x) * Pow2(x.exp - Bias(e)), Pow2(f)) == v
  {
    Multiple(v, Pow2(f));
  }

  lemma ExponentBelow(e: nat, f: nat, x: Float, v: nat, k: nat)
    requires e > 0 && Encodes(e, f, x, v) && v < Pow2(k)
    ensures x.exp - Bias(e) < k
  {
    var n := x.exp - Bias(e);
    if n >= k {
      Pow2Mono(k, n);
      MulSwap(1, Pow2(f), Pow2(n));
      MulAtMost(Pow2(f), Significand(f, x), Pow2(n));
      MulAtMost(Pow2(k), Pow2(n), Pow2(f));
      MulBelow(v, Pow2(k), Pow2(f));
    }
  }

  /** Converting v to floating point and truncating back is the identity whenever v fits the result
      and |v| <= 2^(f+1). */
  lemma ConvertRoundTrip(lg: nat, e: nat, f: nat, out: nat, v: int)
    requires lg >= 2 && e > 0 && f < Pow2(lg) && 1 <= out <= Pow2(lg) && Bias(e) + Pow2(lg) <= Pow2(e) && Bias(e) > 0
    requires FitsSigned(out, v) && Size(v) <= Pow2(f + 1)
    ensures 0 <= Pattern(Pow2(lg), v) < Pow2(Pow2(lg))
    ensures Truncate(Pow2(lg), e, f, out, Convert(lg, e, f, Pattern(Pow2(lg), v))) == Pattern(out, v)
  {
    var w := Pow2(lg);
    Pow2Mono(out - 1, w - 1);
    PatternFits(w, v);
    if v == 0 {
    } else {
      ConvertExact(lg, e, f, v);
      var x := Convert(lg, e, f, Pattern(w, v));
      EncodedPart(e, f, x, Size(v));
      ExponentBelow(e, f, x, Size(v), w);
      TruncateTowardZero(w, e, f, out, x);
    }
  }

  /** Below one in magnitude the result is zero: significand < 2^(f + bias - exp). */
  lemma TruncateFraction(w: nat, e: nat, f: nat, out: nat, x: Float)
    requires e > 0 && Fits(e, f, x) && x.exp < Bias(e)
    ensures Truncate(w, e, f, out, x) == 0 && Significand(f, x) < Pow2(f + (Bias(e) - x.exp))
  {
    Pow2Mono(f + 1, f + (Bias(e) - x.exp));
  }

  lemma MachineSizes()
    ensures Pow2(5) == 32 && Pow2(6) == 64 && Pow2(7) == 128 && Pow2(8) == 256 && Pow2(10) == 1024 && Pow2(11) == 2048
  {
    assert Pow2(2) == 4;
    assert Pow2(5) == 8 * Pow2(2);
    assert Pow2(8) == 8 * Pow2(5);
    assert Pow2(10) == 4 * Pow2(8);
  }

  /** Every int32 survives the way through double precision. */
  lemma Int32ThroughDouble(v: int)
    requires FitsSigned(32, v)
    ensures Pow2(6) == 64 && 0 <= Pattern(64, v) < Pow2(64)
    ensures Truncate(64, 11, 52, 32, Convert(6, 11, 52, Pattern(64, v))) == Pattern(32, v)
  {
    MachineSizes();
    Pow2Mono(31, 53);
    ConvertRoundTrip(6, 11, 52, 32, v);
  }

  /** Every int32 of magnitude at most 2^24 survives the way through single precision. */
  lemma Int32ThroughSingle(v: int)
    requires Size(v) <= Pow2(24)
    ensures Pow2(5) == 32 && 0 <= Pattern(32, v) < Pow2(32)
    ensures Truncate(32, 8, 23, 32, Convert(5, 8, 23, Pattern(32, v))) == Pattern(32, v)
  {
    MachineSizes();
    Pow2Mono(25, 31);
    ConvertRoundTrip(5, 8, 23, 32, v);
  }
}
