/**
  The restoring division loop shared by divider.sv and unsigned_divider.sv, for every width W: a
  2W-bit partial remainder, the divisor in the upper half, and a W-bit shift register (shiftregbit.sv)
  that collects the quotient bits.
 */
module RestoringDivider {
  import opened Arithmetic
  import opened Bits

  /** r_R, r_D and the shift register. */
  datatype Core = Core(r: nat, d: nat, ss: nat)

  /** {r_R[W2-2:0], 1'b0}: the bit shifted out at the top is lost. */
  function Doubled(w: nat, r: nat): (x: nat)
    ensures x < Pow2(2 * w)
  {
    (2 * r) % Pow2(2 * w)
  }

  /** shiftregbit: every flip-flop takes its right neighbour's bit. */
  function ShiftIn(w: nat, ss: nat, bit: bool): (x: nat)
    ensures x < Pow2(w)
  {
    (2 * ss + if bit then 1 else 0) % Pow2(w)
  }

  /** One cycle of the DIVIDE state. */
  function Step(w: nat, c: Core): Core {
    var x := Doubled(w, c.r);
    if x >= c.d then Core(x - c.d, c.d, ShiftIn(w, c.ss, true)) else Core(x, c.d, ShiftIn(w, c.ss, false))
  }

  function Steps(w: nat, c: Core, k: nat): Core {
    if k == 0 then c else Step(w, Steps(w, c, k - 1))
  }

  /** The registers after the operands are loaded; the shift register still holds old bits. */
  function Load(w: nat, a: nat, b: nat, ss: nat): Core { Core(a, b * Pow2(w), ss) }

  // ---------------------------------------------------------------- the loop invariant

  /** After k cycles 2^k * A = q * D + R with R < D; the register holds the k quotient bits below
      whatever it held before. */
  ghost predicate LoopInv(w: nat, a: nat, c0: Core, k: nat, c: Core, q: nat) {
    && c.d == c0.d
    && Pow2(k) * a == q * c.d + c.r
    && c.r < c.d
    && q < Pow2(k)
    && c.ss == (c0.ss * Pow2(k) + q) % Pow2(w)
  }

  lemma ModStep(x: nat, m: nat, bit: nat)
    requires m > 0
    ensures (2 * (x % m) + bit) % m == (2 * x + bit) % m
  {
    DivMod(x, m);
    MulSwap(2, x / m, m);
    ModAdd(2 * (x % m) + bit, 2 * (x / m), m);
  }

  lemma ProductBelow(p: nat, m: nat, a: nat, r: nat)
    requires a < m && p > 0 && r <= p * a
    ensures r < m * p
  {
    MulBelow(a, m, p);
    MulSwap(1, p, a);
  }

  /** The partial remainder never reaches the bit that the shift drops. */
  lemma NothingLost(w: nat, a: nat, k: nat, r: nat)
    requires a < Pow2(w) && k < w && r <= Pow2(k) * a
    ensures Doubled(w, r) == 2 * r
  {
    ProductBelow(Pow2(k), Pow2(w), a, r);
    Pow2Add(w, k);
    var bound := Pow2(w + k);
    assert r < bound && 2 * bound == Pow2(w + k + 1);
    Pow2Mono(w + k + 1, 2 * w);
    SmallMod(2 * r, Pow2(2 * w));
  }

  lemma ShiftStep(w: nat, ss0: nat, k: nat, q: nat, ss: nat, bit: bool)
    requires ss == (ss0 * Pow2(k) + q) % Pow2(w)
    ensures ShiftIn(w, ss, bit) == (ss0 * Pow2(k + 1) + (2 * q + if bit then 1 else 0)) % Pow2(w)
  {
    ModStep(ss0 * Pow2(k) + q, Pow2(w), if bit then 1 else 0);
    MulSwap(ss0, 2, Pow2(k));
  }

  lemma StepSum(p: nat, a: nat, q: nat, d: nat, r: nat)
    requires p * a == q * d + r
    ensures (2 * p) * a == (2 * q) * d + 2 * r && (2 * p) * a == (2 * q + 1) * d + (2 * r - d)
  {
    MulSwap(2, p, a);
    MulSwap(2, q, d);
    MulPlus(2 * q, 1, d);
  }

  lemma PartialBelow(p: nat, a: nat, q: nat, d: nat, r: nat)
    requires p * a == q * d + r
    ensures r <= p * a
  {
    MulAtMost(0, q, d);
  }

  lemma StepKeeps(w: nat, a: nat, c0: Core, k: nat, c: Core, q: nat)
    requires a < Pow2(w) && k < w && LoopInv(w, a, c0, k, c, q)
    ensures var bit := 2 * c.r >= c.d;
            LoopInv(w, a, c0, k + 1, Step(w, c), 2 * q + if bit then 1 else 0)
  {
    PartialBelow(Pow2(k), a, q, c.d, c.r);
    NothingLost(w, a, k, c.r);
    ShiftStep(w, c0.ss, k, q, c.ss, 2 * c.r >= c.d);
    StepSum(Pow2(k), a, q, c.d, c.r);
  }

  lemma {:induction false} LoopRuns(w: nat, a: nat, c0: Core, k: nat) returns (q: nat)
    requires a < Pow2(w) && k <= w && c0.r == a < c0.d && c0.ss < Pow2(w)
    ensures LoopInv(w, a, c0, k, Steps(w, c0, k), q)
  {
    if k == 0 {
      q := 0;
      SmallMod(c0.ss, Pow2(w));
    } else {
      var q' := LoopRuns(w, a, c0, k - 1);
      var c := Steps(w, c0, k - 1);
      StepKeeps(w, a, c0, k - 1, c, q');
      q := 2 * q' + if 2 * c.r >= c.d then 1 else 0;
    }
  }

  /** r_R[W2-1:W] */
  function Upper(w: nat, r: nat): nat { Quot(r, Pow2(w)) }

  /** Scaling both sides by p does not change a quotient. */
  lemma FinalDivision(p: nat, a: nat, b: nat, q: nat, r: nat)
    requires p > 0 && b > 0 && p * a == q * (b * p) + r && r < b * p
    ensures q == a / b && r / p == a % b
  {
    var x := a - q * b;
    MulSwap(q, b, p);
    MulSwap(1, p, a);
    MulMinus(a, q * b, p);
    assert x * p == r;
    if x < 0 { MulBelow(x, 0, p); }
    MulCancel(x, b, p);
    DivUnique(a, b, q, x);
    DivUnique(r, p, x, 0);
  }

  /** All older bits have left the register after W shifts. */
  lemma ShiftedOut(w: nat, ss: nat, q: nat)
    requires q < Pow2(w)
    ensures ss * Pow2(w) >= 0 && (ss * Pow2(w) + q) % Pow2(w) == q
  {
    ModAdd(q, ss, Pow2(w));
    SmallMod(q, Pow2(w));
  }

  /** W cycles divide: the shift register holds A / B, the upper half of R holds A mod B, whatever
      the shift register held before. */
  lemma DivisionIsExact(w: nat, a: nat, b: nat, ss: nat)
    requires a < Pow2(w) && 0 < b < Pow2(w) && ss < Pow2(w)
    ensures var c := Steps(w, Load(w, a, b, ss), w);
            c.ss == a / b && Upper(w, c.r) == a % b
  {
    var c0 := Load(w, a, b, ss);
    MulAtMost(1, b, Pow2(w));
    var q := LoopRuns(w, a, c0, w);
    var c := Steps(w, c0, w);
    FinalDivision(Pow2(w), a, b, q, c.r);
    ShiftedOut(w, ss, q);
  }

  // ---------------------------------------------------------------- division by zero

  /** With a zero divisor every comparison succeeds and nothing is subtracted. */
  ghost predicate ZeroInv(w: nat, a: nat, ss0: nat, k: nat, c: Core) {
    c.r == Pow2(k) * a && c.d == 0 && c.ss == (ss0 * Pow2(k) + (Pow2(k) - 1)) % Pow2(w)
  }

  lemma ZeroStep(w: nat, a: nat, ss0: nat, k: nat, c: Core)
    requires a < Pow2(w) && k < w && ZeroInv(w, a, ss0, k, c)
    ensures ZeroInv(w, a, ss0, k + 1, Step(w, c))
  {
    NothingLost(w, a, k, c.r);
    ShiftStep(w, ss0, k, Pow2(k) - 1, c.ss, true);
    MulSwap(2, Pow2(k), a);
  }

  lemma {:induction false} ZeroLoop(w: nat, a: nat, ss: nat, k: nat)
    requires a < Pow2(w) && k <= w && ss < Pow2(w)
    ensures ZeroInv(w, a, ss, k, Steps(w, Core(a, 0, ss), k))
  {
    if k == 0 {
      SmallMod(ss, Pow2(w));
    } else {
      ZeroLoop(w, a, ss, k - 1);
      ZeroStep(w, a, ss, k - 1, Steps(w, Core(a, 0, ss), k - 1));
    }
  }

  /** Division by zero yields all ones and the dividend. */
  lemma DivisionByZero(w: nat, a: nat, ss: nat)
    requires a < Pow2(w) && ss < Pow2(w)
    ensures var c := Steps(w, Load(w, a, 0, ss), w);
            c.ss == Pow2(w) - 1 && Upper(w, c.r) == a
  {
    var c := Steps(w, Load(w, a, 0, ss), w);
    ZeroLoop(w, a, ss, w);
    ShiftedOut(w, ss, Pow2(w) - 1);
    MulSwap(1, a, Pow2(w));
    Multiple(a, Pow2(w));
    assert c.r == a * Pow2(w);
  }
}
