/**
  The floating-point divider (fp_div.sv without DEBUG_FPU) for every exponent and fraction width: an
  exponent subtraction, the restoring divider of width 2f + 1 on the significands, and one optional
  normalisation step.  The quotient is truncated.
 */
module FloatDivide {
  import opened Arithmetic
  import opened Bits
  import opened RestoringDivider
  import opened FloatFormat
  import U = UnsignedDivider

  datatype Phase = Idle | ComputeExp | WaitForDivide | Normalize | Round | Done

  datatype State = State(
    phase: Phase, expA: nat, expB: nat, exp: int, sign: bool, mant: nat, y: Float, valid: bool, active: bool,
    inner: U.State)

  datatype Input = Input(start: bool, a: Float, b: Float)

  function Width(f: nat): nat { 2 * f + 1 }

  /** w_mant_a and w_mant_b */
  function Dividend(f: nat, a: Float): nat { Significand(f, a) * Pow2(f) }

  function InnerInput(f: nat, s: State, i: Input): U.Input {
    U.Input(s.phase.Idle? && i.start, Dividend(f, i.a), Significand(f, i.b))
  }

  /** y_div[FW] */
  predicate LeadingOne(f: nat, q: nat) { Quot(q, Pow2(f)) % 2 == 1 }

  function Outer(e: nat, f: nat, s: State, i: Input): State
    requires e > 0
  {
    var t := s.(valid := false);
    match s.phase
    case Idle =>
      var u := t.(expA := i.a.exp, expB := i.b.exp, sign := i.a.sign != i.b.sign);
      if i.start then u.(phase := ComputeExp, active := true) else u
    case ComputeExp => t.(phase := WaitForDivide, exp := s.expA - s.expB + Bias(e))
    case WaitForDivide =>
      if s.inner.phase.Done? then
        t.(phase := if LeadingOne(f, s.inner.y) then Round else Normalize, mant := s.inner.y)
      else t
    case Normalize => t.(phase := Round, mant := 2 * s.mant, exp := s.exp - 1)
    case Round => t.(phase := Done, valid := true, y := Float(s.sign, s.exp % Pow2(e), s.mant % Pow2(f)))
    case Done => t.(phase := Idle, active := false)
  }

  /** One clock cycle of the divider and of the mantissa divider inside it. */
  function Next(e: nat, f: nat, s: State, i: Input): State
    requires e > 0
  {
    Outer(e, f, s, i).(inner := U.Next(Width(f), s.inner, InnerInput(f, s, i)))
  }

  function Run(e: nat, f: nat, s: State, ins: seq<Input>): State
    requires e > 0
  {
    if ins == [] then s else Next(e, f, Run(e, f, s, ins[..|ins| - 1]), ins[|ins| - 1])
  }

  // ---------------------------------------------------------------- the result

  function MantissaQuotient(f: nat, a: Float, b: Float): nat { Quot(Dividend(f, a), Significand(f, b)) }

  /** Whether the quotient needs the normalisation step. */
  function Steps01(f: nat, a: Float, b: Float): nat { if MantissaQuotient(f, a, b) >= Pow2(f) then 0 else 1 }

  function ResultExp(e: nat, f: nat, a: Float, b: Float): int
    requires e > 0
  {
    a.exp - b.exp + Bias(e) - Steps01(f, a, b)
  }

  function Divide(e: nat, f: nat, a: Float, b: Float): Float
    requires e > 0
  {
    var q := MantissaQuotient(f, a, b);
    Float(a.sign != b.sign, ResultExp(e, f, a, b) % Pow2(e), (if Steps01(f, a, b) == 0 then q else 2 * q) % Pow2(f))
  }

  // ---------------------------------------------------------------- the state machine

  ghost predicate Ready(f: nat, s: State) {
    s.phase.Idle? && s.inner.phase.Idle? && s.inner.core.ss < Pow2(Width(f))
  }

  /** The state k cycles after i started, 1 <= k <= w + 2; the shift register held ss then. */
  ghost predicate Waiting(e: nat, f: nat, s: State, ss: nat, i: Input, k: nat)
    requires e > 0 && k >= 1
  {
    var w := Width(f);
    && s.active && !s.valid && s.sign == (i.a.sign != i.b.sign)
    && (if k == 1 then s.phase.ComputeExp? && s.expA == i.a.exp && s.expB == i.b.exp
        else s.phase.WaitForDivide? && s.exp == i.a.exp - i.b.exp + Bias(e))
    && s.inner.core == Steps(w, Load(w, Dividend(f, i.a), Significand(f, i.b), ss), if k <= w + 1 then k - 1 else w)
    && s.inner.phase == (if k <= w then U.Divide(w - k) else if k == w + 1 then U.PackOutput else U.Done)
    && (k == w + 2 ==> s.inner.y == s.inner.core.ss)
  }

  lemma StartsWaiting(e: nat, f: nat, s: State, i: Input)
    requires e > 0 && Ready(f, s) && i.start
    ensures Waiting(e, f, Next(e, f, s, i), s.inner.core.ss, i, 1)
  {
  }

  lemma KeepsWaiting(e: nat, f: nat, s: State, ss: nat, i: Input, k: nat, x: Input)
    requires e > 0 && 1 <= k < Width(f) + 2 && Waiting(e, f, s, ss, i, k)
    ensures Waiting(e, f, Next(e, f, s, x), ss, i, k + 1)
  {
  }

  lemma OperandsFit(e: nat, f: nat, a: Float, b: Float)
    requires Fits(e, f, a) && Fits(e, f, b)
    ensures Dividend(f, a) < Pow2(Width(f)) && 0 < Significand(f, b) < Pow2(Width(f))
  {
    Pow2Add(f + 1, f);
    MulBelow(Significand(f, a), Pow2(f + 1), Pow2(f));
    Pow2Mono(f + 1, 2 * f + 1);
  }

  /** A quotient below 2^(f+1) has its leading one exactly when it reaches 2^f. */
  lemma LeadingOneMeans(f: nat, q: nat)
    requires q < Pow2(f + 1)
    ensures LeadingOne(f, q) <==> q >= Pow2(f)
  {
    if q >= Pow2(f) {
      DivUnique(q, Pow2(f), 1, q - Pow2(f));
    } else {
      SmallMod(q, Pow2(f));
    }
  }

  lemma QuotientRange(e: nat, f: nat, a: Float, b: Float)
    requires Fits(e, f, a) && Fits(e, f, b)
    ensures MantissaQuotient(f, a, b) < Pow2(f + 1) && Pow2(f) <= 2 * MantissaQuotient(f, a, b) + 1
  {
    var x, d := Dividend(f, a), Significand(f, b);
    MulBelow(Significand(f, a), Pow2(f + 1), Pow2(f));
    MulAtMost(Pow2(f), d, Pow2(f + 1));
    MulSwap(1, d, Pow2(f + 1));
    MulSwap(1, Pow2(f), Pow2(f + 1));
    DivBelow(x, d, Pow2(f + 1));
    HalfReached(f, Significand(f, a), d);
  }

  /** The significands differ by less than a factor of two. */
  lemma HalfReached(f: nat, x: nat, d: nat)
    requires Pow2(f) <= x && 0 < d < Pow2(f + 1)
    ensures x * Pow2(f) >= 0 && Pow2(f) <= 2 * ((x * Pow2(f)) / d) + 1
  {
    var q, n := (x * Pow2(f)) / d, x * Pow2(f);
    MulAtMost(0, x, Pow2(f));
    DivMod(n, d);
    MulAtMost(Pow2(f), x, Pow2(f));
    if 2 * q + 2 <= Pow2(f) {
      // n < (q + 1) * d, so 2n < 2^f * d < 2^f * 2^(f+1) <= 2n
      MulPlus(q, 1, d);
      MulAtMost(2 * q + 2, Pow2(f), d);
      MulSwap(2, q + 1, d);
      MulBelow(d, Pow2(f + 1), Pow2(f));
      MulSwap(1, Pow2(f), d);
      MulSwap(2, Pow2(f), Pow2(f));
    }
  }

  // ---------------------------------------------------------------- every division of a run

  /** Which division is in progress and for how many cycles: a timer beside the state machine. */
  datatype Timer = Free | Busy(job: Input, age: nat)

  /** 2f + 5 cycles, one more with the normalisation step. */
  function Latency(f: nat, i: Input): nat { Width(f) + 4 + Steps01(f, i.a, i.b) }

  function Tick(f: nat, t: Timer, i: Input): Timer {
    match t
    case Free => if i.start then Busy(i, 1) else Free
    case Busy(job, age) => if age >= Latency(f, job) then Free else Busy(job, age + 1)
  }

  predicate InputShape(e: nat, f: nat, i: Input) { Fits(e, f, i.a) && Fits(e, f, i.b) }

  ghost predicate InnerDone(f: nat, s: State) {
    s.inner.phase.Idle? && s.inner.core.ss < Pow2(Width(f))
  }

  /** The states after the mantissa divider has finished: normalise if needed, round, present. */
  ghost predicate Ending(e: nat, f: nat, s: State, i: Input, k: nat)
    requires e > 0 && k > Width(f) + 2
  {
    var q, n, left := MantissaQuotient(f, i.a, i.b), Steps01(f, i.a, i.b), Latency(f, i) - k;
    && InnerDone(f, s) && s.active && (s.valid <==> left == 0)
    && (left > 0 ==> s.sign == (i.a.sign != i.b.sign))
    && (left == 2 ==> s.phase.Normalize? && n == 1 && s.mant == q && s.exp == ResultExp(e, f, i.a, i.b) + 1)
    && (left == 1 ==> s.phase.Round? && s.mant == (if n == 0 then q else 2 * q) && s.exp == ResultExp(e, f, i.a, i.b))
    && (left == 0 ==> s.phase.Done? && s.y == Divide(e, f, i.a, i.b))
  }

  ghost predicate Tracks(e: nat, f: nat, s: State, t: Timer)
    requires e > 0
  {
    match t
    case Free => Ready(f, s) && !s.valid
    case Busy(i, k) =>
      && InputShape(e, f, i) && 1 <= k <= Latency(f, i)
      && (if k <= Width(f) + 2 then exists ss: nat :: ss < Pow2(Width(f)) && Waiting(e, f, s, ss, i, k)
          else Ending(e, f, s, i, k))
  }

  /** The cycle that takes the quotient over. */
  lemma TakesQuotient(e: nat, f: nat, s: State, ss: nat, i: Input, x: Input)
    requires e > 0 && InputShape(e, f, i) && ss < Pow2(Width(f)) && Waiting(e, f, s, ss, i, Width(f) + 2)
    ensures Ending(e, f, Next(e, f, s, x), i, Width(f) + 3)
  {
    OperandsFit(e, f, i.a, i.b);
    DivisionIsExact(Width(f), Dividend(f, i.a), Significand(f, i.b), ss);
    QuotientRange(e, f, i.a, i.b);
    LeadingOneMeans(f, MantissaQuotient(f, i.a, i.b));
  }

  lemma KeepsEnding(e: nat, f: nat, s: State, i: Input, k: nat, x: Input)
    requires e > 0 && Width(f) + 3 <= k < Latency(f, i) && Ending(e, f, s, i, k)
    ensures Ending(e, f, Next(e, f, s, x), i, k + 1)
  {
  }

  /** After the result has been presented the unit is ready again. */
  lemma ReadyAgain(e: nat, f: nat, s: State, i: Input, x: Input)
    requires e > 0 && Ending(e, f, s, i, Latency(f, i))
    ensures Ready(f, Next(e, f, s, x)) && !Next(e, f, s, x).valid
  {
  }

  lemma StaysReady(e: nat, f: nat, s: State, x: Input)
    requires e > 0 && Ready(f, s) && !x.start
    ensures Ready(f, Next(e, f, s, x)) && !Next(e, f, s, x).valid
  {
  }

  lemma WaitTracks(e: nat, f: nat, s: State, i: Input, k: nat, x: Input)
    requires e > 0 && Tracks(e, f, s, Busy(i, k)) && k <= Width(f) + 2
    ensures Tracks(e, f, Next(e, f, s, x), Busy(i, k + 1))
  {
    var ss: nat :| ss < Pow2(Width(f)) && Waiting(e, f, s, ss, i, k);
    if k < Width(f) + 2 {
      KeepsWaiting(e, f, s, ss, i, k, x);
    } else {
      TakesQuotient(e, f, s, ss, i, x);
    }
  }

  /** One cycle follows the timer. */
  lemma StepTracks(e: nat, f: nat, s: State, t: Timer, x: Input)
    requires e > 0 && Tracks(e, f, s, t) && InputShape(e, f, x)
    ensures Tracks(e, f, Next(e, f, s, x), Tick(f, t, x))
  {
    if t.Free? {
      if x.start {
        StartsWaiting(e, f, s, x);
        var ss := s.inner.core.ss;
        assert ss < Pow2(Width(f)) && Waiting(e, f, Next(e, f, s, x), ss, x, 1);
      } else {
        StaysReady(e, f, s, x);
      }
    } else if t.age <= Width(f) + 2 {
      WaitTracks(e, f, s, t.job, t.age, x);
    } else if t.age < Latency(f, t.job) {
      KeepsEnding(e, f, s, t.job, t.age, x);
    } else {
      ReadyAgain(e, f, s, t.job, x);
    }
  }

  function RunTimer(f: nat, ins: seq<Input>): Timer {
    if ins == [] then Free else Tick(f, RunTimer(f, ins[..|ins| - 1]), ins[|ins| - 1])
  }

  lemma {:induction false} RunTracks(e: nat, f: nat, s: State, ins: seq<Input>)
    requires e > 0 && Ready(f, s) && !s.valid && forall i :: i in ins ==> InputShape(e, f, i)
    ensures Tracks(e, f, Run(e, f, s, ins), RunTimer(f, ins))
  {
    if ins != [] {
      var front := ins[..|ins| - 1];
      RunTracks(e, f, s, front);
      StepTracks(e, f, Run(e, f, s, front), RunTimer(f, front), ins[|ins| - 1]);
    }
  }

  /** In every run the result is flagged exactly when the division in progress has lasted its latency,
      and then it is that division's quotient, whatever the inputs did meanwhile; the unit idles
      exactly when no division is in progress. */
  lemma EveryDivision(e: nat, f: nat, s: State, ins: seq<Input>)
    requires e > 0 && Ready(f, s) && !s.valid && forall i :: i in ins ==> InputShape(e, f, i)
    ensures var t, timer := Run(e, f, s, ins), RunTimer(f, ins);
            && (t.valid <==> timer.Busy? && timer.age == Latency(f, timer.job))
            && (t.valid ==> t.y == Divide(e, f, timer.job.a, timer.job.b))
            && (t.phase.Idle? <==> timer.Free?)
  {
    RunTracks(e, f, s, ins);
  }

  lemma {:induction false} TimerCounts(f: nat, ins: seq<Input>)
    requires 1 <= |ins| && ins[0].start && |ins| <= Latency(f, ins[0])
    ensures RunTimer(f, ins) == Busy(ins[0], |ins|)
  {
    if |ins| == 1 {
      assert ins[..0] == [];
    } else {
      TimerCounts(f, ins[..|ins| - 1]);
    }
  }

  /** In particular a division started in a ready state ends after its latency and not before. */
  lemma DivideRun(e: nat, f: nat, s: State, ins: seq<Input>)
    requires e > 0 && Ready(f, s) && !s.valid && forall i :: i in ins ==> InputShape(e, f, i)
    requires 1 <= |ins| && ins[0].start && |ins| <= Latency(f, ins[0])
    ensures var t := Run(e, f, s, ins);
            && (t.valid <==> |ins| == Latency(f, ins[0]))
            && (t.valid ==> t.y == Divide(e, f, ins[0].a, ins[0].b))
  {
    RunTracks(e, f, s, ins);
    TimerCounts(f, ins);
  }

  // ---------------------------------------------------------------- accuracy

  /** The result's significand against the exact quotient: truncated, so never above it, and less
      than one unit below it, or two when the quotient was normalised. */
  lemma DivideInteger(e: nat, f: nat, a: Float, b: Float)
    requires e > 0 && f >= 1 && Normal(e, f, a) && Normal(e, f, b) && 1 <= ResultExp(e, f, a, b) <= Pow2(e) - 2
    ensures var y, n := Divide(e, f, a, b), Steps01(f, a, b);
            && Normal(e, f, y) && y.sign == (a.sign != b.sign) && y.exp == ResultExp(e, f, a, b)
            && Significand(f, y) * Significand(f, b) <= Significand(f, a) * Pow2(f + n)
            && Significand(f, a) * Pow2(f + n) < (Significand(f, y) + Pow2(n)) * Significand(f, b)
  {
    ResultFields(e, f, a, b);
    QuotientTruncated(f, a, b, Significand(f, Divide(e, f, a, b)));
  }

  lemma ResultFields(e: nat, f: nat, a: Float, b: Float)
    requires e > 0 && f >= 1 && Normal(e, f, a) && Normal(e, f, b) && 1 <= ResultExp(e, f, a, b) <= Pow2(e) - 2
    ensures var y, q, n := Divide(e, f, a, b), MantissaQuotient(f, a, b), Steps01(f, a, b);
            && Normal(e, f, y) && y.sign == (a.sign != b.sign) && y.exp == ResultExp(e, f, a, b)
            && Significand(f, y) == (if n == 0 then q else 2 * q)
  {
    var q := MantissaQuotient(f, a, b);
    SmallMod(ResultExp(e, f, a, b), Pow2(e));
    QuotientRange(e, f, a, b);
    EvenPower(f);
    HiddenBit(f, if Steps01(f, a, b) == 0 then q else 2 * q);
  }

  lemma QuotientTruncated(f: nat, a: Float, b: Float, s: nat)
    requires s == (if Steps01(f, a, b) == 0 then MantissaQuotient(f, a, b) else 2 * MantissaQuotient(f, a, b))
    ensures var n := Steps01(f, a, b);
            && s * Significand(f, b) <= Significand(f, a) * Pow2(f + n)
            && Significand(f, a) * Pow2(f + n) < (s + Pow2(n)) * Significand(f, b)
  {
    var q, n := MantissaQuotient(f, a, b), Steps01(f, a, b);
    TruncatedQuotient(Significand(f, a), Pow2(f), Significand(f, b), q, Pow2(n));
    assert Pow2(0) == 1 && Pow2(1) == 2;
    assert q * Pow2(n) == s;
    Pow2Add(f, n);
    MulSwap(Significand(f, a), Pow2(f), Pow2(n));
  }

  lemma EvenPower(f: nat)
    requires f >= 1
    ensures Pow2(f) % 2 == 0
  {
    DivUnique(Pow2(f), 2, Pow2(f - 1), 0);
  }

  lemma TruncatedQuotient(x: nat, p: nat, d: nat, q: nat, m: nat)
    requires d > 0 && x * p >= 0 && q == (x * p) / d && m > 0
    ensures (q * m) * d <= (x * p) * m < (q * m + m) * d
  {
    DivMod(x * p, d);
    MulAtMost(q * d, x * p, m);
    MulPlus(q, 1, d);
    MulBelow(x * p, (q + 1) * d, m);
    MulSwap(q, m, d);
    MulSwap(q + 1, m, d);
    MulSwap(q * d, m, 1);
    MulPlus(q, 1, m);
    assert (q * d) * m == (q * m) * d;
    assert ((q + 1) * d) * m == ((q + 1) * m) * d;
  }

  /** Scaled integers in order stay in order. */
  lemma {:induction false} ScaledAtMost(x: nat, u: real, d: nat, v: real, m: nat, w: real)
    requires u * v == w && w > 0.0 && x * d <= m
    ensures Times(x, u) * Times(d, v) <= Times(m, w)
  {
    TimesProduct(x, u, d, v, w);
    TimesOrder(x * d, m, w);
  }
  lemma {:induction false} ScaledBelow(x: nat, u: real, d: nat, v: real, m: nat, w: real)
    requires u * v == w && w > 0.0 && m < x * d
    ensures Times(m, w) < Times(x, u) * Times(d, v)
  {
    TimesProduct(x, u, d, v, w);
    TimesOrder(m, x * d, w);
  }

  lemma {:induction false} LowerBound(x: nat, j: int, d: nat, k: int, m: nat)
    requires x * d <= m
    ensures Times(x, Scale(j)) * Times(d, Scale(k)) <= Times(m, Scale(j + k))
  {
    ScaleMul(j, k);
    ScaleStep(j + k);
    ScaledAtMost(x, Scale(j), d, Scale(k), m, Scale(j + k));
  }
  lemma {:induction false} UpperBound(x: nat, j: int, d: nat, k: int, m: nat)
    requires m < x * d
    ensures Times(m, Scale(j + k)) < Times(x, Scale(j)) * Times(d, Scale(k))
  {
    ScaleMul(j, k);
    ScaleStep(j + k);
    ScaledBelow(x, Scale(j), d, Scale(k), m, Scale(j + k));
  }

  /** Lower and upper bound of an exact quotient: low * divisor <= dividend < high * divisor. */
  ghost predicate Brackets(low: real, high: real, divisor: real, dividend: real) {
    low * divisor <= dividend < high * divisor
  }

  /** For normal operands and an in-range exponent: y <= a / b < y + n ulp in magnitude, where n is 1,
      or 2 when the quotient was normalised. */
  lemma DivideTruncates(e: nat, f: nat, a: Float, b: Float)
    requires e > 0 && f >= 1 && Normal(e, f, a) && Normal(e, f, b) && 1 <= ResultExp(e, f, a, b) <= Pow2(e) - 2
    ensures var y := Divide(e, f, a, b);
            var ulps := if Steps01(f, a, b) == 0 then 1 else 2;
            Brackets(Magnitude(e, f, y), Times(Significand(f, y) + ulps, Ulp(e, f, y)),
                     Magnitude(e, f, b), Magnitude(e, f, a))
  {
    var y := Divide(e, f, a, b);
    var ulps := if Steps01(f, a, b) == 0 then 1 else 2;
    var x, d, m := ScaledDividend(e, f, a, b, Exp(e, f, y), Exp(e, f, b));
    BracketsAtScale(x, ulps, Exp(e, f, y), d, Exp(e, f, b), m);
  }

  lemma {:induction false} BracketsAtScale(x: nat, n: nat, j: int, d: nat, k: int, m: nat)
    requires x * d <= m < (x + n) * d
    ensures Brackets(Times(x, Scale(j)), Times(x + n, Scale(j)), Times(d, Scale(k)), Times(m, Scale(j + k)))
  {
    LowerBound(x, j, d, k, m);
    UpperBound(x + n, j, d, k, m);
  }

  /** The dividend's magnitude at the scale of quotient times divisor. */
  lemma ScaledDividend(e: nat, f: nat, a: Float, b: Float, j: int, k: int) returns (x: nat, d: nat, m: nat)
    requires e > 0 && f >= 1 && Normal(e, f, a) && Normal(e, f, b) && 1 <= ResultExp(e, f, a, b) <= Pow2(e) - 2
    requires j == Exp(e, f, Divide(e, f, a, b)) && k == Exp(e, f, b)
    ensures x == Significand(f, Divide(e, f, a, b)) && d == Significand(f, b)
    ensures Magnitude(e, f, a) == Times(m, Scale(j + k))
    ensures x * d <= m < (x + if Steps01(f, a, b) == 0 then 1 else 2) * d
  {
    var y, n := Divide(e, f, a, b), Steps01(f, a, b);
    DivideInteger(e, f, a, b);
    x, d := Significand(f, y), Significand(f, b);
    m := Significand(f, a) * Pow2(f + n);
    assert Exp(e, f, a) == (j + k) + (f + n);
    assert Pow2(n) == if n == 0 then 1 else 2;
    Rescaled(Significand(f, a), f + n, j + k);
  }

  lemma {:induction false} Rescaled(s: nat, q: nat, t: int)
    ensures s * Pow2(q) >= 0 && Times(s, Scale(t + q)) == Times(s * Pow2(q), Scale(t))
  {
    MulAtMost(0, s, Pow2(q));
    Rescale(s, q, t, s * Pow2(q));
  }

  // ---------------------------------------------------------------- the clocked unit

  class FloatDivider {
    const e: nat
    const f: nat
    var regs: State
    ghost var timer: Timer

    ghost predicate Valid()
      reads this
    {
      e > 0 && Tracks(e, f, regs, timer)
    }

    constructor (e: nat, f: nat, reset: State)
      requires e > 0 && Ready(f, reset) && !reset.valid
      ensures Valid() && this.e == e && this.f == f && regs == reset && timer == Free
    {
      this.e, this.f, this.regs, this.timer := e, f, reset, Free;
    }

    /** One clock cycle: each division ends after its latency, with its quotient in the output
        register, and leaves the unit ready for the next. */
    method Clock(i: Input) returns (done: bool)
      requires Valid() && InputShape(e, f, i)
      modifies this
      ensures Valid() && regs == Next(e, f, old(regs), i) && timer == Tick(f, old(timer), i)
      ensures done == regs.valid == (timer.Busy? && timer.age == Latency(f, timer.job))
      ensures done ==> regs.y == Divide(e, f, timer.job.a, timer.job.b)
      ensures timer.Free? <==> regs.phase.Idle?
    {
      StepTracks(e, f, regs, timer, i);
      timer := Tick(f, timer, i);
      regs := Next(e, f, regs, i);
      done := regs.valid;
    }
  }
}
