/**
  The signed/unsigned integer divider (divider.sv), for every width w = W >= 2, against the
  interpreter's div and divu (interpret.cc).
 */
module IntegerDivider {
  import opened Arithmetic
  import opened Bits
  import opened TwosComplement
  import opened RestoringDivider

  datatype Phase = Idle | InputSign | Divide(idx: nat) | PackOutput | OutputSign | WaitForWb

  datatype State = State(phase: Phase, signed: bool, sign: bool, a: nat, b: nat, core: Core, lo: nat, hi: nat, rob: nat)

  datatype Input = Input(start: bool, a: nat, b: nat, signed: bool, rob: nat)

  ghost predicate Shape(w: nat, s: State) {
    s.a < Pow2(w) && s.b < Pow2(w) && s.core.ss < Pow2(w) && (s.phase.Divide? ==> s.phase.idx < w)
  }
  ghost predicate InputShape(w: nat, i: Input) { i.a < Pow2(w) && i.b < Pow2(w) }

  function Magnitude(w: nat, signed: bool, x: nat): (r: nat)
    requires w > 0 && x < Pow2(w)
    ensures r < Pow2(w) && (r == 0 <==> x == 0)
  {
    if signed && SignBit(w, x) then Negate(w, x) else x
  }

  predicate SignsDiffer(w: nat, signed: bool, a: nat, b: nat)
    requires w > 0
  {
    signed && SignBit(w, a) != SignBit(w, b)
  }

  function NextPhase(w: nat, p: Phase, start: bool): Phase
    requires w > 0
  {
    match p
    case Idle => if start then InputSign else Idle
    case InputSign => Divide(w - 1)
    case Divide(idx) => if idx == 0 then PackOutput else Divide(idx - 1)
    case PackOutput => OutputSign
    case OutputSign => WaitForWb
    case WaitForWb => Idle
  }

  /** One clock cycle. */
  function Next(w: nat, s: State, i: Input): State
    requires w > 0 && Shape(w, s)
  {
    var p := NextPhase(w, s.phase, i.start);
    match s.phase
    case Idle =>
      if i.start then s.(phase := p, signed := i.signed, a := i.a, b := i.b, rob := i.rob) else s
    case InputSign =>
      var a, b := Magnitude(w, s.signed, s.a), Magnitude(w, s.signed, s.b);
      s.(phase := p, sign := SignsDiffer(w, s.signed, s.a, s.b), a := a, b := b, core := Load(w, a, b, s.core.ss))
    case Divide(idx) => s.(phase := p, core := Step(w, s.core))
    case PackOutput => s.(phase := p, lo := s.core.ss, hi := Upper(w, s.core.r))
    case OutputSign =>
      if s.signed && s.sign
      then s.(phase := p, lo := Negate(w, s.lo), hi := Negate(w, s.hi)) else s.(phase := p)
    case WaitForWb => s.(phase := p)
  }

  lemma NextShape(w: nat, s: State, i: Input)
    requires w > 0 && Shape(w, s) && InputShape(w, i)
    ensures Shape(w, Next(w, s, i))
  {
  }

  ghost function Run(w: nat, s: State, ins: seq<Input>): (e: State)
    requires w > 0 && Shape(w, s) && forall i :: i in ins ==> InputShape(w, i)
    ensures Shape(w, e)
  {
    if ins == [] then s
    else
      var before := Run(w, s, ins[..|ins| - 1]);
      NextShape(w, before, ins[|ins| - 1]);
      Next(w, before, ins[|ins| - 1])
  }

  // ---------------------------------------------------------------- what a division computes

  /** The hardware's quotient and remainder: both are negated when the signs differ. */
  function Quotient(w: nat, signed: bool, a: nat, b: nat): nat
    requires w > 0 && a < Pow2(w) && 0 < b < Pow2(w)
  {
    var q := Magnitude(w, signed, a) / Magnitude(w, signed, b);
    if SignsDiffer(w, signed, a, b) then Negate(w, q) else q
  }
  function Remainder(w: nat, signed: bool, a: nat, b: nat): nat
    requires w > 0 && a < Pow2(w) && 0 < b < Pow2(w)
  {
    var r := Magnitude(w, signed, a) % Magnitude(w, signed, b);
    if SignsDiffer(w, signed, a, b) then Negate(w, r) else r
  }

  ghost predicate Inputs(w: nat, ins: seq<Input>) { forall i :: i in ins ==> InputShape(w, i) }

  /** The state after the operands were latched and k steps were done. */
  ghost predicate Dividing(w: nat, s: State, i: Input, ss: nat, k: nat)
    requires w > 0 && InputShape(w, i)
  {
    && s.signed == i.signed && s.sign == SignsDiffer(w, i.signed, i.a, i.b) && s.rob == i.rob
    && s.core == Steps(w, Load(w, Magnitude(w, i.signed, i.a), Magnitude(w, i.signed, i.b), ss), k)
    && s.phase == (if k == w then PackOutput else if k < w then Divide(w - 1 - k) else Idle)
  }

  lemma {:induction false} DivideLoop(w: nat, s: State, ins: seq<Input>, k: nat)
    requires w > 0 && Shape(w, s) && Inputs(w, ins) && s.phase.Idle? && k <= w && |ins| == k + 2 && ins[0].start
    ensures Dividing(w, Run(w, s, ins), ins[0], s.core.ss, k)
    decreases k
  {
    var front := ins[..|ins| - 1];
    if k == 0 {
      assert front[..|front| - 1] == [];
      assert Run(w, s, front) == Next(w, s, ins[0]);
    } else {
      DivideLoop(w, s, front, k - 1);
    }
  }

  lemma QuotientFits(w: nat, a: nat, b: nat)
    requires a < Pow2(w) && 0 < b < Pow2(w)
    ensures a / b < Pow2(w) && a % b < b
  {
    DivMod(a, b);
    MulAtMost(1, b, Pow2(w));
    MulSwap(1, Pow2(w), b);
    DivBelow(a, b, Pow2(w));
  }

  /** The whole division: exactly w + 4 cycles after the start the result is presented, and the
      inputs in between do not matter. */
  lemma DivideCorrect(w: nat, s: State, ins: seq<Input>)
    requires w > 0 && Shape(w, s) && Inputs(w, ins) && s.phase.Idle? && |ins| == w + 4
    requires InputShape(w, ins[0]) && ins[0].start && ins[0].b != 0
    ensures var e := Run(w, s, ins);
            && e.phase.WaitForWb? && e.rob == ins[0].rob
            && e.lo == Quotient(w, ins[0].signed, ins[0].a, ins[0].b)
            && e.hi == Remainder(w, ins[0].signed, ins[0].a, ins[0].b)
  {
    var i := ins[0];
    var a, b := Magnitude(w, i.signed, i.a), Magnitude(w, i.signed, i.b);
    var f1 := ins[..|ins| - 1];
    var f2 := f1[..|f1| - 1];
    DivideLoop(w, s, f2, w);
    DivisionIsExact(w, a, b, s.core.ss);
    QuotientFits(w, a, b);
    assert Run(w, s, f1) == Next(w, Run(w, s, f2), f1[|f1| - 1]);
    assert Run(w, s, ins) == Next(w, Run(w, s, f1), ins[|ins| - 1]);
  }

  /** Division by zero raises nothing: all ones (one, if signed and the dividend is negative) and the
      dividend. */
  lemma DivideByZero(w: nat, s: State, ins: seq<Input>)
    requires w > 0 && Shape(w, s) && Inputs(w, ins) && s.phase.Idle? && |ins| == w + 4 && ins[0].start
    requires InputShape(w, ins[0]) && ins[0].b == 0
    ensures var e := Run(w, s, ins);
            && e.phase.WaitForWb? && e.rob == ins[0].rob
            && e.lo == (if ins[0].signed && SignBit(w, ins[0].a) then 1 else Pow2(w) - 1) && e.hi == ins[0].a
  {
    var i := ins[0];
    var f1 := ins[..|ins| - 1];
    var f2 := f1[..|f1| - 1];
    DivideLoop(w, s, f2, w);
    DivisionByZero(w, Magnitude(w, i.signed, i.a), s.core.ss);
    assert Run(w, s, f1) == Next(w, Run(w, s, f2), f1[|f1| - 1]);
    assert Run(w, s, ins) == Next(w, Run(w, s, f1), ins[|ins| - 1]);
  }

  // ---------------------------------------------------------------- the interpreter

  /** C's division: truncation towards zero. */
  function TruncDiv(x: int, y: int): int
    requires y != 0
  {
    if x >= 0 then (if y > 0 then x / y else -(x / -y))
    else (if y > 0 then -((-x) / y) else (-x) / (-y))
  }
  function TruncRem(x: int, y: int): int
    requires y != 0
  {
    if x >= 0 then (if y > 0 then x % y else x % (-y))
    else (if y > 0 then -((-x) % y) else -((-x) % (-y)))
  }

  lemma TruncIsDivision(x: int, y: int)
    requires y != 0
    ensures x == TruncDiv(x, y) * y + TruncRem(x, y)
  {
    var ax, ay := if x >= 0 then x else -x, if y > 0 then y else -y;
    DivMod(ax, ay);
    var q := ax / ay;
    assert (-q) * y == -(q * y) && q * (-y) == -(q * y);
  }

  lemma MagnitudeIsAbs(w: nat, x: nat)
    requires w >= 2 && x < Pow2(w)
    ensures var v := SignedValue(w, x); Magnitude(w, true, x) == (if v >= 0 then v else -v) <= Pow2(w - 1)
  {
  }

  lemma QuotientAtMost(a: nat, b: nat)
    requires b > 0
    ensures a / b <= a && a % b < b
  {
    DivMod(a, b);
    MulAtMost(1, b, a / b);
    MulSwap(1, a / b, b);
  }

  /** What the interpreter's div or divu does to lo and hi: nothing for a zero divisor, and the C++
      expression has no value where the quotient does not fit. */
  datatype Outcome = Unchanged | Undefined | Written(lo: int, hi: int)

  predicate Overflows(w: nat, a: nat, b: nat)
    requires w > 0
  {
    a == Pow2(w - 1) && b == Pow2(w) - 1
  }

  function Interpret(w: nat, signed: bool, a: nat, b: nat): Outcome
    requires w > 0 && a < Pow2(w) && b < Pow2(w)
  {
    if b == 0 then Unchanged
    else if !signed then Written(a / b, a % b)
    else if Overflows(w, a, b) then Undefined
    else
      var x, y := SignedValue(w, a), SignedValue(w, b);
      Written(Pattern(w, TruncDiv(x, y)), Pattern(w, TruncRem(x, y)))
  }

  /** The divisor is positive or divides the dividend: then both sides give the remainder one sign. */
  predicate SameRemainder(w: nat, a: nat, b: nat)
    requires w > 0 && 0 < b < Pow2(w)
  {
    SignBit(w, b) ==> SignedValue(w, a) % (0 - SignedValue(w, b)) == 0
  }

  lemma SignedQuotient(w: nat, a: nat, b: nat)
    requires w >= 2 && a < Pow2(w) && 0 < b < Pow2(w) && !Overflows(w, a, b)
    ensures Interpret(w, true, a, b).Written? && Quotient(w, true, a, b) == Interpret(w, true, a, b).lo
  {
    MagnitudeIsAbs(w, a);
    MagnitudeIsAbs(w, b);
    QuotientAtMost(Magnitude(w, true, a), Magnitude(w, true, b));
  }

  /** The hardware gives the remainder the sign of the quotient, the interpreter that of the dividend. */
  lemma SignedRemainder(w: nat, a: nat, b: nat)
    requires w >= 2 && a < Pow2(w) && 0 < b < Pow2(w) && !Overflows(w, a, b)
    ensures Interpret(w, true, a, b).Written?
    ensures Remainder(w, true, a, b) == Interpret(w, true, a, b).hi <==> SameRemainder(w, a, b)
  {
    MagnitudeIsAbs(w, a);
    MagnitudeIsAbs(w, b);
    if SignedValue(w, b) < 0 { NegatedMultiple(SignedValue(w, a), -SignedValue(w, b)); }
    QuotientAtMost(Magnitude(w, true, a), Magnitude(w, true, b));
  }

  /** A whole division against the interpreter: lo is the interpreter's wherever it has a value, and
      both halves are exactly when the division is unsigned or the remainder's sign cannot differ. */
  lemma RunAgrees(w: nat, s: State, ins: seq<Input>)
    requires w >= 2 && Shape(w, s) && Inputs(w, ins) && s.phase.Idle? && |ins| == w + 4
    requires InputShape(w, ins[0]) && ins[0].start
    ensures var i, e := ins[0], Run(w, s, ins);
            var ref := Interpret(w, i.signed, i.a, i.b);
            && e.phase.WaitForWb? && e.rob == i.rob
            && (ref.Written? ==> e.lo == ref.lo)
            && (ref == Written(e.lo, e.hi) <==>
                i.b != 0 && (i.signed ==> !Overflows(w, i.a, i.b) && SameRemainder(w, i.a, i.b)))
  {
    var i := ins[0];
    if i.b == 0 {
      DivideByZero(w, s, ins);
    } else {
      DivideCorrect(w, s, ins);
      if i.signed && !Overflows(w, i.a, i.b) {
        SignedQuotient(w, i.a, i.b);
        SignedRemainder(w, i.a, i.b);
      }
    }
  }

  /** Where C++ leaves the quotient undefined the hardware returns the dividend and no remainder. */
  lemma OverflowWraps(w: nat, s: State, ins: seq<Input>)
    requires w >= 2 && Shape(w, s) && Inputs(w, ins) && s.phase.Idle? && |ins| == w + 4
    requires InputShape(w, ins[0]) && ins[0].start && ins[0].signed && Overflows(w, ins[0].a, ins[0].b)
    ensures var e := Run(w, s, ins); e.phase.WaitForWb? && e.lo == ins[0].a && e.hi == 0
  {
    DivideCorrect(w, s, ins);
    DivUnique(Pow2(w - 1), 1, Pow2(w - 1), 0);
  }

  lemma WordSize()
    ensures Pow2(31) == 0x8000_0000
  {
    assert Pow2(8) == 256;
    Pow2Add(8, 8);
    Pow2Add(16, 8);
    Pow2Add(24, 7);
  }

  /** 7 / -2 in 32 bits: the hardware leaves remainder -1, the interpreter 1. */
  lemma RemainderSignExample()
    ensures Pow2(32) == 0x1_0000_0000
    ensures Remainder(32, true, 7, 0xFFFF_FFFE) == 0xFFFF_FFFF && Interpret(32, true, 7, 0xFFFF_FFFE).Written?
    ensures Interpret(32, true, 7, 0xFFFF_FFFE).hi == 1
  {
    WordSize();
  }

  // ---------------------------------------------------------------- the clocked unit

  class Divider {
    const w: nat
    var phase: Phase
    var signed: bool
    var sign: bool
    var a: nat
    var b: nat
    var core: Core
    var lo: nat
    var hi: nat
    var rob: nat

    ghost function Regs(): State
      reads this
    {
      State(phase, signed, sign, a, b, core, lo, hi, rob)
    }

    ghost predicate Valid()
      reads this
    {
      w > 0 && Shape(w, Regs())
    }

    constructor (w: nat)
      requires w > 0
      ensures Valid() && this.w == w && phase.Idle?
    {
      this.w, phase, signed, sign := w, Idle, false, false;
      a, b, core, lo, hi, rob := 0, 0, Core(0, 0, 0), 0, 0, 0;
    }

    /** ready */
    predicate Ready(start: bool)
      reads this
    {
      phase.Idle? && !start
    }

    /** One clock cycle; `complete` is raised in WAIT_FOR_WB. */
    method Clock(i: Input) returns (complete: bool)
      requires Valid() && InputShape(w, i)
      modifies this
      ensures Valid() && Regs() == Next(w, old(Regs()), i) && complete == old(phase.WaitForWb?)
    {
      ghost var s := Regs();
      NextShape(w, s, i);
      complete := phase.WaitForWb?;
      match phase {
        case Idle =>
          if i.start {
            signed, a, b, rob := i.signed, i.a, i.b, i.rob;
          }
        case InputSign =>
          sign := SignsDiffer(w, signed, a, b);
          a, b := Magnitude(w, signed, a), Magnitude(w, signed, b);
          core := Load(w, a, b, core.ss);
        case Divide(_) => core := Step(w, core);
        case PackOutput => lo, hi := core.ss, Upper(w, core.r);
        case OutputSign =>
          if signed && sign {
            lo, hi := Negate(w, lo), Negate(w, hi);
          }
        case WaitForWb =>
      }
      phase := NextPhase(w, phase, i.start);
      assert Regs() == Next(w, s, i);
    }
  }
}

/**
  The unsigned divider of arbitrary width inside the floating-point divider (unsigned_divider.sv).
 */
module UnsignedDivider {
  import opened Arithmetic
  import opened Bits
  import opened RestoringDivider

  datatype Phase = Idle | Divide(idx: nat) | PackOutput | Done

  datatype State = State(phase: Phase, core: Core, y: nat)
  datatype Input = Input(start: bool, a: nat, b: nat)

  /** One clock cycle: the operands are loaded in every idle cycle. */
  function Next(w: nat, s: State, i: Input): State
    requires w > 0
  {
    match s.phase
    case Idle => s.(phase := if i.start then Divide(w - 1) else Idle, core := Load(w, i.a, i.b, s.core.ss))
    case Divide(idx) => s.(phase := if idx == 0 then PackOutput else Divide(idx - 1), core := Step(w, s.core))
    case PackOutput => s.(phase := Done, y := s.core.ss)
    case Done => s.(phase := Idle)
  }

  function Run(w: nat, s: State, ins: seq<Input>): State
    requires w > 0
  {
    if ins == [] then s else Next(w, Run(w, s, ins[..|ins| - 1]), ins[|ins| - 1])
  }

  lemma {:induction false} DivideLoop(w: nat, s: State, ins: seq<Input>, k: nat)
    requires w > 0 && s.phase.Idle? && k <= w && |ins| == k + 1 && ins[0].start
    ensures var e := Run(w, s, ins);
            && e.core == Steps(w, Load(w, ins[0].a, ins[0].b, s.core.ss), k)
            && e.phase == if k == w then PackOutput else Divide(w - 1 - k)
    decreases k
  {
    if k == 0 {
      assert ins[..0] == [];
    } else {
      DivideLoop(w, s, ins[..|ins| - 1], k - 1);
    }
  }

  /** The quotient is presented exactly w + 2 cycles after the start, for every width. */
  lemma DivideCorrect(w: nat, s: State, ins: seq<Input>)
    requires w > 0 && s.phase.Idle? && s.core.ss < Pow2(w) && |ins| == w + 2 && ins[0].start
    requires ins[0].a < Pow2(w) && 0 < ins[0].b < Pow2(w)
    ensures var e := Run(w, s, ins); e.phase.Done? && e.y == ins[0].a / ins[0].b
  {
    DivideLoop(w, s, ins[..|ins| - 1], w);
    DivisionIsExact(w, ins[0].a, ins[0].b, s.core.ss);
  }
}
