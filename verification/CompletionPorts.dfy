/**
  Completion port 1 (exec.sv, mul.sv, divider.sv): single-cycle integer operations, the pipelined
  multiplier and the iterative divider share one port.  A shift register of reservations, r_wb_bitvec,
  decides when an operation may be selected.
 */
module IntegerPort {
  import opened MemoryTypes
  import opened Multisets
  import D = IntegerDivider

  /** Divider width, MUL_LAT, DIV32_LAT and MAX_LAT. */
  datatype Config = Config(w: nat, mul: nat, div: nat, max: nat)

  /** The reservation distance of the divider matches its state machine. */
  predicate WellFormed(c: Config) { c.w > 0 && c.mul >= 1 && c.div == c.w + 3 && c.mul + 2 < c.div <= c.max }

  datatype Kind = Alu | Mul | Div
  datatype Issue = Issue(kind: Kind, rob: nat)

  /** r_wb_bitvec; r_start_int with int_uop; the multiplier's r_complete with r_rob_ptr; the
      divider's state and r_rob_ptr. */
  datatype State = State(wb: seq<bool>, start: Option<Issue>, mul: seq<Option<nat>>, div: D.Phase, divRob: nat)

  /** `want`: the scheduler entry that is offered; `flush` is ds_done. */
  datatype Input = Input(want: Option<Issue>, flush: bool)

  ghost predicate Shape(c: Config, s: State) {
    |s.wb| == c.max + 1 && |s.mul| == c.mul + 1 && (s.div.Divide? ==> s.div.idx < c.w)
  }

  predicate Starts(s: State, i: Input, k: Kind) { s.start.Some? && s.start.value.kind == k && !i.flush }

  /** The port condition inside t_alu_entry_rdy. */
  predicate MayIssue(c: Config, s: State, i: Input, k: Kind)
    requires WellFormed(c) && Shape(c, s)
  {
    match k
    case Div => s.div.Idle? && !Starts(s, i, Div)
    case Mul => !s.wb[c.mul + 2]
    case Alu => !s.wb[1]
  }

  function Selected(c: Config, s: State, i: Input): Option<Issue>
    requires WellFormed(c) && Shape(c, s)
  {
    if i.want.Some? && MayIssue(c, s, i, i.want.value.kind) && !i.flush then i.want else None
  }

  function NextWb(c: Config, s: State, i: Input): (r: seq<bool>)
    requires WellFormed(c) && Shape(c, s)
    ensures |r| == c.max + 1
  {
    seq(c.max + 1, j requires 0 <= j <= c.max =>
      if j == c.mul && Starts(s, i, Mul) then true
      else if j == c.div then Starts(s, i, Div)
      else if j < c.max then s.wb[j + 1] else false)
  }

  function NextMul(c: Config, s: State, i: Input): (r: seq<Option<nat>>)
    requires Shape(c, s)
    ensures |r| == c.mul + 1
  {
    [if Starts(s, i, Mul) then Some(s.start.value.rob) else None] + s.mul[..c.mul]
  }

  function Next(c: Config, s: State, i: Input): State
    requires WellFormed(c) && Shape(c, s)
  {
    State(NextWb(c, s, i), Selected(c, s, i), NextMul(c, s, i), D.NextPhase(c.w, s.div, Starts(s, i, Div)),
          if s.div.Idle? && Starts(s, i, Div) then s.start.value.rob else s.divRob)
  }

  predicate AluDone(s: State) { s.start.Some? && s.start.value.kind.Alu? }
  predicate MulDone(c: Config, s: State)
    requires Shape(c, s)
  {
    s.mul[c.mul].Some?
  }
  predicate DivDone(s: State) { s.div.WaitForWb? }

  /** complete_valid_1 and complete_bundle_1.rob_ptr. */
  function Bundle(c: Config, s: State): Option<nat>
    requires Shape(c, s)
  {
    if MulDone(c, s) then s.mul[c.mul]
    else if DivDone(s) then Some(s.divRob)
    else if AluDone(s) then Some(s.start.value.rob)
    else None
  }

  // ---------------------------------------------------------------- the invariant

  /** Cycles until the divider presents its result. */
  function Remaining(c: Config, p: D.Phase): nat {
    match p
    case Idle => 0
    case InputSign => c.w + 3
    case Divide(idx) => idx + 3
    case PackOutput => 2
    case OutputSign => 1
    case WaitForWb => 0
  }

  predicate MulAt(c: Config, s: State, j: nat)
    requires Shape(c, s)
  {
    j <= c.mul && s.mul[c.mul - j].Some?
  }
  predicate DivAt(c: Config, s: State, j: nat) { !s.div.Idle? && Remaining(c, s.div) == j }

  /** Slot j is reserved exactly when one unit will complete in j cycles. */
  ghost predicate SlotInv(c: Config, s: State, j: nat)
    requires Shape(c, s) && j <= c.max
  {
    (s.wb[j] <==> MulAt(c, s, j) || DivAt(c, s, j)) && !(MulAt(c, s, j) && DivAt(c, s, j))
  }

  /** What was selected still fits. */
  ghost predicate StartInv(c: Config, s: State)
    requires WellFormed(c) && Shape(c, s)
  {
    s.start.Some? ==>
      match s.start.value.kind
      case Alu => !s.wb[0]
      case Mul => !s.wb[c.mul + 1]
      case Div => s.div.Idle?
  }

  ghost predicate Inv(c: Config, s: State) {
    WellFormed(c) && Shape(c, s) && (forall j :: 0 <= j <= c.max ==> SlotInv(c, s, j)) && StartInv(c, s)
  }

  lemma SlotKeeps(c: Config, s: State, i: Input, j: nat)
    requires Inv(c, s) && j <= c.max
    ensures Shape(c, Next(c, s, i)) && SlotInv(c, Next(c, s, i), j)
  {
    if j < c.max { assert SlotInv(c, s, j + 1); }
    assert SlotInv(c, s, c.mul + 1);
  }

  lemma StartKeeps(c: Config, s: State, i: Input)
    requires Inv(c, s)
    ensures Shape(c, Next(c, s, i)) && StartInv(c, Next(c, s, i))
  {
  }

  /** Every cycle keeps the reservations exact. */
  lemma KeepsInvariant(c: Config, s: State, i: Input)
    requires Inv(c, s)
    ensures Inv(c, Next(c, s, i))
  {
    StartKeeps(c, s, i);
    forall j | 0 <= j <= c.max ensures SlotInv(c, Next(c, s, i), j) {
      SlotKeeps(c, s, i, j);
    }
  }

  /** At most one unit completes, and r_wb_bitvec[0] announces exactly the long ones. */
  lemma OneCompletion(c: Config, s: State)
    requires Inv(c, s)
    ensures !(AluDone(s) && MulDone(c, s)) && !(AluDone(s) && DivDone(s)) && !(MulDone(c, s) && DivDone(s))
    ensures s.wb[0] <==> MulDone(c, s) || DivDone(s)
  {
    assert SlotInv(c, s, 0);
  }

  // ---------------------------------------------------------------- nothing is lost

  function Rob(o: Option<Issue>): Option<nat> { if o.Some? then Some(o.value.rob) else None }

  function DivBag(s: State): multiset<nat> { if s.div.Idle? then multiset{} else multiset{s.divRob} }

  /** The operations between selection and completion. */
  function InFlight(c: Config, s: State): multiset<nat>
    requires Shape(c, s)
  {
    Bag(Rob(s.start)) + Bags(s.mul) + DivBag(s)
  }

  /** The operation that enters unit `k` now. */
  function Enters(s: State, i: Input, k: Kind): Option<nat> {
    if Starts(s, i, k) then Some(s.start.value.rob) else None
  }

  /** A flush drops the long operation that was about to start. */
  function Dropped(s: State, i: Input): multiset<nat> {
    if s.start.Some? && !s.start.value.kind.Alu? && i.flush then multiset{s.start.value.rob} else multiset{}
  }

  lemma MulConserves(c: Config, s: State, i: Input)
    requires WellFormed(c) && Shape(c, s)
    ensures Bags(NextMul(c, s, i)) + Bag(s.mul[c.mul]) == Bags(s.mul) + Bag(Enters(s, i, Mul))
  {
    BagsFirst(Enters(s, i, Mul), s.mul[..c.mul]);
  }

  lemma DivConserves(c: Config, s: State, i: Input)
    requires WellFormed(c) && Shape(c, s) && StartInv(c, s)
    ensures DivBag(Next(c, s, i)) + (if DivDone(s) then multiset{s.divRob} else multiset{}) ==
            DivBag(s) + Bag(Enters(s, i, Div))
  {
  }

  lemma StartConserves(s: State, i: Input)
    ensures Bag(Rob(s.start)) == Bag(Enters(s, i, Mul)) + Bag(Enters(s, i, Div)) + Dropped(s, i)
                                 + (if AluDone(s) then Bag(Rob(s.start)) else multiset{})
  {
  }

  lemma BundleIsAll(c: Config, s: State)
    requires Inv(c, s)
    ensures Bag(Bundle(c, s)) == Bag(s.mul[c.mul]) + (if DivDone(s) then multiset{s.divRob} else multiset{})
                                 + (if AluDone(s) then Bag(Rob(s.start)) else multiset{})
  {
    OneCompletion(c, s);
  }

  lemma Balance(start: multiset<nat>, mul: multiset<nat>, div: multiset<nat>, sel: multiset<nat>,
                mul': multiset<nat>, div': multiset<nat>, im: multiset<nat>, id: multiset<nat>,
                om: multiset<nat>, od: multiset<nat>, oa: multiset<nat>, gone: multiset<nat>)
    requires start == im + id + gone + oa && mul' + om == mul + im && div' + od == div + id
    ensures (sel + mul' + div') + (om + od + oa) + gone == (start + mul + div) + sel
  {
    forall x: nat ensures ((sel + mul' + div') + (om + od + oa) + gone)[x] == ((start + mul + div) + sel)[x] {
      assert (mul' + om)[x] == (mul + im)[x];
      assert (div' + od)[x] == (div + id)[x];
    }
  }

  /** Conservation: what was in flight or is selected now is completed, dropped by a flush, or
      still in flight, each operation once. */
  lemma Conserves(c: Config, s: State, i: Input)
    requires Inv(c, s)
    ensures var s' := Next(c, s, i);
            Shape(c, s') &&
            InFlight(c, s') + Bag(Bundle(c, s)) + Dropped(s, i) == InFlight(c, s) + Bag(Rob(Selected(c, s, i)))
  {
    KeepsInvariant(c, s, i);
    MulConserves(c, s, i);
    DivConserves(c, s, i);
    StartConserves(s, i);
    BundleIsAll(c, s);
    var s' := Next(c, s, i);
    Balance(Bag(Rob(s.start)), Bags(s.mul), DivBag(s), Bag(Rob(Selected(c, s, i))), Bags(s'.mul), DivBag(s'),
            Bag(Enters(s, i, Mul)), Bag(Enters(s, i, Div)), Bag(s.mul[c.mul]),
            if DivDone(s) then multiset{s.divRob} else multiset{},
            if AluDone(s) then Bag(Rob(s.start)) else multiset{}, Dropped(s, i));
  }

  // ---------------------------------------------------------------- runs

  ghost predicate Reset(c: Config, s: State) {
    && Shape(c, s) && s.start.None? && s.div.Idle?
    && (forall j :: 0 <= j < |s.wb| ==> !s.wb[j]) && (forall j :: 0 <= j < |s.mul| ==> s.mul[j].None?)
  }

  function Run(c: Config, s: State, ins: seq<Input>): (e: State)
    requires Shape(c, s) && WellFormed(c)
    ensures Shape(c, e)
    decreases |ins|
  {
    if ins == [] then s else Run(c, Next(c, s, ins[0]), ins[1..])
  }

  lemma {:induction false} RunKeepsInvariant(c: Config, s: State, ins: seq<Input>)
    requires Inv(c, s)
    ensures Inv(c, Run(c, s, ins))
    decreases |ins|
  {
    if ins != [] {
      KeepsInvariant(c, s, ins[0]);
      RunKeepsInvariant(c, Next(c, s, ins[0]), ins[1..]);
    }
  }

  /** On every cycle of every run at most one of ALU, multiplier and divider completes on port 1. */
  lemma NeverCollides(c: Config, s: State, ins: seq<Input>)
    requires WellFormed(c) && Reset(c, s)
    ensures var e := Run(c, s, ins);
            !(AluDone(e) && MulDone(c, e)) && !(AluDone(e) && DivDone(e)) && !(MulDone(c, e) && DivDone(e))
  {
    assert Inv(c, s);
    RunKeepsInvariant(c, s, ins);
    OneCompletion(c, Run(c, s, ins));
  }

  /** The operations selected, and the ones that left the port, in a run. */
  function SelectedIn(c: Config, s: State, ins: seq<Input>): multiset<nat>
    requires WellFormed(c) && Shape(c, s)
    decreases |ins|
  {
    if ins == [] then multiset{}
    else Bag(Rob(Selected(c, s, ins[0]))) + SelectedIn(c, Next(c, s, ins[0]), ins[1..])
  }
  function LeftIn(c: Config, s: State, ins: seq<Input>): multiset<nat>
    requires WellFormed(c) && Shape(c, s)
    decreases |ins|
  {
    if ins == [] then multiset{}
    else Bag(Bundle(c, s)) + Dropped(s, ins[0]) + LeftIn(c, Next(c, s, ins[0]), ins[1..])
  }

  /** In every run each selected operation is reported once, dropped by a flush before it started,
      or still in flight. */
  lemma {:induction false} RunConserves(c: Config, s: State, ins: seq<Input>)
    requires Inv(c, s)
    ensures InFlight(c, Run(c, s, ins)) + LeftIn(c, s, ins) == InFlight(c, s) + SelectedIn(c, s, ins)
    decreases |ins|
  {
    if ins != [] {
      var s', i, rest := Next(c, s, ins[0]), ins[0], ins[1..];
      KeepsInvariant(c, s, i);
      Conserves(c, s, i);
      RunConserves(c, s', rest);
      Chain(InFlight(c, s), InFlight(c, s'), InFlight(c, Run(c, s', rest)),
            Bag(Bundle(c, s)) + Dropped(s, i), LeftIn(c, s', rest),
            Bag(Rob(Selected(c, s, i))), SelectedIn(c, s', rest));
    }
  }

  /** The port as a clocked object. */
  class Port {
    const c: Config
    var regs: State

    ghost predicate Valid()
      reads this
    {
      Inv(c, regs)
    }

    constructor (c: Config, reset: State)
      requires WellFormed(c) && Reset(c, reset)
      ensures Valid() && this.c == c && regs == reset
    {
      this.c, this.regs := c, reset;
    }

    /** One clock cycle; `bundle` names the one operation that completes, if any. */
    method Clock(i: Input) returns (bundle: Option<nat>)
      requires Valid()
      modifies this
      ensures Valid() && regs == Next(c, old(regs), i) && bundle == Bundle(c, old(regs))
      ensures InFlight(c, regs) + Bag(bundle) + Dropped(old(regs), i) ==
              InFlight(c, old(regs)) + Bag(Rob(Selected(c, old(regs), i)))
    {
      KeepsInvariant(c, regs, i);
      Conserves(c, regs, i);
      bundle := Bundle(c, regs);
      regs := Next(c, regs, i);
    }
  }

  /** machine.vh's latencies fit the 32-bit divider. */
  lemma MachineConfig()
    ensures WellFormed(Config(32, 2, 35, 67))
  {
  }
}

/**
  Completion port 2 (exec.sv, fpu.sv, fp_div.sv): FP moves and conversions, the FPU pipeline with its
  comparisons, and the two iterative FP dividers share one port.
 */
module FloatPort {
  import opened MemoryTypes
  import opened Multisets
  import D = FloatDivide

  /** FPU_LAT and FP_MAX_LAT. */
  datatype Config = Config(lat: nat, max: nat)
  predicate WellFormed(c: Config) { 1 <= c.lat <= c.max }

  datatype Kind = Move | Pipe(compare: bool) | SpDiv | DpDiv
  datatype Uop = Uop(kind: Kind, rob: nat)

  /** fp_div: its state, r_active, r_valid and r_rob_ptr. */
  datatype FpDiv = FpDiv(phase: D.Phase, active: bool, valid: bool, rob: nat)

  /** r_fp_wb_bitvec, the FPU's r_val with its operations, and the two dividers. */
  datatype State = State(wb: seq<bool>, val: seq<Option<Uop>>, sp: FpDiv, dp: FpDiv)

  /** The head of the FP queue once its sources are ready; ds_done; for each divider, whether its
      mantissa divider completes and whether the quotient has its leading one. */
  datatype Input = Input(uop: Option<Uop>, flush: bool, spDone: bool, spLead: bool, dpDone: bool, dpLead: bool)

  ghost predicate Shape(c: Config, s: State) { |s.wb| == c.max + 1 && |s.val| == c.lat }

  /** t_fp_div_active */
  predicate DivActive(s: State) { s.sp.active || s.dp.active || s.sp.valid || s.dp.valid }

  predicate NoneReserved(s: State) { forall j :: 0 <= j < |s.wb| ==> !s.wb[j] }

  /** t_fp_wr_prf, t_start_fpu, t_start_sp_div and t_start_dp_div: none of them looks at ds_done. */
  predicate Moves(s: State, i: Input)
    requires |s.wb| > 0
  {
    i.uop.Some? && i.uop.value.kind.Move? && !DivActive(s) && !s.wb[0]
  }
  predicate StartsPipe(s: State, i: Input) { i.uop.Some? && i.uop.value.kind.Pipe? && !DivActive(s) }
  predicate StartsSp(s: State, i: Input) {
    i.uop.Some? && i.uop.value.kind.SpDiv? && NoneReserved(s) && !DivActive(s)
  }
  predicate StartsDp(s: State, i: Input) {
    i.uop.Some? && i.uop.value.kind.DpDiv? && NoneReserved(s) && !DivActive(s)
  }

  /** The FPU's start needs t_pop_fp_uq too, which ds_done holds low. */
  predicate EntersPipe(s: State, i: Input) { StartsPipe(s, i) && !i.flush }

  function NextDiv(d: FpDiv, start: Option<nat>, done: bool, lead: bool): FpDiv {
    match d.phase
    case Idle => if start.Some? then FpDiv(D.ComputeExp, true, false, start.value) else d.(valid := false)
    case ComputeExp => d.(phase := D.WaitForDivide, valid := false)
    case WaitForDivide =>
      d.(phase := if !done then D.WaitForDivide else if lead then D.Round else D.Normalize, valid := false)
    case Normalize => d.(phase := D.Round, valid := false)
    case Round => d.(phase := D.Done, valid := true)
    case Done => d.(phase := D.Idle, active := false, valid := false)
  }

  function RobIf(b: bool, i: Input): Option<nat>
    requires b ==> i.uop.Some?
  {
    if b then Some(i.uop.value.rob) else None
  }

  /** The reservation is made by t_start_fpu alone. */
  function NextWb(c: Config, s: State, i: Input): (r: seq<bool>)
    requires WellFormed(c) && Shape(c, s)
    ensures |r| == c.max + 1
  {
    seq(c.max + 1, j requires 0 <= j <= c.max =>
      if j == c.lat - 1 then StartsPipe(s, i) else if j < c.max then s.wb[j + 1] else false)
  }

  function Next(c: Config, s: State, i: Input): State
    requires WellFormed(c) && Shape(c, s)
  {
    State(
      NextWb(c, s, i),
      s.val[1..] + [if EntersPipe(s, i) then i.uop else None],
      NextDiv(s.sp, RobIf(StartsSp(s, i), i), i.spDone, i.spLead),
      NextDiv(s.dp, RobIf(StartsDp(s, i), i), i.dpDone, i.dpLead))
  }

  /** t_fpu_result_valid and t_fpu_fcr_valid. */
  predicate PipeDone(s: State, compare: bool)
    requires |s.val| > 0
  {
    s.val[0].Some? && s.val[0].value.kind == Pipe(compare)
  }

  /** The writeback count that exec.sv checks against one. */
  function Writebacks(s: State, i: Input): nat
    requires |s.wb| > 0 && |s.val| > 0
  {
    (if Moves(s, i) then 1 else 0) + (if PipeDone(s, false) then 1 else 0) + (if PipeDone(s, true) then 1 else 0)
    + (if s.sp.valid then 1 else 0) + (if s.dp.valid then 1 else 0)
  }

  /** complete_valid_2 and complete_bundle_2.rob_ptr. */
  function Bundle(s: State, i: Input): Option<nat>
    requires |s.wb| > 0 && |s.val| > 0
  {
    if PipeDone(s, false) || PipeDone(s, true) then Rob(s.val[0])
    else if s.sp.valid then Some(s.sp.rob)
    else if s.dp.valid then Some(s.dp.rob)
    else RobIf(Moves(s, i), i)
  }

  // ---------------------------------------------------------------- the invariant

  ghost predicate DivInv(d: FpDiv) { (d.active <==> !d.phase.Idle?) && (d.valid <==> d.phase.Done?) }

  ghost predicate PipeEmpty(s: State) { forall j :: 0 <= j < |s.val| ==> s.val[j].None? }

  /** Every operation in the FPU pipeline has its reservation. */
  ghost predicate PipeInv(c: Config, s: State)
    requires WellFormed(c) && Shape(c, s)
  {
    forall j :: 0 <= j < c.lat && s.val[j].Some? ==> s.wb[j] && s.val[j].value.kind.Pipe?
  }

  /** Every operation has its reservation, and a divider at work has the port to itself. */
  ghost predicate Inv(c: Config, s: State) {
    && WellFormed(c) && Shape(c, s) && DivInv(s.sp) && DivInv(s.dp) && PipeInv(c, s)
    && (s.sp.active || s.dp.active ==> PipeEmpty(s))
    && !(s.sp.active && s.dp.active)
  }

  lemma NextPipe(c: Config, s: State, i: Input)
    requires WellFormed(c) && Shape(c, s) && PipeInv(c, s)
    ensures Shape(c, Next(c, s, i)) && PipeInv(c, Next(c, s, i))
    ensures PipeEmpty(s) && !StartsPipe(s, i) ==> PipeEmpty(Next(c, s, i))
  {
  }

  lemma KeepsInvariant(c: Config, s: State, i: Input)
    requires Inv(c, s)
    ensures Inv(c, Next(c, s, i))
  {
    NextPipe(c, s, i);
    if NoneReserved(s) {
      forall j | 0 <= j < c.lat ensures s.val[j].None? { assert !s.wb[j]; }
    }
  }

  /** A reservation made in this cycle has no operation exactly when a flush arrives with the start:
      the reservation vector does not see the flush, the FPU does. */
  lemma OrphanReservation(c: Config, s: State, i: Input)
    requires WellFormed(c) && Shape(c, s)
    ensures var s' := Next(c, s, i);
            s'.wb[c.lat - 1] && s'.val[c.lat - 1].None? <==> StartsPipe(s, i) && i.flush
  {
  }

  /** At most one of FP move, FPU result, comparison and FP divide writes back. */
  lemma OneWriteback(c: Config, s: State, i: Input)
    requires Inv(c, s)
    ensures Writebacks(s, i) <= 1
  {
    if s.val[0].Some? { assert s.wb[0]; }
  }

  // ---------------------------------------------------------------- nothing is lost

  function Rob(o: Option<Uop>): Option<nat> { if o.Some? then Some(o.value.rob) else None }

  function Robs(q: seq<Option<Uop>>): (r: seq<Option<nat>>)
    ensures |r| == |q|
  {
    seq(|q|, j requires 0 <= j < |q| => Rob(q[j]))
  }

  function DivBag(d: FpDiv): multiset<nat> { if d.phase.Idle? then multiset{} else multiset{d.rob} }
  function DivOut(d: FpDiv): multiset<nat> { if d.valid then multiset{d.rob} else multiset{} }

  /** The operations between start and completion. */
  function InFlight(s: State): multiset<nat> { Bags(Robs(s.val)) + DivBag(s.sp) + DivBag(s.dp) }

  /** The operation that the queue's head starts or performs in this cycle. */
  function Begun(s: State, i: Input): multiset<nat>
    requires |s.wb| > 0
  {
    Bag(RobIf(Moves(s, i), i)) + Bag(RobIf(EntersPipe(s, i), i))
    + Bag(RobIf(StartsSp(s, i), i)) + Bag(RobIf(StartsDp(s, i), i))
  }

  lemma PipeConserves(c: Config, s: State, i: Input)
    requires WellFormed(c) && Shape(c, s)
    ensures Bags(Robs(Next(c, s, i).val)) + Bag(Rob(s.val[0])) == Bags(Robs(s.val)) + Bag(RobIf(EntersPipe(s, i), i))
  {
    var rest, last := Robs(s.val[1..]), RobIf(EntersPipe(s, i), i);
    assert Robs(s.val) == [Rob(s.val[0])] + rest;
    assert Robs(Next(c, s, i).val) == rest + [last];
    BagsShift(Rob(s.val[0]), rest, last);
  }

  lemma DivConserves(d: FpDiv, start: Option<nat>, done: bool, lead: bool)
    requires DivInv(d) && (start.Some? ==> d.phase.Idle?)
    ensures DivBag(NextDiv(d, start, done, lead)) + DivOut(d) == DivBag(d) + Bag(start)
  {
  }

  lemma DivsConserve(c: Config, s: State, i: Input)
    requires Inv(c, s)
    ensures DivBag(Next(c, s, i).sp) + DivOut(s.sp) == DivBag(s.sp) + Bag(RobIf(StartsSp(s, i), i))
    ensures DivBag(Next(c, s, i).dp) + DivOut(s.dp) == DivBag(s.dp) + Bag(RobIf(StartsDp(s, i), i))
  {
    DivConserves(s.sp, RobIf(StartsSp(s, i), i), i.spDone, i.spLead);
    DivConserves(s.dp, RobIf(StartsDp(s, i), i), i.dpDone, i.dpLead);
  }

  lemma BundleIsAll(c: Config, s: State, i: Input)
    requires Inv(c, s)
    ensures Bag(Bundle(s, i)) == Bag(Rob(s.val[0])) + DivOut(s.sp) + DivOut(s.dp) + Bag(RobIf(Moves(s, i), i))
  {
    OneWriteback(c, s, i);
    if s.val[0].Some? { assert PipeDone(s, s.val[0].value.kind.compare); }
  }

  lemma Balance(pipe: multiset<nat>, sp: multiset<nat>, dp: multiset<nat>,
                pipe': multiset<nat>, sp': multiset<nat>, dp': multiset<nat>,
                ip: multiset<nat>, isp: multiset<nat>, idp: multiset<nat>,
                op: multiset<nat>, osp: multiset<nat>, odp: multiset<nat>, moved: multiset<nat>)
    requires pipe' + op == pipe + ip && sp' + osp == sp + isp && dp' + odp == dp + idp
    ensures (pipe' + sp' + dp') + (op + osp + odp + moved) == (pipe + sp + dp) + (moved + ip + isp + idp)
  {
    forall x: nat
      ensures ((pipe' + sp' + dp') + (op + osp + odp + moved))[x] == ((pipe + sp + dp) + (moved + ip + isp + idp))[x]
    {
      assert (pipe' + op)[x] == (pipe + ip)[x];
      assert (sp' + osp)[x] == (sp + isp)[x];
      assert (dp' + odp)[x] == (dp + idp)[x];
    }
  }

  /** Conservation: what was in flight or begins now is completed or still in flight, each once; an
      operation that a flush keeps out of the FPU never begins, although its reservation is made. */
  lemma Conserves(c: Config, s: State, i: Input)
    requires Inv(c, s)
    ensures InFlight(Next(c, s, i)) + Bag(Bundle(s, i)) == InFlight(s) + Begun(s, i)
  {
    var s' := Next(c, s, i);
    var sp, dp := RobIf(StartsSp(s, i), i), RobIf(StartsDp(s, i), i);
    PipeConserves(c, s, i);
    DivsConserve(c, s, i);
    BundleIsAll(c, s, i);
    Balance(Bags(Robs(s.val)), DivBag(s.sp), DivBag(s.dp), Bags(Robs(s'.val)), DivBag(s'.sp), DivBag(s'.dp),
            Bag(RobIf(EntersPipe(s, i), i)), Bag(sp), Bag(dp), Bag(Rob(s.val[0])), DivOut(s.sp), DivOut(s.dp),
            Bag(RobIf(Moves(s, i), i)));
  }

  /** t_pop_fp_uq: without a flush exactly the popped head begins, with one nothing enters the FPU. */
  predicate Pops(s: State, i: Input)
    requires |s.wb| > 0
  {
    && i.uop.Some? && !i.flush && !DivActive(s)
    && (i.uop.value.kind.Move? ==> !s.wb[0])
    && (i.uop.value.kind.SpDiv? || i.uop.value.kind.DpDiv? ==> NoneReserved(s))
  }

  lemma PoppedBegins(s: State, i: Input)
    requires |s.wb| > 0 && !i.flush
    ensures Begun(s, i) == Bag(RobIf(Pops(s, i), i))
  {
  }

  // ---------------------------------------------------------------- runs

  ghost predicate Reset(c: Config, s: State) {
    && Shape(c, s) && NoneReserved(s) && PipeEmpty(s)
    && s.sp.phase.Idle? && s.dp.phase.Idle? && !DivActive(s)
  }

  function Run(c: Config, s: State, ins: seq<Input>): (e: State)
    requires WellFormed(c) && Shape(c, s)
    ensures Shape(c, e)
    decreases |ins|
  {
    if ins == [] then s else Run(c, Next(c, s, ins[0]), ins[1..])
  }

  lemma {:induction false} RunKeepsInvariant(c: Config, s: State, ins: seq<Input>)
    requires Inv(c, s)
    ensures Inv(c, Run(c, s, ins))
    decreases |ins|
  {
    if ins != [] {
      KeepsInvariant(c, s, ins[0]);
      RunKeepsInvariant(c, Next(c, s, ins[0]), ins[1..]);
    }
  }

  /** On every cycle of every run the writeback count that stops the simulation above one is at
      most one. */
  lemma NeverCollides(c: Config, s: State, ins: seq<Input>, i: Input)
    requires WellFormed(c) && Reset(c, s)
    ensures Writebacks(Run(c, s, ins), i) <= 1
  {
    RunKeepsInvariant(c, s, ins);
    OneWriteback(c, Run(c, s, ins), i);
  }

  /** The operations begun, and the ones reported on the port, in a run. */
  function BegunIn(c: Config, s: State, ins: seq<Input>): multiset<nat>
    requires WellFormed(c) && Shape(c, s)
    decreases |ins|
  {
    if ins == [] then multiset{} else Begun(s, ins[0]) + BegunIn(c, Next(c, s, ins[0]), ins[1..])
  }
  function ReportedIn(c: Config, s: State, ins: seq<Input>): multiset<nat>
    requires WellFormed(c) && Shape(c, s)
    decreases |ins|
  {
    if ins == [] then multiset{} else Bag(Bundle(s, ins[0])) + ReportedIn(c, Next(c, s, ins[0]), ins[1..])
  }

  /** In every run, with flushes in any cycle, each operation that begins is reported once or still in
      flight, and nothing else is reported. */
  lemma {:induction false} RunConserves(c: Config, s: State, ins: seq<Input>)
    requires Inv(c, s)
    ensures InFlight(Run(c, s, ins)) + ReportedIn(c, s, ins) == InFlight(s) + BegunIn(c, s, ins)
    decreases |ins|
  {
    if ins != [] {
      var s', i, rest := Next(c, s, ins[0]), ins[0], ins[1..];
      KeepsInvariant(c, s, i);
      Conserves(c, s, i);
      RunConserves(c, s', rest);
      Chain(InFlight(s), InFlight(s'), InFlight(Run(c, s', rest)),
            Bag(Bundle(s, i)), ReportedIn(c, s', rest), Begun(s, i), BegunIn(c, s', rest));
    }
  }

  /** The port as a clocked object. */
  class Port {
    const c: Config
    var regs: State

    ghost predicate Valid()
      reads this
    {
      Inv(c, regs)
    }

    constructor (c: Config, reset: State)
      requires WellFormed(c) && Reset(c, reset)
      ensures Valid() && this.c == c && regs == reset
    {
      this.c, this.regs := c, reset;
    }

    /** One clock cycle; `bundle` names the one operation that completes, if any. */
    method Clock(i: Input) returns (bundle: Option<nat>)
      requires Valid()
      modifies this
      ensures Valid() && regs == Next(c, old(regs), i) && bundle == Bundle(old(regs), i)
      ensures Writebacks(old(regs), i) == if bundle.Some? then 1 else 0
      ensures InFlight(regs) + Bag(bundle) == InFlight(old(regs)) + Begun(old(regs), i)
    {
      KeepsInvariant(c, regs, i);
      Conserves(c, regs, i);
      OneWriteback(c, regs, i);
      bundle := Bundle(regs, i);
      regs := Next(c, regs, i);
    }
  }
}
