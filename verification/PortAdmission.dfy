/**
  When an integer operation gets onto completion port 1 (exec.sv): exactly when the units in flight leave its
  completion slot free, and after a bounded wait.  The scheduler's selection and the port are then one machine.
 */
module PortAdmission {
  import opened MemoryTypes
  import opened Bits
  import opened Multisets
  import opened IntegerPort
  import W = Wakeup

  // ---------------------------------------------------------------- when an operation is selected

  /** The units leave room for an operation of kind k that is selected now: a division needs the divider, a
      multiplication must not end together with the division in progress, and a single-cycle operation must not
      meet the multiplier or the divider in the next cycle. */
  ghost predicate UnitsFree(c: Config, s: State, i: Input, k: Kind)
    requires Shape(c, s)
  {
    match k
    case Div => s.div.Idle? && !(s.start.Some? && s.start.value.kind.Div? && !i.flush)
    case Mul => !DivAt(c, s, c.mul + 2)
    case Alu => !MulAt(c, s, 1) && !DivAt(c, s, 1)
  }

  lemma MayIssueExactly(c: Config, s: State, i: Input, k: Kind)
    requires Inv(c, s)
    ensures MayIssue(c, s, i, k) <==> UnitsFree(c, s, i, k)
  {
    assert SlotInv(c, s, 1);
    assert SlotInv(c, s, c.mul + 2);
  }

  /** An offered operation is selected exactly when no flush comes and the units leave room for it. */
  lemma SelectedExactly(c: Config, s: State, i: Input)
    requires Inv(c, s) && i.want.Some?
    ensures Selected(c, s, i) == if !i.flush && UnitsFree(c, s, i, i.want.value.kind) then i.want else None
  {
    MayIssueExactly(c, s, i, i.want.value.kind);
  }

  // ---------------------------------------------------------------- the wait

  /** The same operation is offered in every cycle, and nothing is flushed. */
  ghost predicate Held(ins: seq<Input>, x: Issue) { forall k :: 0 <= k < |ins| ==> ins[k] == Input(Some(x), false) }

  /** x is selected after exactly n cycles in which it is refused. */
  ghost predicate SelectedAfter(c: Config, s: State, ins: seq<Input>, x: Issue, n: nat)
    requires WellFormed(c) && Shape(c, s)
    decreases |ins|
  {
    ins != [] &&
    (if n == 0 then Selected(c, s, ins[0]) == Some(x)
     else Selected(c, s, ins[0]).None? && SelectedAfter(c, Next(c, s, ins[0]), ins[1..], x, n - 1))
  }

  /** Cycles until the divider is free again. */
  function DivWait(c: Config, s: State): nat {
    if s.start.Some? && s.start.value.kind.Div? then c.w + 5
    else if s.div.Idle? then 0
    else Remaining(c, s.div) + 1
  }

  lemma DivBlocked(c: Config, s: State, i: Input)
    requires Inv(c, s) && i.want.Some? && i.want.value.kind.Div? && !i.flush
    ensures Selected(c, s, i).Some? <==> DivWait(c, s) == 0
    ensures Selected(c, s, i).None? ==> DivWait(c, Next(c, s, i)) == DivWait(c, s) - 1
  {
  }

  lemma {:induction false} DivisionWaits(c: Config, s: State, ins: seq<Input>, x: Issue)
    requires Inv(c, s) && x.kind.Div? && Held(ins, x) && |ins| > DivWait(c, s)
    ensures SelectedAfter(c, s, ins, x, DivWait(c, s))
    decreases |ins|
  {
    DivBlocked(c, s, ins[0]);
    if DivWait(c, s) > 0 {
      KeepsInvariant(c, s, ins[0]);
      DivisionWaits(c, Next(c, s, ins[0]), ins[1..], x);
    }
  }

  lemma MulBlocked(c: Config, s: State, i: Input)
    requires Inv(c, s) && i.want.Some? && i.want.value.kind.Mul? && !i.flush && Selected(c, s, i).None?
    ensures var s' := Next(c, s, i); Inv(c, s') && UnitsFree(c, s', i, Mul)
  {
    SelectedExactly(c, s, i);
    KeepsInvariant(c, s, i);
  }

  lemma MultiplicationWaits(c: Config, s: State, ins: seq<Input>, x: Issue)
    requires Inv(c, s) && x.kind.Mul? && Held(ins, x) && |ins| > 1
    ensures exists n: nat :: n <= 1 && SelectedAfter(c, s, ins, x, n)
  {
    if Selected(c, s, ins[0]).None? {
      MulBlocked(c, s, ins[0]);
      SelectedExactly(c, Next(c, s, ins[0]), ins[1]);
      assert SelectedAfter(c, Next(c, s, ins[0]), ins[1..], x, 0);
      assert SelectedAfter(c, s, ins, x, 1);
    } else {
      assert SelectedAfter(c, s, ins, x, 0);
    }
  }

  /** Operations that can keep the next completion slot taken: those in flight, and one more cycle if none
      completes now. */
  function AluWait(c: Config, s: State): nat
    requires Shape(c, s)
  {
    |InFlight(c, s)| + if Bundle(c, s).Some? then 0 else 1
  }

  lemma RefusedMeetsUnit(c: Config, s: State, i: Input, s': State)
    requires Inv(c, s) && i.want.Some? && i.want.value.kind.Alu? && !i.flush && Selected(c, s, i).None?
    requires s' == Next(c, s, i) && Shape(c, s')
    ensures Bundle(c, s').Some?
  {
    SelectedExactly(c, s, i);
    if MulAt(c, s, 1) {
      assert MulDone(c, s');
    } else {
      assert DivDone(s');
    }
  }

  lemma FlightShrinks(c: Config, s: State, i: Input)
    requires Inv(c, s) && !i.flush && Selected(c, s, i).None?
    ensures var s' := Next(c, s, i);
            Shape(c, s') && |InFlight(c, s')| == |InFlight(c, s)| - if Bundle(c, s).Some? then 1 else 0
  {
    Conserves(c, s, i);
    Sizes(InFlight(c, Next(c, s, i)), Bag(Bundle(c, s)), Dropped(s, i), InFlight(c, s), Bag(Rob(Selected(c, s, i))));
  }

  lemma Sizes(a: multiset<nat>, b: multiset<nat>, gone: multiset<nat>, d: multiset<nat>, e: multiset<nat>)
    requires (a + b) + gone == d + e && |gone| == |e| == 0
    ensures |a| == |d| - |b|
  {
    assert |(a + b) + gone| == |a| + |b| + |gone|;
    assert |d + e| == |d| + |e|;
  }

  /** While a single-cycle operation is refused, something completes in each following cycle. */
  lemma AluBlocked(c: Config, s: State, i: Input)
    requires Inv(c, s) && i.want.Some? && i.want.value.kind.Alu? && !i.flush && Selected(c, s, i).None?
    ensures var s' := Next(c, s, i); Inv(c, s') && AluWait(c, s') < AluWait(c, s)
  {
    KeepsInvariant(c, s, i);
    RefusedMeetsUnit(c, s, i, Next(c, s, i));
    FlightShrinks(c, s, i);
  }

  lemma {:induction false} SingleCycleWaits(c: Config, s: State, ins: seq<Input>, x: Issue) returns (n: nat)
    requires Inv(c, s) && x.kind.Alu? && Held(ins, x) && |ins| > AluWait(c, s)
    ensures n <= AluWait(c, s) && SelectedAfter(c, s, ins, x, n)
    decreases |ins|
  {
    if Selected(c, s, ins[0]).None? {
      AluBlocked(c, s, ins[0]);
      var m := SingleCycleWaits(c, Next(c, s, ins[0]), ins[1..], x);
      n := m + 1;
    } else {
      n := 0;
    }
  }

  lemma {:induction false} BagsSize(q: seq<Option<nat>>)
    ensures |Bags(q)| <= |q|
  {
    if q != [] { BagsSize(q[..|q| - 1]); }
  }

  lemma FlightSize(c: Config, s: State)
    requires Shape(c, s)
    ensures |InFlight(c, s)| <= c.mul + 3
  {
    BagsSize(s.mul);
  }

  /** The longest wait of each kind. */
  function Longest(c: Config, k: Kind): nat {
    match k
    case Div => c.w + 5
    case Mul => 1
    case Alu => c.mul + 4
  }

  /** In every reachable state an operation that is offered long enough without a flush is selected, within a
      bound that depends on its kind alone. */
  lemma OfferedIsSelected(c: Config, r: State, before: seq<Input>, ins: seq<Input>, x: Issue)
    requires WellFormed(c) && Reset(c, r) && Held(ins, x) && |ins| > Longest(c, x.kind)
    ensures exists n: nat :: n <= Longest(c, x.kind) && SelectedAfter(c, Run(c, r, before), ins, x, n)
  {
    var s := Run(c, r, before);
    assert Inv(c, r);
    RunKeepsInvariant(c, r, before);
    match x.kind
    case Div =>
      DivisionWaits(c, s, ins, x);
    case Mul =>
      MultiplicationWaits(c, s, ins, x);
    case Alu =>
      FlightSize(c, s);
      var n := SingleCycleWaits(c, s, ins, x);
  }

  // ---------------------------------------------------------------- the scheduler and the port as one machine

  /** How the port sees a uop: which unit executes it, and its ROB index. */
  type View = W.Uop -> Issue

  function Seen(v: View, u: Option<W.Uop>): Option<Issue> { if u.Some? then Some(v(u.value)) else None }

  /** The scheduler's inputs come from the port: the port bit of an entry is the condition of its unit. */
  ghost predicate PortsFrom(c: Config, p: State, pi: Input, lg: nat, s: W.State, i: W.Input, v: View)
    requires WellFormed(c) && Shape(c, p) && W.Shape(lg, s) && W.InputShape(lg, i)
  {
    && i.flush == pi.flush
    && (forall k :: 0 <= k < Pow2(lg) && s.valid[k] ==> (i.port[k] <==> MayIssue(c, p, pi, v(s.uops[k]).kind)))
  }

  /** The port is offered what the scheduler selects. */
  ghost predicate OffersChosen(pi: Input, lg: nat, s: W.State, i: W.Input, v: View)
    requires W.Inv(lg, s) && W.InputShape(lg, i) && W.OnePort(s, i)
  {
    var k := W.Chosen(lg, s, i);
    (k.Some? ==> k.value < |s.uops|) && pi.want == (if k.Some? then Some(v(s.uops[k.value])) else None)
  }

  /** An entry requests exactly when it waits, its sources are stored, and the units in flight leave its
      completion slot free. */
  lemma RequestsExactly(c: Config, p: State, pi: Input, lg: nat, s: W.State, i: W.Input, v: View, k: nat)
    requires Inv(c, p) && W.Inv(lg, s) && W.InputShape(lg, i) && W.OnePort(s, i)
    requires PortsFrom(c, p, pi, lg, s, i, v) && k < Pow2(lg)
    ensures W.EntryReady(s, i, k) <==>
            s.valid[k] && UnitsFree(c, p, pi, v(s.uops[k]).kind) && W.AllWritten(s, i, s.uops[k])
  {
    W.RequestsExactlyWhenReady(lg, s, i, k);
    MayIssueExactly(c, p, pi, v(s.uops[k]).kind);
  }

  /** The port takes exactly what the scheduler starts: the uop that executes is the same in both. */
  lemma StartsTogether(c: Config, p: State, pi: Input, lg: nat, s: W.State, i: W.Input, v: View)
    requires Inv(c, p) && W.Inv(lg, s) && W.InputShape(lg, i) && W.OnePort(s, i) && W.NoReuse(lg, s, i)
    requires PortsFrom(c, p, pi, lg, s, i, v) && OffersChosen(pi, lg, s, i, v)
    ensures var p', s' := Next(c, p, pi), W.Next(lg, s, i);
            Inv(c, p') && W.Inv(lg, s') && p'.start == Seen(v, s'.start)
  {
    KeepsInvariant(c, p, pi);
    W.KeepsInvariant(lg, s, i);
    if i.flush {
      W.FlushClears(lg, s, i);
    } else {
      W.StartIsChosen(lg, s, i);
      if W.Chosen(lg, s, i).Some? { W.SelectedIsReady(lg, s, i); }
    }
  }
}

/**
  When an FP operation gets onto completion port 2 (exec.sv): exactly when no FP divider is at work and its
  completion slot is not reserved, and after a bounded wait.
 */
module FloatAdmission {
  import opened MemoryTypes
  import opened FloatPort
  import D = FloatDivide

  predicate DividersIdle(s: State) { s.sp.phase.Idle? && s.dp.phase.Idle? }

  /** The operation at the queue head begins. */
  predicate Begins(s: State, i: Input)
    requires |s.wb| > 0
  {
    Moves(s, i) || EntersPipe(s, i) || StartsSp(s, i) || StartsDp(s, i)
  }

  /** With no divider at work, an FPU operation begins unless a flush comes, a move unless a result is due now, and a
      division once no result is due at all. */
  lemma BeginsExactly(c: Config, s: State, i: Input)
    requires Inv(c, s) && i.uop.Some?
    ensures Begins(s, i) <==>
            DividersIdle(s) &&
            match i.uop.value.kind
            case Move => !s.wb[0]
            case Pipe(_) => !i.flush
            case SpDiv => NoneReserved(s)
            case DpDiv => NoneReserved(s)
  {
  }

  // ---------------------------------------------------------------- the wait

  function DivLeft(d: FpDiv): nat {
    match d.phase
    case Idle => 0
    case ComputeExp => 5
    case WaitForDivide => 4
    case Normalize => 3
    case Round => 2
    case Done => 1
  }

  /** One more than the highest reserved slot. */
  function Top(wb: seq<bool>): (n: nat)
    ensures n <= |wb|
  {
    if wb == [] then 0 else if wb[|wb| - 1] then |wb| else Top(wb[..|wb| - 1])
  }

  lemma {:induction false} TopZero(wb: seq<bool>)
    ensures Top(wb) == 0 <==> forall j :: 0 <= j < |wb| ==> !wb[j]
  {
    if wb != [] { TopZero(wb[..|wb| - 1]); }
  }

  lemma {:induction false} TopAtMost(wb: seq<bool>, n: nat)
    requires forall j :: n <= j < |wb| ==> !wb[j]
    ensures Top(wb) <= n
  {
    if wb != [] && !wb[|wb| - 1] { TopAtMost(wb[..|wb| - 1], n); }
  }

  lemma {:induction false} AboveTop(wb: seq<bool>, j: nat)
    requires Top(wb) <= j < |wb|
    ensures !wb[j]
  {
    if j < |wb| - 1 { AboveTop(wb[..|wb| - 1], j); }
  }

  /** Reservations that move down by one slot, if they do not end. */
  lemma TopFalls(wb: seq<bool>, wb': seq<bool>)
    requires |wb'| == |wb| && forall j :: 0 <= j < |wb| && wb'[j] ==> j + 1 < |wb| && wb[j + 1]
    ensures Top(wb') <= if Top(wb) > 0 then Top(wb) - 1 else 0
  {
    var n := if Top(wb) > 0 then Top(wb) - 1 else 0;
    forall j | n <= j < |wb'| ensures !wb'[j] {
      if j + 1 < |wb| { AboveTop(wb, j + 1); }
    }
    TopAtMost(wb', n);
  }

  /** A mantissa divider has not finished. */
  predicate Waits(s: State, i: Input) {
    (s.sp.phase.WaitForDivide? && !i.spDone) || (s.dp.phase.WaitForDivide? && !i.dpDone)
  }

  function Rank(s: State): nat { DivLeft(s.sp) + DivLeft(s.dp) + Top(s.wb) }

  lemma RefusedStarts(c: Config, s: State, i: Input)
    requires Inv(c, s) && i.uop.Some? && !i.flush && !Begins(s, i)
    ensures !StartsPipe(s, i) && !StartsSp(s, i) && !StartsDp(s, i) && (DividersIdle(s) ==> Top(s.wb) > 0)
  {
    TopZero(s.wb);
    BeginsExactly(c, s, i);
  }

  /** While an operation is refused, the work before it shrinks in every cycle that does not wait. */
  lemma RefusalShrinks(c: Config, s: State, i: Input)
    requires Inv(c, s) && i.uop.Some? && !i.flush && !Begins(s, i)
    ensures var s' := Next(c, s, i); Inv(c, s') && Rank(s') <= Rank(s) && (!Waits(s, i) ==> Rank(s') < Rank(s))
  {
    KeepsInvariant(c, s, i);
    RefusedStarts(c, s, i);
    TopFalls(s.wb, NextWb(c, s, i));
  }

  ghost function Working(c: Config, s: State, ins: seq<Input>): nat
    requires WellFormed(c) && Shape(c, s)
    decreases |ins|
  {
    if ins == [] then 0 else (if Waits(s, ins[0]) then 0 else 1) + Working(c, Next(c, s, ins[0]), ins[1..])
  }

  ghost predicate BeginsIn(c: Config, s: State, ins: seq<Input>)
    requires WellFormed(c) && Shape(c, s)
    decreases |ins|
  {
    ins != [] && (Begins(s, ins[0]) || BeginsIn(c, Next(c, s, ins[0]), ins[1..]))
  }

  /** The same operation is offered in every cycle, and nothing is flushed. */
  ghost predicate Held(ins: seq<Input>, x: Uop) {
    forall k :: 0 <= k < |ins| ==> ins[k].uop == Some(x) && !ins[k].flush
  }

  lemma {:induction false} BegunByRank(c: Config, s: State, ins: seq<Input>, x: Uop)
    requires Inv(c, s) && Held(ins, x) && Working(c, s, ins) > Rank(s)
    ensures BeginsIn(c, s, ins)
    decreases |ins|
  {
    if !Begins(s, ins[0]) {
      RefusalShrinks(c, s, ins[0]);
      BegunByRank(c, Next(c, s, ins[0]), ins[1..], x);
    }
  }

  lemma RankBound(c: Config, s: State)
    requires Inv(c, s)
    ensures Rank(s) <= c.max + 6
  {
  }

  /** In every reachable state an operation that is offered without a flush begins within max + 7 cycles that do not
      wait for a mantissa divider. */
  lemma OfferedBegins(c: Config, r: State, before: seq<Input>, ins: seq<Input>, x: Uop)
    requires WellFormed(c) && Reset(c, r) && Held(ins, x) && Working(c, Run(c, r, before), ins) >= c.max + 7
    ensures BeginsIn(c, Run(c, r, before), ins)
  {
    assert Inv(c, r);
    RunKeepsInvariant(c, r, before);
    RankBound(c, Run(c, r, before));
    BegunByRank(c, Run(c, r, before), ins, x);
  }
}
