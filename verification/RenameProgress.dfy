/**
  What retires and what is allocated (core.sv), exactly, in terms of the uops and their completions; and that
  every recovery and every serializing uop lets the core continue.
 */
module RenameProgress {
  import opened Bits
  import opened PriorityEncoder
  import opened MemoryTypes
  import opened Rings
  import opened Rename
  import opened RenameInvariant
  import opened RenameProof
  import opened RenameTheorems
  import opened RenameRuns
  import opened RenameHistory

  // ---------------------------------------------------------------- retirement

  /** The history of the second oldest entry. */
  ghost function SecondLife(c: Config, s: State, h: History): Life
    requires RingShape(c.robs, s.ring) && |h.lives| == c.robs
  {
    h.lives[Slot(c.robs, s.ring.nextHead)]
  }

  lemma NextHeadFollows(c: Config, s: State, h: History)
    requires Inv(c, s) && Follows(c, s, h) && Len(c.robs, s.ring) >= 2
    ensures EntryIs(NextHead(c.robs, s.ring), s.complete[Slot(c.robs, s.ring.nextHead)], SecondLife(c, s, h))
  {
    assert SlotAt(c.robs, s.ring.head, 1) == Slot(c.robs, s.ring.nextHead);
    DeadMaskIsWindow(c, s, Slot(c.robs, s.ring.nextHead));
  }

  ghost predicate Completed(l: Life) { OutcomeOf(l).complete }
  ghost predicate Faulted(l: Life) { OutcomeOf(l).faulted }

  /** The oldest uop may leave: it has completed, no interrupt is taken before it, and if it redirects, its
      delay slot, nullified or not, is already there. */
  ghost predicate OldestLeaves(c: Config, s: State, h: History, i: Input)
    requires RingShape(c.robs, s.ring) && |h.lives| == c.robs
  {
    var l := HeadLife(c, s, h);
    && !(i.irq && !l.inSlot) && Completed(l)
    && (Faulted(l) && (l.uop.ds || l.uop.nds) ==> Len(c.robs, s.ring) >= 2)
  }

  /** The second oldest uop leaves with it: both have completed without a fault, the oldest one is no branch, and the
      second one neither a call or a return nor a writer of hilo or of the condition codes. */
  ghost predicate SecondLeaves(c: Config, s: State, h: History)
    requires RingShape(c.robs, s.ring) && |h.lives| == c.robs
  {
    var l, n := HeadLife(c, s, h), SecondLife(c, s, h);
    && Len(c.robs, s.ring) >= 2 && Completed(n) && !Faulted(l) && !Faulted(n)
    && !l.uop.isBr && !n.uop.isRet && !n.uop.isCall
    && !(n.uop.dst.Some? && (n.uop.dst.value.cls.Hilo? || n.uop.dst.value.cls.Fcr?))
  }

  /** In ACTIVE with live entries, what retires is decided by the uops and their completions. */
  lemma RetiresExactly(c: Config, s: State, h: History, i: Input)
    requires WellFormed(c) && Inv(c, s) && Follows(c, s, h) && InputShape(c, i) && s.fsm.Active? && !Empty(s.ring)
    ensures Comb(c, s, i).retire ==
            if !OldestLeaves(c, s, h, i) then 0 else if SecondLeaves(c, s, h) then 2 else 1
  {
    RingFlags(c.robs, s.ring);
    HeadFollows(c, s, h);
    if Len(c.robs, s.ring) >= 2 { NextHeadFollows(c, s, h); }
  }

  /** While a recovery waits for the delay slot, that retires when it has completed, unless it is nullified. */
  lemma SlotRetiresExactly(c: Config, s: State, h: History, i: Input)
    requires WellFormed(c) && Inv(c, s) && Follows(c, s, h) && InputShape(c, i) && s.fsm.Drain?
    ensures Comb(c, s, i).retire ==
            if !s.dsDone && Completed(HeadLife(c, s, h)) && (s.hasNds ==> s.takeBr) then 1 else 0
  {
    if !s.dsDone { HeadFollows(c, s, h); }
  }

  /** Whatever retires has completed; two retire together only if neither has faulted. */
  ghost predicate OnlyCompleted(c: Config, s: State, h: History, i: Input)
    requires WellFormed(c) && Shape(c, s) && InputShape(c, i) && |h.lives| == c.robs
  {
    var n := Comb(c, s, i).retire;
    && n <= Len(c.robs, s.ring)
    && (n >= 1 ==> Completed(HeadLife(c, s, h)))
    && (n == 2 ==> Completed(SecondLife(c, s, h)) && !Faulted(HeadLife(c, s, h)) && !Faulted(SecondLife(c, s, h)))
  }

  lemma StepOnlyCompleted(c: Config, s: State, h: History, i: Input)
    requires WellFormed(c) && Inv(c, s) && Follows(c, s, h) && InputShape(c, i)
    ensures OnlyCompleted(c, s, h, i)
  {
    RingFlags(c.robs, s.ring);
    if !Empty(s.ring) { HeadFollows(c, s, h); }
    if s.fsm.Active? && !Empty(s.ring) { RetiresExactly(c, s, h, i); }
  }

  /** In every run no uop retires before it has completed, and none retires beside or behind a fault. */
  lemma EveryRetiredCompleted(c: Config, s0: State, h0: History, ins: seq<Input>, i: Input)
    requires WellFormed(c) && Reset(c, s0) && |h0.lives| == c.robs && !h0.slot && Legal(c, s0, ins)
    requires InputShape(c, i)
    ensures Shape(c, Run(c, s0, ins)) && OnlyCompleted(c, Run(c, s0, ins), Histories(c, s0, h0, ins), i)
  {
    ResetEstablishesInvariant(c, s0);
    RunFollows(c, s0, h0, ins);
    StepOnlyCompleted(c, Run(c, s0, ins), Histories(c, s0, h0, ins), i);
  }

  // ---------------------------------------------------------------- the flush signal

  /** ds_done, which flushes the schedulers and squashes what waits in the data cache, is high exactly in an interrupt's
      drain, in RAT, and in a redirect's drain once the delay slot is done with. */
  ghost predicate FlushSignal(s: State) {
    !s.fsm.Drain? ==> (s.dsDone <==> s.fsm.ExceptionDrain? || s.fsm.Rat?)
  }

  lemma KeepsFlushSignal(c: Config, s: State, i: Input)
    requires Step(c, s, i) && FlushSignal(s)
    ensures FlushSignal(Next(c, s, i))
  {
  }

  lemma {:induction false} RunKeepsFlushSignal(c: Config, s: State, ins: seq<Input>)
    requires WellFormed(c) && Inv(c, s) && Legal(c, s, ins) && FlushSignal(s)
    ensures FlushSignal(Run(c, s, ins))
    decreases |ins|
  {
    if ins != [] {
      KeepsInvariant(c, s, ins[0]);
      KeepsFlushSignal(c, s, ins[0]);
      RunKeepsFlushSignal(c, Next(c, s, ins[0]), ins[1..]);
    }
  }

  lemma EveryRunFlushesExactly(c: Config, s: State, ins: seq<Input>)
    requires WellFormed(c) && Reset(c, s) && Legal(c, s, ins)
    ensures FlushSignal(Run(c, s, ins))
  {
    ResetEstablishesInvariant(c, s);
    RunKeepsFlushSignal(c, s, ins);
  }

  /** A redirect's drain starts with the signal low exactly if the uop has a delay slot, and raises it exactly when
      that has completed. */
  lemma SlotEndsExactly(c: Config, s: State, h: History, i: Input)
    requires WellFormed(c) && Inv(c, s) && Follows(c, s, h) && InputShape(c, i)
    ensures s.fsm.Active? && Next(c, s, i).fsm.Drain? ==>
              !Empty(s.ring) && (Next(c, s, i).dsDone <==> !HeadLife(c, s, h).uop.ds)
    ensures s.fsm.Drain? && !s.dsDone ==> (Next(c, s, i).dsDone <==> Completed(HeadLife(c, s, h)))
    ensures s.fsm.Drain? && s.dsDone ==> Next(c, s, i).dsDone
  {
    RingFlags(c.robs, s.ring);
    if !Empty(s.ring) { HeadFollows(c, s, h); }
  }

  // ---------------------------------------------------------------- allocation

  /** A free register of class k for the given slot: of the bank whose turn it is, or any for hilo and the
      condition codes. */
  ghost predicate HasRegister(s: State, k: Class, second: bool) {
    var free := FileOf(s.files, k).free;
    exists p :: 0 <= p < |free| && free[p] && (k.Hilo? || k.Fcr? || ((p % 2 == 1) == (s.bank == second)))
  }

  lemma CandidatesExactly(s: State, k: Class, second: bool)
    ensures !IsZero(Candidates(s, k, second)) <==> HasRegister(s, k, second)
  {
    var free, b := FileOf(s.files, k).free, Candidates(s, k, second);
    if HasRegister(s, k, second) {
      var p :| 0 <= p < |free| && free[p] && (k.Hilo? || k.Fcr? || ((p % 2 == 1) == (s.bank == second)));
      assert b[p];
    }
    if !IsZero(b) {
      var p :| 0 <= p < |b| && b[p];
      assert free[p];
    }
  }

  /** An ordinary uop is allocated exactly when there is room in the ROB and in the scheduler queue, a register for
      its destination, no interrupt taken and no redirect. */
  lemma AllocatesExactly(c: Config, s: State, i: Input)
    requires WellFormed(c) && Inv(c, s) && InputShape(c, i) && s.fsm.Active? && i.uop.Some? && !i.uop.value.serial
    ensures Comb(c, s, i).a1.Some? <==>
            && Len(c.robs, s.ring) < c.robs && !i.uqFull && !TakesIrq(c, s, i) && !Redirects(c, s, i)
            && (i.uop.value.dst.Some? ==> HasRegister(s, i.uop.value.dst.value.cls, false))
  {
    RingFlags(c.robs, s.ring);
    if i.uop.value.dst.Some? { CandidatesExactly(s, i.uop.value.dst.value.cls, false); }
  }

  /** The second uop goes with the first exactly when there is room for two, it is not serializing, writes neither hilo
      nor the condition codes, and the other bank has a register for it. */
  lemma AllocatesTwoExactly(c: Config, s: State, i: Input)
    requires WellFormed(c) && Inv(c, s) && InputShape(c, i) && s.fsm.Active? && Comb(c, s, i).a1.Some?
    ensures Comb(c, s, i).a2.Some? <==>
            && i.uop2.Some? && !i.uop2.value.serial && Len(c.robs, s.ring) + 2 <= c.robs && !i.uqNextFull
            && (i.uop2.value.dst.Some? ==>
                  var k := i.uop2.value.dst.value.cls; !k.Hilo? && !k.Fcr? && HasRegister(s, k, true))
  {
    RingFlags(c.robs, s.ring);
    if i.uop2.Some? && i.uop2.value.dst.Some? { CandidatesExactly(s, i.uop2.value.dst.value.cls, true); }
  }

  // ---------------------------------------------------------------- every detour ends

  /** Steps from a control state back to ACTIVE. */
  function Steps(fsm: Fsm, dsDone: bool): nat {
    match fsm
    case Active => 0
    case Drain => if dsDone then 2 else 3
    case ExceptionDrain => 2
    case Rat => 1
    case Monitor => 3
    case AllocForSerialize => 2
    case AllocForMonitor => 2
    case WaitForSerialize => 1
    case WaitForMonitor => 1
    case Stopped => 0
  }
  function Distance(s: State): nat { Steps(s.fsm, s.dsDone) }

  /** What the control state waits for: the units to drain, the delay slot or the serializing uop to complete, the
      restart to be acknowledged, the monitor to answer, or the uop to arrive with room in the queue. */
  ghost predicate Held(c: Config, s: State, i: Input)
    requires RingShape(c.robs, s.ring) && |s.complete| == c.robs
  {
    match s.fsm
    case Drain => if s.dsDone then !i.idle else !HeadComplete(c, s)
    case ExceptionDrain => !i.idle
    case Rat => !i.ack
    case Monitor => !i.monitorDone
    case AllocForSerialize => i.uop.None? || i.uqFull
    case AllocForMonitor => false
    case WaitForSerialize => !HeadComplete(c, s) || !i.ack
    case WaitForMonitor => !HeadComplete(c, s) || !i.ack
    case Active => false
    case Stopped => true
  }

  lemma SerializeAllocates(c: Config, s: State, i: Input)
    requires Step(c, s, i) && RingInv(c.robs, s.ring) && ClassInv(c, s, Gpr) && Empty(s.ring)
    requires s.fsm.AllocForSerialize? && i.uop.Some? && !i.uqFull
    ensures AllocOne(c, s, i)
  {
    RingFlags(c.robs, s.ring);
    assert Window(c.robs, s.ring) == [];
    FreeWhenEmpty(Regs(c, Gpr), Pow2(Lg(c, Gpr)), s.files.gpr);
  }

  /** The next control state alone. */
  lemma ControlAdvances(c: Config, s: State, i: Input, fsm: Fsm, dsDone: bool)
    requires Shape(c, s) && FsmInv(c.robs, s) && !s.fsm.Active? && !s.fsm.Stopped?
    requires fsm == NextFsm(c, s, i) && dsDone == NextDsDone(c, s, i)
    requires s.fsm.AllocForSerialize? && i.uop.Some? && !i.uqFull ==> AllocOne(c, s, i)
    ensures !fsm.Stopped? && Steps(fsm, dsDone) <= Distance(s)
    ensures !Held(c, s, i) ==> Steps(fsm, dsDone) < Distance(s)
  {
  }

  /** Outside ACTIVE each cycle that need not wait comes one step closer to it, and no cycle leads away. */
  lemma Advances(c: Config, s: State, i: Input)
    requires WellFormed(c) && Inv(c, s) && Protocol(c, s, i) && !s.fsm.Active? && !s.fsm.Stopped?
    ensures var s' := Next(c, s, i);
            && !s'.fsm.Stopped? && Distance(s') <= Distance(s)
            && (!Held(c, s, i) ==> Distance(s') < Distance(s))
  {
    if s.fsm.AllocForSerialize? && i.uop.Some? && !i.uqFull {
      assert ClassInv(c, s, Gpr);
      SerializeAllocates(c, s, i);
    }
    ControlAdvances(c, s, i, NextFsm(c, s, i), NextDsDone(c, s, i));
  }

  /** A control state is left only when it need not wait. */
  lemma WaitsInPlace(c: Config, s: State, i: Input)
    requires Step(c, s, i) && FsmInv(c.robs, s) && !s.fsm.Active? && Held(c, s, i)
    ensures Next(c, s, i).fsm == s.fsm && Next(c, s, i).dsDone == s.dsDone
  {
  }

  /** A serializing uop, or one of the monitor, is waited for until it has completed and the restart is
      acknowledged; the monitor's uop retires then, and nothing retires in the other control states. */
  lemma SerialEndsExactly(c: Config, s: State, h: History, i: Input)
    requires WellFormed(c) && Inv(c, s) && Follows(c, s, h) && InputShape(c, i) && !s.fsm.Active? && !s.fsm.Drain?
    ensures s.fsm.WaitForSerialize? || s.fsm.WaitForMonitor? ==>
              !Empty(s.ring) && (Next(c, s, i).fsm.Active? <==> Completed(HeadLife(c, s, h)) && i.ack)
    ensures Comb(c, s, i).retire ==
            if s.fsm.WaitForMonitor? && Completed(HeadLife(c, s, h)) && i.ack then 1 else 0
  {
    RingFlags(c.robs, s.ring);
    if s.fsm.WaitForSerialize? || s.fsm.WaitForMonitor? { HeadFollows(c, s, h); }
  }

  /** The cycles of a run, up to its return to ACTIVE, in which the core need not wait. */
  ghost function Working(c: Config, s: State, ins: seq<Input>): nat
    requires WellFormed(c) && Legal(c, s, ins)
    decreases |ins|
  {
    if ins == [] || s.fsm.Active? then 0
    else (if Held(c, s, ins[0]) then 0 else 1) + Working(c, Next(c, s, ins[0]), ins[1..])
  }

  ghost predicate BecomesActive(c: Config, s: State, ins: seq<Input>)
    requires WellFormed(c) && Legal(c, s, ins)
    decreases |ins|
  {
    s.fsm.Active? || (ins != [] && BecomesActive(c, Next(c, s, ins[0]), ins[1..]))
  }

  lemma {:induction false} ReturnsByDistance(c: Config, s: State, ins: seq<Input>)
    requires WellFormed(c) && Inv(c, s) && Legal(c, s, ins) && !s.fsm.Stopped? && Working(c, s, ins) >= Distance(s)
    ensures BecomesActive(c, s, ins)
    decreases |ins|
  {
    if !s.fsm.Active? {
      assert Distance(s) > 0;
      Advances(c, s, ins[0]);
      KeepsInvariant(c, s, ins[0]);
      ReturnsByDistance(c, Next(c, s, ins[0]), ins[1..]);
    }
  }

  /** In every run, a recovery, an interrupt, a serializing uop and a monitor call each return to ACTIVE after at
      most three cycles that need not wait. */
  lemma EveryDetourEnds(c: Config, s0: State, before: seq<Input>, ins: seq<Input>)
    requires WellFormed(c) && Reset(c, s0) && Legal(c, s0, before) && Legal(c, Run(c, s0, before), ins)
    requires !Run(c, s0, before).fsm.Stopped? && Working(c, Run(c, s0, before), ins) >= 3
    ensures BecomesActive(c, Run(c, s0, before), ins)
  {
    ResetEstablishesInvariant(c, s0);
    RunKeepsInvariant(c, s0, before);
    ReturnsByDistance(c, Run(c, s0, before), ins);
  }

  /** The core stops for good exactly when the redirecting uop is a BREAK, WAIT or ERET or has trapped, and it
      enters a detour only for a redirect, an interrupt or a serializing uop on an empty ROB. */
  lemma LeavesActiveExactly(c: Config, s: State, h: History, i: Input)
    requires WellFormed(c) && Inv(c, s) && Follows(c, s, h) && InputShape(c, i) && s.fsm.Active?
    ensures Next(c, s, i).fsm ==
            if Len(c.robs, s.ring) > 0 then
              var l := HeadLife(c, s, h);
              if i.irq && !l.inSlot then ExceptionDrain
              else if OldestLeaves(c, s, h, i) && Faulted(l) then
                (if l.uop.stops || OutcomeOf(l).trap then Stopped else Drain)
              else Active
            else if i.uop.Some? && i.uop.value.serial then (if i.uop.value.monitor then Monitor else AllocForSerialize)
            else Active
  {
    RingFlags(c.robs, s.ring);
    if !Empty(s.ring) { HeadFollows(c, s, h); }
  }
}
