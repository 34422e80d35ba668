/**
  Runs of allocation, retirement and recovery (core.sv) from reset, precise recovery, and the
  clocked unit.
 */
module RenameRuns {
  import opened Bits
  import opened PriorityEncoder
  import opened MemoryTypes
  import opened Rings
  import opened RegisterFile
  import opened Rename
  import opened RenameInvariant
  import opened RenameProof
  import opened RenameTheorems

  // ---------------------------------------------------------------- reset

  function ResetFile(regs: nat, size: nat): File {
    var free := seq(size, p => p >= regs);
    File(Identity(regs), free, Identity(regs), free)
  }

  /** After reset the maps are the identity and the ROB is empty. */
  ghost predicate Reset(c: Config, s: State) {
    && Shape(c, s)
    && (forall k: Class :: FileOf(s.files, k) == ResetFile(Regs(c, k), Pow2(Lg(c, k))))
    && s.ring.head == s.ring.tail == 0 && s.ring.nextHead == s.ring.nextTail == 1
    && (forall k :: 0 <= k < |s.dead| ==> !s.dead[k] && !s.complete[k])
    && !s.bank && !s.inDs && !s.dsDone && s.fsm.Active? && s.retired == []
  }

  lemma {:induction false} IdentityBag(n: nat, p: nat)
    ensures multiset(Identity(n))[p] == if p < n then 1 else 0
  {
    if n > 0 {
      IdentityBag(n - 1, p);
      assert Identity(n) == Identity(n - 1) + [n - 1];
    }
  }

  lemma ResetFileInv(regs: nat, size: nat)
    requires regs <= size
    ensures FileInv(regs, size, ResetFile(regs, size), [])
  {
    var f := ResetFile(regs, size);
    forall p: nat ensures (multiset(f.rat) + Olds([]))[p] == (if p < size && !f.free[p] then 1 else 0) {
      IdentityBag(regs, p);
    }
    assert multiset(f.rat) + Olds([]) == multiset(f.rrat);
  }

  lemma ResetEstablishesInvariant(c: Config, s: State)
    requires WellFormed(c) && Reset(c, s)
    ensures Inv(c, s)
  {
    assert Window(c.robs, s.ring) == [];
    forall k: Class ensures ClassInv(c, s, k) && HistoryInv(c, s, k) {
      Pow2Mono(1, Lg(c, k));
      assert FileOf(s.files, k) == ResetFile(Regs(c, k), Pow2(Lg(c, k)));
      ResetFileInv(Regs(c, k), Pow2(Lg(c, k)));
    }
  }

  // ---------------------------------------------------------------- runs

  ghost predicate Legal(c: Config, s: State, ins: seq<Input>)
    requires WellFormed(c)
    decreases |ins|
  {
    ins == [] ||
    (Shape(c, s) && Protocol(c, s, ins[0]) && !SerializeClash(c, s, ins[0]) && Legal(c, Next(c, s, ins[0]), ins[1..]))
  }

  ghost function Run(c: Config, s: State, ins: seq<Input>): State
    requires WellFormed(c) && Legal(c, s, ins)
    decreases |ins|
  {
    if ins == [] then s else Run(c, Next(c, s, ins[0]), ins[1..])
  }

  lemma {:induction false} RunKeepsInvariant(c: Config, s: State, ins: seq<Input>)
    requires WellFormed(c) && Inv(c, s) && Legal(c, s, ins)
    ensures Inv(c, Run(c, s, ins))
    decreases |ins|
  {
    if ins != [] {
      KeepsInvariant(c, s, ins[0]);
      RunKeepsInvariant(c, Next(c, s, ins[0]), ins[1..]);
    }
  }

  lemma {:induction false} ReplayChain(map0: seq<nat>, a: seq<Dest>, b: seq<Dest>)
    requires InRange(a, |map0|) && InRange(b, |map0|)
    ensures InRange(a + b, |map0|) && Replay(map0, a + b) == Replay(Replay(map0, a), b)
    decreases |a|
  {
    if a == [] {
      assert a + b == b;
    } else {
      assert (a + b)[1..] == a[1..] + b;
      ReplayChain(map0[a[0].ldst := a[0].pdst], a[1..], b);
    }
  }

  /** A legal first cycle. */
  ghost predicate Allowed(c: Config, s: State, i: Input)
    requires WellFormed(c)
  {
    Shape(c, s) && Protocol(c, s, i) && !SerializeClash(c, s, i)
  }

  lemma Prepend(c: Config, s: State, i: Input, rest: seq<Input>)
    requires WellFormed(c) && Allowed(c, s, i) && Legal(c, Next(c, s, i), rest)
    ensures Legal(c, s, [i] + rest) && Run(c, s, [i] + rest) == Run(c, Next(c, s, i), rest)
  {
    assert ([i] + rest)[1..] == rest;
  }

  /** The speculative map is the reset map after everything retired and everything live, in order. */
  lemma MapIsSequential(c: Config, s: State, k: Class)
    requires Inv(c, s)
    ensures var ds := Dests(s.retired + Window(c.robs, s.ring), k);
            InRange(ds, Regs(c, k)) && FileOf(s.files, k).rat == Replay(Identity(Regs(c, k)), ds)
  {
    assert ClassInv(c, s, k) && HistoryInv(c, s, k);
    var w := Window(c.robs, s.ring);
    DestsAppend(s.retired, w, k);
    ReplayChain(Identity(Regs(c, k)), Dests(s.retired, k), Dests(w, k));
  }

  /** The sources of the second uop of a pair are renamed as if the first had been allocated in an
      earlier cycle: the bypass yields the map after everything older, the first uop included. */
  lemma PairSourcesSequential(c: Config, s: State, u: Uop, k: Class, l: nat)
    requires WellFormed(c) && Inv(c, s) && UopShape(c, u) && l < Regs(c, k)
    ensures FileShape(c, s.files, k)
    ensures var first := FirstDest(c, s, u);
            var ds := Dests(s.retired + Window(c.robs, s.ring) + [first], k);
            InRange(ds, Regs(c, k)) && Bypassed(s, first, k, l) == Replay(Identity(Regs(c, k)), ds)[l]
  {
    assert FileShape(c, s.files, k);
    var first := FirstDest(c, s, u);
    var older := s.retired + Window(c.robs, s.ring);
    MapIsSequential(c, s, k);
    var d := if first.Some? && first.value.cls == k then Some(first.value.d) else None;
    DestsAppend(older, [first], k);
    assert [first][1..] == [];
    assert Dests([first], k) == Listed(d);
    ReplayOpt(Identity(Regs(c, k)), Dests(older, k), d);
    BypassIsSequential(s, first, k, l);
  }

  /** Physical registers are conserved: each is free, or mapped once, or held by one live entry
      that will release it; and the retired free list is the complement of the retired map. */
  lemma RegistersConserved(c: Config, s: State, k: Class, p: nat)
    requires Inv(c, s) && p < Pow2(Lg(c, k))
    ensures FileShape(c, s.files, k)
    ensures var f := FileOf(s.files, k);
            && (if f.free[p] then 1 else 0) + multiset(f.rat)[p] + Olds(Dests(Window(c.robs, s.ring), k))[p] == 1
            && (if f.rfree[p] then 1 else 0) + multiset(f.rrat)[p] == 1
  {
    assert ClassInv(c, s, k) && FileShape(c, s.files, k);
    var f := FileOf(s.files, k);
    var used := multiset(f.rat) + Olds(Dests(Window(c.robs, s.ring), k));
    assert used[p] == if p < |f.free| && !f.free[p] then 1 else 0;
    assert multiset(f.rrat)[p] == if p < |f.rfree| && !f.rfree[p] then 1 else 0;
  }

  /** The whole promise, from reset. */
  lemma EveryRunRenamesSequentially(c: Config, s: State, ins: seq<Input>, k: Class)
    requires WellFormed(c) && Reset(c, s) && Legal(c, s, ins)
    ensures var e := Run(c, s, ins);
            && Inv(c, e)
            && var ds := Dests(e.retired + Window(c.robs, e.ring), k);
               InRange(ds, Regs(c, k)) && FileOf(e.files, k).rat == Replay(Identity(Regs(c, k)), ds)
  {
    ResetEstablishesInvariant(c, s);
    RunKeepsInvariant(c, s, ins);
    MapIsSequential(c, Run(c, s, ins), k);
  }

  /** Whatever mapping some live entry was renamed with is still allocated. */
  lemma LiveSourcesAllocated(c: Config, s: State, k: Class, j: nat, l: nat)
    requires Inv(c, s) && l < Regs(c, k) && j <= |Dests(Window(c.robs, s.ring), k)|
    ensures FileShape(c, s.files, k)
    ensures var ds := Dests(Window(c.robs, s.ring), k)[..j];
            var f := FileOf(s.files, k);
            && InRange(ds, Regs(c, k))
            && var p := Replay(f.rrat, ds)[l]; p < Pow2(Lg(c, k)) && !f.free[p]
  {
    assert ClassInv(c, s, k) && FileShape(c, s.files, k);
    SourcesStayAllocated(Regs(c, k), Pow2(Lg(c, k)), FileOf(s.files, k), Dests(Window(c.robs, s.ring), k), j, l);
  }

  /** The dead mask marks exactly the slots from head to tail. */
  lemma DeadMaskIsWindow(c: Config, s: State, k: nat)
    requires Inv(c, s) && k < c.robs
    ensures s.dead[k] <==> exists j :: 0 <= j < Len(c.robs, s.ring) && SlotAt(c.robs, s.ring.head, j) == k
  {
    var j := Offset(c.robs, s.ring.head, k);
    assert SlotAt(c.robs, s.ring.head, j) == k;
  }

  // ---------------------------------------------------------------- recovery

  /** The map that the recovery under way will restore: the retired one, after the delay slot if
      that is still to be retired. */
  function RecoveryMap(c: Config, s: State, k: Class): seq<nat>
    requires RingShape(c.robs, s.ring)
  {
    var m := FileOf(s.files, k).rrat;
    if !s.fsm.Drain? || s.dsDone || (s.hasNds && !s.takeBr) then m
    else MapTo(m, DestOf(Some(Head(c.robs, s.ring)), k))
  }

  predicate Recovering(s: State) { s.fsm.Drain? || s.fsm.ExceptionDrain? || s.fsm.Rat? }

  /** What a cycle that allocates nothing and retires at most one entry does to a class. */
  lemma RetiredMap(c: Config, s: State, i: Input, k: Class)
    requires Step(c, s, i) && RingShape(c.robs, s.ring) && Allocs(Comb(c, s, i)) == 0 && Comb(c, s, i).retire <= 1
    ensures FileOf(Next(c, s, i).files, k).rrat ==
            MapTo(FileOf(s.files, k).rrat, DestOf(Retired1(c, s, Comb(c, s, i).retire), k))
  {
    assert FileOf(NextFiles(c, s, Comb(c, s, i)), k) == ClassStep(c, s, Comb(c, s, i), k);
  }

  lemma FinishKeeps(e: Entry, done: map<nat, Completion>, k: nat)
    ensures Finish(e, done, k).dst == e.dst
  {
  }

  /** A ring to which nothing is added keeps the destinations of its slots. */
  lemma SlotKept(c: Config, r: Ring, x: Ctl, done: map<nat, Completion>, k: nat)
    requires RingShape(c.robs, r) && x.a1.None? && x.a2.None? && x.retire <= 2 && !x.restore && k < c.robs
    ensures NextSlots(c, r, x, done)[k].dst == r.slots[k].dst
  {
    assert Written(c, r, x, k) == r.slots[k];
    FinishKeeps(r.slots[k], done, k);
  }

  lemma HeadMoves(c: Config, r: Ring, x: Ctl, done: map<nat, Completion>)
    requires RingInv(c.robs, r) && x.a1.None? && x.a2.None? && x.retire <= 1 && !x.restore
    ensures Head(c.robs, NextRing(c, r, x, done)).dst ==
            if x.retire == 1 then NextHead(c.robs, r).dst else Head(c.robs, r).dst
  {
    SlotKept(c, r, x, done, Slot(c.robs, r.head));
    SlotKept(c, r, x, done, Slot(c.robs, r.nextHead));
    assert NextRing(c, r, x, done).slots == NextSlots(c, r, x, done);
  }

  /** The oldest live slot of the next state, when nothing is allocated. */
  lemma HeadAfter(c: Config, s: State, i: Input, k: Class)
    requires Step(c, s, i) && RingInv(c.robs, s.ring) && Allocs(Comb(c, s, i)) == 0 && !s.fsm.Rat?
    requires Comb(c, s, i).retire <= 1
    ensures DestOf(Some(Head(c.robs, Next(c, s, i).ring)), k) ==
            DestOf(Some(if Comb(c, s, i).retire == 1 then NextHead(c.robs, s.ring) else Head(c.robs, s.ring)), k)
  {
    HeadMoves(c, s.ring, Comb(c, s, i), i.done);
  }

  /** A fault commits to the map after the faulting entry and, if it executes, its delay slot. */
  lemma FaultTarget(c: Config, s: State, i: Input, k: Class)
    requires Step(c, s, i) && RingInv(c.robs, s.ring) && Redirects(c, s, i) && Next(c, s, i).fsm.Drain?
    ensures var h, n := Head(c.robs, s.ring), NextHead(c.robs, s.ring);
            var slot := if h.ds && !(h.nds && !h.takeBr) then DestOf(Some(n), k) else None;
            RecoveryMap(c, Next(c, s, i), k) == MapTo(MapTo(FileOf(s.files, k).rrat, DestOf(Some(h), k)), slot)
  {
    assert Comb(c, s, i).retire == 1 && Allocs(Comb(c, s, i)) == 0;
    HeadAfter(c, s, i, k);
    RetiredMap(c, s, i, k);
  }

  /** An interrupt commits to the retired map: nothing retires in its cycle. */
  lemma InterruptTarget(c: Config, s: State, i: Input, k: Class)
    requires Step(c, s, i) && s.fsm.Active? && TakesIrq(c, s, i)
    ensures Next(c, s, i).fsm.ExceptionDrain? && RecoveryMap(c, Next(c, s, i), k) == FileOf(s.files, k).rrat
  {
    assert Comb(c, s, i).retire == 0 && Allocs(Comb(c, s, i)) == 0;
    RetiredMap(c, s, i, k);
  }

  /** Recovering works towards the same map in every cycle. */
  lemma DrainKeepsTarget(c: Config, s: State, i: Input, k: Class)
    requires Step(c, s, i) && RingInv(c.robs, s.ring) && s.fsm.Drain?
    ensures Recovering(Next(c, s, i)) && RecoveryMap(c, Next(c, s, i), k) == RecoveryMap(c, s, k)
  {
    assert Allocs(Comb(c, s, i)) == 0 && Comb(c, s, i).retire <= 1;
    RetiredMap(c, s, i, k);
    HeadAfter(c, s, i, k);
  }

  lemma WaitKeepsTarget(c: Config, s: State, i: Input, k: Class)
    requires Step(c, s, i) && RingInv(c.robs, s.ring) && (s.fsm.ExceptionDrain? || s.fsm.Rat?)
    ensures Recovering(Next(c, s, i)) || Next(c, s, i).fsm.Active?
    ensures s.fsm.ExceptionDrain? ==> Recovering(Next(c, s, i))
    ensures RecoveryMap(c, Next(c, s, i), k) == RecoveryMap(c, s, k)
  {
    assert Allocs(Comb(c, s, i)) == 0 && Comb(c, s, i).retire == 0;
    RetiredMap(c, s, i, k);
  }

  /** The copy of the retired side. */
  lemma CopyRestores(c: Config, s: State, i: Input, k: Class)
    requires Step(c, s, i) && s.fsm.Rat?
    ensures FileOf(Next(c, s, i).files, k).rat == FileOf(s.files, k).rrat && Empty(Next(c, s, i).ring)
  {
    assert FileOf(NextFiles(c, s, Comb(c, s, i)), k) == ClassStep(c, s, Comb(c, s, i), k);
  }

  ghost predicate StaysRecovering(c: Config, s: State, ins: seq<Input>)
    requires WellFormed(c) && Legal(c, s, ins)
    decreases |ins|
  {
    ins == [] || (Recovering(s) && StaysRecovering(c, Next(c, s, ins[0]), ins[1..]))
  }

  /** Everything about a class is as if m had just been established: the map is m, the free
      registers are exactly those that m does not use, and nothing is pending. */
  ghost predicate Restored(s: State, k: Class, m: seq<nat>) {
    FileOf(s.files, k).rat == m && Complement(FileOf(s.files, k).free, multiset(m)) && Empty(s.ring)
  }

  lemma EmptyIsRestored(c: Config, s: State, k: Class)
    requires Inv(c, s) && Empty(s.ring)
    ensures Restored(s, k, FileOf(s.files, k).rat)
  {
    assert ClassInv(c, s, k);
    assert Window(c.robs, s.ring) == [];
    assert multiset(FileOf(s.files, k).rat) + Olds([]) == multiset(FileOf(s.files, k).rat);
  }

  /** A recovery of any length ends with the map it was committed to. */
  lemma {:induction false} RecoveryReachesTarget(c: Config, s: State, ins: seq<Input>, k: Class)
    requires WellFormed(c) && Inv(c, s) && Recovering(s) && Legal(c, s, ins) && StaysRecovering(c, s, ins)
    requires Run(c, s, ins).fsm.Active?
    ensures Restored(Run(c, s, ins), k, RecoveryMap(c, s, k))
    decreases |ins|
  {
    var s' := Next(c, s, ins[0]);
    KeepsInvariant(c, s, ins[0]);
    if s.fsm.Drain? { DrainKeepsTarget(c, s, ins[0], k); } else { WaitKeepsTarget(c, s, ins[0], k); }
    if Recovering(s') {
      RecoveryReachesTarget(c, s', ins[1..], k);
    } else {
      CopyRestores(c, s, ins[0], k);
      EmptyIsRestored(c, s', k);
      assert ins[1..] == [];
    }
  }

  /** When execution resumes, the map is the one after every entry retired before the faulting one, the
      faulting one, and its delay slot if its entry says that it executes; the free registers are the
      unmapped ones. */
  lemma RecoveryOfEntry(c: Config, s: State, i: Input, ins: seq<Input>, k: Class)
    requires WellFormed(c) && Inv(c, s) && Protocol(c, s, i) && Redirects(c, s, i) && Next(c, s, i).fsm.Drain?
    requires Legal(c, Next(c, s, i), ins) && StaysRecovering(c, Next(c, s, i), ins)
    requires Run(c, Next(c, s, i), ins).fsm.Active?
    ensures var h, n := Head(c.robs, s.ring), NextHead(c.robs, s.ring);
            var slot := if h.ds && !(h.nds && !h.takeBr) then DestOf(Some(n), k) else None;
            Restored(Run(c, Next(c, s, i), ins), k, MapTo(MapTo(FileOf(s.files, k).rrat, DestOf(Some(h), k)), slot))
  {
    KeepsInvariant(c, s, i);
    FaultTarget(c, s, i, k);
    RecoveryReachesTarget(c, Next(c, s, i), ins, k);
  }

  /** After an interrupt the map is the one after every entry that had retired, and the interrupted
      entry has left no trace. */
  lemma PreciseInterrupt(c: Config, s: State, i: Input, ins: seq<Input>, k: Class)
    requires WellFormed(c) && Inv(c, s) && Protocol(c, s, i) && s.fsm.Active? && TakesIrq(c, s, i)
    requires Legal(c, Next(c, s, i), ins) && StaysRecovering(c, Next(c, s, i), ins)
    requires Run(c, Next(c, s, i), ins).fsm.Active?
    ensures InRange(Dests(s.retired, k), Regs(c, k))
    ensures Restored(Run(c, Next(c, s, i), ins), k, Replay(Identity(Regs(c, k)), Dests(s.retired, k)))
  {
    assert HistoryInv(c, s, k);
    KeepsInvariant(c, s, i);
    InterruptTarget(c, s, i, k);
    RecoveryReachesTarget(c, Next(c, s, i), ins, k);
  }

  // ---------------------------------------------------------------- serializing uops

  /** A serializing uop is given a register in use exactly when the bank whose turn it is has no
      free register and the register that the cut encoder output names is in use. */
  lemma ClashMeansEmptyBank(c: Config, s: State, i: Input)
    requires Step(c, s, i) && !s.fsm.Active? && AllocOne(c, s, i) && i.uop.value.dst.Some?
    ensures var k := i.uop.value.dst.value.cls;
            && FileShape(c, s.files, k) && Pow2(Lg(c, k)) >= 4
            && (SerializeClash(c, s, i) <==>
                IsZero(Candidates(s, k, false)) && !FileOf(s.files, k).free[if Lg(c, k) == 2 then 3 else 0])
  {
    var k := i.uop.value.dst.value.cls;
    assert FileShape(c, s.files, k);
    Pow2Mono(2, Lg(c, k));
    assert Pow2(2) == 2 * (2 * Pow2(0));
    if !IsZero(Candidates(s, k, false)) { PickFree(c, s, k, false); }
  }

  // ---------------------------------------------------------------- the clocked unit

  class RenameUnit {
    const c: Config
    var regs: State

    ghost predicate Valid()
      reads this
    {
      WellFormed(c) && Inv(c, regs)
    }

    constructor (c: Config, reset: State)
      requires WellFormed(c) && Reset(c, reset)
      ensures Valid() && this.c == c && regs == reset
    {
      this.c, this.regs := c, reset;
      ResetEstablishesInvariant(c, reset);
    }

    /** One clock cycle. */
    method Clock(i: Input)
      requires Valid() && Protocol(c, regs, i) && !SerializeClash(c, regs, i)
      modifies this
      ensures Valid() && regs == Next(c, old(regs), i)
      ensures old(regs.fsm.Rat?) ==>
                forall k: Class :: FileOf(regs.files, k).rat == FileOf(old(regs).files, k).rrat
                                   && FileOf(regs.files, k).free == FileOf(old(regs).files, k).rfree
    {
      KeepsInvariant(c, regs, i);
      regs := Next(c, regs, i);
    }
  }
}
