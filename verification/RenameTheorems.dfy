/**
  What allocation, retirement and recovery promise (core.sv), for every reachable state.
 */
module RenameTheorems {
  import opened Bits
  import opened PriorityEncoder
  import opened MemoryTypes
  import opened Rings
  import opened RegisterFile
  import opened Rename
  import opened RenameInvariant
  import opened RenameProof

  ghost predicate Step(c: Config, s: State, i: Input) { WellFormed(c) && Shape(c, s) && InputShape(c, i) }

  // ---------------------------------------------------------------- control

  /** Retirement takes live entries only, and allocation never overruns the ring. */
  lemma CombBounds(c: Config, s: State, i: Input)
    requires Step(c, s, i) && RingInv(c.robs, s.ring) && FsmInv(c.robs, s)
    ensures var x := Comb(c, s, i);
            && x.retire <= Len(c.robs, s.ring) && Len(c.robs, s.ring) + Allocs(x) <= c.robs
            && x.restore == s.fsm.Rat? && (x.restore ==> x.retire == 0 && Allocs(x) == 0)
  {
    RingFlags(c.robs, s.ring);
  }

  lemma CombGood(c: Config, s: State, i: Input, k: Class)
    requires Step(c, s, i) && !SerializeClash(c, s, i)
    ensures FileShape(c, s.files, k)
    ensures var x := Comb(c, s, i);
            GoodAllocs(Regs(c, k), Pow2(Lg(c, k)), FileOf(s.files, k), DestOf(x.a1, k), DestOf(x.a2, k))
  {
    assert FileShape(c, s.files, k);
    if AllocOne(c, s, i) {
      var u := i.uop.value;
      if s.fsm.Active? { EnoughIsGood(c, s, u, k); } else { FirstGood(c, s, u, k); }
      if AllocTwo(c, s, i) && i.uop2.value.dst.Some? && i.uop2.value.dst.value.cls == k {
        PairGood(c, s, u, i.uop2.value);
      }
    }
  }

  // ---------------------------------------------------------------- register classes

  lemma RetiredPrefix(c: Config, s: State, x: Ctl)
    requires RingInv(c.robs, s.ring) && x.retire <= 2 && x.retire <= Len(c.robs, s.ring)
    ensures Window(c.robs, s.ring)[..x.retire] ==
            DstList(Retired1(c, s, x.retire)) + DstList(Retired2(c, s, x.retire))
  {
    SlotFacts(c.robs, s.ring, 0);
  }

  lemma DestsGrow(w: seq<Option<Dst>>, x: Ctl, k: Class)
    ensures Dests(w + Appended(x), k) == Dests(w, k) + Listed(DestOf(x.a1, k)) + Listed(DestOf(x.a2, k))
  {
    DestsAppend(w, Appended(x), k);
    DestsAppend(DstList(x.a1), DstList(x.a2), k);
    DestsOne(x.a1, k);
    DestsOne(x.a2, k);
  }

  lemma DestsShrink(e1: Option<Entry>, e2: Option<Entry>, rest: seq<Option<Dst>>, k: Class)
    ensures Dests(DstList(e1) + (DstList(e2) + rest), k) ==
            Listed(DestOf(e1, k)) + (Listed(DestOf(e2, k)) + Dests(rest, k))
  {
    DestsAppend(DstList(e1), DstList(e2) + rest, k);
    DestsAppend(DstList(e2), rest, k);
    DestsOne(e1, k);
    DestsOne(e2, k);
  }

  lemma SplitWindow(w: seq<Option<Dst>>, x: Ctl, e1: Option<Entry>, e2: Option<Entry>)
    requires x.retire <= |w| && w[..x.retire] == DstList(e1) + DstList(e2)
    ensures var all := w + Appended(x); all == DstList(e1) + (DstList(e2) + all[x.retire..])
  {
    var all := w + Appended(x);
    var rest := all[x.retire..];
    assert all[..x.retire] == w[..x.retire];
    assert all == all[..x.retire] + rest;
    assert (DstList(e1) + DstList(e2)) + rest == DstList(e1) + (DstList(e2) + rest);
  }

  lemma SplitDests(w: seq<Option<Dst>>, x: Ctl, e1: Option<Entry>, e2: Option<Entry>, k: Class)
    requires x.retire <= |w| && w[..x.retire] == DstList(e1) + DstList(e2)
    ensures var all := w + Appended(x);
            Dests(w, k) + Listed(DestOf(x.a1, k)) + Listed(DestOf(x.a2, k)) ==
            Listed(DestOf(e1, k)) + (Listed(DestOf(e2, k)) + Dests(all[x.retire..], k))
  {
    SplitWindow(w, x, e1, e2);
    DestsGrow(w, x, k);
    DestsShrink(e1, e2, (w + Appended(x))[x.retire..], k);
  }

  lemma ClassKeeps(c: Config, s: State, x: Ctl, done: map<nat, Completion>, k: Class)
    requires RingInv(c.robs, s.ring) && ClassInv(c, s, k)
    requires x.retire <= 2 && !x.restore && (x.a2.Some? ==> x.a1.Some?)
    requires x.retire <= Len(c.robs, s.ring) && Len(c.robs, s.ring) + Allocs(x) <= c.robs
    requires GoodAllocs(Regs(c, k), Pow2(Lg(c, k)), FileOf(s.files, k), DestOf(x.a1, k), DestOf(x.a2, k))
    ensures var r' := NextRing(c, s.ring, x, done);
            RingInv(c.robs, r') &&
            FileInv(Regs(c, k), Pow2(Lg(c, k)), ClassStep(c, s, x, k), Dests(Window(c.robs, r'), k))
  {
    var e1, e2 := Retired1(c, s, x.retire), Retired2(c, s, x.retire);
    var w := Window(c.robs, s.ring);
    WindowStep(c, s.ring, x, done);
    RetiredPrefix(c, s, x);
    SplitDests(w, x, e1, e2, k);
    NextFileKeeps(Regs(c, k), Pow2(Lg(c, k)), FileOf(s.files, k), Dests(w, k), DestOf(x.a1, k), DestOf(x.a2, k),
                  DestOf(e1, k), DestOf(e2, k), Dests(Window(c.robs, NextRing(c, s.ring, x, done)), k));
  }

  lemma ReplayOpt(map0: seq<nat>, ds: seq<Dest>, d: Option<Dest>)
    requires InRange(ds, |map0|) && InRange(Listed(d), |map0|)
    ensures InRange(ds + Listed(d), |map0|) && Replay(map0, ds + Listed(d)) == MapTo(Replay(map0, ds), d)
  {
    if d.Some? {
      assert d.value in Listed(d);
      ReplayAppend(map0, ds, d.value);
    } else {
      assert ds + Listed(d) == ds;
    }
  }

  lemma HistoryKeeps(c: Config, s: State, e1: Option<Entry>, e2: Option<Entry>, k: Class)
    requires HistoryInv(c, s, k)
    requires (e1.Some? ==> DstShape(c, e1.value)) && (e2.Some? ==> DstShape(c, e2.value))
    ensures var ds := Dests(s.retired + DstList(e1) + DstList(e2), k);
            InRange(ds, Regs(c, k)) &&
            MapTo(MapTo(FileOf(s.files, k).rrat, DestOf(e1, k)), DestOf(e2, k)) == Replay(Identity(Regs(c, k)), ds)
  {
    var ds := Dests(s.retired, k);
    DestsAppend(s.retired, DstList(e1), k);
    DestsAppend(s.retired + DstList(e1), DstList(e2), k);
    DestsOne(e1, k); DestsOne(e2, k);
    ReplayOpt(Identity(Regs(c, k)), ds, DestOf(e1, k));
    ReplayOpt(Identity(Regs(c, k)), ds + Listed(DestOf(e1, k)), DestOf(e2, k));
  }

  // ---------------------------------------------------------------- shapes

  lemma MappedInRange(regs: nat, size: nat, f: File, ds: seq<Dest>, l: nat)
    requires FileInv(regs, size, f, ds) && l < regs
    ensures f.rat[l] < size
  {
    assert f.rat[l] in multiset(f.rat);
    assert (multiset(f.rat) + Olds(ds))[f.rat[l]] > 0;
  }

  lemma FirstShape(c: Config, s: State, u: Uop)
    requires WellFormed(c) && Shape(c, s) && UopShape(c, u) && RingInv(c.robs, s.ring)
    requires u.dst.Some? ==> ClassInv(c, s, u.dst.value.cls)
    ensures DstShape(c, NewEntry(u, FirstDest(c, s, u), s.inDs))
  {
    if u.dst.Some? {
      var k := u.dst.value.cls;
      assert FileShape(c, s.files, k);
      MappedInRange(Regs(c, k), Pow2(Lg(c, k)), FileOf(s.files, k), Dests(Window(c.robs, s.ring), k), u.dst.value.ldst);
    }
  }

  lemma SecondShape(c: Config, s: State, first: Option<Dst>, u: Uop, inDs: bool)
    requires WellFormed(c) && Shape(c, s) && UopShape(c, u) && RingInv(c.robs, s.ring)
    requires u.dst.Some? ==> ClassInv(c, s, u.dst.value.cls)
    requires first.Some? ==> first.value.d.pdst < Pow2(Lg(c, first.value.cls))
    ensures DstShape(c, NewEntry(u, SecondDest(c, s, first, u), inDs))
  {
    if u.dst.Some? {
      var k := u.dst.value.cls;
      assert FileShape(c, s.files, k);
      MappedInRange(Regs(c, k), Pow2(Lg(c, k)), FileOf(s.files, k), Dests(Window(c.robs, s.ring), k), u.dst.value.ldst);
    }
  }

  lemma CombShape(c: Config, s: State, i: Input)
    requires Step(c, s, i) && RingInv(c.robs, s.ring) && forall k: Class :: ClassInv(c, s, k)
    ensures var x := Comb(c, s, i);
            (x.a1.Some? ==> DstShape(c, x.a1.value)) && (x.a2.Some? ==> DstShape(c, x.a2.value))
  {
    if AllocOne(c, s, i) {
      var d1 := FirstDest(c, s, i.uop.value);
      if i.uop.value.dst.Some? { assert ClassInv(c, s, i.uop.value.dst.value.cls); }
      FirstShape(c, s, i.uop.value);
      if AllocTwo(c, s, i) {
        if i.uop2.value.dst.Some? { assert ClassInv(c, s, i.uop2.value.dst.value.cls); }
        SecondShape(c, s, d1, i.uop2.value, i.uop.value.ds);
      }
    }
  }

  lemma NextShape(c: Config, s: State, i: Input)
    requires Step(c, s, i) && RingInv(c.robs, s.ring) && forall k: Class :: ClassInv(c, s, k)
    ensures Shape(c, Next(c, s, i))
  {
    var x, s' := Comb(c, s, i), Next(c, s, i);
    CombShape(c, s, i);
    forall k | 0 <= k < c.robs ensures DstShape(c, s'.ring.slots[k]) {
      SlotShape(c, s.ring, x, i.done, k);
    }
    forall k: Class ensures FileShape(c, s'.files, k) {
      assert FileShape(c, s.files, k);
      ClassShape(c, s, x, k);
    }
  }

  lemma ClassShape(c: Config, s: State, x: Ctl, k: Class)
    requires RingShape(c.robs, s.ring) && FileShape(c, s.files, k)
    ensures FileShape(c, NextFiles(c, s, x), k) && FileOf(NextFiles(c, s, x), k) == ClassStep(c, s, x, k)
  {
  }

  lemma SlotShape(c: Config, r: Ring, x: Ctl, done: map<nat, Completion>, k: nat)
    requires RingShape(c.robs, r) && k < c.robs && DstShape(c, r.slots[k])
    requires (x.a1.Some? ==> DstShape(c, x.a1.value)) && (x.a2.Some? ==> DstShape(c, x.a2.value))
    ensures DstShape(c, NextSlots(c, r, x, done)[k])
  {
  }

  // ---------------------------------------------------------------- state machine

  lemma {:induction false} AtLeast(m: multiset<nat>, n: nat)
    requires forall p: nat :: p < n ==> m[p] >= 1
    ensures |m| >= n
  {
    if n > 0 {
      var m' := m - multiset{n - 1};
      assert |m'| == |m| - 1;
      AtLeast(m', n - 1);
    }
  }

  /** With an empty ROB some register is free, so a serializing uop is always allocated. */
  lemma FreeWhenEmpty(regs: nat, size: nat, f: File)
    requires FileInv(regs, size, f, []) && regs < size
    ensures !IsZero(f.free)
  {
    if IsZero(f.free) {
      var used := multiset(f.rat) + Olds([]);
      assert used == multiset(f.rat);
      AtLeast(multiset(f.rat), size);
    }
  }

  lemma MonitorAllocates(c: Config, s: State, i: Input)
    requires Step(c, s, i) && Protocol(c, s, i) && RingInv(c.robs, s.ring) && ClassInv(c, s, Gpr)
    requires s.fsm.AllocForMonitor? && Empty(s.ring)
    ensures AllocOne(c, s, i)
  {
    RingFlags(c.robs, s.ring);
    assert Window(c.robs, s.ring) == [];
    FreeWhenEmpty(Regs(c, Gpr), Pow2(Lg(c, Gpr)), s.files.gpr);
  }

  lemma LenAfter(c: Config, s: State, i: Input)
    requires Step(c, s, i) && RingInv(c.robs, s.ring) && FsmInv(c.robs, s) && !s.fsm.Rat?
    ensures var x, s' := Comb(c, s, i), Next(c, s, i);
            && RingInv(c.robs, s'.ring) && Len(c.robs, s'.ring) == Len(c.robs, s.ring) + Allocs(x) - x.retire
            && (Empty(s'.ring) <==> Len(c.robs, s'.ring) == 0)
  {
    CombBounds(c, s, i);
    RingPointers(c, s.ring, Comb(c, s, i), i.done);
  }

  lemma ActiveFsmKeeps(c: Config, s: State, i: Input)
    requires Step(c, s, i) && RingInv(c.robs, s.ring) && s.fsm.Active?
    ensures FsmInv(c.robs, Next(c, s, i))
  {
    var x := Comb(c, s, i);
    LenAfter(c, s, i);
    RingFlags(c.robs, s.ring);
    if Redirects(c, s, i) {
      assert Allocs(x) == 0 && x.retire == 1;
      assert Head(c.robs, s.ring).ds ==> Len(c.robs, s.ring) >= 2;
    } else if Empty(s.ring) && i.uop.Some? && i.uop.value.serial {
      assert Allocs(x) == 0 && x.retire == 0;
    }
  }

  lemma DrainFsmKeeps(c: Config, s: State, i: Input)
    requires Step(c, s, i) && RingInv(c.robs, s.ring) && FsmInv(c.robs, s) && s.fsm.Drain?
    ensures FsmInv(c.robs, Next(c, s, i))
  {
    LenAfter(c, s, i);
  }

  /** Serializing uops enter an empty ROB ... */
  lemma EnterFsmKeeps(c: Config, s: State, i: Input)
    requires Step(c, s, i) && Protocol(c, s, i) && RingInv(c.robs, s.ring) && FsmInv(c.robs, s) && ClassInv(c, s, Gpr)
    requires s.fsm.AllocForSerialize? || s.fsm.AllocForMonitor?
    ensures FsmInv(c.robs, Next(c, s, i))
  {
    if s.fsm.AllocForMonitor? { MonitorAllocates(c, s, i); }
    assert Comb(c, s, i).retire == 0 && Allocs(Comb(c, s, i)) == if AllocOne(c, s, i) then 1 else 0;
    LenAfter(c, s, i);
  }

  /** ... and stay in it alone. */
  lemma WaitFsmKeeps(c: Config, s: State, i: Input)
    requires Step(c, s, i) && RingInv(c.robs, s.ring) && FsmInv(c.robs, s)
    requires s.fsm.WaitForSerialize? || s.fsm.WaitForMonitor? || s.fsm.Monitor?
    ensures FsmInv(c.robs, Next(c, s, i))
  {
    assert Allocs(Comb(c, s, i)) == 0;
    LenAfter(c, s, i);
  }

  lemma FsmKeeps(c: Config, s: State, i: Input)
    requires Step(c, s, i) && Protocol(c, s, i) && RingInv(c.robs, s.ring) && FsmInv(c.robs, s) && ClassInv(c, s, Gpr)
    ensures FsmInv(c.robs, Next(c, s, i))
  {
    if s.fsm.Active? {
      ActiveFsmKeeps(c, s, i);
    } else if s.fsm.Drain? {
      DrainFsmKeeps(c, s, i);
    } else if s.fsm.AllocForSerialize? || s.fsm.AllocForMonitor? {
      EnterFsmKeeps(c, s, i);
    } else if s.fsm.WaitForSerialize? || s.fsm.WaitForMonitor? || s.fsm.Monitor? {
      WaitFsmKeeps(c, s, i);
    }
  }

  // ---------------------------------------------------------------- the invariant

  lemma RestoreStep(c: Config, s: State, i: Input)
    requires WellFormed(c) && Inv(c, s) && Protocol(c, s, i) && s.fsm.Rat?
    ensures Inv(c, Next(c, s, i))
  {
    var x, s' := Comb(c, s, i), Next(c, s, i);
    CombBounds(c, s, i);
    NextShape(c, s, i);
    FsmKeeps(c, s, i);
    assert Window(c.robs, s'.ring) == [];
    forall k: Class ensures ClassInv(c, s', k) && HistoryInv(c, s', k) {
      assert ClassInv(c, s, k) && FileShape(c, s.files, k);
      ClassShape(c, s, x, k);
      RestoreKeeps(Regs(c, k), Pow2(Lg(c, k)), FileOf(s.files, k), Dests(Window(c.robs, s.ring), k));
      HistoryKeeps(c, s, None, None, k);
    }
  }

  lemma ClassAfter(c: Config, s: State, i: Input, k: Class)
    requires Step(c, s, i) && RingInv(c.robs, s.ring) && FsmInv(c.robs, s) && !s.fsm.Rat?
    requires ClassInv(c, s, k) && !SerializeClash(c, s, i)
    ensures RingInv(c.robs, Next(c, s, i).ring) && ClassInv(c, Next(c, s, i), k)
  {
    var x := Comb(c, s, i);
    CombBounds(c, s, i);
    CombGood(c, s, i, k);
    ClassShape(c, s, x, k);
    ClassKeeps(c, s, x, i.done, k);
  }

  lemma HistoryAfter(c: Config, s: State, i: Input, k: Class)
    requires Step(c, s, i) && RingInv(c.robs, s.ring) && !s.fsm.Rat? && HistoryInv(c, s, k)
    ensures HistoryInv(c, Next(c, s, i), k)
  {
    var x := Comb(c, s, i);
    ClassShape(c, s, x, k);
    HistoryKeeps(c, s, Retired1(c, s, x.retire), Retired2(c, s, x.retire), k);
  }

  lemma OrdinaryStep(c: Config, s: State, i: Input)
    requires WellFormed(c) && Inv(c, s) && Protocol(c, s, i) && !s.fsm.Rat? && !SerializeClash(c, s, i)
    ensures Inv(c, Next(c, s, i))
  {
    var x, s' := Comb(c, s, i), Next(c, s, i);
    CombBounds(c, s, i);
    NextShape(c, s, i);
    FsmKeeps(c, s, i);
    RingPointers(c, s.ring, x, i.done);
    DeadStep(c, s, x, i.done);
    forall k: Class ensures ClassInv(c, s', k) && HistoryInv(c, s', k) {
      ClassAfter(c, s, i, k);
      HistoryAfter(c, s, i, k);
    }
  }

  /** The one entry in the ROB after a serializing uop was allocated. */
  lemma SerializeWindow(c: Config, s: State, i: Input)
    requires Step(c, s, i) && RingInv(c.robs, s.ring) && FsmInv(c.robs, s) && !s.fsm.Active? && AllocOne(c, s, i)
    ensures var s' := Next(c, s, i);
            && Window(c.robs, s.ring) == [] && Comb(c, s, i).retire == 0 && Comb(c, s, i).a2.None?
            && RingInv(c.robs, s'.ring) && Window(c.robs, s'.ring) == [FirstDest(c, s, i.uop.value)]
  {
    CombBounds(c, s, i);
    RingFlags(c.robs, s.ring);
    WindowStep(c, s.ring, Comb(c, s, i), i.done);
  }

  lemma SerializeFile(c: Config, s: State, i: Input)
    requires Step(c, s, i) && FsmInv(c.robs, s) && !s.fsm.Active? && AllocOne(c, s, i) && i.uop.value.dst.Some?
    ensures var k := i.uop.value.dst.value.cls;
            var d := FirstDest(c, s, i.uop.value).value.d;
            FileShape(c, s.files, k) && d.ldst < Regs(c, k) && FileOf(Next(c, s, i).files, k) == Alloc(FileOf(s.files, k), d)
  {
    var k := i.uop.value.dst.value.cls;
    assert FileShape(c, s.files, k);
    ClassShape(c, s, Comb(c, s, i), k);
  }

  lemma UsedRegisterBreaks(regs: nat, size: nat, f: File, d: Dest)
    requires FileInv(regs, size, f, []) && d.ldst < regs && d.pdst < size && d.prev == f.rat[d.ldst] && !f.free[d.pdst]
    ensures !FileInv(regs, size, Alloc(f, d), [d])
  {
    AllocKeeps(regs, size, f, [], d);
    assert [] + [d] == [d];
  }

  lemma DestsSingle(k: Class, d: Dest)
    ensures Dests([Some(Dst(k, d))], k) == [d]
  {
    assert [Some(Dst(k, d))][1..] == [];
  }

  /** A serializing uop that takes a register in use breaks conservation. */
  lemma ClashBreaks(c: Config, s: State, i: Input)
    requires Step(c, s, i) && RingInv(c.robs, s.ring) && FsmInv(c.robs, s) && SerializeClash(c, s, i)
    requires ClassInv(c, s, i.uop.value.dst.value.cls)
    ensures RingInv(c.robs, Next(c, s, i).ring) && !ClassInv(c, Next(c, s, i), i.uop.value.dst.value.cls)
  {
    var k := i.uop.value.dst.value.cls;
    SerializeWindow(c, s, i);
    SerializeFile(c, s, i);
    var d := FirstDest(c, s, i.uop.value).value.d;
    UsedRegisterBreaks(Regs(c, k), Pow2(Lg(c, k)), FileOf(s.files, k), d);
    DestsSingle(k, d);
  }

  /** The invariant survives a cycle exactly when no serializing uop is given a register in use. */
  lemma KeepsInvariant(c: Config, s: State, i: Input)
    requires WellFormed(c) && Inv(c, s) && Protocol(c, s, i)
    ensures Inv(c, Next(c, s, i)) <==> !SerializeClash(c, s, i)
  {
    if s.fsm.Rat? {
      RestoreStep(c, s, i);
    } else if SerializeClash(c, s, i) {
      assert ClassInv(c, s, i.uop.value.dst.value.cls);
      ClashBreaks(c, s, i);
    } else {
      OrdinaryStep(c, s, i);
    }
  }
}
