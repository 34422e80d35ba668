/** Step lemmas for allocation, retirement and recovery. */
module RenameProof {
  import opened Bits
  import opened PriorityEncoder
  import opened MemoryTypes
  import opened Rings
  import opened RegisterFile
  import opened Rename
  import opened RenameInvariant

  // ---------------------------------------------------------------- the ring

  /** The flags computed from pointer bits mean what their names say. */
  lemma RingFlags(n: nat, r: Ring)
    requires RingInv(n, r)
    ensures Empty(r) <==> Len(n, r) == 0
    ensures NextEmpty(r) <==> Len(n, r) == 1
    ensures Full(n, r) <==> Len(n, r) == n
    ensures NextFull(n, r) <==> Len(n, r) == n - 1
  {
  }

  lemma RingPointers(c: Config, r: Ring, x: Ctl, done: map<nat, Completion>)
    requires RingInv(c.robs, r) && x.retire <= 2 && !x.restore && (x.a2.Some? ==> x.a1.Some?)
    requires x.retire <= Len(c.robs, r) && Len(c.robs, r) + Allocs(x) <= c.robs
    ensures var r' := NextRing(c, r, x, done);
            RingInv(c.robs, r') && Len(c.robs, r') == Len(c.robs, r) + Allocs(x) - x.retire
  {
    SpanMoves(c.robs, r.head, r.tail, x.retire, Allocs(x));
    AdvanceTwice(c.robs, r.head, 1, x.retire);
    AdvanceTwice(c.robs, r.tail, 1, Allocs(x));
  }

  /** The destinations that an allocation appends. */
  function Appended(x: Ctl): seq<Option<Dst>> { DstList(x.a1) + DstList(x.a2) }

  lemma SlotFacts(n: nat, r: Ring, j: nat)
    requires RingInv(n, r) && j < n
    ensures SlotAt(n, r.head, 0) == Slot(n, r.head)
    ensures SlotAt(n, r.head, 1) == Slot(n, r.nextHead)
    ensures SlotAt(n, r.head, j) == Slot(n, r.tail) <==> (j == Len(n, r) || (j == 0 && Len(n, r) == n))
    ensures Len(n, r) < n ==> (SlotAt(n, r.head, j) == Slot(n, r.nextTail) <==> j == Len(n, r) + 1 || (j == 0 && Len(n, r) + 1 == n))
  {
  }

  lemma WindowEntry(c: Config, r: Ring, x: Ctl, done: map<nat, Completion>, j: nat)
    requires RingInv(c.robs, r) && x.retire <= 2 && !x.restore && (x.a2.Some? ==> x.a1.Some?)
    requires Len(c.robs, r) + Allocs(x) <= c.robs && j < Len(c.robs, r) + Allocs(x)
    ensures NextSlots(c, r, x, done)[SlotAt(c.robs, r.head, j)].dst == (Window(c.robs, r) + Appended(x))[j]
  {
    SlotFacts(c.robs, r, j);
  }

  lemma WindowMoves(c: Config, r: Ring, x: Ctl, done: map<nat, Completion>, j: nat)
    requires RingInv(c.robs, r) && x.retire <= 2 && !x.restore && (x.a2.Some? ==> x.a1.Some?)
    requires Len(c.robs, r) + Allocs(x) <= c.robs && j + x.retire < Len(c.robs, r) + Allocs(x)
    ensures NextRing(c, r, x, done).slots[SlotAt(c.robs, Advance(c.robs, r.head, x.retire), j)].dst ==
            (Window(c.robs, r) + Appended(x))[x.retire + j]
  {
    SlotMoves(c.robs, r.head, x.retire, j);
    WindowEntry(c, r, x, done, j + x.retire);
  }

  /** The live destinations of the next state: the new ones join, the retired ones leave. */
  lemma WindowStep(c: Config, r: Ring, x: Ctl, done: map<nat, Completion>)
    requires RingInv(c.robs, r) && x.retire <= 2 && !x.restore && (x.a2.Some? ==> x.a1.Some?)
    requires x.retire <= Len(c.robs, r) && Len(c.robs, r) + Allocs(x) <= c.robs
    ensures var r' := NextRing(c, r, x, done);
            RingInv(c.robs, r') && Window(c.robs, r') == (Window(c.robs, r) + Appended(x))[x.retire..]
  {
    RingPointers(c, r, x, done);
    var r' := NextRing(c, r, x, done);
    var w := Window(c.robs, r) + Appended(x);
    assert |Window(c.robs, r')| == |w[x.retire..]|;
    forall j | 0 <= j < Len(c.robs, r') ensures Window(c.robs, r')[j] == w[x.retire..][j] {
      WindowMoves(c, r, x, done, j);
    }
  }

  lemma DeadStep(c: Config, s: State, x: Ctl, done: map<nat, Completion>)
    requires RingInv(c.robs, s.ring) && DeadInv(c.robs, s.ring, s.dead)
    requires x.retire <= 2 && !x.restore && (x.a2.Some? ==> x.a1.Some?)
    requires x.retire <= Len(c.robs, s.ring) && Len(c.robs, s.ring) + Allocs(x) <= c.robs
    ensures DeadInv(c.robs, NextRing(c, s.ring, x, done), NextDead(c, s, x))
  {
    var r' := NextRing(c, s.ring, x, done);
    RingPointers(c, s.ring, x, done);
    forall k | 0 <= k < c.robs
      ensures NextDead(c, s, x)[k] <==> Offset(c.robs, r'.head, k) < Len(c.robs, r')
    {
      OffsetMoves(c.robs, s.ring.head, x.retire, k);
      HeadOffsets(c.robs, s.ring, k);
      TailOffsets(c.robs, s.ring, k);
    }
  }

  lemma HeadOffsets(n: nat, r: Ring, k: nat)
    requires RingInv(n, r) && k < n
    ensures var j := Offset(n, r.head, k);
            (k == Slot(n, r.head) <==> j == 0) && (k == Slot(n, r.nextHead) <==> j == 1)
  {
  }

  lemma TailOffsets(n: nat, r: Ring, k: nat)
    requires RingInv(n, r) && k < n
    ensures var j := Offset(n, r.head, k);
            && (Len(n, r) < n ==> (k == Slot(n, r.tail) <==> j == Len(n, r)))
            && (Len(n, r) + 1 < n ==> (k == Slot(n, r.nextTail) <==> j == Len(n, r) + 1))
  {
  }

  // ---------------------------------------------------------------- projections

  lemma {:induction false} DestsAppend(a: seq<Option<Dst>>, b: seq<Option<Dst>>, k: Class)
    ensures Dests(a + b, k) == Dests(a, k) + Dests(b, k)
    decreases |a|
  {
    if a == [] {
      assert a + b == b;
    } else {
      assert (a + b)[1..] == a[1..] + b;
      DestsAppend(a[1..], b, k);
    }
  }

  function Listed(d: Option<Dest>): seq<Dest> { if d.Some? then [d.value] else [] }

  lemma DestsOne(e: Option<Entry>, k: Class)
    ensures Dests(DstList(e), k) == Listed(DestOf(e, k))
  {
    if e.Some? { assert DstList(e)[1..] == []; }
  }

  // ---------------------------------------------------------------- one register class

  ghost predicate GoodAllocs(regs: nat, size: nat, f: File, a1: Option<Dest>, a2: Option<Dest>) {
    && |f.rat| == regs && |f.free| == size
    && (a1.Some? ==> a1.value.ldst < regs && a1.value.pdst < size && a1.value.prev == f.rat[a1.value.ldst]
                     && f.free[a1.value.pdst])
    && (a2.Some? ==> a2.value.ldst < regs && a2.value.pdst < size && a2.value.prev == MapTo(f.rat, a1)[a2.value.ldst]
                     && f.free[a2.value.pdst] && (a1.Some? ==> a1.value.pdst != a2.value.pdst))
  }

  function AllocOpt(f: File, d: Option<Dest>): File { f.(rat := MapTo(f.rat, d), free := Taken(f.free, d)) }
  function RetireOpt(f: File, d: Option<Dest>): File {
    f.(rrat := MapTo(f.rrat, d), rfree := Given(Taken(f.rfree, d), d), free := Given(f.free, d))
  }

  /** A cycle that allocates and retires two is the same as four single steps. */
  lemma FourSteps(f: File, a1: Option<Dest>, a2: Option<Dest>, r1: Option<Dest>, r2: Option<Dest>)
    ensures NextFile(f, a1, a2, r1, r2, false) == RetireOpt(RetireOpt(AllocOpt(AllocOpt(f, a1), a2), r1), r2)
  {
  }

  lemma AllocOptKeeps(regs: nat, size: nat, f: File, ds: seq<Dest>, d: Option<Dest>)
    requires FileInv(regs, size, f, ds)
    requires d.Some? ==> d.value.ldst < regs && d.value.pdst < size && d.value.prev == f.rat[d.value.ldst]
                         && f.free[d.value.pdst]
    ensures FileInv(regs, size, AllocOpt(f, d), ds + Listed(d))
  {
    if d.Some? {
      AllocKeeps(regs, size, f, ds, d.value);
      assert AllocOpt(f, d) == Alloc(f, d.value);
    } else {
      assert ds + Listed(d) == ds;
    }
  }

  lemma RetireOptKeeps(regs: nat, size: nat, f: File, ds: seq<Dest>, d: Option<Dest>, rest: seq<Dest>)
    requires FileInv(regs, size, f, ds) && ds == Listed(d) + rest
    ensures FileInv(regs, size, RetireOpt(f, d), rest)
  {
    if d.Some? {
      RetireKeeps(regs, size, f, ds);
      assert ds[1..] == rest && ds[0] == d.value;
      assert RetireOpt(f, d) == Retire(f, d.value);
    } else {
      assert ds == rest;
    }
  }

  lemma NextFileKeeps(regs: nat, size: nat, f: File, ds: seq<Dest>,
                      a1: Option<Dest>, a2: Option<Dest>, r1: Option<Dest>, r2: Option<Dest>, rest: seq<Dest>)
    requires FileInv(regs, size, f, ds) && GoodAllocs(regs, size, f, a1, a2)
    requires ds + Listed(a1) + Listed(a2) == Listed(r1) + (Listed(r2) + rest)
    ensures FileInv(regs, size, NextFile(f, a1, a2, r1, r2, false), rest)
  {
    var f1 := AllocOpt(f, a1);
    AllocOptKeeps(regs, size, f, ds, a1);
    var f2 := AllocOpt(f1, a2);
    AllocOptKeeps(regs, size, f1, ds + Listed(a1), a2);
    var f3 := RetireOpt(f2, r1);
    RetireOptKeeps(regs, size, f2, ds + Listed(a1) + Listed(a2), r1, Listed(r2) + rest);
    RetireOptKeeps(regs, size, f3, Listed(r2) + rest, r2, rest);
    FourSteps(f, a1, a2, r1, r2);
  }

  // ---------------------------------------------------------------- register selection

  /** A non-empty bank yields a free register of the right parity. */
  lemma PickFree(c: Config, s: State, k: Class, second: bool)
    requires WellFormed(c) && FileShape(c, s.files, k) && !IsZero(Candidates(s, k, second))
    ensures var p := Pick(c, s, k, second);
            && FileOf(s.files, k).free[p]
            && (k.Gpr? || k.Fp? ==> (p % 2 == 1) == (s.bank == second))
  {
    var b := Candidates(s, k, second);
    FindFirstSetIsHighest(Lg(c, k), b);
    assert AnySet(b);
    assert b[Pick(c, s, k, second)];
  }

  /** Paired allocations never collide: they come from banks of opposite parity. */
  lemma PicksDiffer(c: Config, s: State, k: Class)
    requires WellFormed(c) && FileShape(c, s.files, k) && (k.Gpr? || k.Fp?)
    requires !IsZero(Candidates(s, k, false)) && !IsZero(Candidates(s, k, true))
    ensures Pick(c, s, k, false) != Pick(c, s, k, true)
  {
    PickFree(c, s, k, false);
    PickFree(c, s, k, true);
  }

  lemma FirstGood(c: Config, s: State, u: Uop, k: Class)
    requires WellFormed(c) && Shape(c, s) && UopShape(c, u)
    requires u.dst.Some? ==> FileOf(s.files, u.dst.value.cls).free[Pick(c, s, u.dst.value.cls, false)]
    ensures FileShape(c, s.files, k)
    ensures GoodAllocs(Regs(c, k), Pow2(Lg(c, k)), FileOf(s.files, k),
                       DestOf(Some(NewEntry(u, FirstDest(c, s, u), s.inDs)), k), None)
  {
    assert FileShape(c, s.files, k);
  }

  /** The second slot sees the map as the first slot leaves it. */
  lemma BypassIsSequential(s: State, first: Option<Dst>, k: Class, l: nat)
    requires l < |FileOf(s.files, k).rat|
    ensures Bypassed(s, first, k, l) ==
            MapTo(FileOf(s.files, k).rat, if first.Some? && first.value.cls == k then Some(first.value.d) else None)[l]
  {
  }

  lemma SecondGood(c: Config, s: State, first: Option<Dst>, u2: Uop)
    requires WellFormed(c) && Shape(c, s) && UopShape(c, u2) && EnoughNext(s, u2) && u2.dst.Some?
    ensures FileShape(c, s.files, u2.dst.value.cls)
    ensures var k := u2.dst.value.cls;
            var f := FileOf(s.files, k);
            var d := SecondDest(c, s, first, u2).value.d;
            var a1 := if first.Some? && first.value.cls == k then Some(first.value.d) else None;
            d.ldst < Regs(c, k) && d.pdst < Pow2(Lg(c, k)) && d.prev == MapTo(f.rat, a1)[d.ldst] && f.free[d.pdst]
  {
    var k := u2.dst.value.cls;
    assert FileShape(c, s.files, k);
    PickFree(c, s, k, true);
    BypassIsSequential(s, first, k, u2.dst.value.ldst);
  }

  lemma JoinGood(regs: nat, size: nat, f: File, a1: Option<Dest>, d: Dest)
    requires GoodAllocs(regs, size, f, a1, None)
    requires d.ldst < regs && d.pdst < size && d.prev == MapTo(f.rat, a1)[d.ldst] && f.free[d.pdst]
    requires a1.Some? ==> a1.value.pdst != d.pdst
    ensures GoodAllocs(regs, size, f, a1, Some(d))
  {
  }

  lemma PairDiffers(c: Config, s: State, u: Uop, u2: Uop)
    requires WellFormed(c) && Shape(c, s) && UopShape(c, u) && UopShape(c, u2)
    requires Enough(s, u) && EnoughNext(s, u2) && u.dst.Some? && u2.dst.Some? && u.dst.value.cls == u2.dst.value.cls
    ensures FirstDest(c, s, u).value.d.pdst != SecondDest(c, s, FirstDest(c, s, u), u2).value.d.pdst
  {
    assert FileShape(c, s.files, u.dst.value.cls);
    PicksDiffer(c, s, u.dst.value.cls);
  }

  /** The two destinations of a cycle that fall into one class. */
  lemma PairGood(c: Config, s: State, u: Uop, u2: Uop)
    requires WellFormed(c) && Shape(c, s) && UopShape(c, u) && UopShape(c, u2)
    requires Enough(s, u) && EnoughNext(s, u2) && u2.dst.Some?
    ensures FileShape(c, s.files, u2.dst.value.cls)
    ensures var k, d1 := u2.dst.value.cls, FirstDest(c, s, u);
            GoodAllocs(Regs(c, k), Pow2(Lg(c, k)), FileOf(s.files, k),
                       DestOf(Some(NewEntry(u, d1, s.inDs)), k), Some(SecondDest(c, s, d1, u2).value.d))
  {
    var k, d1 := u2.dst.value.cls, FirstDest(c, s, u);
    EnoughIsGood(c, s, u, k);
    SecondGood(c, s, d1, u2);
    if u.dst.Some? && u.dst.value.cls == k { PairDiffers(c, s, u, u2); }
    JoinGood(Regs(c, k), Pow2(Lg(c, k)), FileOf(s.files, k), DestOf(Some(NewEntry(u, d1, s.inDs)), k),
             SecondDest(c, s, d1, u2).value.d);
  }

  lemma EnoughIsGood(c: Config, s: State, u: Uop, k: Class)
    requires WellFormed(c) && Shape(c, s) && UopShape(c, u) && Enough(s, u)
    ensures FileShape(c, s.files, k)
    ensures GoodAllocs(Regs(c, k), Pow2(Lg(c, k)), FileOf(s.files, k),
                       DestOf(Some(NewEntry(u, FirstDest(c, s, u), s.inDs)), k), None)
  {
    if u.dst.Some? {
      assert FileShape(c, s.files, u.dst.value.cls);
      PickFree(c, s, u.dst.value.cls, false);
    }
    FirstGood(c, s, u, k);
  }
}
