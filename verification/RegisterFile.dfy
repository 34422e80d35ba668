/**
  One renamed register class (core.sv): the speculative and the retired map, their free lists, and
  the destinations of the instructions that are in flight between the two.
 */
module RegisterFile {

  /** r_alloc_rat, r_prf_free, r_retire_rat and r_retire_prf_free of one class. */
  datatype File = File(rat: seq<nat>, free: seq<bool>, rrat: seq<nat>, rfree: seq<bool>)

  /** ldst, pdst and old_pdst of a ROB entry. */
  datatype Dest = Dest(ldst: nat, pdst: nat, prev: nat)

  // ---------------------------------------------------------------- one destination at a time

  /** Rename one destination: the map points to the new register, which leaves the free list. */
  function Alloc(f: File, d: Dest): File
    requires d.ldst < |f.rat| && d.pdst < |f.free|
  {
    f.(rat := f.rat[d.ldst := d.pdst], free := f.free[d.pdst := false])
  }

  /** Retire one destination: the retired map follows, and the overwritten register is free. */
  function Retire(f: File, d: Dest): File
    requires d.ldst < |f.rrat| && d.pdst < |f.rfree| && d.prev < |f.rfree| == |f.free|
  {
    f.(rrat := f.rrat[d.ldst := d.pdst], rfree := f.rfree[d.pdst := false][d.prev := true],
       free := f.free[d.prev := true])
  }

  /** Recovery: the speculative side becomes the retired side. */
  function Restore(f: File): File { f.(rat := f.rrat, free := f.rfree) }

  // ---------------------------------------------------------------- the invariant

  /** The map after the destinations `ds`, in order. */
  function Replay(map0: seq<nat>, ds: seq<Dest>): (m: seq<nat>)
    requires forall d :: d in ds ==> d.ldst < |map0|
    ensures |m| == |map0|
    decreases |ds|
  {
    if ds == [] then map0 else Replay(map0[ds[0].ldst := ds[0].pdst], ds[1..])
  }

  /** Every old_pdst is the mapping that its instruction overwrote. */
  ghost predicate OldOk(map0: seq<nat>, ds: seq<Dest>)
    requires forall d :: d in ds ==> d.ldst < |map0|
    decreases |ds|
  {
    ds == [] || (ds[0].prev == map0[ds[0].ldst] && OldOk(map0[ds[0].ldst := ds[0].pdst], ds[1..]))
  }

  function Olds(ds: seq<Dest>): multiset<nat> {
    if ds == [] then multiset{} else multiset{ds[0].prev} + Olds(ds[1..])
  }

  function News(ds: seq<Dest>): multiset<nat> {
    if ds == [] then multiset{} else multiset{ds[0].pdst} + News(ds[1..])
  }

  /** The registers in `used` are exactly the ones that are not free, each used once. */
  ghost predicate Complement(free: seq<bool>, used: multiset<nat>) {
    forall p: nat :: used[p] == if p < |free| && !free[p] then 1 else 0
  }

  ghost predicate FileInv(regs: nat, size: nat, f: File, ds: seq<Dest>) {
    && |f.rat| == |f.rrat| == regs && |f.free| == |f.rfree| == size
    && (forall d :: d in ds ==> d.ldst < regs)
    && f.rat == Replay(f.rrat, ds)
    && OldOk(f.rrat, ds)
    && Complement(f.free, multiset(f.rat) + Olds(ds))
    && Complement(f.rfree, multiset(f.rrat))
  }

  // ---------------------------------------------------------------- lemmas

  lemma {:induction false} ReplayAppend(map0: seq<nat>, ds: seq<Dest>, d: Dest)
    requires forall x :: x in ds + [d] ==> x.ldst < |map0|
    ensures Replay(map0, ds + [d]) == Replay(map0, ds)[d.ldst := d.pdst]
    ensures OldOk(map0, ds) && d.prev == Replay(map0, ds)[d.ldst] ==> OldOk(map0, ds + [d])
    decreases |ds|
  {
    if ds == [] {
      assert ds + [d] == [d];
      assert [d][1..] == [];
    } else {
      assert (ds + [d])[1..] == ds[1..] + [d];
      ReplayAppend(map0[ds[0].ldst := ds[0].pdst], ds[1..], d);
    }
  }

  lemma {:induction false} BagsAppend(ds: seq<Dest>, d: Dest)
    ensures Olds(ds + [d]) == Olds(ds) + multiset{d.prev} && News(ds + [d]) == News(ds) + multiset{d.pdst}
  {
    if ds == [] {
      assert [d][1..] == [];
      assert ds + [d] == [d];
    } else {
      assert (ds + [d])[1..] == ds[1..] + [d];
      BagsAppend(ds[1..], d);
    }
  }

  /** Replaying trades the overwritten registers for the new ones. */
  lemma {:induction false} Exchange(map0: seq<nat>, ds: seq<Dest>)
    requires (forall d :: d in ds ==> d.ldst < |map0|) && OldOk(map0, ds)
    ensures multiset(Replay(map0, ds)) + Olds(ds) == multiset(map0) + News(ds)
    decreases |ds|
  {
    if ds != [] {
      var d, rest := ds[0], ds[1..];
      var map1 := map0[d.ldst := d.pdst];
      Exchange(map1, rest);
      assert multiset(map1) == multiset(map0) - multiset{d.prev} + multiset{d.pdst};
      assert d.prev in multiset(map0);
      Trade(multiset(map0), multiset(map1), multiset(Replay(map1, rest)), Olds(rest), News(rest), d.prev, d.pdst);
    }
  }

  lemma Trade(m0: multiset<nat>, m1: multiset<nat>, m: multiset<nat>, olds: multiset<nat>, news: multiset<nat>,
              x: nat, y: nat)
    requires m + olds == m1 + news && x in m0 && m1 == m0 - multiset{x} + multiset{y}
    ensures m + (multiset{x} + olds) == m0 + (multiset{y} + news)
  {
    forall p: nat ensures (m + (multiset{x} + olds))[p] == (m0 + (multiset{y} + news))[p] {
      assert (m + olds)[p] == (m1 + news)[p];
    }
  }

  /** What is mapped or pending is what is mapped by retirement or newly assigned. */
  lemma UsedTwoWays(regs: nat, size: nat, f: File, ds: seq<Dest>)
    requires FileInv(regs, size, f, ds)
    ensures Complement(f.free, multiset(f.rrat) + News(ds))
  {
    Exchange(f.rrat, ds);
  }

  lemma TakeOne(free: seq<bool>, used: multiset<nat>, p: nat)
    requires Complement(free, used) && p < |free| && free[p]
    ensures Complement(free[p := false], used + multiset{p})
  {
  }

  lemma GiveOne(free: seq<bool>, used: multiset<nat>, p: nat)
    requires Complement(free, used) && p in used
    ensures p < |free| && Complement(free[p := true], used - multiset{p})
  {
  }

  /** Taking a register that is not free breaks the complement. */
  lemma TakeUsedOne(free: seq<bool>, used: multiset<nat>, p: nat)
    requires Complement(free, used) && p < |free| && !free[p]
    ensures !Complement(free[p := false], used + multiset{p})
  {
    assert (used + multiset{p})[p] == 2;
  }

  lemma AllocBags(f: File, ds: seq<Dest>, d: Dest)
    requires d.ldst < |f.rat| && d.prev == f.rat[d.ldst]
    ensures multiset(f.rat[d.ldst := d.pdst]) + Olds(ds + [d]) == multiset(f.rat) + Olds(ds) + multiset{d.pdst}
  {
    BagsAppend(ds, d);
    assert d.prev in multiset(f.rat);
  }

  /** Renaming keeps the invariant exactly when the chosen register was free. */
  lemma AllocKeeps(regs: nat, size: nat, f: File, ds: seq<Dest>, d: Dest)
    requires FileInv(regs, size, f, ds) && d.ldst < regs && d.pdst < size && d.prev == f.rat[d.ldst]
    ensures FileInv(regs, size, Alloc(f, d), ds + [d]) <==> f.free[d.pdst]
  {
    ReplayAppend(f.rrat, ds, d);
    AllocBags(f, ds, d);
    var used := multiset(f.rat) + Olds(ds);
    if f.free[d.pdst] {
      TakeOne(f.free, used, d.pdst);
    } else {
      TakeUsedOne(f.free, used, d.pdst);
    }
  }

  lemma RetireTail(map0: seq<nat>, ds: seq<Dest>)
    requires ds != [] && (forall d :: d in ds ==> d.ldst < |map0|) && OldOk(map0, ds)
    ensures var map1 := map0[ds[0].ldst := ds[0].pdst];
            ds[0].prev == map0[ds[0].ldst] && Replay(map1, ds[1..]) == Replay(map0, ds) && OldOk(map1, ds[1..])
  {
  }

  /** The new register of the oldest destination is free on the retired side and overwrites
      another one. */
  lemma HeadFresh(regs: nat, size: nat, f: File, ds: seq<Dest>)
    requires FileInv(regs, size, f, ds) && ds != []
    ensures ds[0].pdst < size && f.rfree[ds[0].pdst] && ds[0].prev < size && ds[0].prev != ds[0].pdst
  {
    var d := ds[0];
    UsedTwoWays(regs, size, f, ds);
    var used := multiset(f.rrat) + News(ds);
    assert used[d.pdst] == multiset(f.rrat)[d.pdst] + News(ds)[d.pdst];
    assert d.prev in multiset(f.rrat);
    assert multiset(f.rrat)[d.pdst] == 0;
  }

  lemma RetiredSide(regs: nat, size: nat, f: File, ds: seq<Dest>)
    requires FileInv(regs, size, f, ds) && ds != []
    ensures ds[0].pdst < size && ds[0].prev < size
    ensures Complement(f.rfree[ds[0].pdst := false][ds[0].prev := true],
                       multiset(f.rrat[ds[0].ldst := ds[0].pdst]))
  {
    var d := ds[0];
    HeadFresh(regs, size, f, ds);
    var used := multiset(f.rrat);
    TakeOne(f.rfree, used, d.pdst);
    assert d.prev in used;
    GiveOne(f.rfree[d.pdst := false], used + multiset{d.pdst}, d.prev);
    assert multiset(f.rrat[d.ldst := d.pdst]) == used + multiset{d.pdst} - multiset{d.prev};
  }

  /** Retiring the oldest destination keeps the invariant. */
  lemma RetireKeeps(regs: nat, size: nat, f: File, ds: seq<Dest>)
    requires FileInv(regs, size, f, ds) && ds != []
    ensures ds[0].ldst < regs && ds[0].pdst < size && ds[0].prev < size
    ensures FileInv(regs, size, Retire(f, ds[0]), ds[1..])
  {
    var d := ds[0];
    RetiredSide(regs, size, f, ds);
    RetireTail(f.rrat, ds);
    var used := multiset(f.rat) + Olds(ds);
    GiveOne(f.free, used, d.prev);
    assert used - multiset{d.prev} == multiset(f.rat) + Olds(ds[1..]);
  }

  /** Dropping every pending destination and restoring the retired side keeps the invariant. */
  lemma RestoreKeeps(regs: nat, size: nat, f: File, ds: seq<Dest>)
    requires FileInv(regs, size, f, ds)
    ensures FileInv(regs, size, Restore(f), [])
  {
    assert multiset(f.rrat) + Olds([]) == multiset(f.rrat);
  }

  // ---------------------------------------------------------------- consequences

  lemma RepeatedTwice(m: seq<nat>, j: nat, k: nat)
    requires j < k < |m| && m[j] == m[k]
    ensures multiset(m)[m[j]] >= 2
  {
    assert m == m[..k] + [m[k]] + m[k + 1..];
    assert m[..k][j] == m[j] && m[j] in multiset(m[..k]);
  }

  /** An invariant map is injective and points at registers that are not free. */
  lemma Injective(free: seq<bool>, m: seq<nat>, more: multiset<nat>, j: nat, k: nat)
    requires Complement(free, multiset(m) + more) && j < k < |m|
    ensures m[j] != m[k] && m[j] < |free| && !free[m[j]]
  {
    var used := multiset(m) + more;
    assert m[j] in multiset(m) && used[m[j]] > 0;
    if m[k] == m[j] { RepeatedTwice(m, j, k); }
  }

  lemma {:induction false} ReplayPrefix(map0: seq<nat>, ds: seq<Dest>, k: nat)
    requires (forall d :: d in ds ==> d.ldst < |map0|) && k <= |ds| && OldOk(map0, ds)
    ensures (forall d :: d in ds[..k] ==> d.ldst < |map0|) && OldOk(map0, ds[..k])
    ensures k < |ds| ==> ds[k].prev == Replay(map0, ds[..k])[ds[k].ldst]
    ensures News(ds[..k]) <= News(ds)
    decreases |ds|
  {
    if k > 0 {
      var map1 := map0[ds[0].ldst := ds[0].pdst];
      assert ds[..k][1..] == ds[1..][..k - 1];
      ReplayPrefix(map1, ds[1..], k - 1);
    } else {
      assert ds[..0] == [];
    }
  }

  /** Each old_pdst is the mapping of its register just before its instruction. */
  lemma OldIsMappingBefore(regs: nat, size: nat, f: File, ds: seq<Dest>, k: nat)
    requires FileInv(regs, size, f, ds) && k < |ds|
    ensures (forall d :: d in ds[..k] ==> d.ldst < regs) && ds[k].prev == Replay(f.rrat, ds[..k])[ds[k].ldst]
  {
    ReplayPrefix(f.rrat, ds, k);
  }

  /** A register that some point of the window maps is on neither side of the free list: whoever
      was renamed at that point can still read it. */
  lemma SourcesStayAllocated(regs: nat, size: nat, f: File, ds: seq<Dest>, k: nat, l: nat)
    requires FileInv(regs, size, f, ds) && k <= |ds| && l < regs
    ensures (forall d :: d in ds[..k] ==> d.ldst < regs)
    ensures var p := Replay(f.rrat, ds[..k])[l]; p < size && !f.free[p]
  {
    ReplayPrefix(f.rrat, ds, k);
    Exchange(f.rrat, ds[..k]);
    UsedTwoWays(regs, size, f, ds);
    var m := Replay(f.rrat, ds[..k]);
    var p := m[l];
    assert p in multiset(m);
    assert p in multiset(f.rrat) + News(ds[..k]);
    assert p in multiset(f.rrat) + News(ds);
  }
}
