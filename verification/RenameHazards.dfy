/**
  Serializing uops can be given a register in use (core.sv): for every core with twice as many physical
  as logical integer registers, a run from reset that maps every logical register to an even physical
  one and then allocates a serializing uop in an even turn.
 */
module RenameHazards {
  import opened Bits
  import opened PriorityEncoder
  import opened MemoryTypes
  import opened Rings
  import opened RegisterFile
  import opened Rename
  import opened RenameInvariant
  import opened RenameProof
  import opened RenameTheorems
  import opened RenameRuns

  /** The machine's ratio of physical to logical registers, in files of at least eight. */
  ghost predicate Doubled(c: Config) { WellFormed(c) && c.lgPrf >= 3 && Pow2(c.lgPrf) == 2 * c.regs }

  /** Half of the logical registers are odd. */
  lemma Halves(c: Config)
    requires Doubled(c)
    ensures c.regs == 2 * (c.regs / 2) && c.regs >= 4
  {
    assert Pow2(c.lgPrf) == 4 * Pow2(c.lgPrf - 2);
    assert Pow2(c.lgPrf - 2) == 2 * Pow2(c.lgPrf - 3);
  }

  // ---------------------------------------------------------------- inputs

  const NO_INPUT: Input := Input(None, None, false, false, false, false, false, false, map[])

  function Writes(l: nat): Uop {
    Uop(Some(Rename.Target(Gpr, l)), false, false, false, false, false, false, false, false, false, false, false)
  }

  /** A uop that writes logical register l, the completion of a ROB entry, and a serializing uop. */
  function Allocate(l: nat): Input { NO_INPUT.(uop := Some(Writes(l))) }
  function Complete(slot: nat): Input { NO_INPUT.(done := map[slot := Completion(true, false, false, false)]) }
  const SERIALIZE: Input := NO_INPUT.(uop := Some(Writes(0).(serial := true)))

  // ---------------------------------------------------------------- what the rounds establish

  /** After j rounds the even free registers are the lowest ones of the upper half, and the odd logical
      registers from 2j + 1 on are still where reset put them. */
  ghost predicate Rounds(c: Config, f: File, j: nat) {
    && |f.free| == 2 * c.regs && |f.rat| == c.regs
    && (forall p :: 0 <= p < |f.free| && p % 2 == 0 ==> (f.free[p] <==> c.regs <= p < 2 * c.regs - 2 * j))
    && (forall l :: 2 * j < l < |f.rat| && l % 2 == 1 ==> f.rat[l] == l)
  }

  /** The destination that round j renames. */
  function Moved(c: Config, j: nat): Option<Dst>
    requires 2 * j + 1 < c.regs
  {
    Some(Dst(Gpr, Dest(2 * j + 1, 2 * c.regs - 2 - 2 * j, 2 * j + 1)))
  }

  /** Between two rounds. */
  ghost predicate Calm(c: Config, s: State, j: nat, bank: bool) {
    Inv(c, s) && s.fsm.Active? && s.bank == bank && Empty(s.ring) && Rounds(c, s.files.gpr, j)
  }

  /** Within round j: the entry that renamed register 2j + 1 is the only one in the ROB. */
  ghost predicate Pending(c: Config, s: State, j: nat, bank: bool, complete: bool) {
    && Inv(c, s) && s.fsm.Active? && s.bank == bank && Len(c.robs, s.ring) == 1
    && s.complete[Slot(c.robs, s.ring.head)] == complete && Rounds(c, s.files.gpr, j + 1)
    && 2 * j + 1 < c.regs && !Head(c.robs, s.ring).faulted && Head(c.robs, s.ring).dst == Moved(c, j)
  }

  lemma TopEven(c: Config, f: File, j: nat, b: seq<bool>, y: nat)
    requires Rounds(c, f, j) && 2 * j + 1 < c.regs && c.regs % 2 == 0
    requires |b| == |f.free| && (forall p :: 0 <= p < |b| ==> (b[p] <==> f.free[p] && p % 2 == 0)) && IsHighest(b, y)
    ensures y == 2 * c.regs - 2 - 2 * j
  {
    var top := 2 * c.regs - 2 - 2 * j;
    assert f.free[top] && b[top];
    assert f.free[y];
  }

  /** In an even turn the encoder finds the highest even free register. */
  lemma EvenPick(c: Config, s: State, j: nat)
    requires Doubled(c) && Shape(c, s) && s.bank && Rounds(c, s.files.gpr, j) && 2 * j < c.regs
    ensures FileShape(c, s.files, Gpr)
    ensures Pick(c, s, Gpr, false) == 2 * c.regs - 2 - 2 * j && !IsZero(Candidates(s, Gpr, false))
  {
    Halves(c);
    assert FileShape(c, s.files, Gpr);
    var b := Candidates(s, Gpr, false);
    assert s.files.gpr.free[2 * c.regs - 2 - 2 * j];
    assert b[2 * c.regs - 2 - 2 * j];
    assert AnySet(b);
    FindFirstSetIsHighest(c.lgPrf, b);
    TopEven(c, s.files.gpr, j, b, FindFirstSet(c.lgPrf, b));
  }

  lemma AllocComb(c: Config, s: State, j: nat)
    requires Doubled(c) && Calm(c, s, j, true) && 2 * j < c.regs
    ensures 2 * j + 1 < c.regs && InputShape(c, Allocate(2 * j + 1))
    ensures Comb(c, s, Allocate(2 * j + 1)) ==
            Ctl(Some(NewEntry(Writes(2 * j + 1), Moved(c, j), s.inDs)), None, 0, false)
  {
    Halves(c);
    EvenPick(c, s, j);
    RingFlags(c.robs, s.ring);
    assert s.files.gpr.rat[2 * j + 1] == 2 * j + 1;
    assert FirstDest(c, s, Writes(2 * j + 1)) == Moved(c, j);
  }

  /** Taking the highest even register is one round. */
  lemma TakeRound(c: Config, f: File, j: nat, f': File)
    requires Doubled(c) && Rounds(c, f, j) && 2 * j + 1 < c.regs
    requires f'.free == f.free[2 * c.regs - 2 - 2 * j := false] && f'.rat == f.rat[2 * j + 1 := 2 * c.regs - 2 - 2 * j]
    ensures Rounds(c, f', j + 1)
  {
    Halves(c);
  }

  /** Giving an odd register back does not concern the even ones. */
  lemma GiveOdd(c: Config, f: File, j: nat, f': File, p: nat)
    requires Rounds(c, f, j) && p % 2 == 1 && p < |f.free| && f'.free == f.free[p := true] && f'.rat == f.rat
    ensures Rounds(c, f', j)
  {
  }

  lemma GprAfter(c: Config, s: State, i: Input)
    requires Step(c, s, i)
    ensures Next(c, s, i).files.gpr == ClassStep(c, s, Comb(c, s, i), Gpr)
  {
    assert FileOf(NextFiles(c, s, Comb(c, s, i)), Gpr) == ClassStep(c, s, Comb(c, s, i), Gpr);
  }

  // ---------------------------------------------------------------- the cycles of a round

  lemma AllocStep(c: Config, s: State, e: Entry, d: Dest)
    requires RingShape(c.robs, s.ring) && e.dst == Some(Dst(Gpr, d)) && d.pdst < |s.files.gpr.free| && d.ldst < |s.files.gpr.rat|
    ensures var f := ClassStep(c, s, Ctl(Some(e), None, 0, false), Gpr);
            f.free == s.files.gpr.free[d.pdst := false] && f.rat == s.files.gpr.rat[d.ldst := d.pdst]
  {
  }

  lemma AllocFile(c: Config, s: State, j: nat)
    requires Doubled(c) && Calm(c, s, j, true) && 2 * j < c.regs
    ensures Step(c, s, Allocate(2 * j + 1)) && Rounds(c, Next(c, s, Allocate(2 * j + 1)).files.gpr, j + 1)
  {
    AllocComb(c, s, j);
    var e := NewEntry(Writes(2 * j + 1), Moved(c, j), s.inDs);
    var f' := ClassStep(c, s, Ctl(Some(e), None, 0, false), Gpr);
    AllocStep(c, s, e, Moved(c, j).value.d);
    TakeRound(c, s.files.gpr, j, f');
    GprAfter(c, s, Allocate(2 * j + 1));
  }

  lemma AllocCycle(c: Config, s: State, j: nat)
    requires Doubled(c) && Calm(c, s, j, true) && 2 * j < c.regs
    ensures Allowed(c, s, Allocate(2 * j + 1)) && Pending(c, Next(c, s, Allocate(2 * j + 1)), j, false, false)
  {
    AllocComb(c, s, j);
    AllocFile(c, s, j);
    KeepsInvariant(c, s, Allocate(2 * j + 1));
    RingPointers(c, s.ring, Comb(c, s, Allocate(2 * j + 1)), map[]);
  }

  lemma CompleteCycle(c: Config, s: State, j: nat)
    requires Doubled(c) && Pending(c, s, j, false, false)
    ensures var i := Complete(Slot(c.robs, s.ring.head));
            Allowed(c, s, i) && Pending(c, Next(c, s, i), j, true, true)
  {
    var i := Complete(Slot(c.robs, s.ring.head));
    RingFlags(c.robs, s.ring);
    assert Comb(c, s, i) == Ctl(None, None, 0, false);
    KeepsInvariant(c, s, i);
    GprAfter(c, s, i);
  }

  lemma RetireComb(c: Config, s: State, j: nat)
    requires Doubled(c) && Pending(c, s, j, true, true)
    ensures Comb(c, s, NO_INPUT) == Ctl(None, None, 1, false)
  {
    RingFlags(c.robs, s.ring);
  }

  lemma RetireStep(c: Config, s: State, d: Dest)
    requires RingShape(c.robs, s.ring) && Head(c.robs, s.ring).dst == Some(Dst(Gpr, d)) && d.prev < |s.files.gpr.free|
    ensures var f := ClassStep(c, s, Ctl(None, None, 1, false), Gpr);
            f.free == s.files.gpr.free[d.prev := true] && f.rat == s.files.gpr.rat
  {
  }

  lemma RetireFile(c: Config, s: State, j: nat)
    requires Doubled(c) && Pending(c, s, j, true, true)
    ensures Rounds(c, Next(c, s, NO_INPUT).files.gpr, j + 1)
  {
    RetireComb(c, s, j);
    RetireStep(c, s, Moved(c, j).value.d);
    GiveOdd(c, s.files.gpr, j + 1, ClassStep(c, s, Ctl(None, None, 1, false), Gpr), 2 * j + 1);
    GprAfter(c, s, NO_INPUT);
  }

  lemma RetireCycle(c: Config, s: State, j: nat)
    requires Doubled(c) && Pending(c, s, j, true, true)
    ensures Allowed(c, s, NO_INPUT) && Calm(c, Next(c, s, NO_INPUT), j + 1, false)
  {
    RetireComb(c, s, j);
    RetireFile(c, s, j);
    KeepsInvariant(c, s, NO_INPUT);
    RingPointers(c, s.ring, Comb(c, s, NO_INPUT), map[]);
    RingFlags(c.robs, Next(c, s, NO_INPUT).ring);
  }

  lemma IdleCycle(c: Config, s: State, j: nat, bank: bool)
    requires Doubled(c) && Calm(c, s, j, bank)
    ensures Allowed(c, s, NO_INPUT) && Calm(c, Next(c, s, NO_INPUT), j, !bank)
  {
    assert Comb(c, s, NO_INPUT) == Ctl(None, None, 0, false);
    KeepsInvariant(c, s, NO_INPUT);
    GprAfter(c, s, NO_INPUT);
  }

  // ---------------------------------------------------------------- the clash

  /** Every even register is in use, it is the even bank's turn and a serializing uop may enter. */
  ghost predicate Cornered(c: Config, s: State) {
    Inv(c, s) && s.fsm.AllocForSerialize? && s.bank && Empty(s.ring) && Rounds(c, s.files.gpr, c.regs / 2)
  }

  lemma SerialCycle(c: Config, s: State)
    requires Doubled(c) && Calm(c, s, c.regs / 2, false)
    ensures Allowed(c, s, SERIALIZE) && Cornered(c, Next(c, s, SERIALIZE))
  {
    assert Comb(c, s, SERIALIZE) == Ctl(None, None, 0, false);
    KeepsInvariant(c, s, SERIALIZE);
    GprAfter(c, s, SERIALIZE);
  }

  lemma ClashNow(c: Config, s: State)
    requires Doubled(c) && Cornered(c, s)
    ensures Protocol(c, s, SERIALIZE) && SerializeClash(c, s, SERIALIZE)
  {
    Halves(c);
    assert FileShape(c, s.files, Gpr) && ClassInv(c, s, Gpr);
    RingFlags(c.robs, s.ring);
    assert Window(c.robs, s.ring) == [];
    FreeWhenEmpty(Regs(c, Gpr), Pow2(Lg(c, Gpr)), s.files.gpr);
    assert AllocOne(c, s, SERIALIZE);
    NoEvenCandidate(c, s);
    assert !s.files.gpr.free[0];
    ClashMeansEmptyBank(c, s, SERIALIZE);
  }

  lemma NoEvenCandidate(c: Config, s: State)
    requires Doubled(c) && Cornered(c, s)
    ensures IsZero(Candidates(s, Gpr, false))
  {
    Halves(c);
    var b := Candidates(s, Gpr, false);
    forall p | 0 <= p < |b| ensures !b[p] {
      if p % 2 == 0 { assert !s.files.gpr.free[p]; }
    }
  }

  /** The run is legal and its last state, offered a serializing uop, clashes. */
  ghost predicate LeadsToClash(c: Config, s: State, ins: seq<Input>)
    requires WellFormed(c)
  {
    && Legal(c, s, ins)
    && var e := Run(c, s, ins);
       Inv(c, e) && Protocol(c, e, SERIALIZE) && SerializeClash(c, e, SERIALIZE)
  }

  lemma ClashEarlier(c: Config, s: State, i: Input, rest: seq<Input>)
    requires WellFormed(c) && Allowed(c, s, i) && LeadsToClash(c, Next(c, s, i), rest)
    ensures LeadsToClash(c, s, [i] + rest)
  {
    Prepend(c, s, i, rest);
  }

  /** After the last round: one idle cycle brings the even turn for the cycle after the uop arrives. */
  lemma LastRound(c: Config, s: State) returns (ins: seq<Input>)
    requires Doubled(c) && Calm(c, s, c.regs / 2, false)
    ensures LeadsToClash(c, s, ins) && |ins| == 1
  {
    SerialCycle(c, s);
    ClashNow(c, Next(c, s, SERIALIZE));
    ClashEarlier(c, s, SERIALIZE, []);
    ins := [SERIALIZE] + [];
  }

  /** A round from its retirement on, from its completion on, and whole. */
  lemma {:induction false} FromRetire(c: Config, s: State, j: nat) returns (ins: seq<Input>)
    requires Doubled(c) && Pending(c, s, j, true, true) && 2 * j < c.regs
    ensures LeadsToClash(c, s, ins) && |ins| == 2 * c.regs - 4 * j - 2
    decreases c.regs - 2 * j, 0
  {
    RetireCycle(c, s, j);
    var rest := FromCalm(c, Next(c, s, NO_INPUT), j + 1);
    ClashEarlier(c, s, NO_INPUT, rest);
    ins := [NO_INPUT] + rest;
  }
  lemma {:induction false} FromComplete(c: Config, s: State, j: nat) returns (ins: seq<Input>)
    requires Doubled(c) && Pending(c, s, j, false, false) && 2 * j < c.regs
    ensures LeadsToClash(c, s, ins) && |ins| == 2 * c.regs - 4 * j - 1
    decreases c.regs - 2 * j, 1
  {
    var i := Complete(Slot(c.robs, s.ring.head));
    CompleteCycle(c, s, j);
    var rest := FromRetire(c, Next(c, s, i), j);
    ClashEarlier(c, s, i, rest);
    ins := [i] + rest;
  }
  lemma {:induction false} FromAlloc(c: Config, s: State, j: nat) returns (ins: seq<Input>)
    requires Doubled(c) && Calm(c, s, j, true) && 2 * j < c.regs
    ensures LeadsToClash(c, s, ins) && |ins| == 2 * c.regs - 4 * j
    decreases c.regs - 2 * j, 2
  {
    AllocCycle(c, s, j);
    var rest := FromComplete(c, Next(c, s, Allocate(2 * j + 1)), j);
    ClashEarlier(c, s, Allocate(2 * j + 1), rest);
    ins := [Allocate(2 * j + 1)] + rest;
  }
  /** From an odd turn: idle once and play the next round, or end. */
  lemma {:induction false} FromCalm(c: Config, s: State, j: nat) returns (ins: seq<Input>)
    requires Doubled(c) && Calm(c, s, j, false) && 2 * j <= c.regs
    ensures LeadsToClash(c, s, ins) && |ins| == 2 * c.regs - 4 * j + 1
    decreases c.regs - 2 * j, 3
  {
    Halves(c);
    if 2 * j == c.regs {
      ins := LastRound(c, s);
    } else {
      IdleCycle(c, s, j, false);
      var rest := FromAlloc(c, Next(c, s, NO_INPUT), j);
      ClashEarlier(c, s, NO_INPUT, rest);
      ins := [NO_INPUT] + rest;
    }
  }

  lemma ResetIsCalm(c: Config, s: State)
    requires Doubled(c) && Reset(c, s)
    ensures Calm(c, s, 0, false)
  {
    ResetEstablishesInvariant(c, s);
    assert FileOf(s.files, Gpr) == ResetFile(c.regs, Pow2(c.lgPrf));
  }

  /** The test `r_prf_free != 0` does not protect a serializing uop.  From every reset state of every
      core with twice as many physical as logical registers there is a run, four cycles for each odd
      logical register, after which every odd physical register is free and none of the even ones,
      while it is the even bank's turn: the uop is given register 0, which is in use. */
  lemma SerializeCanClash(c: Config, s: State) returns (ins: seq<Input>)
    requires Doubled(c) && Reset(c, s)
    ensures Legal(c, s, ins) && |ins| == 2 * c.regs + 1
    ensures var e := Run(c, s, ins);
            Inv(c, e) && Protocol(c, e, SERIALIZE) && SerializeClash(c, e, SERIALIZE)
  {
    ResetIsCalm(c, s);
    ins := FromCalm(c, s, 0);
  }

  /** The machine: 32 ROB entries, 64 physical and 32 logical registers, four of the small files. */
  const MACHINE: Config := Config(32, 6, 2, 2, 32)

  lemma MachineCanClash(s: State) returns (ins: seq<Input>)
    requires Reset(MACHINE, s)
    ensures Doubled(MACHINE) && Legal(MACHINE, s, ins) && |ins| == 65
    ensures var e := Run(MACHINE, s, ins);
            Inv(MACHINE, e) && Protocol(MACHINE, e, SERIALIZE) && SerializeClash(MACHINE, e, SERIALIZE)
  {
    assert Pow2(3) == 8;
    assert Pow2(6) == 8 * Pow2(3);
    ins := SerializeCanClash(MACHINE, s);
  }
}
