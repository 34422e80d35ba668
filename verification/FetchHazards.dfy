/**
  The two fetch hazards are reachable (l1i.sv): for every program with a jump at p, runs from reset
  that end in a restart with a stale delay-slot flag and in a jump taken in a delay slot.
 */
module FetchHazards {
  import opened MemoryTypes
  import opened FetchQueue
  import opened Fetch
  import opened FetchTheorems

  // ---------------------------------------------------------------- extending a run

  ghost predicate Allowed(c: Config, s: State, i: Input)
    requires WellFormed(c)
  {
    Shape(c, s) && Protocol(c, s, i) && CtlShape(c, Comb(c, s, i)) && !StaleSlot(s, i) && !SlotBranch(c, s, i)
  }

  lemma {:induction false} Extend(c: Config, s: State, ins: seq<Input>, i: Input)
    requires WellFormed(c) && Legal(c, s, ins) && Allowed(c, Run(c, s, ins), i)
    ensures Legal(c, s, ins + [i]) && Run(c, s, ins + [i]) == Next(c, Run(c, s, ins), i)
    decreases |ins|
  {
    if ins == [] {
      assert [i][1..] == [] && ins + [i] == [i];
    } else {
      assert (ins + [i])[1..] == ins[1..] + [i];
      Extend(c, Next(c, s, ins[0]), ins[1..], i);
    }
  }

  /** A run that has reached the state t. */
  ghost predicate Reaches(c: Config, s: State, ins: seq<Input>, t: State)
    requires WellFormed(c)
  {
    Legal(c, s, ins) && Run(c, s, ins) == t
  }

  // ---------------------------------------------------------------- inputs

  /** Nothing happens; the fields that are not used name p. */
  function Quiet(p: Pc): Input { Input(false, p, false, true, false, false, false, false, false, p, p) }
  function RestartAt(p: Pc): Input { Quiet(p).(restart := true) }
  function Reload(p: Pc): Input { Quiet(p).(memRsp := true) }
  function FlushNow(p: Pc): Input { Quiet(p).(flush := true) }

  predicate Jumps(c: Config, p: Pc) { Predecode(c.code(p)).J? || Predecode(c.code(p)).Jal? }

  // ---------------------------------------------------------------- from reset to the pushed jump

  /** Nothing is requested and k instructions are queued. */
  ghost predicate Calm(c: Config, t: State, k: nat) {
    Inv(c, t) && !t.restartReq && !t.flushReq && RingInv(c.entries, t.q) && Len(c.entries, t.q) == k
  }

  ghost predicate Restarted(c: Config, t: State, p: Pc) {
    Calm(c, t, 0) && t.fsm.Active? && !t.req && !t.slot && t.pc == p && (p.idx < |t.ram.valid| ==> !t.ram.valid[p.idx])
  }
  /** The instruction at p is read, in a delay slot or not, and misses. */
  ghost predicate Missing(c: Config, t: State, p: Pc, slot: bool, k: nat) {
    Calm(c, t, k) && t.fsm.Active? && t.req && t.slot == slot && t.cachePc == p && Miss(t)
  }
  ghost predicate Reloading(c: Config, t: State, p: Pc, slot: bool, k: nat) {
    Calm(c, t, k) && t.fsm.InjectReload? && t.slot == slot && t.missPc == p
  }
  /** The line of p is cached. */
  ghost predicate Cached(c: Config, t: State, p: Pc) {
    && Shape(c, t) && PcShape(c, p)
    && ReadSet(t.ram, p.idx) == ReadOut(true, p.tag, CodeLine(c, p.tag, p.idx))
  }
  ghost predicate Reloaded(c: Config, t: State, p: Pc, slot: bool, k: nat) {
    Calm(c, t, k) && t.fsm.ReloadTurnaround? && t.slot == slot && t.missPc == p && Cached(c, t, p)
  }
  /** The instruction at p is read and hits. */
  ghost predicate Reading(c: Config, t: State, p: Pc, slot: bool, k: nat) {
    && Calm(c, t, k) && t.fsm.Active? && t.req && t.slot == slot && t.cachePc == p && Cached(c, t, p)
    && t.cacheTag == p.tag && t.rd == ReadOut(true, p.tag, CodeLine(c, p.tag, p.idx))
  }
  /** The jump has been pushed and its delay slot is next. */
  ghost predicate InSlot(c: Config, t: State, p: Pc) {
    && Calm(c, t, 1) && t.fsm.Active? && t.req && t.slot && Cached(c, t, p)
    && t.cachePc == Inc(c, p) && t.cacheTag == Inc(c, p).tag && t.rd == ReadSet(t.ram, Inc(c, p).idx)
  }

  lemma QuietKeepsQueue(c: Config, t: State, p: Pc)
    requires WellFormed(c) && RingInv(c.entries, t.q)
    ensures var q := NextRing(c.entries, t.q, [], 0, false);
            RingInv(c.entries, q) && Len(c.entries, q) == Len(c.entries, t.q)
  {
    PointersKeep(c.entries, t.q, [], 0);
  }

  lemma FromReset(c: Config, s: State, p: Pc)
    requires WellFormed(c) && TargetsFit(c) && Reset(c, s) && PcShape(c, p)
    ensures Allowed(c, s, RestartAt(p)) && Restarted(c, Next(c, s, RestartAt(p)), p)
  {
    ResetEstablishesInvariant(c, s);
    KeepsInvariant(c, s, RestartAt(p));
  }

  lemma FromRestarted(c: Config, t: State, p: Pc)
    requires WellFormed(c) && TargetsFit(c) && PcShape(c, p) && Restarted(c, t, p)
    ensures Allowed(c, t, Quiet(p)) && Missing(c, Next(c, t, Quiet(p)), p, false, 0)
  {
    KeepsInvariant(c, t, Quiet(p));
    QuietKeepsQueue(c, t, p);
  }

  lemma FromMissing(c: Config, t: State, p: Pc, slot: bool, k: nat)
    requires WellFormed(c) && TargetsFit(c) && PcShape(c, p) && Missing(c, t, p, slot, k)
    ensures Allowed(c, t, Quiet(p)) && Reloading(c, Next(c, t, Quiet(p)), p, slot, k)
  {
    KeepsInvariant(c, t, Quiet(p));
    QuietKeepsQueue(c, t, p);
  }

  lemma FromReloading(c: Config, t: State, p: Pc, slot: bool, k: nat)
    requires WellFormed(c) && TargetsFit(c) && PcShape(c, p) && Reloading(c, t, p, slot, k)
    ensures Allowed(c, t, Reload(p)) && Reloaded(c, Next(c, t, Reload(p)), p, slot, k)
  {
    KeepsInvariant(c, t, Reload(p));
    QuietKeepsQueue(c, t, p);
  }

  lemma Retries(c: Config, t: State, p: Pc, slot: bool, k: nat)
    requires WellFormed(c) && Reloaded(c, t, p, slot, k) && k < c.entries
    ensures Comb(c, t, Quiet(p)) == Retry(t, Active, p, true, p)
  {
    FlagsCountFreeSlots(c.entries, t.q, 1);
  }

  lemma FromReloaded(c: Config, t: State, p: Pc, slot: bool, k: nat)
    requires WellFormed(c) && TargetsFit(c) && PcShape(c, p) && Reloaded(c, t, p, slot, k) && k < c.entries
    ensures Allowed(c, t, Quiet(p)) && Reading(c, Next(c, t, Quiet(p)), p, slot, k)
  {
    Retries(c, t, p, slot, k);
    KeepsInvariant(c, t, Quiet(p));
    QuietKeepsQueue(c, t, p);
  }

  /** A jump that is read and hits is pushed, and its target becomes the next program counter. */
  lemma HitsJump(c: Config, t: State, p: Pc, slot: bool, k: nat)
    requires WellFormed(c) && PcShape(c, p) && Reading(c, t, p, slot, k) && k < c.entries && Jumps(c, p)
    ensures Comb(c, t, Quiet(p)) == HitCtl(c, t, Quiet(p)) && Guess(c, t, Quiet(p)).Some?
    ensures PushCount(c, t, Quiet(p)) == 1
  {
    FlagsCountFreeSlots(c.entries, t.q, 1);
  }

  lemma FromReading(c: Config, t: State, p: Pc)
    requires WellFormed(c) && TargetsFit(c) && PcShape(c, p) && Reading(c, t, p, false, 0) && Jumps(c, p)
    ensures Allowed(c, t, Quiet(p)) && InSlot(c, Next(c, t, Quiet(p)), p)
  {
    HitsJump(c, t, p, false, 0);
    KeepsInvariant(c, t, Quiet(p));
    PointersKeep(c.entries, t.q, Pushes(c, t, Guess(c, t, Quiet(p)), 1), 0);
    assert Tracks(c, t, FetchTheorems.RefRun(c, Ref(t.start, None), t.guesses));
    assert t.pc == Inc(c, p);
  }

  /** From a miss at p to the read that hits. */
  lemma ToReading(c: Config, s: State, ins: seq<Input>, u: State, p: Pc, slot: bool, k: nat)
    returns (ins': seq<Input>, t: State)
    requires WellFormed(c) && TargetsFit(c) && PcShape(c, p) && Reaches(c, s, ins, u)
    requires Missing(c, u, p, slot, k) && k < c.entries
    ensures Reaches(c, s, ins', t) && Reading(c, t, p, slot, k)
  {
    FromMissing(c, u, p, slot, k);
    Extend(c, s, ins, Quiet(p));
    ins', t := ins + [Quiet(p)], Next(c, u, Quiet(p));
    FromReloading(c, t, p, slot, k);
    Extend(c, s, ins', Reload(p));
    ins', t := ins' + [Reload(p)], Next(c, t, Reload(p));
    FromReloaded(c, t, p, slot, k);
    Extend(c, s, ins', Quiet(p));
    ins', t := ins' + [Quiet(p)], Next(c, t, Quiet(p));
  }

  lemma ToMiss(c: Config, s: State, p: Pc) returns (ins: seq<Input>, t: State)
    requires WellFormed(c) && TargetsFit(c) && Reset(c, s) && PcShape(c, p)
    ensures Reaches(c, s, ins, t) && Missing(c, t, p, false, 0)
  {
    FromReset(c, s, p);
    Extend(c, s, [], RestartAt(p));
    ins, t := [] + [RestartAt(p)], Next(c, s, RestartAt(p));
    FromRestarted(c, t, p);
    Extend(c, s, ins, Quiet(p));
    ins, t := ins + [Quiet(p)], Next(c, t, Quiet(p));
  }

  lemma ToDelaySlot(c: Config, s: State, p: Pc) returns (ins: seq<Input>, t: State)
    requires WellFormed(c) && TargetsFit(c) && Reset(c, s) && PcShape(c, p) && Jumps(c, p)
    ensures Reaches(c, s, ins, t) && InSlot(c, t, p)
  {
    ins, t := ToMiss(c, s, p);
    ins, t := ToReading(c, s, ins, t, p, false, 0);
    FromReading(c, t, p);
    Extend(c, s, ins, Quiet(p));
    ins, t := ins + [Quiet(p)], Next(c, t, Quiet(p));
  }

  // ---------------------------------------------------------------- a jump in a delay slot

  /** The delay slot is in the cache, or its line has to be loaded. */
  lemma SlotReadOrMiss(c: Config, t: State, p: Pc)
    requires WellFormed(c) && PcShape(c, p) && InSlot(c, t, p)
    ensures Reading(c, t, Inc(c, p), true, 1) || Missing(c, t, Inc(c, p), true, 1)
  {
    var q := Inc(c, p);
    assert ReadOk(c, ReadSet(t.ram, q.idx), q.idx);
  }

  /** If the word behind a jump is a jump as well, in the same line or in the next one, fetching it takes
      the second hazard. */
  lemma SlotBranchReachable(c: Config, s: State, p: Pc) returns (ins: seq<Input>)
    requires WellFormed(c) && TargetsFit(c) && Reset(c, s) && PcShape(c, p)
    requires Jumps(c, p) && Jumps(c, Inc(c, p))
    ensures Legal(c, s, ins)
    ensures var e := Run(c, s, ins);
            && Inv(c, e) && Protocol(c, e, Quiet(Inc(c, p))) && SlotBranch(c, e, Quiet(Inc(c, p)))
            && CtlShape(c, Comb(c, e, Quiet(Inc(c, p)))) && !Inv(c, Next(c, e, Quiet(Inc(c, p))))
  {
    var t;
    ins, t := ToDelaySlot(c, s, p);
    var next := Inc(c, p);
    SlotReadOrMiss(c, t, p);
    if !Reading(c, t, next, true, 1) { ins, t := ToReading(c, s, ins, t, next, true, 1); }
    HitsJump(c, t, next, true, 1);
    KeepsInvariant(c, t, Quiet(next));
  }

  // ---------------------------------------------------------------- a stale delay-slot flag

  ghost predicate Flushing(c: Config, t: State, k: nat) {
    Inv(c, t) && !t.restartReq && !t.flushReq && t.slot && t.cacheIdx == k
    && t.fsm.FlushCache? && RingInv(c.entries, t.q) && Len(c.entries, t.q) == 0
  }

  lemma FlushFromSlot(c: Config, t: State, p: Pc)
    requires WellFormed(c) && TargetsFit(c) && PcShape(c, p) && InSlot(c, t, p)
    ensures Allowed(c, t, FlushNow(p)) && Flushing(c, Next(c, t, FlushNow(p)), 0)
  {
    KeepsInvariant(c, t, FlushNow(p));
  }

  lemma FlushStep(c: Config, t: State, p: Pc, k: nat)
    requires WellFormed(c) && TargetsFit(c) && PcShape(c, p) && Flushing(c, t, k)
    ensures Allowed(c, t, Quiet(p))
    ensures var t' := Next(c, t, Quiet(p));
            if k + 1 == c.sets then Inv(c, t') && t'.fsm.Idle? && t'.slot else Flushing(c, t', k + 1)
  {
    KeepsInvariant(c, t, Quiet(p));
    QuietKeepsQueue(c, t, p);
  }

  lemma {:induction false} FlushWalk(c: Config, s: State, ins: seq<Input>, t: State, p: Pc, k: nat)
    returns (ins': seq<Input>, t': State)
    requires WellFormed(c) && TargetsFit(c) && PcShape(c, p) && Flushing(c, t, k) && Reaches(c, s, ins, t)
    ensures Reaches(c, s, ins', t') && Inv(c, t') && t'.fsm.Idle? && t'.slot
    decreases c.sets - k
  {
    FlushStep(c, t, p, k);
    Extend(c, s, ins, Quiet(p));
    ins', t' := ins + [Quiet(p)], Next(c, t, Quiet(p));
    if k + 1 < c.sets {
      ins', t' := FlushWalk(c, s, ins', t', p, k + 1);
    }
  }

  /** A flush between a jump and its delay slot leaves the flag set, and the next restart meets it. */
  lemma StaleSlotReachable(c: Config, s: State, p: Pc) returns (ins: seq<Input>)
    requires WellFormed(c) && TargetsFit(c) && Reset(c, s) && PcShape(c, p) && Jumps(c, p)
    ensures Legal(c, s, ins)
    ensures var e := Run(c, s, ins);
            && Inv(c, e) && Protocol(c, e, RestartAt(p)) && StaleSlot(e, RestartAt(p))
            && CtlShape(c, Comb(c, e, RestartAt(p))) && !Inv(c, Next(c, e, RestartAt(p)))
  {
    var t;
    ins, t := ToDelaySlot(c, s, p);
    FlushFromSlot(c, t, p);
    Extend(c, s, ins, FlushNow(p));
    ins, t := ins + [FlushNow(p)], Next(c, t, FlushNow(p));
    ins, t := FlushWalk(c, s, ins, t, p, 0);
    KeepsInvariant(c, t, RestartAt(p));
  }
}
