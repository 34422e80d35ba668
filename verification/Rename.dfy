/**
  Cycle-level model of allocation, retirement and recovery (core.sv): the reorder buffer ring, the
  four renamed register classes, the dead mask and the control state machine.

  `retired` is a history variable: the destination field of every retired entry, oldest first.
 */
module Rename {
  import opened Bits
  import opened PriorityEncoder
  import opened MemoryTypes
  import opened Rings
  import opened RegisterFile

  datatype Class = Gpr | Fp | Hilo | Fcr

  /** ROB entries, log2 of the register file sizes, and the logical registers of Gpr and Fp. */
  datatype Config = Config(robs: nat, lgPrf: nat, lgHilo: nat, lgFcr: nat, regs: nat)

  predicate WellFormed(c: Config) {
    c.robs >= 4 && c.lgPrf >= 2 && c.lgHilo >= 2 && c.lgFcr >= 2 && 1 <= c.regs < Pow2(c.lgPrf)
  }

  function Lg(c: Config, k: Class): nat {
    match k case Gpr => c.lgPrf case Fp => c.lgPrf case Hilo => c.lgHilo case Fcr => c.lgFcr
  }
  function Regs(c: Config, k: Class): nat {
    match k case Gpr => c.regs case Fp => c.regs case Hilo => 1 case Fcr => 1
  }

  datatype Dst = Dst(cls: Class, d: Dest)

  /** The fields of rob_entry_t that control renaming and recovery; `stops` stands for the decoded
      BREAK, WAIT and ERET, `trap` for the faults that a completion reports as exceptions. */
  datatype Entry = Entry(
    dst: Option<Dst>, isBr: bool, isRet: bool, isCall: bool, ds: bool, nds: bool, inDs: bool,
    stops: bool, faulted: bool, trap: bool, takeBr: bool)

  /** A decoded uop: at most one destination class; `fold` completes at allocation. */
  datatype Target = Target(cls: Class, ldst: nat)
  datatype Uop = Uop(
    dst: Option<Target>, serial: bool, monitor: bool, fold: bool, illegal: bool, jump: bool,
    isBr: bool, isRet: bool, isCall: bool, ds: bool, nds: bool, stops: bool)

  datatype Files = Files(gpr: File, fp: File, hilo: File, fcr: File)

  function FileOf(f: Files, k: Class): File {
    match k case Gpr => f.gpr case Fp => f.fp case Hilo => f.hilo case Fcr => f.fcr
  }

  datatype Fsm =
    | Active | Drain | ExceptionDrain | Rat
    | AllocForSerialize | WaitForSerialize
    | Monitor | AllocForMonitor | WaitForMonitor
    | Stopped

  /** The ROB ring: pointers of LG_ROB_ENTRIES + 1 bits, each with its successor in a register. */
  datatype Ring = Ring(slots: seq<Entry>, head: nat, tail: nat, nextHead: nat, nextTail: nat)

  datatype State = State(
    files: Files, ring: Ring, complete: seq<bool>, dead: seq<bool>, bank: bool,
    fsm: Fsm, dsDone: bool, hasDs: bool, hasNds: bool, takeBr: bool, inDs: bool,
    retired: seq<Option<Dst>>)

  /** A completion: what the ports write back to a ROB entry. */
  datatype Completion = Completion(complete: bool, faulted: bool, trap: bool, takeBr: bool)

  /** `uop` and `uop2` are the two oldest entries of the decode queue; `idle` says that nothing is
      in flight in the execution units and the memory queue; `ack` is n_got_restart_ack. */
  datatype Input = Input(
    uop: Option<Uop>, uop2: Option<Uop>, uqFull: bool, uqNextFull: bool,
    irq: bool, idle: bool, ack: bool, monitorDone: bool, done: map<nat, Completion>)

  // ---------------------------------------------------------------- ring pointers

  predicate RingShape(n: nat, r: Ring) {
    |r.slots| == n >= 4 && r.head < 2 * n && r.tail < 2 * n && r.nextHead < 2 * n && r.nextTail < 2 * n
  }

  predicate Empty(r: Ring) { r.head == r.tail }
  predicate NextEmpty(r: Ring) { r.nextHead == r.tail }
  predicate Full(n: nat, r: Ring)
    requires RingShape(n, r)
  {
    Slot(n, r.head) == Slot(n, r.tail) && r.head != r.tail
  }
  predicate NextFull(n: nat, r: Ring)
    requires RingShape(n, r)
  {
    Slot(n, r.head) == Slot(n, r.nextTail) && r.head != r.nextTail
  }

  function Head(n: nat, r: Ring): Entry
    requires RingShape(n, r)
  {
    r.slots[Slot(n, r.head)]
  }
  function NextHead(n: nat, r: Ring): Entry
    requires RingShape(n, r)
  {
    r.slots[Slot(n, r.nextHead)]
  }

  // ---------------------------------------------------------------- shapes

  ghost predicate FileShape(c: Config, f: Files, k: Class) {
    var x := FileOf(f, k);
    |x.rat| == |x.rrat| == Regs(c, k) && |x.free| == |x.rfree| == Pow2(Lg(c, k))
  }

  ghost predicate DstShape(c: Config, e: Entry) {
    e.dst.Some? ==>
      var k, d := e.dst.value.cls, e.dst.value.d;
      d.ldst < Regs(c, k) && d.pdst < Pow2(Lg(c, k)) && d.prev < Pow2(Lg(c, k))
  }

  ghost predicate Shape(c: Config, s: State) {
    && RingShape(c.robs, s.ring) && |s.complete| == |s.dead| == c.robs
    && (forall k :: 0 <= k < c.robs ==> DstShape(c, s.ring.slots[k]))
    && (forall k: Class :: FileShape(c, s.files, k))
  }

  ghost predicate UopShape(c: Config, u: Uop) { u.dst.Some? ==> u.dst.value.ldst < Regs(c, u.dst.value.cls) }

  ghost predicate InputShape(c: Config, i: Input) {
    && (i.uop.Some? ==> UopShape(c, i.uop.value))
    && (i.uop2.Some? ==> i.uop.Some? && UopShape(c, i.uop2.value))
  }

  // ---------------------------------------------------------------- register selection

  /** w_prf_free_even and w_prf_free_odd. */
  function Bank(free: seq<bool>, odd: bool): (b: seq<bool>)
    ensures |b| == |free|
  {
    seq(|free|, k requires 0 <= k < |free| => free[k] && (k % 2 == 1) == odd)
  }

  /** The candidates of a rename slot: the banks alternate every cycle and the second slot always
      takes the other one; Hilo and Fcr have one bank and no second slot. */
  function Candidates(s: State, k: Class, second: bool): (b: seq<bool>)
    ensures |b| == |FileOf(s.files, k).free|
  {
    var free := FileOf(s.files, k).free;
    if k.Hilo? || k.Fcr? then free else Bank(free, s.bank == second)
  }

  /** n_prf_entry and its siblings: the encoder output cut to the pointer width. */
  function Pick(c: Config, s: State, k: Class, second: bool): (p: nat)
    requires WellFormed(c) && FileShape(c, s.files, k)
    ensures p < Pow2(Lg(c, k))
  {
    var b := Candidates(s, k, second);
    if !IsZero(b) then
      FindFirstSetIsHighest(Lg(c, k), b);
      FindFirstSet(Lg(c, k), b)
    else if Lg(c, k) == 2 then assert Pow2(2) == 2 * (2 * Pow2(0)); 3
    else 0
  }

  // ---------------------------------------------------------------- allocation

  /** t_enough_*: the class of the first uop has a candidate. */
  predicate Enough(s: State, u: Uop) {
    u.dst.Some? ==> !IsZero(Candidates(s, u.dst.value.cls, false))
  }

  /** t_enough_next_*: the second uop may not write Hilo or Fcr. */
  predicate EnoughNext(s: State, u: Uop) {
    u.dst.Some? ==>
      && !u.dst.value.cls.Hilo? && !u.dst.value.cls.Fcr?
      && !IsZero(Candidates(s, u.dst.value.cls, true))
  }

  predicate TakesIrq(c: Config, s: State, i: Input)
    requires RingShape(c.robs, s.ring)
  {
    i.irq && !Empty(s.ring) && !Head(c.robs, s.ring).inDs
  }

  predicate HeadComplete(c: Config, s: State)
    requires RingShape(c.robs, s.ring) && |s.complete| == c.robs
  {
    s.complete[Slot(c.robs, s.ring.head)]
  }

  /** t_can_retire_rob_head: a faulted branch waits for its delay slot to be in the ROB. */
  predicate CanRetire(c: Config, s: State)
    requires RingShape(c.robs, s.ring) && |s.complete| == c.robs
  {
    var h := Head(c.robs, s.ring);
    HeadComplete(c, s) && !Empty(s.ring) && ((h.ds || h.nds) && h.faulted ==> !NextEmpty(s.ring))
  }

  predicate RetireTwo(c: Config, s: State)
    requires RingShape(c.robs, s.ring) && |s.complete| == c.robs
  {
    var h, n := Head(c.robs, s.ring), NextHead(c.robs, s.ring);
    && !NextEmpty(s.ring) && !h.faulted && !n.faulted
    && s.complete[Slot(c.robs, s.ring.nextHead)]
    && !h.isBr && !n.isRet && !n.isCall
    && !(n.dst.Some? && (n.dst.value.cls.Fcr? || n.dst.value.cls.Hilo?))
  }

  /** t_alloc */
  predicate AllocOne(c: Config, s: State, i: Input)
    requires Shape(c, s)
  {
    && i.uop.Some? && !Full(c.robs, s.ring) && !i.uqFull
    && match s.fsm
       case Active =>
         && !TakesIrq(c, s, i) && !(CanRetire(c, s) && Head(c.robs, s.ring).faulted)
         && !i.uop.value.serial && Enough(s, i.uop.value)
       case AllocForSerialize => !IsZero(s.files.gpr.free)
       case AllocForMonitor => !IsZero(s.files.gpr.free)
       case _ => false
  }

  /** t_alloc_two */
  predicate AllocTwo(c: Config, s: State, i: Input)
    requires Shape(c, s)
  {
    && s.fsm.Active? && AllocOne(c, s, i) && i.uop2.Some?
    && !i.uop2.value.serial && !NextFull(c.robs, s.ring) && !i.uqNextFull && EnoughNext(s, i.uop2.value)
  }

  /** The destination fields that t_rob_tail receives. */
  function FirstDest(c: Config, s: State, u: Uop): (r: Option<Dst>)
    requires WellFormed(c) && Shape(c, s) && UopShape(c, u)
  {
    if u.dst.None? then None
    else
      var k, l := u.dst.value.cls, u.dst.value.ldst;
      Some(Dst(k, Dest(l, Pick(c, s, k, false), FileOf(s.files, k).rat[l])))
  }

  /** The mapping that the second uop sees for logical register `l`: the first uop's new register
      if that writes `l`, else the map. */
  function Bypassed(s: State, first: Option<Dst>, k: Class, l: nat): nat
    requires l < |FileOf(s.files, k).rat|
  {
    if first.Some? && first.value.cls == k && first.value.d.ldst == l then first.value.d.pdst
    else FileOf(s.files, k).rat[l]
  }

  function SecondDest(c: Config, s: State, first: Option<Dst>, u: Uop): (r: Option<Dst>)
    requires WellFormed(c) && Shape(c, s) && UopShape(c, u)
  {
    if u.dst.None? then None
    else
      var k, l := u.dst.value.cls, u.dst.value.ldst;
      Some(Dst(k, Dest(l, Pick(c, s, k, true), Bypassed(s, first, k, l))))
  }

  function NewEntry(u: Uop, dst: Option<Dst>, inDs: bool): Entry {
    Entry(dst, u.isBr, u.isRet, u.isCall, u.ds, u.nds, inDs, u.stops,
          u.fold && u.illegal, u.fold && u.illegal, u.fold && u.jump)
  }

  // ---------------------------------------------------------------- control

  /** How many entries leave the head of the ROB. */
  function Retires(c: Config, s: State, i: Input): nat
    requires Shape(c, s)
  {
    match s.fsm
    case Active => if TakesIrq(c, s, i) || !CanRetire(c, s) then 0 else if RetireTwo(c, s) then 2 else 1
    case Drain =>
      if !HeadComplete(c, s) || s.dsDone then 0
      else if s.hasNds then (if s.takeBr then 1 else 0)
      else if s.hasDs then 1 else 0
    case WaitForMonitor => if HeadComplete(c, s) && i.ack then 1 else 0
    case _ => 0
  }

  function ActiveFsm(c: Config, s: State, i: Input): Fsm
    requires Shape(c, s)
  {
    var h := Head(c.robs, s.ring);
    if TakesIrq(c, s, i) then ExceptionDrain
    else if CanRetire(c, s) then
      (if !h.faulted then Active else if h.stops || h.trap then Stopped else Drain)
    else if i.uop.Some? && i.uop.value.serial && Empty(s.ring) then
      (if i.uop.value.monitor then Monitor else AllocForSerialize)
    else Active
  }

  function NextFsm(c: Config, s: State, i: Input): Fsm
    requires Shape(c, s)
  {
    match s.fsm
    case Active => ActiveFsm(c, s, i)
    case Drain => if i.idle && s.dsDone then Rat else Drain
    case ExceptionDrain => if i.idle then Rat else ExceptionDrain
    case Rat => if i.ack then Active else Rat
    case AllocForSerialize => if AllocOne(c, s, i) then WaitForSerialize else AllocForSerialize
    case WaitForSerialize => if HeadComplete(c, s) && i.ack then Active else WaitForSerialize
    case Monitor => if i.monitorDone then AllocForMonitor else Monitor
    case AllocForMonitor => WaitForMonitor
    case WaitForMonitor => if HeadComplete(c, s) && i.ack then Active else WaitForMonitor
    case Stopped => Stopped
  }

  /** A mispredicted or faulting head starts recovery in this cycle. */
  predicate Redirects(c: Config, s: State, i: Input)
    requires Shape(c, s)
  {
    s.fsm.Active? && !TakesIrq(c, s, i) && CanRetire(c, s) && Head(c.robs, s.ring).faulted
  }

  predicate NextDsDone(c: Config, s: State, i: Input)
    requires Shape(c, s)
  {
    match s.fsm
    case Active =>
      if TakesIrq(c, s, i) then true
      else if Redirects(c, s, i) && !Head(c.robs, s.ring).stops && !Head(c.robs, s.ring).trap then
        !Head(c.robs, s.ring).ds
      else s.dsDone
    case Drain => s.dsDone || (HeadComplete(c, s) && (s.hasNds || s.hasDs))
    case Rat => s.dsDone && !i.ack
    case _ => s.dsDone
  }

  /** What one cycle does to the ROB and the register files. */
  datatype Ctl = Ctl(a1: Option<Entry>, a2: Option<Entry>, retire: nat, restore: bool)

  function Comb(c: Config, s: State, i: Input): (k: Ctl)
    requires WellFormed(c) && Shape(c, s) && InputShape(c, i)
    ensures k.a2.Some? ==> k.a1.Some?
    ensures k.retire <= 2
  {
    if !AllocOne(c, s, i) then Ctl(None, None, Retires(c, s, i), s.fsm.Rat?)
    else
      var u := i.uop.value;
      var d1 := FirstDest(c, s, u);
      var e1 := Some(NewEntry(u, d1, s.inDs));
      var e2 := if AllocTwo(c, s, i)
                then Some(NewEntry(i.uop2.value, SecondDest(c, s, d1, i.uop2.value), u.ds)) else None;
      Ctl(e1, e2, Retires(c, s, i), s.fsm.Rat?)
  }

  // ---------------------------------------------------------------- the clock edge

  /** The destination of class `k` that an entry carries, if any. */
  function DestOf(e: Option<Entry>, k: Class): Option<Dest> {
    if e.Some? && e.value.dst.Some? && e.value.dst.value.cls == k then Some(e.value.dst.value.d) else None
  }

  /** The entry retired first, and the one retired second. */
  function Retired1(c: Config, s: State, n: nat): Option<Entry>
    requires RingShape(c.robs, s.ring)
  {
    if n >= 1 then Some(Head(c.robs, s.ring)) else None
  }
  function Retired2(c: Config, s: State, n: nat): Option<Entry>
    requires RingShape(c.robs, s.ring)
  {
    if n >= 2 then Some(NextHead(c.robs, s.ring)) else None
  }

  function MapTo(m: seq<nat>, d: Option<Dest>): (r: seq<nat>)
    ensures |r| == |m|
  {
    if d.Some? && d.value.ldst < |m| then m[d.value.ldst := d.value.pdst] else m
  }
  function Taken(free: seq<bool>, d: Option<Dest>): (r: seq<bool>)
    ensures |r| == |free|
  {
    if d.Some? && d.value.pdst < |free| then free[d.value.pdst := false] else free
  }
  function Given(free: seq<bool>, d: Option<Dest>): (r: seq<bool>)
    ensures |r| == |free|
  {
    if d.Some? && d.value.prev < |free| then free[d.value.prev := true] else free
  }

  /** One register class: allocations clear free bits, retirements then set them; recovery copies
      the retired side. */
  function NextFile(f: File, a1: Option<Dest>, a2: Option<Dest>, r1: Option<Dest>, r2: Option<Dest>,
                    restore: bool): File
  {
    File(if restore then f.rrat else MapTo(MapTo(f.rat, a1), a2),
         if restore then f.rfree else Given(Given(Taken(Taken(f.free, a1), a2), r1), r2),
         MapTo(MapTo(f.rrat, r1), r2),
         Given(Taken(Given(Taken(f.rfree, r1), r1), r2), r2))
  }

  function ClassStep(c: Config, s: State, x: Ctl, k: Class): File
    requires RingShape(c.robs, s.ring)
  {
    NextFile(FileOf(s.files, k), DestOf(x.a1, k), DestOf(x.a2, k),
             DestOf(Retired1(c, s, x.retire), k), DestOf(Retired2(c, s, x.retire), k), x.restore)
  }

  function NextFiles(c: Config, s: State, x: Ctl): Files
    requires RingShape(c.robs, s.ring)
  {
    Files(ClassStep(c, s, x, Gpr), ClassStep(c, s, x, Fp), ClassStep(c, s, x, Hilo), ClassStep(c, s, x, Fcr))
  }

  function Finish(e: Entry, done: map<nat, Completion>, k: nat): Entry {
    if k in done then e.(faulted := done[k].faulted, trap := done[k].trap, takeBr := done[k].takeBr) else e
  }

  function Written(c: Config, r: Ring, x: Ctl, k: nat): Entry
    requires RingShape(c.robs, r) && k < c.robs
  {
    if x.a2.Some? && k == Slot(c.robs, r.nextTail) then x.a2.value
    else if x.a1.Some? && k == Slot(c.robs, r.tail) then x.a1.value
    else r.slots[k]
  }

  function NextSlots(c: Config, r: Ring, x: Ctl, done: map<nat, Completion>): (q: seq<Entry>)
    requires RingShape(c.robs, r)
    ensures |q| == c.robs
  {
    seq(c.robs, k requires 0 <= k < c.robs =>
      if x.restore then r.slots[k].(faulted := false) else Finish(Written(c, r, x, k), done, k))
  }

  function Allocs(x: Ctl): nat { if x.a2.Some? then 2 else if x.a1.Some? then 1 else 0 }

  function NextRing(c: Config, r: Ring, x: Ctl, done: map<nat, Completion>): (r': Ring)
    requires RingShape(c.robs, r) && x.retire <= 2
    ensures RingShape(c.robs, r')
  {
    var q := NextSlots(c, r, x, done);
    if x.restore then Ring(q, 0, 0, 1, 1)
    else Ring(q, Advance(c.robs, r.head, x.retire), Advance(c.robs, r.tail, Allocs(x)),
              Advance(c.robs, r.nextHead, x.retire), Advance(c.robs, r.nextTail, Allocs(x)))
  }

  function NextDead(c: Config, s: State, x: Ctl): (d: seq<bool>)
    requires RingShape(c.robs, s.ring) && |s.dead| == c.robs
    ensures |d| == c.robs
  {
    seq(c.robs, k requires 0 <= k < c.robs =>
      if x.restore then false
      else if x.a2.Some? && k == Slot(c.robs, s.ring.nextTail) then true
      else if x.a1.Some? && k == Slot(c.robs, s.ring.tail) then true
      else if x.retire == 2 && k == Slot(c.robs, s.ring.nextHead) then false
      else if x.retire >= 1 && k == Slot(c.robs, s.ring.head) then false
      else s.dead[k])
  }

  function NextComplete(c: Config, s: State, i: Input, x: Ctl): (q: seq<bool>)
    requires RingShape(c.robs, s.ring) && |s.complete| == c.robs
    requires (x.a1.Some? ==> i.uop.Some?) && (x.a2.Some? ==> i.uop2.Some?)
    ensures |q| == c.robs
  {
    seq(c.robs, k requires 0 <= k < c.robs =>
      if x.restore then false
      else if k in i.done then i.done[k].complete
      else if x.a2.Some? && k == Slot(c.robs, s.ring.nextTail) then i.uop2.value.fold
      else if x.a1.Some? && k == Slot(c.robs, s.ring.tail) then i.uop.value.fold
      else s.complete[k])
  }

  /** r_in_delay_slot: the next uop to allocate sits in a delay slot. */
  predicate NextInDs(c: Config, s: State, i: Input, x: Ctl)
    requires RingShape(c.robs, s.ring) && |s.complete| == c.robs
  {
    if x.a2.Some? then x.a2.value.ds
    else if x.a1.Some? then x.a1.value.ds
    else if x.restore || ((s.fsm.WaitForSerialize? || s.fsm.WaitForMonitor?) && HeadComplete(c, s)) then false
    else s.inDs
  }

  function DstList(e: Option<Entry>): seq<Option<Dst>> {
    if e.Some? then [e.value.dst] else []
  }

  function Next(c: Config, s: State, i: Input): (s': State)
    requires WellFormed(c) && Shape(c, s) && InputShape(c, i)
  {
    var x := Comb(c, s, i);
    var h := Head(c.robs, s.ring);
    var redirect := Redirects(c, s, i);
    State(
      NextFiles(c, s, x), NextRing(c, s.ring, x, i.done), NextComplete(c, s, i, x), NextDead(c, s, x), !s.bank,
      NextFsm(c, s, i), NextDsDone(c, s, i),
      if redirect then h.ds else s.hasDs, if redirect then h.nds else s.hasNds,
      if redirect then h.takeBr else s.takeBr, NextInDs(c, s, i, x),
      s.retired + DstList(Retired1(c, s, x.retire)) + DstList(Retired2(c, s, x.retire)))
  }
}
