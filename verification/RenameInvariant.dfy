/**
  The invariant of allocation, retirement and recovery (core.sv).
 */
module RenameInvariant {
  import opened Bits
  import opened PriorityEncoder
  import opened MemoryTypes
  import opened Rings
  import opened RegisterFile
  import opened Rename

  /** The number of live entries. */
  function Len(n: nat, r: Ring): nat
    requires RingShape(n, r)
  {
    Span(n, r.head, r.tail)
  }

  /** The successor registers agree with the pointers, and at most N entries are live. */
  ghost predicate RingInv(n: nat, r: Ring) {
    && RingShape(n, r)
    && r.nextHead == Advance(n, r.head, 1) && r.nextTail == Advance(n, r.tail, 1)
    && Len(n, r) <= n
  }

  /** The destination fields of the live entries, oldest first. */
  function Window(n: nat, r: Ring): (w: seq<Option<Dst>>)
    requires RingShape(n, r) && Len(n, r) <= n
    ensures |w| == Len(n, r)
  {
    seq(Len(n, r), j requires 0 <= j < Len(n, r) => r.slots[SlotAt(n, r.head, j)].dst)
  }

  function OfClass(o: Option<Dst>, k: Class): seq<Dest> {
    if o.Some? && o.value.cls == k then [o.value.d] else []
  }

  /** The destinations of class `k`, in order. */
  function Dests(w: seq<Option<Dst>>, k: Class): seq<Dest> {
    if w == [] then [] else OfClass(w[0], k) + Dests(w[1..], k)
  }

  /** The reset map: logical register l in physical register l. */
  function Identity(regs: nat): seq<nat> { seq(regs, l => l) }

  ghost predicate InRange(ds: seq<Dest>, regs: nat) { forall d :: d in ds ==> d.ldst < regs }

  /** Live entries are marked dead-on-squash, and nothing else is. */
  ghost predicate DeadInv(n: nat, r: Ring, dead: seq<bool>)
    requires RingShape(n, r)
  {
    |dead| == n && forall k :: 0 <= k < n ==> (dead[k] <==> Offset(n, r.head, k) < Len(n, r))
  }

  ghost predicate FsmInv(n: nat, s: State)
    requires RingShape(n, s.ring)
  {
    match s.fsm
    case AllocForSerialize => Empty(s.ring)
    case Monitor => Empty(s.ring)
    case AllocForMonitor => Empty(s.ring)
    case WaitForSerialize => Len(n, s.ring) == 1
    case WaitForMonitor => Len(n, s.ring) == 1
    case Drain => s.dsDone || (s.hasDs && !Empty(s.ring))
    case _ => true
  }

  ghost predicate ClassInv(c: Config, s: State, k: Class)
    requires RingInv(c.robs, s.ring)
  {
    FileInv(Regs(c, k), Pow2(Lg(c, k)), FileOf(s.files, k), Dests(Window(c.robs, s.ring), k))
  }

  /** The retired map is the reset map after every retired destination. */
  ghost predicate HistoryInv(c: Config, s: State, k: Class) {
    var ds := Dests(s.retired, k);
    InRange(ds, Regs(c, k)) && FileOf(s.files, k).rrat == Replay(Identity(Regs(c, k)), ds)
  }

  ghost predicate Inv(c: Config, s: State) {
    && Shape(c, s) && RingInv(c.robs, s.ring) && DeadInv(c.robs, s.ring, s.dead) && FsmInv(c.robs, s)
    && (forall k: Class :: ClassInv(c, s, k))
    && (forall k: Class :: HistoryInv(c, s, k))
  }

  /** The scheduler queue has room, and the monitor uop is still waiting, when it is allocated:
      the ROB is empty by then. */
  ghost predicate Protocol(c: Config, s: State, i: Input) {
    InputShape(c, i) && (s.fsm.AllocForMonitor? ==> i.uop.Some? && !i.uqFull)
  }

  /** A serializing uop is allocated although the bank it selects is empty, so that the truncated
      encoder output names a register in use. */
  ghost predicate SerializeClash(c: Config, s: State, i: Input)
    requires WellFormed(c) && Shape(c, s) && InputShape(c, i)
  {
    && !s.fsm.Active? && AllocOne(c, s, i) && i.uop.value.dst.Some?
    && var k := i.uop.value.dst.value.cls;
       !FileOf(s.files, k).free[Pick(c, s, k, false)]
  }
}
