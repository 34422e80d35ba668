/**
  The invariant of the data cache (l1d.sv) and the rules its environment follows.
 */
module DataCacheInvariant {
  import opened MemoryTypes
  import opened DataCache

  // ---------------------------------------------------------------- waiting operations

  /** The operation that port 1 is working on, if any. */
  function Held1(s: State): seq<Op> {
    match s.fsm
    case Active => if s.got then [s.op] else []
    case Inject => [s.op]
    case WaitInject => [s.op]
    case HandleReload => [s.op]
    case _ => []
  }

  function Held2(s: State): seq<Op> { if s.got2 then [s.op2] else [] }

  /** Every operation inside the cache, oldest first. */
  function Order(s: State): seq<Op> { Held1(s) + s.mq + Held2(s) }

  function StoreOf(o: Op): seq<MemReq> { if IsStore(o.req) then [o.req] else [] }

  /** The stores among `q`, in order. */
  function Stores(q: seq<Op>): seq<MemReq> {
    if q == [] then [] else StoreOf(q[0]) + Stores(q[1..])
  }

  /** A request together with the line that the reference memory held when it was accepted. */
  datatype Ticket = Ticket(req: MemReq, seen: Line)

  function TicketOf(o: Op): Ticket { Ticket(o.req, o.seen) }

  function OwedOne(o: Op): multiset<Ticket> {
    if IsStore(o.req) then multiset{} else multiset{TicketOf(o)}
  }

  /** The operations of `q` that still owe a response: stores are answered when they enter the queue. */
  function Owed(q: seq<Op>): multiset<Ticket> {
    if q == [] then multiset{} else OwedOne(q[0]) + Owed(q[1..])
  }

  /** The accepted requests that have not been answered. */
  function Outstanding(s: State): multiset<Ticket> {
    Owed(Held1(s)) + Owed(s.mq) + (if s.got2 then multiset{TicketOf(s.op2)} else multiset{})
  }

  /** Each operation of `q` that lost no older store to a squash recorded, at acceptance, the
      reference memory after the written stores `ws` and the older stores of `q`. */
  ghost predicate SeenOk(c: Config, ws: seq<MemReq>, q: seq<Op>)
    decreases |q|
  {
    q == [] ||
    ( && (q[0].clean ==> q[0].seen == Replay(c, ws, q[0].req.la))
      && SeenOk(c, ws + StoreOf(q[0]), q[1..]))
  }

  // ---------------------------------------------------------------- memory view

  /** What a line holds: the cached copy if there is one, else backing memory. */
  function View(r: Ram, la: LineAddr): Line
    requires la.idx < |r.tags| == |r.data| == |r.valid|
  {
    if r.valid[la.idx] && r.tags[la.idx] == la.tag then r.data[la.idx] else Read(r.mem, la)
  }

  /** Dirty lines are valid, and clean valid lines agree with memory. */
  ghost predicate SetInv(r: Ram, k: nat)
    requires k < |r.tags| == |r.data| == |r.valid| == |r.dirty|
  {
    && (r.dirty[k] ==> r.valid[k])
    && (r.valid[k] && !r.dirty[k] ==> r.data[k] == Read(r.mem, LineAddr(r.tags[k], k)))
  }

  ghost predicate RamInv(c: Config, r: Ram)
    requires RamShape(c, r)
  {
    forall k :: 0 <= k < c.sets ==> SetInv(r, k)
  }

  /** The memory view is the initial memory with exactly the written stores applied. */
  ghost predicate ViewInv(c: Config, r: Ram, ws: seq<MemReq>)
    requires RamShape(c, r)
  {
    forall la: LineAddr :: la.idx < c.sets ==> View(r, la) == Replay(c, ws, la)
  }

  /** Accepted stores that were not squashed: the written ones, then the waiting ones, in order. */
  ghost predicate LogInv(c: Config, s: State) {
    && s.log == s.written + Stores(Order(s))
    && SeenOk(c, s.written, Order(s))
  }

  // ---------------------------------------------------------------- pipeline registers

  ghost predicate Port1Inv(c: Config, s: State)
    requires Sized(c, s)
  {
    && !s.mustFwd
    && !s.fsm.WaitInject?
    && (s.lastWr ==> s.got)
    && (s.got ==>
          && s.fsm.Active?
          && s.op.req.la == LineAddr(s.tag, s.idx)
          && s.rd == ReadSet(s.ram, s.idx)
          && s.lastWr == IsStore(s.op.req)
          && s.isRetry == !s.didReload
          && !(s.rrLastWr && s.rrIdx == s.idx)
          && (s.didReload ==> (if s.lock then !s.rd.valid else Hit1(s))))
    && (s.fsm.Active? && s.lock ==> s.got && s.didReload)
  }

  /** The port-2 request and the RAM outputs that belong to it. */
  ghost predicate Port2Inv(c: Config, s: State)
    requires Sized(c, s)
  {
    && s.lastWr2 == (s.got2 && IsStore(s.op2.req))
    && (s.got2 ==>
          && s.fsm.Active?
          && s.op2.req.la == LineAddr(s.tag2, s.idx2)
          && s.rd2.valid == s.ram.valid[s.idx2] && s.rd2.tag == s.ram.tags[s.idx2]
          && (Hit2(s) ==> Data2(s) == s.ram.data[s.idx2]))
  }

  /** A port-2 request has a queue slot to go to, does not meet a load on port 1, and if it is a
      load that may answer at once then no waiting store maps to its set. */
  ghost predicate BypassInv(c: Config, s: State) {
    s.got2 ==>
      && |s.mq| < c.mrq
      && (s.got ==> IsStore(s.op.req))
      && (!IsStore(s.op2.req) && !s.hitBusy2 ==> NoStoreTo(Held1(s), s.idx2) && NoStoreTo(s.mq, s.idx2))
  }

  ghost predicate NoStoreTo(q: seq<Op>, idx: nat) {
    forall k :: 0 <= k < |q| && IsStore(q[k].req) ==> q[k].req.la.idx != idx
  }

  /** Only loads and stores wait; register moves are answered on port 2. */
  ghost predicate NoMoves(q: seq<Op>) {
    forall k :: 0 <= k < |q| ==> !IsMoveOp(q[k].req.pay.op)
  }

  /** A write-back in flight carries the dirty line that the cache still holds. */
  ghost predicate WritingBack(c: Config, s: State)
    requires Sized(c, s)
  {
    var k := s.bus.la.idx;
    && s.bus.kind.WriteLine? && s.inhibit
    && s.bus.la.tag == s.ram.tags[k] && s.ram.valid[k] && s.ram.dirty[k] && s.bus.data == s.ram.data[k]
  }

  ghost predicate FlushedBelow(r: Ram, n: nat) {
    forall k :: 0 <= k < n && k < |r.valid| ==> !r.valid[k]
  }

  ghost predicate FsmInv(c: Config, s: State)
    requires Sized(c, s)
  {
    match s.fsm
    case Active => !s.inhibit && !s.issue
    case WaitInject => true
    case Inject =>
      && s.issue && s.bus.la.idx == s.op.req.la.idx
      && (if s.lock then WritingBack(c, s)
          else && s.bus.kind.ReadLine? && !s.inhibit && s.bus.la == s.op.req.la
               && !s.ram.dirty[s.bus.la.idx])
    case HandleReload =>
      && !s.inhibit && !s.issue
      && (if s.lock then !s.ram.valid[s.op.req.la.idx]
          else s.ram.valid[s.op.req.la.idx] && s.ram.tags[s.op.req.la.idx] == s.op.req.la.tag)
    case FlushLine => !s.inhibit && !s.issue && !s.lock && s.rd == ReadSet(s.ram, s.idx)
    case FlushLineWait => !s.issue && !s.lock && WritingBack(c, s)
    case FlushAll =>
      !s.inhibit && !s.issue && !s.lock && s.rd == ReadSet(s.ram, s.idx) && FlushedBelow(s.ram, s.idx)
    case FlushAllWait =>
      && !s.issue && !s.lock && WritingBack(c, s) && s.rd == ReadSet(s.ram, s.idx)
      && s.bus.la.idx + 1 == s.idx && FlushedBelow(s.ram, s.bus.la.idx)
  }

  // ---------------------------------------------------------------- graduation and counting

  /** The graduation entry of a waiting store says whether its ROB entry has retired. */
  ghost predicate Owns(g: seq<Grad>, o: Op) {
    IsStore(o.req) ==> o.req.rob < |g| && g[o.req.rob] == (if o.retired then Retired else Busy)
  }

  /** No two waiting stores share a ROB index. */
  ghost predicate DistinctRobs(q: seq<Op>) {
    forall j, k :: 0 <= j < k < |q| && IsStore(q[j].req) && IsStore(q[k].req) ==> q[j].req.rob != q[k].req.rob
  }

  /** A store of port 1 or the queue owns its graduation entry, and on port 1 it has retired;
      a store on port 2 does not own one yet. */
  ghost predicate GradInv(c: Config, s: State)
    requires Sized(c, s)
  {
    && (forall k :: 0 <= k < |s.mq| ==> Owns(s.grad, s.mq[k]))
    && DistinctRobs(Held1(s) + s.mq)
    && (Held1(s) != [] ==> Owns(s.grad, s.op) && (IsStore(s.op.req) ==> s.op.retired))
    && (s.got2 ==> !s.op2.retired && (IsStore(s.op2.req) ==> s.grad[s.op2.req.rob].Free?))
  }

  /** r_n_inflight is the number of accepted requests that have not been answered. */
  ghost predicate CountInv(c: Config, s: State) {
    s.inflight == |Outstanding(s)|
  }

  ghost predicate Inv(c: Config, s: State) {
    && Shape(c, s)
    && RamInv(c, s.ram) && ViewInv(c, s.ram, s.written) && LogInv(c, s)
    && Port1Inv(c, s) && Port2Inv(c, s) && BypassInv(c, s) && FsmInv(c, s)
    && NoMoves(Held1(s)) && NoMoves(s.mq)
    && GradInv(c, s) && CountInv(c, s)
  }

  // ---------------------------------------------------------------- environment

  /** The memory answers only an outstanding request, a read with the addressed line. */
  ghost predicate BusRule(s: State, i: Input) {
    i.rsp.Some? ==>
      && (s.fsm.Inject? || s.fsm.FlushAllWait? || s.fsm.FlushLineWait?)
      && (s.bus.kind.ReadLine? ==> i.rsp.value == Read(s.ram.mem, s.bus.la))
  }

  /** The core never reuses the ROB index of the request it handed over in the previous cycle, and
      never retires while draining (l1d.sv stops the simulation if it does). */
  ghost predicate CoreRule(s: State, i: Input) {
    && (i.core.Some? && s.got2 && IsStore(s.op2.req) ==> i.core.value.rob != s.op2.req.rob)
    && (i.drain ==> i.ret.None? && i.ret2.None?)
  }

  /** While draining, whatever was accepted after a squashed operation that has not retired is squashed
      as well: requests arrive in program order and a squash cuts the program off at one point. */
  ghost predicate WindowRule(s: State, i: Input) {
    i.drain ==>
      forall j, k :: 0 <= j < k < |Order(s)| && !Order(s)[j].retired && Order(s)[j].req.rob in i.dead ==>
        Order(s)[k].req.rob in i.dead
  }

  /** A flush starts in the cycle in which port 1 discovers that its load misses. */
  ghost predicate FlushClash(s: State) {
    && s.fsm.Active? && s.mq == [] && !(s.got && s.lastWr)
    && (s.flushReq || s.flushLineReq)
    && IsMiss(Port1Action(s))
  }

  ghost predicate Protocol(c: Config, s: State, i: Input) {
    InputShape(c, i) && BusRule(s, i) && CoreRule(s, i)
  }
}
