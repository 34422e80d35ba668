/**
  Cycle-level model of the L1 data cache (l1d.sv): a direct-mapped write-back cache with two read
  ports, a retry/store queue, store graduation and an evict/reload/flush state machine.

  `State` holds the registers and RAMs; `Comb` is the combinational logic of one cycle and `Next`
  the clock edge.  The model carries history variables that the hardware does not have and
  that never influence a signal: `log`, `written`, and the fields `seen`, `clean`, `retired` and
  `squashed` of an operation.  They exist to state what the cache promises.
 */
module DataCache {
  import opened MemoryTypes

  /** A line address, split into tag and set index as the RTL slices it. */
  datatype LineAddr = LineAddr(tag: nat, idx: nat)

  /** mem_req_t without the destination register fields; `id` is the uuid. */
  datatype MemReq = MemReq(la: LineAddr, pay: Payload, rob: nat, id: nat)

  predicate IsStore(r: MemReq) { IsStoreOp(r.pay.op) }

  /** Sizes, the memory contents at reset, and the two data-path functions of the cache. */
  datatype Config = Config(
    sets: nat, mrq: nat, robs: nat,
    init: map<LineAddr, Line>,
    merge: (Payload, Line) -> Line,
    extract: (Payload, Line) -> Word)

  predicate WellFormed(c: Config) { c.sets >= 2 && c.mrq >= 4 && c.robs >= 1 }

  /** A finite map read with a default: the backing memory. */
  function Read(m: map<LineAddr, Line>, la: LineAddr): Line {
    if la in m then m[la] else 0
  }

  /** The reference memory: the stores `ws` applied in order to the initial memory, at one line. */
  function Replay(c: Config, ws: seq<MemReq>, la: LineAddr): Line {
    if ws == [] then Read(c.init, la)
    else
      var before := Replay(c, ws[..|ws| - 1], la);
      var w := ws[|ws| - 1];
      if w.la == la then c.merge(w.pay, before) else before
  }

  // ---------------------------------------------------------------- registers

  /** r_graduated: 00, 01 and 10. */
  datatype Grad = Free | Busy | Retired

  /**
    A request inside the cache.  History: `seen` is the reference line at acceptance, `clean`
    says no older waiting store was squashed since, `retired` that the retirement of its ROB
    entry was signalled while it waited in the queue, `squashed` that its ROB entry was in the
    dead mask in a draining cycle while it waited there.
   */
  datatype Op = Op(req: MemReq, seen: Line, clean: bool, retired: bool, squashed: bool)

  datatype Fsm =
    | Active | WaitInject | Inject | HandleReload
    | FlushAll | FlushAllWait | FlushLine | FlushLineWait

  datatype ReadOut = ReadOut(tag: nat, valid: bool, dirty: bool, data: Line)

  datatype BusOp = WriteLine | ReadLine
  datatype BusReq = BusReq(la: LineAddr, kind: BusOp, data: Line)

  /** The tag, data, valid and dirty RAMs, and the backing memory behind them. */
  datatype Ram = Ram(
    tags: seq<nat>, data: seq<Line>, valid: seq<bool>, dirty: seq<bool>, mem: map<LineAddr, Line>)

  predicate RamShape(c: Config, r: Ram) {
    |r.tags| == |r.data| == |r.valid| == |r.dirty| == c.sets
  }

  datatype State = State(
    ram: Ram,
    // retry queue and graduation table
    mq: seq<Op>, grad: seq<Grad>,
    // port 1: r_got_req, r_req, r_cache_idx/tag, r_last_wr, r_is_retry, r_did_reload,
    // r_must_forward, r_hit_busy_addr, the RAM outputs, rr_cache_idx, rr_last_wr
    got: bool, op: Op, idx: nat, tag: nat, lastWr: bool, isRetry: bool, didReload: bool,
    mustFwd: bool, hitBusy: bool, rd: ReadOut, rrIdx: nat, rrLastWr: bool,
    // port 2
    got2: bool, op2: Op, idx2: nat, tag2: nat, lastWr2: bool, mustFwd2: bool, hitBusy2: bool,
    rd2: ReadOut,
    wrData: Line,
    // control
    fsm: Fsm, lock: bool, inhibit: bool, issue: bool,
    bus: BusReq, busValid: bool,
    flushReq: bool, flushLineReq: bool, flushDone: bool,
    inflight: nat, memqEmpty: bool,
    // history
    written: seq<MemReq>, log: seq<MemReq>)

  datatype Input = Input(
    core: Option<MemReq>,
    drain: bool, dead: set<nat>, ret: Option<nat>, ret2: Option<nat>,
    flush: bool, flushLine: bool, flushIdx: nat,
    rsp: Option<Line>)

  datatype Answer = Drained | Moved | Acked | Loaded(value: Word)
  datatype Rsp = Rsp(op: Op, answer: Answer)

  ghost predicate OpShape(c: Config, o: Op) { o.req.la.idx < c.sets && o.req.rob < c.robs }

  /** The registers and RAMs have their sizes. */
  ghost predicate Sized(c: Config, s: State) {
    && RamShape(c, s.ram)
    && |s.grad| == c.robs
    && s.idx < c.sets && s.idx2 < c.sets && s.bus.la.idx < c.sets
    && OpShape(c, s.op) && OpShape(c, s.op2)
  }

  ghost predicate QueueShape(c: Config, q: seq<Op>) {
    |q| <= c.mrq && forall k :: 0 <= k < |q| ==> OpShape(c, q[k])
  }

  ghost predicate Shape(c: Config, s: State) { Sized(c, s) && QueueShape(c, s.mq) }

  ghost predicate InputShape(c: Config, i: Input) {
    && (i.core.Some? ==> i.core.value.la.idx < c.sets && i.core.value.rob < c.robs)
    && (i.ret.Some? ==> i.ret.value < c.robs)
    && (i.ret2.Some? ==> i.ret2.value < c.robs)
    && i.flushIdx < c.sets
  }

  // ---------------------------------------------------------------- combinational logic

  /** t_data and t_data2: the RAM output, or the line written in the previous cycle. */
  function Data1(s: State): Line { if s.got && s.mustFwd then s.wrData else s.rd.data }
  function Data2(s: State): Line { if s.got2 && s.mustFwd2 then s.wrData else s.rd2.data }

  predicate Hit1(s: State) { s.rd.valid && s.rd.tag == s.tag }
  predicate Hit2(s: State) { s.rd2.valid && s.rd2.tag == s.tag2 }

  /** t_wr_array and t_array_data. */
  predicate WrArray(s: State) {
    && Hit1(s) && s.got && (s.fsm.Active? || s.fsm.Inject?)
    && IsStore(s.op.req) && (s.isRetry || s.didReload)
  }
  function WrLine(c: Config, s: State): Line { c.merge(s.op.req.pay, Data1(s)) }

  /** What port 1 does with the request it holds in the ACTIVE state. */
  datatype Port1 = Idle | StoreHit | LoadHit | Evict(wait: bool) | Fill(wait: bool) | Stall(evict: bool)

  predicate IsMiss(p: Port1) { p.Evict? || p.Fill? || p.Stall? }

  function Port1Action(s: State): Port1 {
    var late := s.rrIdx == s.idx && s.rrLastWr;
    if !s.got then Idle
    else if Hit1(s) then (if IsStore(s.op.req) then StoreHit else LoadHit)
    else if s.rd.valid && s.rd.dirty then
      (if s.hitBusy && !s.isRetry then Stall(true) else Evict(late))
    else if s.hitBusy && !s.isRetry && !s.lock then Stall(false)
    else Fill(late)
  }

  /** What happens to the head of the retry queue. */
  datatype Pop = Keep | Fire | Drop

  predicate HeadBlocked(s: State)
    requires s.mq != []
  {
    s.got && s.lastWr && s.idx == s.mq[0].req.la.idx
  }

  function PopAction(c: Config, s: State, i: Input): (p: Pop)
    requires |s.mq| > 0 ==> s.mq[0].req.rob < |s.grad|
    ensures !p.Keep? ==> s.mq != []
  {
    if s.mq == [] || IsMiss(Port1Action(s)) || s.lock || HeadBlocked(s) then Keep
    else if !IsStore(s.mq[0].req) then Fire
    else if s.grad[s.mq[0].req.rob].Retired? then Fire
    else if i.drain && s.mq[0].req.rob in i.dead then Drop
    else Keep
  }

  /** t_cm_block */
  predicate CoreBlocked(s: State, r: MemReq) {
    s.got && s.lastWr && s.idx == r.la.idx && s.tag == r.la.tag
  }

  /** core_mem_req_ack */
  predicate Accepts(c: Config, s: State, i: Input): (b: bool)
    requires |s.mq| > 0 ==> s.mq[0].req.rob < |s.grad|
    requires i.core.Some? ==> i.core.value.rob < |s.grad|
    ensures b ==> i.core.Some?
  {
    && i.core.Some?
    && !IsMiss(Port1Action(s))
    && |s.mq| + 1 < c.mrq
    && !(PopAction(c, s, i).Fire? && !IsStore(s.mq[0].req))
    && !(s.lastWr2 && s.idx2 == i.core.value.la.idx && !IsStore(i.core.value))
    && !(CoreBlocked(s, i.core.value) && !(s.didReload || s.isRetry))
    && s.grad[i.core.value.rob].Free?
  }

  datatype Port2 = Port2(push: bool, rsp: Option<Rsp>)

  /** The ACTIVE-state handling of the request accepted in the previous cycle. */
  function Port2Action(c: Config, s: State, i: Input): (p: Port2)
    ensures p.push ==> s.got2
  {
    if !s.got2 then Port2(false, None)
    else if i.drain then Port2(false, Some(Rsp(s.op2, Drained)))
    else if IsMoveOp(s.op2.req.pay.op) then Port2(false, Some(Rsp(s.op2, Moved)))
    else if IsStore(s.op2.req) then Port2(true, Some(Rsp(s.op2, Acked)))
    else if Hit2(s) && !s.hitBusy2 then
      Port2(false, Some(Rsp(s.op2, Loaded(c.extract(s.op2.req.pay, Data2(s))))))
    else Port2(true, None)
  }

  /** The signals that decide the next registers. */
  datatype Ctl = Ctl(
    fsm: Fsm, rdIdx: nat, rdTag: nat, start: bool, op: Op, lastWr: bool, retry: bool, reload: bool,
    pop: Pop, accept: bool, push: bool, rsp: Option<Rsp>, markInvalid: bool,
    lock: bool, inhibit: bool, issue: bool, bus: BusReq, busValid: bool,
    flushReq: bool, flushLineReq: bool, flushDone: bool)

  /** A read address within the RAMs, a pop only from a non-empty queue, an accept only of a request. */
  ghost predicate CtlShape(c: Config, s: State, i: Input, k: Ctl) {
    && k.rdIdx < c.sets
    && k.bus.la.idx < c.sets
    && OpShape(c, k.op)
    && (!k.pop.Keep? ==> s.mq != [])
    && (k.accept ==> i.core.Some?)
    && (k.push ==> s.got2)
  }

  /** Which pending flush starts in this ACTIVE cycle: none while a request is accepted. */
  datatype FlushStart = NoFlush | StartAll | StartLine

  function FlushAction(s: State, accept: bool): FlushStart {
    if accept || s.mq != [] || (s.got && s.lastWr) then NoFlush
    else if s.flushReq then StartAll
    else if s.flushLineReq then StartLine
    else NoFlush
  }

  function ActiveFsm(p: Port1, f: FlushStart): Fsm {
    match f
    case StartAll => FlushAll
    case StartLine => FlushLine
    case NoFlush => if p.Evict? || p.Fill? then (if p.wait then WaitInject else Inject) else Active
  }

  /** The set read through port 1 in this ACTIVE cycle. */
  function ActiveRead(s: State, i: Input, p: Port1, pop: Pop, f: FlushStart): (r: nat)
    requires pop.Fire? ==> s.mq != []
    ensures r == 0 || r == i.flushIdx || r == s.idx || (s.mq != [] && r == s.mq[0].req.la.idx)
  {
    match f
    case StartAll => 0
    case StartLine => i.flushIdx
    case NoFlush =>
      if pop.Fire? then s.mq[0].req.la.idx
      else if p.Fill? || (p.Evict? && p.wait) then s.idx else 0
  }

  function ActiveBus(s: State, p: Port1): (b: BusReq)
    ensures b.la.idx == s.idx || b.la == s.op.req.la || b == s.bus
  {
    var victim := LineAddr(s.rd.tag, s.idx);
    match p
    case Evict(_) => BusReq(victim, WriteLine, Data1(s))
    case Fill(wait) => if wait then BusReq(victim, WriteLine, s.bus.data)
                       else BusReq(s.op.req.la, ReadLine, s.bus.data)
    case _ => s.bus
  }

  function ActiveLock(s: State, p: Port1): bool {
    match p case Evict(_) => true case Fill(wait) => wait case _ => s.lock
  }

  function ActiveInhibit(s: State, p: Port1): bool {
    match p case Evict(_) => true case Fill(_) => false case Stall(e) => e case _ => s.inhibit
  }

  /** The response of this ACTIVE cycle: a port-1 load wins over port 2. */
  function ActiveRsp(c: Config, s: State, i: Input, p: Port1): Option<Rsp> {
    if p.LoadHit? then Some(Rsp(s.op, Loaded(c.extract(s.op.req.pay, Data1(s)))))
    else Port2Action(c, s, i).rsp
  }

  function CombActive(c: Config, s: State, i: Input): Ctl
    requires WellFormed(c) && Shape(c, s) && InputShape(c, i)
  {
    var p1 := Port1Action(s);
    var pop := PopAction(c, s, i);
    var accept := Accepts(c, s, i);
    var fire := pop.Fire?;
    var f := FlushAction(s, accept);
    var next := if fire then s.mq[0] else s.op;
    Ctl(ActiveFsm(p1, f), ActiveRead(s, i, p1, pop, f), if fire then next.req.la.tag else 0,
        fire, next, fire && IsStore(next.req), fire, false,
        pop, accept, Port2Action(c, s, i).push, ActiveRsp(c, s, i, p1), false,
        ActiveLock(s, p1), ActiveInhibit(s, p1),
        s.issue || p1.Evict? || p1.Fill? || (p1.Stall? && p1.evict),
        ActiveBus(s, p1), (p1.Evict? || p1.Fill?) && !p1.wait,
        (s.flushReq || i.flush) && !f.StartAll?, (s.flushLineReq || i.flushLine) && !f.StartLine?, false)
  }

  lemma ActiveCtlShape(c: Config, s: State, i: Input)
    requires WellFormed(c) && Shape(c, s) && InputShape(c, i)
    ensures CtlShape(c, s, i, CombActive(c, s, i))
  {
    var p, pop := Port1Action(s), PopAction(c, s, i);
    assert ActiveRead(s, i, p, pop, FlushAction(s, Accepts(c, s, i))) < c.sets;
    assert ActiveBus(s, p).la.idx < c.sets;
  }

  function OtherFsm(c: Config, s: State, i: Input): Fsm {
    match s.fsm
    case Active => Active
    case WaitInject => Inject
    case Inject => if i.rsp.None? then Inject else if s.issue then HandleReload else Active
    case HandleReload => Active
    case FlushLine => if s.rd.dirty then FlushLineWait else Active
    case FlushLineWait => if i.rsp.Some? then Active else FlushLineWait
    case FlushAll => if s.idx + 1 == c.sets then Active else if s.rd.dirty then FlushAllWait else FlushAll
    case FlushAllWait => if i.rsp.Some? then FlushAll else FlushAllWait
  }

  /** The flush states read the set they walk to; a reloaded request reads its own set again. */
  function OtherRead(c: Config, s: State): (r: nat)
    requires c.sets > 0 && s.op.req.la.idx < c.sets && s.idx < c.sets
    ensures r < c.sets
  {
    match s.fsm
    case HandleReload => s.op.req.la.idx
    case FlushAll => if s.idx + 1 == c.sets then 0 else s.idx + 1  // wraps
    case FlushAllWait => s.idx
    case _ => 0
  }

  /** A flush state found its set dirty and writes it back. */
  predicate FlushWrites(c: Config, s: State) {
    s.rd.dirty && (s.fsm.FlushLine? || (s.fsm.FlushAll? && s.idx + 1 != c.sets))
  }

  /** t_mark_invalid: a flush state found its set clean. */
  predicate FlushInvalidates(c: Config, s: State) {
    !s.rd.dirty && (s.fsm.FlushLine? || (s.fsm.FlushAll? && s.idx + 1 != c.sets))
  }

  predicate OtherInhibit(c: Config, s: State, i: Input) {
    FlushWrites(c, s) ||
    (s.inhibit && !(i.rsp.Some? && (s.fsm.Inject? || s.fsm.FlushLineWait? || s.fsm.FlushAllWait?)))
  }

  function OtherBus(c: Config, s: State): (b: BusReq)
    ensures b.la.idx == s.idx || b.la == s.bus.la
  {
    if FlushWrites(c, s) then BusReq(LineAddr(s.rd.tag, s.idx), WriteLine, Data1(s))
    else if s.fsm.WaitInject? then s.bus.(data := Data1(s))
    else s.bus
  }

  predicate OtherFlushDone(c: Config, s: State, i: Input) {
    || (s.fsm.FlushLine? && !s.rd.dirty)
    || (s.fsm.FlushLineWait? && i.rsp.Some?)
    || (s.fsm.FlushAll? && s.idx + 1 == c.sets)
  }

  /** Every state but ACTIVE. */
  function CombOther(c: Config, s: State, i: Input): (k: Ctl)
    requires WellFormed(c) && Shape(c, s) && InputShape(c, i)
    ensures CtlShape(c, s, i, k)
  {
    var again := s.fsm.HandleReload?;
    Ctl(OtherFsm(c, s, i), OtherRead(c, s), if again then s.op.req.la.tag else 0,
        again, s.op, again && IsStore(s.op.req), false, again,
        Keep, false, false, None, FlushInvalidates(c, s),
        s.lock, OtherInhibit(c, s, i), s.issue && !(s.fsm.Inject? && i.rsp.Some?),
        OtherBus(c, s), FlushWrites(c, s) || s.fsm.WaitInject?,
        s.flushReq || i.flush, s.flushLineReq || i.flushLine, OtherFlushDone(c, s, i))
  }

  function Comb(c: Config, s: State, i: Input): (k: Ctl)
    requires WellFormed(c) && Shape(c, s) && InputShape(c, i)
    ensures CtlShape(c, s, i, k)
  {
    if s.fsm.Active? then ActiveCtlShape(c, s, i); CombActive(c, s, i) else CombOther(c, s, i)
  }

  // ---------------------------------------------------------------- the clock edge

  function ReadSet(r: Ram, k: nat): ReadOut
    requires k < |r.tags| == |r.valid| == |r.dirty| == |r.data|
  {
    ReadOut(r.tags[k], r.valid[k], r.dirty[k], r.data[k])
  }

  /** The RAM write ports: a memory response wins over a store, an invalidation over both. */
  function NextRam(c: Config, s: State, i: Input, markInvalid: bool): (r: Ram)
    requires RamShape(c, s.ram) && s.idx < c.sets && s.bus.la.idx < c.sets
    ensures RamShape(c, r)
  {
    var m := s.ram;
    var b := s.bus.la;
    if i.rsp.Some? then
      Ram(m.tags[b.idx := b.tag], m.data[b.idx := i.rsp.value],
          if markInvalid then m.valid[s.idx := false] else m.valid[b.idx := !s.inhibit],
          m.dirty[b.idx := false],
          if s.bus.kind.WriteLine? then m.mem[b := s.bus.data] else m.mem)
    else
      Ram(m.tags,
          if WrArray(s) then m.data[s.idx := WrLine(c, s)] else m.data,
          if markInvalid then m.valid[s.idx := false] else m.valid,
          if WrArray(s) then m.dirty[s.idx := true] else m.dirty,
          m.mem)
  }

  /** r_graduated at one ROB index: later assignments of the always_ff block win. */
  function GradAfter(s: State, i: Input, k: Ctl, r: nat): Grad
    requires r < |s.grad| && (k.pop.Drop? ==> s.mq != [])
  {
    if k.pop.Drop? && r == s.mq[0].req.rob then Free
    else if s.fsm.Active? && Port1Action(s).StoreHit? && r == s.op.req.rob then Free
    else if k.push && IsStore(s.op2.req) && r == s.op2.req.rob then Busy
    else if (i.ret == Some(r) || i.ret2 == Some(r)) && s.grad[r].Busy? then Retired
    else s.grad[r]
  }

  function NextGrad(s: State, i: Input, k: Ctl): (g: seq<Grad>)
    requires k.pop.Drop? ==> s.mq != []
    ensures |g| == |s.grad|
  {
    seq(|s.grad|, r requires 0 <= r < |s.grad| => GradAfter(s, i, k, r))
  }

  /** History: mark the waiting operations whose ROB entry retires or is squashed now. */
  function Mark(q: seq<Op>, i: Input): (r: seq<Op>)
    ensures |r| == |q|
    ensures forall k :: 0 <= k < |q| ==> r[k] == MarkOne(q[k], i)
  {
    seq(|q|, k requires 0 <= k < |q| => MarkOne(q[k], i))
  }
  function MarkOne(o: Op, i: Input): Op {
    o.(retired := o.retired || i.ret == Some(o.req.rob) || i.ret2 == Some(o.req.rob),
       squashed := o.squashed || (i.drain && o.req.rob in i.dead))
  }

  /** History: everything younger than a squashed store loses its prediction. */
  function Taint(q: seq<Op>): (r: seq<Op>)
    ensures |r| == |q|
    ensures forall k :: 0 <= k < |q| ==> r[k] == q[k].(clean := false)
  {
    seq(|q|, k requires 0 <= k < |q| => q[k].(clean := false))
  }

  function NextQueue(s: State, i: Input, pop: Pop, push: bool): seq<Op>
    requires !pop.Keep? ==> s.mq != []
  {
    var marked := Mark(s.mq, i);
    var tail := if push then [s.op2] else [];
    match pop
    case Keep => marked + tail
    case Fire => marked[1..] + tail
    case Drop => Taint(marked[1..] + tail)
  }

  function NextWritten(s: State): seq<MemReq> {
    if WrArray(s) then s.written + [s.op.req] else s.written
  }

  /** History: accepted stores, less the squashed ones.  The store at the queue head is the oldest
      one not written; a store discarded on port 2 while draining is the youngest one. */
  function NextLog(s: State, i: Input, pop: Pop, accept: bool): seq<MemReq> {
    var l2 := SquashLog(s, i, pop);
    if accept && i.core.Some? && IsStore(i.core.value) then l2 + [i.core.value] else l2
  }

  function SquashLog(s: State, i: Input, pop: Pop): seq<MemReq> {
    var n := |NextWritten(s)|;
    var l1 := if s.fsm.Active? && s.got2 && i.drain && IsStore(s.op2.req) && |s.log| > 0
              then s.log[..|s.log| - 1] else s.log;
    if pop.Drop? && n < |l1| then l1[..n] + l1[n + 1..] else l1
  }

  /** r_n_inflight, a counter of LG_MRQ_ENTRIES + 1 bits. */
  function NextInflight(c: Config, s: State, k: Ctl): nat
    requires c.mrq > 0
  {
    if k.accept && k.rsp.None? then (if s.inflight + 1 == 2 * c.mrq then 0 else s.inflight + 1)
    else if !k.accept && k.rsp.Some? then (if s.inflight > 0 then s.inflight - 1 else 2 * c.mrq - 1)
    else s.inflight
  }

  /** w_hit_busy_addrs: some queue entry maps to set `idx`. */
  predicate Occupies(q: seq<Op>, idx: nat) {
    exists k :: 0 <= k < |q| && q[k].req.la.idx == idx
  }

  /** r_hit_busy_addr: like the above, for the set read through port 1, without a popped head. */
  predicate BusyAfterPop(s: State, pop: Pop, idx: nat) {
    if pop.Keep? || s.mq == [] then Occupies(s.mq, idx) else Occupies(s.mq[1..], idx)
  }

  /** A request as it enters port 2: its history records the line that the reference memory holds
      after every store accepted before it. */
  function NewOp(c: Config, log: seq<MemReq>, r: MemReq): (o: Op)
    ensures o.req == r
  {
    var older := if IsStore(r) && |log| > 0 then log[..|log| - 1] else log;
    Op(r, Replay(c, older, r.la), true, false, false)
  }

  /** n_req2 */
  function NextOp2(c: Config, s: State, i: Input, log: seq<MemReq>, accept: bool): (o: Op)
    requires accept ==> i.core.Some?
    ensures o.req == s.op2.req || (accept && o.req == i.core.value)
  {
    if accept then NewOp(c, log, i.core.value) else s.op2
  }

  /** t_cache_idx2 and t_cache_tag2 */
  function NextLa2(i: Input, accept: bool): (la: LineAddr)
    requires accept ==> i.core.Some?
    ensures la.idx == 0 || (accept && la == i.core.value.la)
  {
    if accept then i.core.value.la else LineAddr(0, 0)
  }

  /** r_array_wr_data */
  function NextWrData(c: Config, s: State, i: Input): Line {
    if i.rsp.Some? then i.rsp.value else if IsStore(s.op.req) then WrLine(c, s) else 0
  }

  predicate NextMustFwd(s: State, pop: Pop) {
    s.fsm.Active? && s.mq != [] && !pop.Keep? && HeadBlocked(s)
  }

  predicate NextMemqEmpty(s: State, i: Input, k: Ctl) {
    s.mq == [] && i.drain && i.core.None? && !k.start && !k.accept && !k.push && s.inflight == 0
  }

  /** Every register and RAM takes its next value from the signals `k`. */
  function Edge(c: Config, s: State, i: Input, k: Ctl): (s': State)
    requires WellFormed(c) && Shape(c, s) && InputShape(c, i) && CtlShape(c, s, i, k)
    ensures Sized(c, s')
  {
    var log := NextLog(s, i, k.pop, k.accept);
    var op2 := NextOp2(c, s, i, log, k.accept);
    var la2 := NextLa2(i, k.accept);
    State(
      NextRam(c, s, i, k.markInvalid),
      NextQueue(s, i, k.pop, k.push), NextGrad(s, i, k),
      k.start, k.op, k.rdIdx, k.rdTag, k.lastWr, k.retry, k.reload,
      NextMustFwd(s, k.pop), BusyAfterPop(s, k.pop, k.rdIdx), ReadSet(s.ram, k.rdIdx), s.idx, s.lastWr,
      k.accept, op2, la2.idx, la2.tag, k.accept && IsStore(op2.req), k.accept && CoreBlocked(s, op2.req),
      Occupies(s.mq, la2.idx), ReadSet(s.ram, la2.idx),
      NextWrData(c, s, i),
      k.fsm, k.lock, k.inhibit, k.issue, k.bus, k.busValid,
      k.flushReq, k.flushLineReq, k.flushDone,
      NextInflight(c, s, k), NextMemqEmpty(s, i, k),
      NextWritten(s), log)
  }

  /** One clock cycle. */
  function Next(c: Config, s: State, i: Input): (s': State)
    requires WellFormed(c) && Shape(c, s) && InputShape(c, i)
    ensures Sized(c, s')
  {
    Edge(c, s, i, Comb(c, s, i))
  }
}
