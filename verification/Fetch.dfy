/**
  The instruction fetch unit (l1i.sv): a direct-mapped instruction cache with predecoded lines, a
  state machine that pushes one to four instructions per cycle, and branch prediction.

  Program counters are word addresses split into tag, set index and word in line.  Predictor
  outputs are inputs.  `start`, `guesses`, `pushed` and `popped` are history variables.
 */
module Fetch {
  import opened MemoryTypes
  import opened FetchQueue

  datatype Pc = Pc(tag: nat, idx: nat, word: nat)

  datatype Jump =
    | NotCflow | CondBr | LikelyBr | J | Jr | Jal | Jalr | JrR31 | Br | BrAndLink

  /** Cache geometry, queue size, the program, and the two direct target computations. */
  datatype Config = Config(
    tags: nat, sets: nat, entries: nat, code: Pc -> bv32,
    jump: (Pc, bv32) -> Pc, relative: (Pc, bv32) -> Pc)

  predicate WellFormed(c: Config) { c.tags >= 1 && c.sets >= 1 && c.entries >= 4 }
  predicate PcShape(c: Config, p: Pc) { p.tag < c.tags && p.idx < c.sets && p.word < 4 }

  function IncIdx(c: Config, idx: nat): (r: nat)
    requires idx < c.sets
    ensures r < c.sets
  {
    if idx + 1 == c.sets then 0 else idx + 1
  }

  /** The next line, with the carry into the tag. */
  function NextLine(c: Config, p: Pc): (r: Pc)
    requires PcShape(c, p)
    ensures PcShape(c, r)
  {
    var carry := p.idx + 1 == c.sets;
    Pc(if !carry then p.tag else if p.tag + 1 == c.tags then 0 else p.tag + 1, IncIdx(c, p.idx), p.word)
  }

  /** pc + 4 */
  function Inc(c: Config, p: Pc): (r: Pc)
    requires PcShape(c, p)
    ensures PcShape(c, r)
  {
    if p.word < 3 then p.(word := p.word + 1) else NextLine(c, p).(word := 0)
  }

  /** pc + 4n */
  function Plus(c: Config, p: Pc, n: nat): (r: Pc)
    requires PcShape(c, p)
    ensures PcShape(c, r)
  {
    if n == 0 then p else Inc(c, Plus(c, p, n - 1))
  }

  /** predecode */
  function Predecode(insn: bv32): Jump {
    var opcode, rs, rt := insn >> 26, (insn >> 21) & 31, (insn >> 16) & 31;
    if opcode == 0 then
      (if insn & 63 == 8 then (if rs == 31 then JrR31 else Jr) else if insn & 63 == 9 then Jalr else NotCflow)
    else if opcode == 1 then
      (if rt == 0 || rt == 1 then CondBr else if rt == 2 || rt == 3 then LikelyBr
       else if rt == 17 then BrAndLink else NotCflow)
    else if opcode == 2 then J
    else if opcode == 3 then Jal
    else if opcode == 4 then (if rs == 0 && rt == 0 then Br else CondBr)
    else if opcode == 5 || opcode == 6 || opcode == 7 then CondBr
    else if opcode == 17 then
      (if rs != 8 then NotCflow else if (insn >> 17) & 1 == 0 then CondBr else LikelyBr)
    else if 20 <= opcode <= 23 then LikelyBr
    else NotCflow
  }

  // ---------------------------------------------------------------- registers

  /** One line: its words and their predecoded kinds. */
  datatype Line = Line(words: seq<bv32>, kinds: seq<Jump>)
  datatype ReadOut = ReadOut(valid: bool, tag: nat, line: Line)
  datatype Ram = Ram(valid: seq<bool>, tags: seq<nat>, lines: seq<Line>)

  datatype Fsm = Idle | Active | InjectReload | ReloadTurnaround | FlushCache | WaitForNotFull | ReloadUtlb

  /** A queue entry: the instruction, and the predicted target if it is predicted taken. */
  datatype Fetched = Fetched(pc: Pc, insn: bv32, target: Option<Pc>)

  /** Whether the predictor was asked about a pushed instruction, and its answer. */
  datatype Ask = NotAsked | Asked(guess: Option<Pc>)

  datatype State = State(
    fsm: Fsm, pc: Pc, cachePc: Pc, missPc: Pc, req: bool, slot: bool,
    cacheIdx: nat, cacheTag: nat, rd: ReadOut, ram: Ram, q: Ring<Fetched>,
    restartReq: bool, flushReq: bool,
    start: Pc, guesses: seq<Ask>, pushed: seq<Fetched>, popped: nat)

  /** restart_valid and restart_pc, flush_req, t_utlb_hit, tlb_rsp_valid, mem_rsp_valid, insn_ack and
      insn_ack_two, and the predictor outputs r_pht_out[1], r_btb_pc and the return stack top. */
  datatype Input = Input(
    restart: bool, restartPc: Pc, flush: bool, utlb: bool, tlbRsp: bool, memRsp: bool,
    ack: bool, ackTwo: bool, pht: bool, btb: Pc, ras: Pc)

  predicate LineShape(l: Line) { |l.words| == |l.kinds| == 4 }

  ghost predicate RamShape(c: Config, r: Ram) {
    |r.valid| == |r.tags| == |r.lines| == c.sets && forall k :: 0 <= k < |r.lines| ==> LineShape(r.lines[k])
  }

  ghost predicate Shape(c: Config, s: State) {
    && PcShape(c, s.pc) && PcShape(c, s.cachePc) && PcShape(c, s.missPc) && s.cacheIdx < c.sets
    && LineShape(s.rd.line) && RamShape(c, s.ram) && RingShape(c.entries, s.q)
  }

  ghost predicate InputShape(c: Config, i: Input) {
    PcShape(c, i.restartPc) && PcShape(c, i.btb) && PcShape(c, i.ras)
  }

  /** Direct targets lie in the address space. */
  ghost predicate TargetsFit(c: Config) {
    (forall p: Pc, w: bv32 :: PcShape(c, c.jump(p, w))) && (forall p: Pc, w: bv32 :: PcShape(c, c.relative(p, w)))
  }

  // ---------------------------------------------------------------- combinational logic

  predicate Hit(s: State) { s.req && s.rd.valid && s.rd.tag == s.cacheTag }
  predicate Miss(s: State) { s.req && !(s.rd.valid && s.rd.tag == s.cacheTag) }

  function Word(s: State, j: nat): bv32
    requires LineShape(s.rd.line) && s.cachePc.word + j < 4
  {
    s.rd.line.words[s.cachePc.word + j]
  }

  /** t_pd */
  function Kind(s: State): Jump
    requires LineShape(s.rd.line) && s.cachePc.word < 4
  {
    s.rd.line.kinds[s.cachePc.word]
  }

  /** The predicted target of the instruction at r_cache_pc, if it is predicted taken. */
  function Predicted(c: Config, p: Pc, insn: bv32, kind: Jump, i: Input): Option<Pc> {
    match kind
    case NotCflow => None
    case Jal => Some(c.jump(p, insn))
    case J => Some(c.jump(p, insn))
    case Br => Some(c.relative(p, insn))
    case LikelyBr => Some(c.relative(p, insn))
    case BrAndLink => if i.pht || (insn >> 21) & 31 == 0 then Some(c.relative(p, insn)) else None
    case CondBr => if i.pht then Some(c.relative(p, insn)) else None
    case JrR31 => Some(i.ras)
    case Jr => Some(i.btb)
    case Jalr => Some(i.btb)
  }

  function Guess(c: Config, s: State, i: Input): Option<Pc>
    requires LineShape(s.rd.line) && s.cachePc.word < 4
  {
    Predicted(c, s.cachePc, Word(s, 0), Kind(s), i)
  }

  /** Bit j of t_spec_branch_marker: a control transfer at distance j, or the end of the line; a
      conditional branch predicted not taken does not count at distance zero. */
  predicate Marker(s: State, i: Input, j: nat)
    requires LineShape(s.rd.line) && s.cachePc.word < 4
  {
    var at := s.cachePc.word + j;
    if at < 4 then !s.rd.line.kinds[at].NotCflow? && !(j == 0 && Kind(s).CondBr? && !i.pht) else at == 4
  }

  /** t_first_branch */
  function FirstBranch(s: State, i: Input): nat
    requires LineShape(s.rd.line) && s.cachePc.word < 4
  {
    if Marker(s, i, 0) then 0 else if Marker(s, i, 1) then 1 else if Marker(s, i, 2) then 2
    else if Marker(s, i, 3) then 3 else if Marker(s, i, 4) then 4 else 7
  }

  /** How many instructions a hit pushes. */
  function PushCount(c: Config, s: State, i: Input): (n: nat)
    requires WellFormed(c) && Shape(c, s)
    ensures 1 <= n <= 4
  {
    var first := FirstBranch(s, i);
    if Guess(c, s, i).Some? || s.slot then 1
    else if first == 4 && !Full(c.entries, s.q, 4) then 4
    else if first == 3 && !Full(c.entries, s.q, 3) then 3
    else if first == 2 && !Full(c.entries, s.q, 2) then 2
    else 1
  }

  /** t_cache_idx of a hit that pushes n. */
  function HitIdx(c: Config, s: State, n: nat): (k: nat)
    requires WellFormed(c) && Shape(c, s)
    ensures k < c.sets
  {
    if n == 4 || (n == 3 && s.cachePc.word != 0) || (n == 2 && s.cachePc.word == 2)
    then IncIdx(c, s.cacheIdx) else s.pc.idx
  }

  function PushedOne(c: Config, s: State, g: Option<Pc>, j: nat): Fetched
    requires Shape(c, s)
  {
    var at := s.cachePc.word + j;
    Fetched(Plus(c, s.cachePc, j), s.rd.line.words[if at < 4 then at else at % 4], if j == 0 then g else None)
  }

  /** The entries t_insn to t_insn4 that a hit pushes. */
  function Pushes(c: Config, s: State, g: Option<Pc>, n: nat): (r: seq<Fetched>)
    requires Shape(c, s)
    ensures |r| == n
  {
    seq(n, j requires 0 <= j < n => PushedOne(c, s, g, j))
  }

  // ---------------------------------------------------------------- control

  /** What one cycle decides. */
  datatype Ctl = Ctl(
    fsm: Fsm, pc: Pc, cachePc: Pc, missPc: Pc, req: bool, slot: bool, rdIdx: nat, rdTag: nat,
    push: nat, clear: bool, restartAck: bool, flushStart: bool)

  ghost predicate CtlShape(c: Config, x: Ctl) {
    PcShape(c, x.pc) && PcShape(c, x.cachePc) && PcShape(c, x.missPc) && x.rdIdx < c.sets && x.push <= 4
  }

  const ZERO: Pc := Pc(0, 0, 0)

  predicate WantsFlush(s: State, i: Input) { s.flushReq || i.flush }
  predicate WantsRestart(s: State, i: Input) { s.restartReq || i.restart }

  /** Start the flush walk at set 0. */
  function Flushing(s: State, pc: Pc, cachePc: Pc, req: bool, tag: nat): Ctl {
    Ctl(FlushCache, pc, cachePc, s.missPc, req, s.slot, 0, tag, 0, true, false, true)
  }
  /** Acknowledge a restart; the read of this cycle is not used. */
  function Restarting(s: State, i: Input, slot: bool, cachePc: Pc, rd: Pc): Ctl {
    Ctl(Active, i.restartPc, cachePc, s.missPc, false, slot, rd.idx, rd.tag, 0, true, true, false)
  }

  function HitCtl(c: Config, s: State, i: Input): Ctl
    requires WellFormed(c) && Shape(c, s)
  {
    var g, n := Guess(c, s, i), PushCount(c, s, i);
    var nextPc := if g.Some? then g.value else if n > 1 then Plus(c, s.cachePc, n + 1) else Inc(c, s.pc);
    var next := if n > 1 then Plus(c, s.cachePc, n) else s.pc;
    Ctl(Active, nextPc, next, s.missPc, true, g.Some? && !s.slot, HitIdx(c, s, n), next.tag,
        n, false, false, false)
  }

  /** Wait, or ask again for the instruction at `p` when `go`. */
  function Retry(s: State, fsm: Fsm, p: Pc, go: bool, rd: Pc): Ctl {
    Ctl(fsm, s.pc, p, s.missPc, go, s.slot, rd.idx, rd.tag, 0, false, false, false)
  }

  function Stall(s: State, fsm: Fsm): Ctl {
    Ctl(fsm, s.pc, s.pc, s.cachePc, true, s.slot, s.pc.idx, s.pc.tag, 0, false, false, false)
  }

  function ActiveCtl(c: Config, s: State, i: Input): Ctl
    requires WellFormed(c) && Shape(c, s)
  {
    if WantsFlush(s, i) then Flushing(s, Inc(c, s.pc), s.pc, true, s.pc.tag)
    else if WantsRestart(s, i) then Restarting(s, i, false, s.pc, s.pc)
    else if !i.utlb && s.req then Stall(s, ReloadUtlb)
    else if Miss(s) then Stall(s, InjectReload)
    else if Hit(s) && !Full(c.entries, s.q, 1) then HitCtl(c, s, i)
    else if Hit(s) then Stall(s, WaitForNotFull)
    else Ctl(Active, Inc(c, s.pc), s.pc, s.missPc, true, s.slot, s.pc.idx, s.pc.tag, 0, false, false, false)
  }

  function WaitCtl(c: Config, s: State, i: Input): Ctl
    requires WellFormed(c) && Shape(c, s)
  {
    if s.fsm.WaitForNotFull? && !Full(c.entries, s.q, 1) then Retry(s, Active, s.missPc, true, s.missPc)
    else if WantsFlush(s, i) then
      Flushing(s, s.pc, if s.fsm.WaitForNotFull? then s.missPc else ZERO, false, s.missPc.tag)
    else if WantsRestart(s, i) then
      Restarting(s, i, false, if s.fsm.WaitForNotFull? then s.missPc else ZERO, s.missPc)
    else if !Full(c.entries, s.q, 1) then Retry(s, Active, s.missPc, true, s.missPc)
    else Retry(s, s.fsm, if s.fsm.WaitForNotFull? then s.missPc else ZERO, false, s.missPc)
  }

  function Comb(c: Config, s: State, i: Input): Ctl
    requires WellFormed(c) && Shape(c, s)
  {
    match s.fsm
    case Idle =>
      if WantsRestart(s, i) then Restarting(s, i, s.slot, ZERO, ZERO) else Retry(s, Idle, ZERO, false, ZERO)
    case Active => ActiveCtl(c, s, i)
    case InjectReload => Retry(s, if i.memRsp then ReloadTurnaround else InjectReload, ZERO, false, ZERO)
    case ReloadTurnaround => WaitCtl(c, s, i)
    case WaitForNotFull => WaitCtl(c, s, i)
    case FlushCache =>
      Ctl(if s.cacheIdx + 1 == c.sets then Idle else FlushCache, s.pc, ZERO, s.missPc, false, s.slot,
          IncIdx(c, s.cacheIdx), 0, 0, false, false, false)
    case ReloadUtlb =>
      if !i.tlbRsp then Retry(s, ReloadUtlb, ZERO, false, s.missPc)
      else Retry(s, if Full(c.entries, s.q, 1) then WaitForNotFull else Active, s.missPc, true, s.missPc)
  }

  // ---------------------------------------------------------------- the clock edge

  /** The line of the program at a tag and an index. */
  function CodeLine(c: Config, tag: nat, idx: nat): (l: Line)
    ensures LineShape(l)
    ensures forall k :: 0 <= k < 4 ==> l.words[k] == c.code(Pc(tag, idx, k)) && l.kinds[k] == Predecode(l.words[k])
  {
    var words := seq(4, k requires 0 <= k < 4 => c.code(Pc(tag, idx, k)));
    Line(words, seq(4, k requires 0 <= k < 4 => Predecode(words[k])))
  }

  function ReadSet(r: Ram, k: nat): ReadOut
    requires k < |r.valid| && k < |r.tags| && k < |r.lines|
  {
    ReadOut(r.valid[k], r.tags[k], r.lines[k])
  }

  function NextRam(c: Config, s: State, i: Input): (r: Ram)
    requires Shape(c, s)
    ensures RamShape(c, r)
  {
    var m := s.ram;
    if i.memRsp then
      Ram(m.valid[s.missPc.idx := !s.fsm.FlushCache?], m.tags[s.missPc.idx := s.missPc.tag],
          m.lines[s.missPc.idx := CodeLine(c, s.missPc.tag, s.missPc.idx)])
    else if s.fsm.FlushCache? then m.(valid := m.valid[s.cacheIdx := false])
    else m
  }

  function Pops(i: Input): nat { if i.ack && i.ackTwo then 2 else if i.ack then 1 else 0 }

  function Unasked(n: nat): (r: seq<Ask>)
    ensures |r| == n
  {
    seq(n, _ => NotAsked)
  }

  /** History: of n instructions pushed together only the first one was put to the predictor. */
  function Guessed(g: Option<Pc>, n: nat): (r: seq<Ask>)
    ensures |r| == n
  {
    if n == 0 then [] else [Asked(g)] + Unasked(n - 1)
  }

  /** Every register takes its next value from the decisions `x`. */
  function Edge(c: Config, s: State, i: Input, x: Ctl): State
    requires WellFormed(c) && Shape(c, s) && CtlShape(c, x)
  {
    var g := Guess(c, s, i);
    var news := Pushes(c, s, g, x.push);
    State(
      x.fsm, x.pc, x.cachePc, x.missPc, x.req, x.slot, x.rdIdx, x.rdTag,
      ReadSet(s.ram, x.rdIdx), NextRam(c, s, i), NextRing(c.entries, s.q, news, Pops(i), x.clear),
      WantsRestart(s, i) && !x.restartAck, WantsFlush(s, i) && !x.flushStart,
      if x.restartAck then i.restartPc else s.start,
      if x.clear then [] else s.guesses + Guessed(g, x.push),
      if x.clear then [] else s.pushed + news,
      if x.clear then 0 else s.popped + Pops(i))
  }

  /** One clock cycle. */
  function Next(c: Config, s: State, i: Input): State
    requires WellFormed(c) && Shape(c, s) && CtlShape(c, Comb(c, s, i))
  {
    Edge(c, s, i, Comb(c, s, i))
  }
}
