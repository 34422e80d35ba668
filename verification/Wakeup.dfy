/**
  Wakeup and select of the integer scheduler (exec.sv): ready bits, the in-flight scoreboards, the
  register files' write ports and the rotating select.  The source lists the units that write a
  register four times over: for a uop being allocated, for a waiting uop, for the scoreboard and for
  the register file itself.  The four lists are transcribed separately.
 */
module Wakeup {
  import opened Bits
  import opened PriorityEncoder
  import opened MemoryTypes
  import opened Multisets

  /** A uop's sources and destinations; hilo and FCR sources share one pointer field. */
  datatype Uop = Uop(
    srcA: Option<nat>, srcB: Option<nat>, srcC: Option<nat>, hiloSrc: nat, readsHilo: bool, readsFcr: bool,
    dst: nat, hiloDst: nat)

  function HiloSrc(u: Uop): Option<nat> { if u.readsHilo then Some(u.hiloSrc) else None }
  function FcrSrc(u: Uop): Option<nat> { if u.readsFcr then Some(u.hiloSrc) else None }

  datatype Ready = Ready(a: bool, b: bool, c: bool, hilo: bool, fcr: bool)

  /** r_alu_sched_valid, r_alu_sched_uops and the ready bits per entry; the three in-flight
      scoreboards; r_start_int with int_uop; the counter of the select. */
  datatype State = State(
    valid: seq<bool>, uops: seq<Uop>, rdy: seq<Ready>, gpr: set<nat>, hilo: set<nat>, fcr: set<nat>,
    start: Option<Uop>, cnt: nat)

  /** The destinations of a uop that is pushed into the queues. */
  datatype Push = Push(gpr: Option<nat>, hilo: Option<nat>, fcr: Option<nat>)

  /** The uop at the head of the queue; the port condition of each entry; the two uops pushed now; the
      writers: the memory response, the multiplier's GPR and HILO results, the divider, the FPU's
      comparison, and whether the executing uop writes a GPR or HILO (t_wr_int_prf, t_wr_hilo); ds_done. */
  datatype Input = Input(
    uq: Option<Uop>, port: seq<bool>, push: Push, pushTwo: Push,
    mem: Option<nat>, mulGpr: Option<nat>, mulHilo: Option<nat>, div: Option<nat>, fpu: Option<nat>,
    wrGpr: bool, wrHilo: bool, flush: bool)

  ghost predicate Shape(lg: nat, s: State) {
    lg >= 2 && |s.valid| == |s.uops| == |s.rdy| == Pow2(lg) && s.cnt < Pow2(lg)
  }
  ghost predicate InputShape(lg: nat, i: Input) { |i.port| == Pow2(lg) }

  // ---------------------------------------------------------------- the four lists of writers

  /** t_alu_alloc_srcA_match and its siblings */
  predicate AllocGprMatch(s: State, i: Input, src: Option<nat>) {
    src.Some? && (i.mem == src || i.mulGpr == src || (s.start.Some? && i.wrGpr && s.start.value.dst == src.value))
  }
  predicate AllocHiloMatch(s: State, i: Input, src: Option<nat>) {
    src.Some? && (i.mulHilo == src || i.div == src || (s.start.Some? && i.wrHilo && s.start.value.hiloDst == src.value))
  }
  predicate AllocFcrMatch(i: Input, src: Option<nat>) { src.Some? && i.fpu == src }

  /** t_alu_srcA_match[i] and its siblings */
  predicate EntryGprMatch(s: State, i: Input, src: Option<nat>) {
    src.Some? && (i.mem == src || i.mulGpr == src || (s.start.Some? && i.wrGpr && s.start.value.dst == src.value))
  }
  predicate EntryHiloMatch(s: State, i: Input, src: Option<nat>) {
    src.Some? && (i.mulHilo == src || i.div == src || (s.start.Some? && i.wrHilo && s.start.value.hiloDst == src.value))
  }
  predicate EntryFcrMatch(i: Input, src: Option<nat>) { src.Some? && i.fpu == src }

  function Just(o: Option<nat>): set<nat> { if o.Some? then {o.value} else {} }

  /** n_prf_inflight, n_hilo_inflight and n_fcr_prf_inflight: pushes set bits, writers clear them. */
  function NextGpr(s: State, i: Input): set<nat> {
    var pushed := s.gpr + Just(i.push.gpr) + Just(i.pushTwo.gpr);
    var cleared := pushed - Just(i.mem) - Just(i.mulGpr);
    if s.start.Some? && i.wrGpr then cleared - {s.start.value.dst} else cleared
  }
  function NextHilo(s: State, i: Input): set<nat> {
    var pushed := s.hilo + Just(i.push.hilo) + Just(i.pushTwo.hilo);
    var cleared := pushed - Just(i.mulHilo) - Just(i.div);
    if s.start.Some? && i.wrHilo then cleared - {s.start.value.hiloDst} else cleared
  }
  function NextFcr(s: State, i: Input): set<nat> {
    s.fcr + Just(i.push.fcr) + Just(i.pushTwo.fcr) - Just(i.fpu)
  }

  /** The write ports of r_int_prf, r_hilo_prf and r_fcr_prf: what is stored at this clock edge. */
  function GprWritten(s: State, i: Input): set<nat> {
    (if s.start.Some? && i.wrGpr then {s.start.value.dst} else Just(i.mulGpr)) + Just(i.mem)
  }
  function HiloWritten(s: State, i: Input): set<nat> {
    if s.start.Some? && i.wrHilo then {s.start.value.hiloDst}
    else if i.mulHilo.Some? then Just(i.mulHilo)
    else Just(i.div)
  }
  function FcrWritten(i: Input): set<nat> { Just(i.fpu) }

  /** Port 1 completes one operation at a time, so the units that share a write port never meet. */
  predicate OnePort(s: State, i: Input) {
    && !(s.start.Some? && i.wrGpr && i.mulGpr.Some?)
    && !(s.start.Some? && i.wrHilo && (i.mulHilo.Some? || i.div.Some?))
    && !(i.mulHilo.Some? && i.div.Some?)
  }

  /** The scoreboards drop exactly the registers that the register files store. */
  lemma ScoreboardIsFile(s: State, i: Input)
    requires OnePort(s, i)
    ensures NextGpr(s, i) == s.gpr + Just(i.push.gpr) + Just(i.pushTwo.gpr) - GprWritten(s, i)
    ensures NextHilo(s, i) == s.hilo + Just(i.push.hilo) + Just(i.pushTwo.hilo) - HiloWritten(s, i)
    ensures NextFcr(s, i) == s.fcr + Just(i.push.fcr) + Just(i.pushTwo.fcr) - FcrWritten(i)
  {
  }

  // ---------------------------------------------------------------- one cycle

  /** t_alu_entry_rdy */
  predicate EntryReady(s: State, i: Input, k: nat)
    requires k < |s.valid| && k < |s.uops| && k < |s.rdy| && k < |i.port|
  {
    var u, r := s.uops[k], s.rdy[k];
    && s.valid[k] && i.port[k]
    && (EntryGprMatch(s, i, u.srcA) || r.a) && (EntryGprMatch(s, i, u.srcB) || r.b)
    && (EntryGprMatch(s, i, u.srcC) || r.c) && (EntryHiloMatch(s, i, HiloSrc(u)) || r.hilo)
    && (EntryFcrMatch(i, FcrSrc(u)) || r.fcr)
  }

  function ReadyVector(lg: nat, s: State, i: Input): (b: seq<bool>)
    requires Shape(lg, s) && InputShape(lg, i)
    ensures Vector(lg, b) && forall k :: 0 <= k < |b| ==> b[k] == EntryReady(s, i, k)
  {
    seq(Pow2(lg), k requires 0 <= k < Pow2(lg) => EntryReady(s, i, k))
  }

  /** The selected entry, if any entry is ready. */
  function Chosen(lg: nat, s: State, i: Input): Option<nat>
    requires Shape(lg, s) && InputShape(lg, i)
  {
    var b := ReadyVector(lg, s, i);
    if IsZero(b) then None else Some(Select(lg, b, s.cnt))
  }

  function Vacant(s: State): (b: seq<bool>)
    ensures |b| == |s.valid| && forall k :: 0 <= k < |b| ==> b[k] == !s.valid[k]
  {
    seq(|s.valid|, k requires 0 <= k < |s.valid| => !s.valid[k])
  }

  /** The entry that takes the uop at the queue head: the highest vacant one. */
  function Filled(lg: nat, s: State, i: Input): Option<nat>
    requires Shape(lg, s)
  {
    if i.flush || i.uq.None? || IsZero(Vacant(s)) then None else Some(FindFirstSet(lg, Vacant(s)))
  }

  /** The ready bits of a uop that is allocated now, and of one that keeps waiting. */
  function AllocReady(s: State, i: Input, u: Uop): Ready {
    Ready(
      u.srcA.Some? ==> u.srcA.value !in s.gpr || AllocGprMatch(s, i, u.srcA),
      u.srcB.Some? ==> u.srcB.value !in s.gpr || AllocGprMatch(s, i, u.srcB),
      u.srcC.Some? ==> u.srcC.value !in s.gpr || AllocGprMatch(s, i, u.srcC),
      u.readsHilo ==> u.hiloSrc !in s.hilo || AllocHiloMatch(s, i, HiloSrc(u)),
      u.readsFcr ==> u.hiloSrc !in s.fcr || AllocFcrMatch(i, FcrSrc(u)))
  }
  function WaitReady(s: State, i: Input, u: Uop, r: Ready): Ready {
    Ready(
      r.a || EntryGprMatch(s, i, u.srcA),
      r.b || EntryGprMatch(s, i, u.srcB),
      r.c || EntryGprMatch(s, i, u.srcC),
      r.hilo || EntryHiloMatch(s, i, HiloSrc(u)),
      r.fcr || EntryFcrMatch(i, FcrSrc(u)))
  }

  function NextRdy(lg: nat, s: State, i: Input, k: nat): Ready
    requires Shape(lg, s) && InputShape(lg, i) && k < Pow2(lg)
  {
    if Filled(lg, s, i) == Some(k) then AllocReady(s, i, i.uq.value)
    else if Chosen(lg, s, i) == Some(k) then Ready(false, false, false, false, false)
    else if s.valid[k] then WaitReady(s, i, s.uops[k], s.rdy[k])
    else s.rdy[k]
  }

  function NextValid(lg: nat, s: State, i: Input): (v: seq<bool>)
    requires Shape(lg, s) && InputShape(lg, i)
    ensures |v| == Pow2(lg)
  {
    seq(Pow2(lg), k requires 0 <= k < Pow2(lg) =>
      if i.flush || Chosen(lg, s, i) == Some(k) then false
      else if Filled(lg, s, i) == Some(k) then true
      else s.valid[k])
  }

  /** r_start_int and int_uop */
  function NextStart(lg: nat, s: State, i: Input): Option<Uop>
    requires Shape(lg, s) && InputShape(lg, i)
  {
    var k := Chosen(lg, s, i);
    if k.Some? && k.value < Pow2(lg) && !i.flush then Some(s.uops[k.value]) else None
  }

  function Next(lg: nat, s: State, i: Input): (s': State)
    requires Shape(lg, s) && InputShape(lg, i)
    ensures Shape(lg, s')
  {
    State(
      NextValid(lg, s, i),
      seq(Pow2(lg), k requires 0 <= k < Pow2(lg) =>
        if Filled(lg, s, i) == Some(k) then i.uq.value else s.uops[k]),
      seq(Pow2(lg), k requires 0 <= k < Pow2(lg) => NextRdy(lg, s, i, k)),
      if i.flush then {} else NextGpr(s, i),
      if i.flush then {} else NextHilo(s, i),
      if i.flush then {} else NextFcr(s, i),
      NextStart(lg, s, i),
      NextCnt(ReadyVector(lg, s, i), s.cnt))
  }

  // ---------------------------------------------------------------- the invariant

  /** A source whose register is not outstanding. */
  predicate Free(outstanding: set<nat>, src: Option<nat>) { src.Some? ==> src.value !in outstanding }

  /** Every ready bit says exactly that its source is not in flight. */
  ghost predicate ReadyOk(s: State, u: Uop, r: Ready) {
    && (r.a <==> Free(s.gpr, u.srcA)) && (r.b <==> Free(s.gpr, u.srcB)) && (r.c <==> Free(s.gpr, u.srcC))
    && (r.hilo <==> Free(s.hilo, HiloSrc(u))) && (r.fcr <==> Free(s.fcr, FcrSrc(u)))
  }

  ghost predicate EntryInv(s: State, k: nat)
    requires k < |s.valid| && k < |s.uops| && k < |s.rdy|
  {
    s.valid[k] ==> ReadyOk(s, s.uops[k], s.rdy[k])
  }

  /** All sources of u have been stored in the register files. */
  ghost predicate Stored(s: State, u: Uop) {
    && Free(s.gpr, u.srcA) && Free(s.gpr, u.srcB) && Free(s.gpr, u.srcC)
    && Free(s.hilo, HiloSrc(u)) && Free(s.fcr, FcrSrc(u))
  }

  /** The ready bits are exact, and the executing uop reads only registers that have been stored. */
  ghost predicate Inv(lg: nat, s: State) {
    && Shape(lg, s) && (forall k :: 0 <= k < Pow2(lg) ==> EntryInv(s, k))
    && (s.start.Some? ==> Stored(s, s.start.value))
  }

  /** u reads nothing that is pushed now. */
  ghost predicate Undisturbed(i: Input, u: Uop) {
    && (forall g :: g in Just(i.push.gpr) + Just(i.pushTwo.gpr) ==> Some(g) !in {u.srcA, u.srcB, u.srcC})
    && (forall h :: h in Just(i.push.hilo) + Just(i.pushTwo.hilo) ==> Some(h) != HiloSrc(u))
    && (forall f :: f in Just(i.push.fcr) + Just(i.pushTwo.fcr) ==> Some(f) != FcrSrc(u))
  }

  /** No register goes in flight again while somebody waits for it: renaming does not free a
      register that a live uop was renamed to read. */
  ghost predicate NoReuse(lg: nat, s: State, i: Input)
    requires Shape(lg, s)
  {
    && (forall k :: 0 <= k < Pow2(lg) && s.valid[k] ==> Undisturbed(i, s.uops[k]))
    && (i.uq.Some? ==> Undisturbed(i, i.uq.value))
  }

  lemma FilledIsVacant(lg: nat, s: State, i: Input)
    requires Shape(lg, s) && Filled(lg, s, i).Some?
    ensures Filled(lg, s, i).value < Pow2(lg) && !s.valid[Filled(lg, s, i).value]
  {
    FindFirstSetIsHighest(lg, Vacant(s));
    assert AnySet(Vacant(s));
  }

  /** A uop never overwrites a waiting one, and it is refused only when all entries are taken. */
  lemma FillsVacantEntry(lg: nat, s: State, i: Input)
    requires Shape(lg, s) && InputShape(lg, i) && i.uq.Some? && !i.flush
    ensures Filled(lg, s, i).Some? <==> exists k :: 0 <= k < Pow2(lg) && !s.valid[k]
    ensures Filled(lg, s, i).Some? ==> Filled(lg, s, i).value < Pow2(lg) && !s.valid[Filled(lg, s, i).value]
  {
    if Filled(lg, s, i).Some? { FilledIsVacant(lg, s, i); }
    if k :| 0 <= k < Pow2(lg) && !s.valid[k] { assert Vacant(s)[k]; }
  }

  /** The waiting list and the scoreboard list agree, class by class. */
  lemma GprAgrees(s: State, i: Input, src: Option<nat>)
    requires src.Some? ==> src.value !in Just(i.push.gpr) + Just(i.pushTwo.gpr)
    ensures Free(NextGpr(s, i), src) <==> Free(s.gpr, src) || EntryGprMatch(s, i, src)
    ensures Free(NextGpr(s, i), src) <==> (src.Some? ==> src.value !in s.gpr || AllocGprMatch(s, i, src))
  {
  }
  lemma HiloAgrees(s: State, i: Input, src: Option<nat>)
    requires src.Some? ==> src.value !in Just(i.push.hilo) + Just(i.pushTwo.hilo)
    ensures Free(NextHilo(s, i), src) <==> Free(s.hilo, src) || EntryHiloMatch(s, i, src)
    ensures Free(NextHilo(s, i), src) <==> (src.Some? ==> src.value !in s.hilo || AllocHiloMatch(s, i, src))
  {
  }
  lemma FcrAgrees(s: State, i: Input, src: Option<nat>)
    requires src.Some? ==> src.value !in Just(i.push.fcr) + Just(i.pushTwo.fcr)
    ensures Free(NextFcr(s, i), src) <==> Free(s.fcr, src) || EntryFcrMatch(i, src)
    ensures Free(NextFcr(s, i), src) <==> (src.Some? ==> src.value !in s.fcr || AllocFcrMatch(i, src))
  {
  }

  /** The scoreboards of the next state are free of u's sources exactly where its bits say so. */
  ghost predicate BitsExact(s: State, i: Input, u: Uop, r: Ready) {
    && (r.a <==> Free(NextGpr(s, i), u.srcA)) && (r.b <==> Free(NextGpr(s, i), u.srcB))
    && (r.c <==> Free(NextGpr(s, i), u.srcC))
    && (r.hilo <==> Free(NextHilo(s, i), HiloSrc(u))) && (r.fcr <==> Free(NextFcr(s, i), FcrSrc(u)))
  }

  /** A uop allocated now gets exact ready bits. */
  lemma AllocExact(s: State, i: Input, u: Uop)
    requires Undisturbed(i, u)
    ensures BitsExact(s, i, u, AllocReady(s, i, u))
  {
    GprAgrees(s, i, u.srcA);
    GprAgrees(s, i, u.srcB);
    GprAgrees(s, i, u.srcC);
    HiloAgrees(s, i, HiloSrc(u));
    FcrAgrees(s, i, FcrSrc(u));
  }

  /** A uop that keeps waiting keeps exact ready bits. */
  lemma WaitExact(s: State, i: Input, u: Uop, r: Ready)
    requires Undisturbed(i, u) && ReadyOk(s, u, r)
    ensures BitsExact(s, i, u, WaitReady(s, i, u, r))
  {
    GprAgrees(s, i, u.srcA);
    GprAgrees(s, i, u.srcB);
    GprAgrees(s, i, u.srcC);
    HiloAgrees(s, i, HiloSrc(u));
    FcrAgrees(s, i, FcrSrc(u));
  }

  lemma EntryKeeps(lg: nat, s: State, i: Input, k: nat)
    requires Inv(lg, s) && InputShape(lg, i) && NoReuse(lg, s, i) && k < Pow2(lg)
    ensures EntryInv(Next(lg, s, i), k)
  {
    if Next(lg, s, i).valid[k] {
      if Filled(lg, s, i) == Some(k) {
        AllocExact(s, i, i.uq.value);
      } else {
        assert EntryInv(s, k) && s.valid[k];
        WaitExact(s, i, s.uops[k], s.rdy[k]);
      }
    }
  }

  /** All sources of u are in the register files after this clock edge. */
  ghost predicate AllWritten(s: State, i: Input, u: Uop) {
    && Free(s.gpr - GprWritten(s, i), u.srcA) && Free(s.gpr - GprWritten(s, i), u.srcB)
    && Free(s.gpr - GprWritten(s, i), u.srcC)
    && Free(s.hilo - HiloWritten(s, i), HiloSrc(u)) && Free(s.fcr - FcrWritten(i), FcrSrc(u))
  }

  lemma MatchIsWrite(s: State, i: Input, src: Option<nat>)
    requires OnePort(s, i)
    ensures Free(s.gpr - GprWritten(s, i), src) <==> Free(s.gpr, src) || EntryGprMatch(s, i, src)
    ensures Free(s.hilo - HiloWritten(s, i), src) <==> Free(s.hilo, src) || EntryHiloMatch(s, i, src)
    ensures Free(s.fcr - FcrWritten(i), src) <==> Free(s.fcr, src) || EntryFcrMatch(i, src)
  {
  }

  /** An entry requests exactly when it is valid, its port is free and each of its sources has been
      stored or is stored at this edge: nothing executes early and no wakeup is lost. */
  lemma RequestsExactlyWhenReady(lg: nat, s: State, i: Input, k: nat)
    requires Inv(lg, s) && InputShape(lg, i) && OnePort(s, i) && k < Pow2(lg)
    ensures EntryReady(s, i, k) <==> s.valid[k] && i.port[k] && AllWritten(s, i, s.uops[k])
  {
    var u := s.uops[k];
    assert EntryInv(s, k);
    MatchIsWrite(s, i, u.srcA);
    MatchIsWrite(s, i, u.srcB);
    MatchIsWrite(s, i, u.srcC);
    MatchIsWrite(s, i, HiloSrc(u));
    MatchIsWrite(s, i, FcrSrc(u));
  }

  /** The uop sent to execution is a waiting one whose sources are all stored when it executes. */
  lemma SelectedIsReady(lg: nat, s: State, i: Input)
    requires Inv(lg, s) && InputShape(lg, i) && OnePort(s, i) && Chosen(lg, s, i).Some?
    ensures var k := Chosen(lg, s, i).value;
            && k < Pow2(lg) && s.valid[k] && i.port[k] && AllWritten(s, i, s.uops[k])
            && !Next(lg, s, i).valid[k]
  {
    var b := ReadyVector(lg, s, i);
    assert AnySet(b);
    SelectPicksRequest(lg, b, s.cnt);
    RequestsExactlyWhenReady(lg, s, i, Chosen(lg, s, i).value);
  }

  /** What is stored now and not pushed again is no longer in flight. */
  lemma WrittenIsStored(lg: nat, s: State, i: Input, u: Uop)
    requires Shape(lg, s) && InputShape(lg, i) && OnePort(s, i) && AllWritten(s, i, u) && Undisturbed(i, u)
    ensures Stored(Next(lg, s, i), u)
  {
    ScoreboardIsFile(s, i);
  }

  lemma StartKeeps(lg: nat, s: State, i: Input)
    requires Inv(lg, s) && InputShape(lg, i) && NoReuse(lg, s, i) && OnePort(s, i)
    ensures Next(lg, s, i).start.Some? ==> Stored(Next(lg, s, i), Next(lg, s, i).start.value)
  {
    if Next(lg, s, i).start.Some? {
      SelectedIsReady(lg, s, i);
      WrittenIsStored(lg, s, i, s.uops[Chosen(lg, s, i).value]);
    }
  }

  /** Every cycle keeps the ready bits exact and lets a uop execute only with stored sources. */
  lemma KeepsInvariant(lg: nat, s: State, i: Input)
    requires Inv(lg, s) && InputShape(lg, i) && NoReuse(lg, s, i) && OnePort(s, i)
    ensures Inv(lg, Next(lg, s, i))
  {
    forall k | 0 <= k < Pow2(lg) ensures EntryInv(Next(lg, s, i), k) {
      EntryKeeps(lg, s, i, k);
    }
    StartKeeps(lg, s, i);
  }

  /** With its port free and its sources written, some entry is selected, so the scheduler never idles
      while work is ready. */
  lemma WorkConserving(lg: nat, s: State, i: Input, k: nat)
    requires Inv(lg, s) && InputShape(lg, i) && OnePort(s, i) && k < Pow2(lg)
    requires s.valid[k] && i.port[k] && AllWritten(s, i, s.uops[k])
    ensures Chosen(lg, s, i).Some?
  {
    RequestsExactlyWhenReady(lg, s, i, k);
    assert ReadyVector(lg, s, i)[k];
  }

  // ---------------------------------------------------------------- runs

  ghost predicate Reset(lg: nat, s: State) {
    && Shape(lg, s) && s.gpr == s.hilo == s.fcr == {} && s.start.None? && s.cnt == 0
    && forall k :: 0 <= k < Pow2(lg) ==> !s.valid[k]
  }

  ghost predicate Legal(lg: nat, s: State, ins: seq<Input>)
    requires Shape(lg, s)
    decreases |ins|
  {
    ins == [] ||
    (&& InputShape(lg, ins[0]) && NoReuse(lg, s, ins[0]) && OnePort(s, ins[0])
     && Legal(lg, Next(lg, s, ins[0]), ins[1..]))
  }

  ghost function Run(lg: nat, s: State, ins: seq<Input>): (e: State)
    requires Shape(lg, s) && Legal(lg, s, ins)
    ensures Shape(lg, e)
    decreases |ins|
  {
    if ins == [] then s else Run(lg, Next(lg, s, ins[0]), ins[1..])
  }

  /** In every reachable state each ready bit is the complement of its register's in-flight bit, and the
      executing uop has all its sources. */
  lemma {:induction false} RunKeepsInvariant(lg: nat, s: State, ins: seq<Input>)
    requires Inv(lg, s) && Legal(lg, s, ins)
    ensures Inv(lg, Run(lg, s, ins))
    decreases |ins|
  {
    if ins != [] {
      KeepsInvariant(lg, s, ins[0]);
      RunKeepsInvariant(lg, Next(lg, s, ins[0]), ins[1..]);
    }
  }

  // ---------------------------------------------------------------- flushes, and each uop once

  /** A flush leaves nothing: no entry waits, nothing executes and no register is in flight. */
  lemma FlushClears(lg: nat, s: State, i: Input)
    requires Shape(lg, s) && InputShape(lg, i) && i.flush
    ensures var s' := Next(lg, s, i);
            && s'.start.None? && s'.gpr == s'.hilo == s'.fcr == {}
            && forall k :: 0 <= k < Pow2(lg) ==> !s'.valid[k]
  {
  }

  /** The uops that wait in the first n entries. */
  function Entries(valid: seq<bool>, uops: seq<Uop>, n: nat): multiset<Uop>
    requires n <= |valid| && n <= |uops|
  {
    if n == 0 then multiset{}
    else Entries(valid, uops, n - 1) + (if valid[n - 1] then multiset{uops[n - 1]} else multiset{})
  }

  function WaitingUops(s: State): multiset<Uop>
    requires |s.valid| == |s.uops|
  {
    Entries(s.valid, s.uops, |s.valid|)
  }

  function Just1(o: Option<Uop>): multiset<Uop> { if o.Some? then multiset{o.value} else multiset{} }

  /** The uop that the scheduler takes from the queue head: there is one, no flush, and a vacant entry. */
  ghost function TakenUop(lg: nat, s: State, i: Input): Option<Uop>
    requires Shape(lg, s)
  {
    if i.uq.Some? && !i.flush && exists k :: 0 <= k < Pow2(lg) && !s.valid[k] then i.uq else None
  }

  /** Entries beyond the first n do not matter. */
  lemma {:induction false} EntriesSame(valid: seq<bool>, uops: seq<Uop>, valid': seq<bool>, uops': seq<Uop>, n: nat)
    requires n <= |valid| == |uops| && n <= |valid'| == |uops'|
    requires forall k :: 0 <= k < n ==> valid[k] == valid'[k] && uops[k] == uops'[k]
    ensures Entries(valid, uops, n) == Entries(valid', uops', n)
  {
    if n > 0 { EntriesSame(valid, uops, valid', uops', n - 1); }
  }

  /** One entry filled or emptied. */
  lemma {:induction false} EntriesSet(valid: seq<bool>, uops: seq<Uop>, k: nat, u: Uop, n: nat)
    requires k < n <= |valid| == |uops| && !valid[k]
    ensures Entries(valid[k := true], uops[k := u], n) == Entries(valid, uops, n) + multiset{u}
  {
    var more: multiset<Uop> := if valid[n - 1] then multiset{uops[n - 1]} else multiset{};
    if n == k + 1 {
      EntriesSame(valid, uops, valid[k := true], uops[k := u], k);
    } else {
      EntriesSet(valid, uops, k, u, n - 1);
      Regroup(Entries(valid, uops, n - 1), multiset{u}, more);
    }
  }
  lemma {:induction false} EntriesClear(valid: seq<bool>, uops: seq<Uop>, k: nat, n: nat)
    requires k < n <= |valid| == |uops| && valid[k]
    ensures Entries(valid, uops, n) == Entries(valid[k := false], uops, n) + multiset{uops[k]}
  {
    var more: multiset<Uop> := if valid[n - 1] then multiset{uops[n - 1]} else multiset{};
    if n == k + 1 {
      EntriesSame(valid, uops, valid[k := false], uops, k);
    } else {
      EntriesClear(valid, uops, k, n - 1);
      Regroup(Entries(valid[k := false], uops, n - 1), multiset{uops[k]}, more);
    }
  }
  lemma {:induction false} EntriesNone(valid: seq<bool>, uops: seq<Uop>, n: nat)
    requires n <= |valid| == |uops| && forall k :: 0 <= k < |valid| ==> !valid[k]
    ensures Entries(valid, uops, n) == multiset{}
  {
    if n > 0 { EntriesNone(valid, uops, n - 1); }
  }

  /** The entries after the selected one has left. */
  function AfterIssue(lg: nat, s: State, i: Input): seq<bool>
    requires Shape(lg, s) && InputShape(lg, i)
  {
    var k := Chosen(lg, s, i);
    if k.Some? && k.value < |s.valid| then s.valid[k.value := false] else s.valid
  }

  lemma FilledAfter(lg: nat, s: State, i: Input)
    requires Shape(lg, s) && InputShape(lg, i) && !i.flush
    ensures var v, f := AfterIssue(lg, s, i), Filled(lg, s, i);
            f.Some? ==> f.value < Pow2(lg) && !v[f.value] && !s.valid[f.value]
  {
    if Filled(lg, s, i).Some? { FilledIsVacant(lg, s, i); }
  }

  lemma ValidAfter(lg: nat, s: State, i: Input)
    requires Inv(lg, s) && InputShape(lg, i) && OnePort(s, i) && !i.flush
    ensures var v, f := AfterIssue(lg, s, i), Filled(lg, s, i);
            && (f.Some? ==> f.value < Pow2(lg))
            && NextValid(lg, s, i) == (if f.Some? then v[f.value := true] else v)
  {
    FilledAfter(lg, s, i);
    if Chosen(lg, s, i).Some? { SelectedIsReady(lg, s, i); }
  }

  lemma UopsAfter(lg: nat, s: State, i: Input)
    requires Shape(lg, s) && InputShape(lg, i) && !i.flush
    ensures var f := Filled(lg, s, i);
            && (f.Some? ==> f.value < Pow2(lg))
            && Next(lg, s, i).uops == (if f.Some? then s.uops[f.value := i.uq.value] else s.uops)
  {
    FilledAfter(lg, s, i);
  }

  /** An entry k leaves and an entry f is filled with u. */
  lemma EntriesMove(valid: seq<bool>, uops: seq<Uop>, k: Option<nat>, f: Option<nat>, u: Uop)
    requires |valid| == |uops| && (k.Some? ==> k.value < |valid| && valid[k.value])
    requires var v := if k.Some? then valid[k.value := false] else valid;
             f.Some? ==> f.value < |v| && !v[f.value]
    ensures var v := if k.Some? then valid[k.value := false] else valid;
            var v', uops' := if f.Some? then v[f.value := true] else v, if f.Some? then uops[f.value := u] else uops;
            Entries(v', uops', |v'|) + (if k.Some? then multiset{uops[k.value]} else multiset{}) ==
            Entries(valid, uops, |valid|) + if f.Some? then multiset{u} else multiset{}
  {
    var v := if k.Some? then valid[k.value := false] else valid;
    if k.Some? { EntriesClear(valid, uops, k.value, |valid|); }
    if f.Some? { EntriesSet(v, uops, f.value, u, |v|); }
  }

  /** Without a flush the uop that executes is the one selected. */
  lemma StartIsChosen(lg: nat, s: State, i: Input)
    requires Inv(lg, s) && InputShape(lg, i) && OnePort(s, i) && !i.flush
    ensures var k := Chosen(lg, s, i);
            && (k.Some? ==> k.value < Pow2(lg) && s.valid[k.value])
            && Next(lg, s, i).start == (if k.Some? then Some(s.uops[k.value]) else None)
  {
    if Chosen(lg, s, i).Some? { SelectedIsReady(lg, s, i); }
  }

  lemma TakenIsFilled(lg: nat, s: State, i: Input)
    requires Shape(lg, s) && InputShape(lg, i)
    ensures TakenUop(lg, s, i) == if Filled(lg, s, i).Some? then i.uq else None
  {
    if i.uq.Some? && !i.flush { FillsVacantEntry(lg, s, i); }
  }

  /** What a flush drops: every waiting uop. */
  function DroppedUops(s: State, i: Input): multiset<Uop>
    requires |s.valid| == |s.uops|
  {
    if i.flush then WaitingUops(s) else multiset{}
  }

  lemma IssueConserves(lg: nat, s: State, i: Input)
    requires Inv(lg, s) && InputShape(lg, i) && OnePort(s, i) && !i.flush
    ensures var s' := Next(lg, s, i);
            WaitingUops(s') + Just1(s'.start) == WaitingUops(s) + Just1(TakenUop(lg, s, i))
  {
    FilledAfter(lg, s, i);
    ValidAfter(lg, s, i);
    UopsAfter(lg, s, i);
    StartIsChosen(lg, s, i);
    TakenIsFilled(lg, s, i);
    EntriesMove(s.valid, s.uops, Chosen(lg, s, i), Filled(lg, s, i), if i.uq.Some? then i.uq.value else s.uops[0]);
  }

  /** Every uop that was waiting or is taken now waits on, executes next, or is dropped by a flush. */
  lemma Conserves(lg: nat, s: State, i: Input)
    requires Inv(lg, s) && InputShape(lg, i) && OnePort(s, i)
    ensures var s' := Next(lg, s, i);
            WaitingUops(s') + (Just1(s'.start) + DroppedUops(s, i)) == WaitingUops(s) + Just1(TakenUop(lg, s, i))
  {
    if i.flush {
      FlushClears(lg, s, i);
      EntriesNone(Next(lg, s, i).valid, Next(lg, s, i).uops, Pow2(lg));
    } else {
      IssueConserves(lg, s, i);
    }
  }

  /** The uops taken, executed and dropped in a run. */
  ghost function TakenIn(lg: nat, s: State, ins: seq<Input>): multiset<Uop>
    requires Shape(lg, s) && Legal(lg, s, ins)
    decreases |ins|
  {
    if ins == [] then multiset{} else Just1(TakenUop(lg, s, ins[0])) + TakenIn(lg, Next(lg, s, ins[0]), ins[1..])
  }
  ghost function LeftIn(lg: nat, s: State, ins: seq<Input>): multiset<Uop>
    requires Shape(lg, s) && Legal(lg, s, ins)
    decreases |ins|
  {
    if ins == [] then multiset{}
    else (Just1(Next(lg, s, ins[0]).start) + DroppedUops(s, ins[0])) + LeftIn(lg, Next(lg, s, ins[0]), ins[1..])
  }

  /** In every run each uop taken from the queue executes once, is dropped by a flush while it waits, or
      still waits; and nothing else executes. */
  lemma {:induction false} RunConserves(lg: nat, s: State, ins: seq<Input>)
    requires Inv(lg, s) && Legal(lg, s, ins)
    ensures WaitingUops(Run(lg, s, ins)) + LeftIn(lg, s, ins) == WaitingUops(s) + TakenIn(lg, s, ins)
    decreases |ins|
  {
    if ins != [] {
      var s', i, rest := Next(lg, s, ins[0]), ins[0], ins[1..];
      KeepsInvariant(lg, s, i);
      Conserves(lg, s, i);
      RunConserves(lg, s', rest);
      Chain(WaitingUops(s), WaitingUops(s'), WaitingUops(Run(lg, s', rest)),
            Just1(s'.start) + DroppedUops(s, i), LeftIn(lg, s', rest),
            Just1(TakenUop(lg, s, i)), TakenIn(lg, s', rest));
    }
  }

  /** What executes next was waiting with all its sources stored, and no flush came. */
  lemma IssuedWaited(lg: nat, s: State, i: Input)
    requires Inv(lg, s) && InputShape(lg, i) && OnePort(s, i)
    ensures var u := Next(lg, s, i).start;
            u.Some? ==> !i.flush && AllWritten(s, i, u.value) && u.value in WaitingUops(s)
  {
    if i.flush {
      FlushClears(lg, s, i);
    } else {
      StartIsChosen(lg, s, i);
      if Chosen(lg, s, i).Some? {
        SelectedIsReady(lg, s, i);
        EntriesClear(s.valid, s.uops, Chosen(lg, s, i).value, |s.valid|);
      }
    }
  }

  // ---------------------------------------------------------------- no starvation

  /** Entry k is sent to execution in some cycle of the run. */
  ghost predicate Issues(lg: nat, s: State, ins: seq<Input>, k: nat)
    requires Shape(lg, s) && Legal(lg, s, ins)
    decreases |ins|
  {
    ins != [] && (Chosen(lg, s, ins[0]) == Some(k) || Issues(lg, Next(lg, s, ins[0]), ins[1..], k))
  }

  /** The port of entry k is free and nothing is flushed. */
  ghost predicate PortFree(lg: nat, i: Input, k: nat) { k < |i.port| && i.port[k] && !i.flush }

  /** A waiting uop whose sources are stored keeps waiting with its sources stored. */
  lemma StaysReady(lg: nat, s: State, i: Input, k: nat)
    requires Inv(lg, s) && InputShape(lg, i) && NoReuse(lg, s, i) && OnePort(s, i) && !i.flush
    requires k < Pow2(lg) && s.valid[k] && AllWritten(s, i, s.uops[k]) && Chosen(lg, s, i) != Some(k)
    ensures var s' := Next(lg, s, i); s'.valid[k] && s'.uops[k] == s.uops[k] && Stored(s', s'.uops[k])
  {
    if Filled(lg, s, i).Some? { FilledIsVacant(lg, s, i); }
    WrittenIsStored(lg, s, i, s.uops[k]);
  }

  /** When it is entry k's turn and it is ready, it is selected; otherwise its turn comes closer. */
  lemma TurnComes(lg: nat, s: State, i: Input, k: nat)
    requires Inv(lg, s) && InputShape(lg, i) && OnePort(s, i) && k < Pow2(lg)
    requires s.valid[k] && i.port[k] && AllWritten(s, i, s.uops[k])
    ensures Turn(Pow2(lg), s.cnt, k) == 0 ==> Chosen(lg, s, i) == Some(k)
    ensures Turn(Pow2(lg), s.cnt, k) > 0 ==>
              Turn(Pow2(lg), Next(lg, s, i).cnt, k) == Turn(Pow2(lg), s.cnt, k) - 1
  {
    var b := ReadyVector(lg, s, i);
    RequestsExactlyWhenReady(lg, s, i, k);
    assert b[k] && AnySet(b);
    SelectPicksRequest(lg, b, s.cnt);
  }

  lemma {:induction false} IssuedOnTurn(lg: nat, s: State, ins: seq<Input>, k: nat)
    requires Inv(lg, s) && Legal(lg, s, ins) && k < Pow2(lg) && s.valid[k] && Turn(Pow2(lg), s.cnt, k) < |ins|
    requires forall i :: i in ins ==> PortFree(lg, i, k)
    requires AllWritten(s, ins[0], s.uops[k])
    ensures Issues(lg, s, ins, k)
    decreases |ins|
  {
    var i, rest := ins[0], ins[1..];
    assert PortFree(lg, i, k);
    TurnComes(lg, s, i, k);
    if Chosen(lg, s, i) != Some(k) {
      KeepsInvariant(lg, s, i);
      StaysReady(lg, s, i, k);
      IssuedOnTurn(lg, Next(lg, s, i), rest, k);
    }
  }

  /** No entry starves: once its sources are stored, an entry whose port stays free is sent to execution
      within as many cycles as there are entries, whatever else arrives and from any counter value. */
  lemma ReadyEntryIssues(lg: nat, s: State, ins: seq<Input>, k: nat)
    requires Inv(lg, s) && Legal(lg, s, ins) && k < Pow2(lg) && s.valid[k] && |ins| == Pow2(lg)
    requires forall i :: i in ins ==> PortFree(lg, i, k)
    requires AllWritten(s, ins[0], s.uops[k])
    ensures Issues(lg, s, ins, k)
  {
    IssuedOnTurn(lg, s, ins, k);
  }

  // ---------------------------------------------------------------- the clocked unit

  class IntegerScheduler {
    const lg: nat
    var regs: State

    ghost predicate Valid()
      reads this
    {
      Inv(lg, regs)
    }

    constructor (lg: nat, reset: State)
      requires Reset(lg, reset)
      ensures Valid() && this.lg == lg && regs == reset
    {
      this.lg, this.regs := lg, reset;
    }

    /** One clock cycle; returns the uop sent to execution. */
    method Clock(i: Input) returns (issued: Option<Uop>)
      requires Valid() && InputShape(lg, i) && NoReuse(lg, regs, i) && OnePort(regs, i)
      modifies this
      ensures Valid() && regs == Next(lg, old(regs), i)
      ensures issued == regs.start && (i.flush ==> issued.None?)
      ensures issued.Some? ==> AllWritten(old(regs), i, issued.value) && issued.value in WaitingUops(old(regs))
      ensures WaitingUops(regs) + (Just1(issued) + DroppedUops(old(regs), i)) ==
              WaitingUops(old(regs)) + Just1(TakenUop(lg, old(regs), i))
    {
      KeepsInvariant(lg, regs, i);
      Conserves(lg, regs, i);
      IssuedWaited(lg, regs, i);
      regs := Next(lg, regs, i);
      issued := regs.start;
    }
  }
}
