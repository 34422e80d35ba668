/**
  Runs of the data cache (l1d.sv) from reset into its two flush hazards: a flush that loses a load,
  and a full flush that leaves a dirty line behind.
 */
module DataCacheHazards {
  import opened MemoryTypes
  import opened DataCache
  import opened DataCacheInvariant
  import opened DataCacheProof
  import opened DataCacheTheorems
  import opened DataCacheRuns

  // ---------------------------------------------------------------- a flush over a load miss

  const IDLE: Input := Input(None, false, {}, None, None, false, false, 0, None)

  ghost predicate Cold(c: Config, s: State) {
    && Shape(c, s) && s.fsm.Active? && !s.got && !s.lock && !s.flushReq && !s.flushLineReq
    && (forall k :: 0 <= k < c.sets ==> !s.ram.valid[k])
  }

  lemma ColdAccept(c: Config, s: State, r: MemReq)
    requires WellFormed(c) && Reset(c, s) && Shape(c, s) && r.la.idx < c.sets && r.rob < c.robs
    ensures var s' := Next(c, s, IDLE.(core := Some(r)));
            Cold(c, s') && s'.mq == [] && s'.got2 && s'.op2.req == r && !s'.rd2.valid
  {
    var i := IDLE.(core := Some(r));
    var s' := Next(c, s, i);
    assert Accepts(c, s, i);
    assert s'.mq == NextQueue(s, i, Keep, false) == [];
    assert s'.ram == s.ram;
  }

  lemma ColdPush(c: Config, s: State)
    requires WellFormed(c) && Cold(c, s) && s.mq == [] && s.got2 && !s.rd2.valid
    requires !IsStore(s.op2.req) && !IsMoveOp(s.op2.req.pay.op)
    ensures var s' := Next(c, s, IDLE);
            Cold(c, s') && s'.mq == [s.op2] && !s'.got2
  {
    var s' := Next(c, s, IDLE);
    assert !Accepts(c, s, IDLE);
    assert s'.mq == NextQueue(s, IDLE, Keep, true) == [s.op2];
    assert s'.ram == s.ram;
  }

  lemma ColdPop(c: Config, s: State)
    requires WellFormed(c) && Cold(c, s) && |s.mq| == 1 && !IsStore(s.mq[0].req)
    requires !s.got2
    ensures FlushClash(Next(c, s, IDLE.(flush := true)))
  {
    var i := IDLE.(flush := true);
    var s' := Next(c, s, i);
    assert PopAction(c, s, i).Fire?;
    assert s'.mq == NextQueue(s, i, Fire, false) == [];
    assert s'.got && !s'.lastWr && s'.isRetry && s'.flushReq && !s'.rd.valid;
  }

  lemma LegalFirst(c: Config, s: State, i: Input, rest: seq<Input>)
    requires WellFormed(c) && Shape(c, s) && Protocol(c, s, i) && WindowRule(s, i) && !FlushClash(s)
    requires Legal(c, Next(c, s, i), rest)
    ensures Legal(c, s, [i] + rest) && Run(c, s, [i] + rest) == Run(c, Next(c, s, i), rest)
  {
    assert ([i] + rest)[1..] == rest;
  }

  /** From every reset state: a load, and a flush request that reaches the cache two cycles later.
      The flush then starts in the cycle in which the load misses, and the load is lost. */
  lemma FlushCanLoseLoad(c: Config, s: State, r: MemReq)
    requires WellFormed(c) && Reset(c, s) && !IsStore(r) && !IsMoveOp(r.pay.op)
    requires r.la.idx < c.sets && r.rob < c.robs
    ensures var ins := [IDLE.(core := Some(r))] + ([IDLE] + ([IDLE.(flush := true)] + []));
            Legal(c, s, ins) && FlushClash(Run(c, s, ins))
  {
    var i0, i2 := IDLE.(core := Some(r)), IDLE.(flush := true);
    var s1 := Next(c, s, i0);
    ColdAccept(c, s, r);
    var s2 := Next(c, s1, IDLE);
    ColdPush(c, s1);
    ColdPop(c, s2);
    LegalFirst(c, s2, i2, []);
    LegalFirst(c, s1, IDLE, [i2] + []);
    LegalFirst(c, s, i0, [IDLE] + ([i2] + []));
  }

  // ---------------------------------------------------------------- a full flush that leaves a dirty line

  ghost predicate Allowed(c: Config, s: State, i: Input)
    requires WellFormed(c)
  {
    Shape(c, s) && Protocol(c, s, i) && WindowRule(s, i) && !FlushClash(s)
  }

  lemma Peel(c: Config, s: State, ins: seq<Input>) returns (t: State)
    requires WellFormed(c) && Legal(c, s, ins) && ins != []
    ensures Allowed(c, s, ins[0]) && t == Next(c, s, ins[0]) && Legal(c, t, ins[1..]) && Run(c, s, ins) == Run(c, t, ins[1..])
  {
    t := Next(c, s, ins[0]);
  }

  lemma Unpeel(c: Config, s: State, all: seq<Input>)
    requires WellFormed(c) && all != [] && Allowed(c, s, all[0]) && Legal(c, Next(c, s, all[0]), all[1..])
    ensures Legal(c, s, all) && Run(c, s, all) == Run(c, Next(c, s, all[0]), all[1..])
  {
  }

  lemma ExtendNothing(c: Config, s: State, i: Input)
    requires WellFormed(c) && Allowed(c, s, i)
    ensures Legal(c, s, [i]) && Run(c, s, [i]) == Next(c, s, i)
  {
    assert [i][1..] == [];
    Unpeel(c, s, [i]);
  }

  lemma TailOf(ins: seq<Input>, i: Input)
    requires ins != []
    ensures (ins + [i])[0] == ins[0] && (ins + [i])[1..] == ins[1..] + [i]
  {
  }

  /** If the rest of a run can go on, the run can. */
  lemma ExtendRest(c: Config, s: State, ins: seq<Input>, i: Input, e: State)
    requires WellFormed(c) && ins != [] && Allowed(c, s, ins[0])
    requires Legal(c, Next(c, s, ins[0]), ins[1..] + [i]) && Run(c, Next(c, s, ins[0]), ins[1..] + [i]) == e
    ensures Legal(c, s, ins + [i]) && Run(c, s, ins + [i]) == e
  {
    TailOf(ins, i);
    Unpeel(c, s, ins + [i]);
  }

  lemma {:induction false} Extend(c: Config, s: State, ins: seq<Input>, i: Input)
    requires WellFormed(c) && Legal(c, s, ins) && Allowed(c, Run(c, s, ins), i)
    ensures Legal(c, s, ins + [i]) && Run(c, s, ins + [i]) == Next(c, Run(c, s, ins), i)
    decreases |ins|
  {
    if ins == [] {
      ExtendNothing(c, s, i);
      assert ins + [i] == [i];
    } else {
      var t := Peel(c, s, ins);
      Extend(c, t, ins[1..], i);
      ExtendRest(c, s, ins, i, Next(c, Run(c, s, ins), i));
    }
  }

  ghost predicate Reaches(c: Config, s: State, ins: seq<Input>, t: State)
    requires WellFormed(c)
  {
    Legal(c, s, ins) && Run(c, s, ins) == t
  }

  /** A store to the last set that changes its line. */
  ghost predicate ChangesLastSet(c: Config, r: MemReq) {
    && IsStore(r) && r.la.idx == c.sets - 1 && r.rob < c.robs
    && c.merge(r.pay, Read(c.init, r.la)) != Read(c.init, r.la)
  }

  /** Nothing but r is under way, nothing is written and no flush is pending. */
  ghost predicate Only(c: Config, t: State, mq: nat, got2: bool) {
    && Shape(c, t) && !t.flushReq && !t.flushLineReq && !t.lock && |t.mq| == mq && t.got2 == got2
    && t.ram.mem == c.init && t.written == []
  }
  ghost predicate NoLines(c: Config, t: State) {
    Sized(c, t) && forall k :: 0 <= k < c.sets ==> !t.ram.valid[k] && !t.ram.dirty[k]
  }
  /** The last set holds r's line, unchanged. */
  ghost predicate Filled(c: Config, t: State, r: MemReq) {
    var last := c.sets - 1;
    && WellFormed(c) && Sized(c, t) && (forall k :: 0 <= k < c.sets ==> !t.ram.dirty[k])
    && t.ram.valid[last] && t.ram.tags[last] == r.la.tag && t.ram.data[last] == Read(c.init, r.la)
  }

  ghost predicate OnPort2(c: Config, t: State, r: MemReq) {
    Only(c, t, 0, true) && NoLines(c, t) && t.fsm.Active? && !t.got && t.op2.req == r && !t.op2.retired
  }
  ghost predicate Queued(c: Config, t: State, r: MemReq, retired: bool) {
    && Only(c, t, 1, false) && NoLines(c, t) && t.fsm.Active? && !t.got
    && t.mq[0].req == r && t.mq[0].retired == retired
  }
  ghost predicate OnPort1(c: Config, t: State, r: MemReq) {
    Only(c, t, 0, false) && NoLines(c, t) && t.fsm.Active? && t.got && t.op.req == r
  }
  ghost predicate Filling(c: Config, t: State, r: MemReq) {
    Only(c, t, 0, false) && NoLines(c, t) && t.fsm.Inject? && t.op.req == r
  }
  ghost predicate Reloaded(c: Config, t: State, r: MemReq) {
    Only(c, t, 0, false) && Filled(c, t, r) && t.fsm.HandleReload? && t.op.req == r
  }
  ghost predicate Writing(c: Config, t: State, r: MemReq) {
    Only(c, t, 0, false) && Filled(c, t, r) && t.fsm.Active? && t.got && t.op.req == r
  }

  /** r is written in the last set and nowhere else, and the cache is otherwise idle. */
  ghost predicate Stale(c: Config, t: State, r: MemReq) {
    var last := c.sets - 1;
    && WellFormed(c) && Shape(c, t) && t.mq == [] && !t.got && !t.got2 && t.written == [r] && t.ram.mem == c.init
    && (forall k :: 0 <= k < last ==> !t.ram.dirty[k])
    && t.ram.dirty[last] && t.ram.tags[last] == r.la.tag
    && t.ram.data[last] == c.merge(r.pay, Read(c.init, r.la))
  }

  // What one cycle does in each of these situations.

  lemma AcceptEdge(c: Config, s: State, r: MemReq, t: State)
    requires WellFormed(c) && Reset(c, s) && ChangesLastSet(c, r) && Ready(c, s, IDLE.(core := Some(r)))
    requires ActiveEdge(c, s, IDLE.(core := Some(r)), t) && Shape(c, t)
    ensures OnPort2(c, t, r)
  {
    assert Accepts(c, s, IDLE.(core := Some(r)));
    assert t.ram == s.ram;
  }

  lemma PushEdge(c: Config, t: State, r: MemReq, t': State)
    requires Ready(c, t, IDLE) && ActiveEdge(c, t, IDLE, t') && Shape(c, t') && IsStore(r) && OnPort2(c, t, r)
    ensures Queued(c, t', r, false)
  {
    assert t'.mq == [t.op2];
    assert t'.ram == t.ram;
  }

  lemma RetireEdge(c: Config, t: State, r: MemReq, t': State)
    requires Ready(c, t, IDLE.(ret := Some(r.rob))) && ActiveEdge(c, t, IDLE.(ret := Some(r.rob)), t') && Shape(c, t')
    requires Queued(c, t, r, false) && IsStore(r) && t.grad[r.rob].Busy?
    ensures Queued(c, t', r, true)
  {
    assert PopAction(c, t, IDLE.(ret := Some(r.rob))).Keep?;
    assert t'.ram == t.ram;
  }

  lemma FireEdge(c: Config, t: State, r: MemReq, t': State)
    requires Ready(c, t, IDLE) && ActiveEdge(c, t, IDLE, t') && Shape(c, t') && Queued(c, t, r, true)
    requires t.grad[r.rob].Retired?
    ensures OnPort1(c, t', r)
  {
    assert PopAction(c, t, IDLE).Fire?;
    assert t'.ram == t.ram;
  }

  lemma MissEdge(c: Config, t: State, r: MemReq, t': State)
    requires Ready(c, t, IDLE) && ActiveEdge(c, t, IDLE, t') && Shape(c, t') && OnPort1(c, t, r) && Port1Inv(c, t)
    ensures Filling(c, t', r)
  {
    Port1Facts(c, t);
    assert Port1Action(t).Fill?;
    assert t'.ram == t.ram;
  }

  lemma FillEdge(c: Config, t: State, r: MemReq, t': State)
    requires var i := IDLE.(rsp := Some(Read(c.init, r.la)));
             Step(c, t, i) && OtherEdge(c, t, i, t')
    requires Shape(c, t') && Filling(c, t, r) && r.la.idx == c.sets - 1 && Port1Inv(c, t) && FsmInv(c, t)
    ensures Reloaded(c, t', r)
  {
    assert !WrArray(t);
  }

  lemma AgainEdge(c: Config, t: State, r: MemReq, t': State)
    requires Step(c, t, IDLE) && OtherEdge(c, t, IDLE, t') && Shape(c, t') && Reloaded(c, t, r) && Port1Inv(c, t)
    ensures Writing(c, t', r)
  {
    assert t'.ram == t.ram;
  }

  lemma WriteEdge(c: Config, t: State, r: MemReq, t': State)
    requires Ready(c, t, IDLE.(flush := true)) && ActiveEdge(c, t, IDLE.(flush := true), t') && Shape(c, t')
    requires Writing(c, t, r) && ChangesLastSet(c, r) && Port1Inv(c, t)
    ensures Stale(c, t', r) && t'.fsm.Active? && t'.flushReq
  {
    Port1Facts(c, t);
    assert WrArray(t) && t.written + [r] == [r];
  }

  lemma StartEdge(c: Config, t: State, r: MemReq, t': State)
    requires Ready(c, t, IDLE) && ActiveEdge(c, t, IDLE, t') && Shape(c, t') && Stale(c, t, r) && t.flushReq
    ensures Stale(c, t', r) && t'.fsm.FlushAll? && t'.idx == 0
  {
    assert t'.ram == t.ram && t'.mq == [];
  }

  lemma WalkEdge(c: Config, t: State, r: MemReq, t': State)
    requires Step(c, t, IDLE) && OtherEdge(c, t, IDLE, t') && Shape(c, t') && Stale(c, t, r)
    requires t.fsm.FlushAll? && t.rd == ReadSet(t.ram, t.idx)
    ensures Stale(c, t', r)
    ensures if t.idx + 1 == c.sets then t'.fsm.Active? && t'.flushDone else t'.fsm.FlushAll? && t'.idx == t.idx + 1
  {
    assert t'.mq == [];
  }

  /** A run from reset that has come to t. */
  ghost predicate At(c: Config, s: State, ins: seq<Input>, t: State) {
    WellFormed(c) && Reset(c, s) && Reaches(c, s, ins, t)
  }

  lemma Reached(c: Config, s: State, ins: seq<Input>, t: State)
    requires At(c, s, ins, t)
    ensures Inv(c, t)
  {
    ResetEstablishesInvariant(c, s);
    RunKeepsInvariant(c, s, ins);
  }

  /** The run goes on by one cycle. */
  lemma GoActive(c: Config, s: State, ins: seq<Input>, t: State, i: Input) returns (ins': seq<Input>, t': State)
    requires At(c, s, ins, t) && t.fsm.Active? && InputShape(c, i) && BusRule(t, i) && CoreRule(t, i) && !i.drain
    requires !FlushClash(t)
    ensures At(c, s, ins', t') && Shape(c, t') && Ready(c, t, i) && ActiveEdge(c, t, i, t') && Port1Inv(c, t)
  {
    Reached(c, s, ins, t);
    KeepsInvariant(c, t, i);
    ActiveEdgeHolds(c, t, i);
    Extend(c, s, ins, i);
    ins', t' := ins + [i], Next(c, t, i);
  }
  lemma GoOther(c: Config, s: State, ins: seq<Input>, t: State, i: Input) returns (ins': seq<Input>, t': State)
    requires At(c, s, ins, t) && !t.fsm.Active? && InputShape(c, i) && BusRule(t, i) && CoreRule(t, i) && !i.drain
    ensures At(c, s, ins', t') && Shape(c, t') && Step(c, t, i) && OtherEdge(c, t, i, t')
    ensures Port1Inv(c, t) && FsmInv(c, t)
  {
    Reached(c, s, ins, t);
    KeepsInvariant(c, t, i);
    OtherEdgeHolds(c, t, i);
    Extend(c, s, ins, i);
    ins', t' := ins + [i], Next(c, t, i);
  }

  lemma QueuedGrad(c: Config, s: State, ins: seq<Input>, t: State, r: MemReq, retired: bool)
    requires At(c, s, ins, t) && Queued(c, t, r, retired) && IsStore(r)
    ensures t.grad[r.rob] == if retired then Retired else Busy
  {
    Reached(c, s, ins, t);
    assert Owns(t.grad, t.mq[0]);
  }

  lemma FillingBus(c: Config, s: State, ins: seq<Input>, t: State, r: MemReq)
    requires At(c, s, ins, t) && Filling(c, t, r)
    ensures BusRule(t, IDLE.(rsp := Some(Read(c.init, r.la))))
  {
    Reached(c, s, ins, t);
  }

  lemma ToPort2(c: Config, s: State, r: MemReq) returns (ins: seq<Input>, t: State)
    requires WellFormed(c) && Reset(c, s) && ChangesLastSet(c, r)
    ensures At(c, s, ins, t) && OnPort2(c, t, r)
  {
    ins, t := GoActive(c, s, [], s, IDLE.(core := Some(r)));
    AcceptEdge(c, s, r, t);
  }
  lemma ToQueue(c: Config, s: State, ins: seq<Input>, u: State, r: MemReq) returns (ins': seq<Input>, t: State)
    requires ChangesLastSet(c, r) && At(c, s, ins, u) && OnPort2(c, u, r)
    ensures At(c, s, ins', t) && Queued(c, t, r, false)
  {
    ins', t := GoActive(c, s, ins, u, IDLE);
    PushEdge(c, u, r, t);
  }
  lemma ToRetired(c: Config, s: State, ins: seq<Input>, u: State, r: MemReq) returns (ins': seq<Input>, t: State)
    requires ChangesLastSet(c, r) && At(c, s, ins, u) && Queued(c, u, r, false)
    ensures At(c, s, ins', t) && Queued(c, t, r, true)
  {
    QueuedGrad(c, s, ins, u, r, false);
    ins', t := GoActive(c, s, ins, u, IDLE.(ret := Some(r.rob)));
    RetireEdge(c, u, r, t);
  }
  lemma ToPort1(c: Config, s: State, ins: seq<Input>, u: State, r: MemReq) returns (ins': seq<Input>, t: State)
    requires ChangesLastSet(c, r) && At(c, s, ins, u) && Queued(c, u, r, true)
    ensures At(c, s, ins', t) && OnPort1(c, t, r)
  {
    QueuedGrad(c, s, ins, u, r, true);
    ins', t := GoActive(c, s, ins, u, IDLE);
    FireEdge(c, u, r, t);
  }
  lemma ToMiss(c: Config, s: State, ins: seq<Input>, u: State, r: MemReq) returns (ins': seq<Input>, t: State)
    requires ChangesLastSet(c, r) && At(c, s, ins, u) && OnPort1(c, u, r)
    ensures At(c, s, ins', t) && Filling(c, t, r)
  {
    ins', t := GoActive(c, s, ins, u, IDLE);
    MissEdge(c, u, r, t);
  }
  lemma ToReload(c: Config, s: State, ins: seq<Input>, u: State, r: MemReq) returns (ins': seq<Input>, t: State)
    requires ChangesLastSet(c, r) && At(c, s, ins, u) && Filling(c, u, r)
    ensures At(c, s, ins', t) && Reloaded(c, t, r)
  {
    FillingBus(c, s, ins, u, r);
    ins', t := GoOther(c, s, ins, u, IDLE.(rsp := Some(Read(c.init, r.la))));
    FillEdge(c, u, r, t);
  }
  lemma ToWrite(c: Config, s: State, ins: seq<Input>, u: State, r: MemReq) returns (ins': seq<Input>, t: State)
    requires ChangesLastSet(c, r) && At(c, s, ins, u) && Reloaded(c, u, r)
    ensures At(c, s, ins', t) && Writing(c, t, r)
  {
    ins', t := GoOther(c, s, ins, u, IDLE);
    AgainEdge(c, u, r, t);
  }
  lemma ToStale(c: Config, s: State, ins: seq<Input>, u: State, r: MemReq) returns (ins': seq<Input>, t: State)
    requires ChangesLastSet(c, r) && At(c, s, ins, u) && Writing(c, u, r)
    ensures At(c, s, ins', t) && Stale(c, t, r) && t.fsm.Active? && t.flushReq
  {
    ins', t := GoActive(c, s, ins, u, IDLE.(flush := true));
    WriteEdge(c, u, r, t);
  }
  lemma ToFlush(c: Config, s: State, ins: seq<Input>, u: State, r: MemReq) returns (ins': seq<Input>, t: State)
    requires At(c, s, ins, u) && Stale(c, u, r) && u.fsm.Active? && u.flushReq
    ensures At(c, s, ins', t) && Stale(c, t, r) && t.fsm.FlushAll?
  {
    ins', t := GoActive(c, s, ins, u, IDLE);
    StartEdge(c, u, r, t);
  }
  lemma {:induction false} ToEnd(c: Config, s: State, ins: seq<Input>, u: State, r: MemReq) returns (ins': seq<Input>, t: State)
    requires At(c, s, ins, u) && Stale(c, u, r) && u.fsm.FlushAll?
    ensures At(c, s, ins', t) && Stale(c, t, r) && t.fsm.Active? && t.flushDone
    decreases c.sets - u.idx
  {
    ins', t := GoOther(c, s, ins, u, IDLE);
    WalkEdge(c, u, r, t);
    if u.idx + 1 < c.sets { ins', t := ToEnd(c, s, ins', t, r); }
  }

  lemma StaleMemory(c: Config, t: State, r: MemReq)
    requires ChangesLastSet(c, r) && Stale(c, t, r)
    ensures Read(t.ram.mem, r.la) != Replay(c, t.written, r.la)
  {
    ReplayOne(c, [], r, r.la);
    assert [] + [r] == [r];
  }

  /** From every reset state and for every store that changes a line of the last set there is a run in
      which the store retires and is written, a full flush is raised, starts and reports completion,
      and memory still holds the old line. */
  lemma FlushLeavesDirtyLine(c: Config, s: State, r: MemReq) returns (ins: seq<Input>)
    requires WellFormed(c) && Reset(c, s) && ChangesLastSet(c, r)
    ensures Legal(c, s, ins)
    ensures var e := Run(c, s, ins);
            && Inv(c, e) && e.fsm.Active? && e.flushDone && e.written == [r] && Order(e) == []
            && e.ram.dirty[c.sets - 1] && Read(e.ram.mem, r.la) != Replay(c, e.written, r.la)
  {
    var t;
    ins, t := ToPort2(c, s, r);
    ins, t := ToQueue(c, s, ins, t, r);
    ins, t := ToRetired(c, s, ins, t, r);
    ins, t := ToPort1(c, s, ins, t, r);
    ins, t := ToMiss(c, s, ins, t, r);
    ins, t := ToReload(c, s, ins, t, r);
    ins, t := ToWrite(c, s, ins, t, r);
    ins, t := ToStale(c, s, ins, t, r);
    ins, t := ToFlush(c, s, ins, t, r);
    ins, t := ToEnd(c, s, ins, t, r);
    Reached(c, s, ins, t);
    StaleMemory(c, t, r);
  }
}
