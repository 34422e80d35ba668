/**
  Runs of the data cache (l1d.sv) from reset, and the clocked unit itself.
 */
module DataCacheRuns {
  import opened MemoryTypes
  import opened Multisets
  import opened DataCache
  import opened DataCacheInvariant
  import opened DataCacheProof
  import opened DataCacheTheorems

  /** After reset nothing is in flight, and the cache holds no line. */
  ghost predicate Reset(c: Config, s: State) {
    && Sized(c, s) && s.mq == [] && s.fsm.Active?
    && (forall k :: 0 <= k < c.sets ==> !s.ram.valid[k] && !s.ram.dirty[k])
    && s.ram.mem == c.init
    && !s.got && !s.got2 && !s.lastWr && !s.lastWr2 && !s.rrLastWr && !s.mustFwd && !s.mustFwd2
    && !s.lock && !s.inhibit && !s.issue && !s.flushReq && !s.flushLineReq
    && s.inflight == 0
    && (forall k :: 0 <= k < |s.grad| ==> s.grad[k].Free?)
    && s.written == [] && s.log == []
  }

  lemma ResetEstablishesInvariant(c: Config, s: State)
    requires WellFormed(c) && Reset(c, s)
    ensures Inv(c, s)
  {
    assert Order(s) == [];
    forall k | 0 <= k < c.sets ensures SetInv(s.ram, k) {}
  }

  /** Inputs that follow the protocol in every cycle, squash in program order and never start a flush
      over a load miss. */
  ghost predicate Legal(c: Config, s: State, ins: seq<Input>)
    requires WellFormed(c)
    decreases |ins|
  {
    ins == [] ||
    (&& Shape(c, s) && Protocol(c, s, ins[0]) && WindowRule(s, ins[0]) && !FlushClash(s)
     && Legal(c, Next(c, s, ins[0]), ins[1..]))
  }

  ghost function Run(c: Config, s: State, ins: seq<Input>): State
    requires WellFormed(c) && Legal(c, s, ins)
    decreases |ins|
  {
    if ins == [] then s else Run(c, Next(c, s, ins[0]), ins[1..])
  }

  /** An answer, and whether it was given to a request that a drain discards on port 2. */
  datatype Reply = Reply(op: Op, answer: Answer, discarded: bool)

  /** The answer of a cycle, if there is one. */
  ghost function ReplyOf(c: Config, s: State, i: Input): Option<Reply>
    requires Step(c, s, i)
  {
    var r := Comb(c, s, i).rsp;
    if r.Some? then Some(Reply(r.value.op, r.value.answer, i.drain && s.got2)) else None
  }

  function Listed(r: Option<Reply>): seq<Reply> { if r.Some? then [r.value] else [] }

  /** The answers of a run, in order. */
  ghost function Answers(c: Config, s: State, ins: seq<Input>): seq<Reply>
    requires WellFormed(c) && Legal(c, s, ins)
    decreases |ins|
  {
    if ins == [] then []
    else Listed(ReplyOf(c, s, ins[0])) + Answers(c, Next(c, s, ins[0]), ins[1..])
  }

  /** The requests accepted in a run, each with the reference line at its acceptance. */
  ghost function Accepted(c: Config, s: State, ins: seq<Input>): multiset<Ticket>
    requires WellFormed(c) && Legal(c, s, ins)
    decreases |ins|
  {
    if ins == [] then multiset{}
    else Taken(Next(c, s, ins[0])) + Accepted(c, Next(c, s, ins[0]), ins[1..])
  }

  ghost function Tickets(rs: seq<Reply>): multiset<Ticket> {
    if rs == [] then multiset{} else multiset{TicketOf(rs[0].op)} + Tickets(rs[1..])
  }

  lemma {:induction false} RunKeepsInvariant(c: Config, s: State, ins: seq<Input>)
    requires WellFormed(c) && Inv(c, s) && Legal(c, s, ins)
    ensures Inv(c, Run(c, s, ins))
    decreases |ins|
  {
    if ins != [] {
      KeepsInvariant(c, s, ins[0]);
      RunKeepsInvariant(c, Next(c, s, ins[0]), ins[1..]);
    }
  }

  // ---------------------------------------------------------------- squashes

  /** Every waiting operation keeps its prediction or has been squashed. */
  ghost predicate Excusable(o: Op) { o.clean || o.squashed }
  ghost predicate Excused(s: State) {
    && (Held1(s) != [] ==> Excusable(s.op))
    && (forall k :: 0 <= k < |s.mq| ==> Excusable(s.mq[k]))
    && (s.got2 ==> Excusable(s.op2))
  }

  /** When the store at the queue head is dropped, everything behind it is in the squashed window. */
  lemma BehindDropped(s: State, i: Input, k: nat)
    requires WindowRule(s, i) && i.drain && 0 < k < |s.mq| && !s.mq[0].retired && s.mq[0].req.rob in i.dead
    ensures s.mq[k].req.rob in i.dead
  {
    var n := |Held1(s)|;
    assert Order(s)[n] == s.mq[0] && Order(s)[n + k] == s.mq[k];
  }

  lemma ExcusedQueue(s: State, i: Input, pop: Pop, push: bool, k: nat)
    requires (!pop.Keep? ==> s.mq != []) && (push ==> s.got2) && Excused(s) && k < |NextQueue(s, i, pop, push)|
    requires pop.Drop? ==> WindowRule(s, i) && i.drain && !push && !s.mq[0].retired && s.mq[0].req.rob in i.dead
    ensures Excusable(NextQueue(s, i, pop, push)[k])
  {
    if pop.Drop? { BehindDropped(s, i, k + 1); }
  }

  lemma ExcusedAfter(c: Config, s: State, i: Input, k: nat)
    requires WellFormed(c) && Inv(c, s) && Protocol(c, s, i) && WindowRule(s, i) && Excused(s)
    requires k < |Next(c, s, i).mq|
    ensures Excusable(Next(c, s, i).mq[k])
  {
    var x := Comb(c, s, i);
    CtlFacts(c, s, i);
    StoreDiscipline(c, s, i);
    assert Next(c, s, i).mq == NextQueue(s, i, x.pop, x.push);
    ExcusedQueue(s, i, x.pop, x.push, k);
  }

  lemma ExcusedHeld(c: Config, s: State, i: Input)
    requires WellFormed(c) && Inv(c, s) && Protocol(c, s, i) && !FlushClash(s) && Excused(s)
    ensures var s' := Next(c, s, i); (Held1(s') != [] ==> Excusable(s'.op)) && (s'.got2 ==> Excusable(s'.op2))
  {
    NextHeld1(c, s, i);
    assert Held1(Next(c, s, i)) != [] ==> Held1(Next(c, s, i))[0] == Next(c, s, i).op;
  }

  /** Only squashed operations lose their prediction. */
  lemma OnlySquashedLosePrediction(c: Config, s: State, i: Input)
    requires WellFormed(c) && Inv(c, s) && Protocol(c, s, i) && WindowRule(s, i) && !FlushClash(s) && Excused(s)
    ensures Excused(Next(c, s, i))
  {
    ExcusedHeld(c, s, i);
    forall k | 0 <= k < |Next(c, s, i).mq| ensures Excusable(Next(c, s, i).mq[k]) { ExcusedAfter(c, s, i, k); }
  }

  /** An answer belongs to port 1 or to port 2. */
  lemma AnswerOwner(c: Config, s: State, i: Input)
    requires Step(c, s, i)
    ensures var r := Comb(c, s, i).rsp;
            r.Some? ==> (Held1(s) == [s.op] && r.value.op == s.op) || (s.got2 && r.value.op == s.op2)
  {
    RspIs(c, s, i);
  }

  // ---------------------------------------------------------------- answers

  /** Every answer is of its operation's kind, and a load that was neither discarded nor squashed is
      answered with the reference memory's value. */
  ghost predicate RightAnswer(c: Config, r: Reply) {
    && RightKind(r.op, r.answer, r.discarded)
    && (!r.op.squashed ==> FlatAnswer(c, r.op, r.answer, r.discarded))
  }

  ghost predicate AllRight(c: Config, rs: seq<Reply>) { forall r :: r in rs ==> RightAnswer(c, r) }

  lemma AllRightFirst(c: Config, r: Option<Reply>, rs: seq<Reply>)
    requires AllRight(c, rs) && (r.Some? ==> RightAnswer(c, r.value))
    ensures AllRight(c, Listed(r) + rs)
  {
  }

  lemma AnswerIsRight(c: Config, s: State, i: Input)
    requires WellFormed(c) && Inv(c, s) && Protocol(c, s, i) && Excused(s)
    ensures var r := ReplyOf(c, s, i); r.Some? ==> RightAnswer(c, r.value)
  {
    AnswerOwner(c, s, i);
    LoadReturnsFlatMemory(c, s, i);
  }

  /** In every run each answer is of its operation's kind, and each load that was neither discarded nor
      squashed gets the reference memory's value. */
  lemma {:induction false} RunAnswersFlatMemory(c: Config, s: State, ins: seq<Input>)
    requires WellFormed(c) && Inv(c, s) && Excused(s) && Legal(c, s, ins)
    ensures AllRight(c, Answers(c, s, ins))
    decreases |ins|
  {
    if ins != [] {
      var s' := Next(c, s, ins[0]);
      KeepsInvariant(c, s, ins[0]);
      OnlySquashedLosePrediction(c, s, ins[0]);
      AnswerIsRight(c, s, ins[0]);
      RunAnswersFlatMemory(c, s', ins[1..]);
      AllRightFirst(c, ReplyOf(c, s, ins[0]), Answers(c, s', ins[1..]));
    }
  }

  lemma {:induction false} TicketsFirst(r: Option<Reply>, rs: seq<Reply>)
    ensures Tickets(Listed(r) + rs) == (if r.Some? then multiset{TicketOf(r.value.op)} else multiset{}) + Tickets(rs)
  {
    if r.Some? {
      assert ([r.value] + rs)[1..] == rs;
    } else {
      assert [] + rs == rs;
    }
  }

  lemma TicketsOfRun(c: Config, s: State, ins: seq<Input>)
    requires WellFormed(c) && Legal(c, s, ins) && ins != []
    ensures Tickets(Answers(c, s, ins)) ==
            Answered(Comb(c, s, ins[0])) + Tickets(Answers(c, Next(c, s, ins[0]), ins[1..]))
  {
    TicketsFirst(ReplyOf(c, s, ins[0]), Answers(c, Next(c, s, ins[0]), ins[1..]));
  }

  /** In every run each accepted request is answered exactly once or is still outstanding, and its
      answer carries the reference line of its own acceptance. */
  lemma {:induction false} RunConservesRequests(c: Config, s: State, ins: seq<Input>)
    requires WellFormed(c) && Inv(c, s) && Legal(c, s, ins)
    ensures Outstanding(Run(c, s, ins)) + Tickets(Answers(c, s, ins)) == Outstanding(s) + Accepted(c, s, ins)
    decreases |ins|
  {
    if ins != [] {
      var s' := Next(c, s, ins[0]);
      KeepsInvariant(c, s, ins[0]);
      NextOutstanding(c, s, ins[0]);
      RunConservesRequests(c, s', ins[1..]);
      TicketsOfRun(c, s, ins);
      Chain(Outstanding(s), Outstanding(s'), Outstanding(Run(c, s, ins)), Answered(Comb(c, s, ins[0])),
            Tickets(Answers(c, s', ins[1..])), Taken(s'), Accepted(c, s', ins[1..]));
    }
  }

  /** The whole promise, from reset. */
  lemma EveryRunIsSequential(c: Config, s: State, ins: seq<Input>)
    requires WellFormed(c) && Reset(c, s) && Legal(c, s, ins)
    ensures var e := Run(c, s, ins);
            && RamShape(c, e.ram)
            && (forall la: LineAddr :: la.idx < c.sets ==> View(e.ram, la) == Replay(c, e.written, la))
            && e.log == e.written + Stores(Order(e))
            && AllRight(c, Answers(c, s, ins))
            && Outstanding(e) + Tickets(Answers(c, s, ins)) == Accepted(c, s, ins)
            && e.inflight == |Outstanding(e)|
  {
    ResetEstablishesInvariant(c, s);
    RunKeepsInvariant(c, s, ins);
    assert Order(s) == [] && Excused(s);
    RunAnswersFlatMemory(c, s, ins);
    RunConservesRequests(c, s, ins);
    assert Outstanding(s) == multiset{};
  }

  // ---------------------------------------------------------------- runs without a squash

  /** No waiting operation lost an older store to a squash. */
  ghost predicate AllClean(s: State) {
    && (Held1(s) != [] ==> s.op.clean)
    && (forall k :: 0 <= k < |s.mq| ==> s.mq[k].clean)
    && (s.got2 ==> s.op2.clean)
  }

  lemma CleanQueue(s: State, i: Input, pop: Pop, push: bool)
    requires !pop.Drop? && (pop.Fire? ==> s.mq != [])
    requires (forall k :: 0 <= k < |s.mq| ==> s.mq[k].clean) && (push ==> s.op2.clean)
    ensures forall k :: 0 <= k < |NextQueue(s, i, pop, push)| ==> NextQueue(s, i, pop, push)[k].clean
  {
  }

  lemma CleanAnswer(c: Config, s: State, i: Input)
    requires Step(c, s, i) && AllClean(s)
    ensures var r := Comb(c, s, i).rsp; r.Some? ==> r.value.op.clean
  {
  }

  /** As long as no waiting store is squashed, every waiting operation keeps its prediction. */
  lemma CleanWithoutSquash(c: Config, s: State, i: Input)
    requires Step(c, s, i) && Port1Inv(c, s) && FsmInv(c, s) && !FlushClash(s)
    requires AllClean(s) && !Comb(c, s, i).pop.Drop?
    ensures AllClean(Next(c, s, i))
  {
    var s', k := Next(c, s, i), Comb(c, s, i);
    NextHeld1(c, s, i);
    CleanQueue(s, i, k.pop, k.push);
    assert s'.mq == NextQueue(s, i, k.pop, k.push);
    assert Held1(s') != [] ==> Held1(s')[0] == s'.op;
  }

  /** No cycle of the run drops a waiting store. */
  ghost predicate NoSquash(c: Config, s: State, ins: seq<Input>)
    requires WellFormed(c) && Legal(c, s, ins)
    decreases |ins|
  {
    ins == [] || (!Comb(c, s, ins[0]).pop.Drop? && NoSquash(c, Next(c, s, ins[0]), ins[1..]))
  }

  ghost predicate FlatReply(c: Config, r: Reply) {
    RightKind(r.op, r.answer, r.discarded) && FlatAnswer(c, r.op, r.answer, r.discarded)
  }

  lemma AllFlatFirst(c: Config, r: Option<Reply>, rs: seq<Reply>)
    requires (forall x :: x in rs ==> FlatReply(c, x)) && (r.Some? ==> FlatReply(c, r.value))
    ensures forall x :: x in Listed(r) + rs ==> FlatReply(c, x)
  {
  }

  /** In a run that drops no store, every load is answered with the reference memory's value. */
  lemma {:induction false} RunWithoutSquash(c: Config, s: State, ins: seq<Input>)
    requires WellFormed(c) && Inv(c, s) && AllClean(s) && Legal(c, s, ins) && NoSquash(c, s, ins)
    ensures forall r :: r in Answers(c, s, ins) ==> FlatReply(c, r)
    decreases |ins|
  {
    if ins != [] {
      var s' := Next(c, s, ins[0]);
      KeepsInvariant(c, s, ins[0]);
      LoadReturnsFlatMemory(c, s, ins[0]);
      CleanAnswer(c, s, ins[0]);
      CleanWithoutSquash(c, s, ins[0]);
      RunWithoutSquash(c, s', ins[1..]);
      AllFlatFirst(c, ReplyOf(c, s, ins[0]), Answers(c, s', ins[1..]));
    }
  }

  // ---------------------------------------------------------------- line flushes

  predicate FlushingLine(s: State) { s.fsm.FlushLine? || s.fsm.FlushLineWait? }

  /** The run ends the line flush that is under way in s. */
  ghost predicate EndsLineFlush(c: Config, s: State, ins: seq<Input>)
    requires WellFormed(c) && Legal(c, s, ins)
    decreases |ins|
  {
    && FlushingLine(s) && ins != []
    && var s' := Next(c, s, ins[0]);
       if s'.fsm.Active? then ins[1..] == [] else EndsLineFlush(c, s', ins[1..])
  }

  /** Set k holds nothing and memory holds all its lines. */
  ghost predicate SetFlushed(c: Config, s: State, k: nat) {
    && s.flushDone && k < |s.ram.valid| && !s.ram.valid[k]
    && forall la: LineAddr :: la.idx == k ==> Read(s.ram.mem, la) == Replay(c, s.written, la)
  }

  lemma {:induction false} LineFlushEnds(c: Config, s: State, ins: seq<Input>)
    requires WellFormed(c) && Inv(c, s) && Legal(c, s, ins) && EndsLineFlush(c, s, ins)
    ensures SetFlushed(c, Run(c, s, ins), FlushSet(s))
    decreases |ins|
  {
    var s' := Next(c, s, ins[0]);
    KeepsInvariant(c, s, ins[0]);
    if s'.fsm.Active? {
      LineFlushWritesBack(c, s, ins[0]);
    } else {
      OtherEdgeHolds(c, s, ins[0]);
      LineFlushAddress(c, s, ins[0], s');
      LineFlushEnds(c, s', ins[1..]);
    }
  }

  /** A line flush ends with the set that was addressed when it started invalid, and memory holding all
      lines of that set. */
  lemma LineFlushRun(c: Config, s: State, i: Input, ins: seq<Input>)
    requires WellFormed(c) && Inv(c, s) && Protocol(c, s, i) && !FlushClash(s)
    requires s.fsm.Active? && Next(c, s, i).fsm.FlushLine?
    requires Legal(c, Next(c, s, i), ins) && EndsLineFlush(c, Next(c, s, i), ins)
    ensures SetFlushed(c, Run(c, Next(c, s, i), ins), i.flushIdx)
  {
    KeepsInvariant(c, s, i);
    LineFlushStart(c, s, i);
    LineFlushEnds(c, Next(c, s, i), ins);
  }

  // ---------------------------------------------------------------- quiet flushes

  /** A flush is raised only with nothing in flight, and no request is offered from that cycle until
      the flush starts. */
  ghost predicate QuietInput(s: State, i: Input) {
    && (i.flush || i.flushLine ==> s.inflight == 0)
    && (s.flushReq || s.flushLineReq || i.flush || i.flushLine ==> i.core.None?)
  }

  /** Nothing is in flight while a flush is pending. */
  ghost predicate PendingQuiet(s: State) { s.flushReq || s.flushLineReq ==> s.inflight == 0 }

  lemma QuietNeverClashes(c: Config, s: State)
    requires Inv(c, s) && PendingQuiet(s)
    ensures !FlushClash(s)
  {
    if FlushClash(s) { ClashCount(c, s); }
  }

  lemma StillNothing(c: Config, s: State, i: Input)
    requires WellFormed(c) && Inv(c, s) && Protocol(c, s, i) && !FlushClash(s) && s.inflight == 0 && i.core.None?
    ensures Next(c, s, i).inflight == 0
  {
    KeepsInvariant(c, s, i);
    NextOutstanding(c, s, i);
    AcceptFacts(c, s, i);
    assert |Outstanding(s)| == 0;
    assert Outstanding(s) == multiset{};
    assert Outstanding(Next(c, s, i)) == multiset{};
  }

  lemma PendingFlush(c: Config, s: State, i: Input)
    requires Step(c, s, i) && (Next(c, s, i).flushReq || Next(c, s, i).flushLineReq)
    ensures s.flushReq || s.flushLineReq || i.flush || i.flushLine
  {
  }

  lemma QuietStep(c: Config, s: State, i: Input)
    requires WellFormed(c) && Inv(c, s) && Protocol(c, s, i) && PendingQuiet(s) && QuietInput(s, i)
    ensures Inv(c, Next(c, s, i)) && PendingQuiet(Next(c, s, i))
  {
    QuietNeverClashes(c, s);
    KeepsInvariant(c, s, i);
    if Next(c, s, i).flushReq || Next(c, s, i).flushLineReq {
      PendingFlush(c, s, i);
      StillNothing(c, s, i);
    }
  }

  /** The condition on inputs alone that replaces the absence of clashes. */
  ghost predicate Quiet(c: Config, s: State, ins: seq<Input>)
    requires WellFormed(c)
    decreases |ins|
  {
    ins == [] ||
    (&& Shape(c, s) && Protocol(c, s, ins[0]) && WindowRule(s, ins[0]) && QuietInput(s, ins[0])
     && Quiet(c, Next(c, s, ins[0]), ins[1..]))
  }

  /** If flushes are quiet then no state of the run is a clash, so the run is legal. */
  lemma {:induction false} QuietRunsAreLegal(c: Config, s: State, ins: seq<Input>)
    requires WellFormed(c) && Inv(c, s) && PendingQuiet(s) && Quiet(c, s, ins)
    ensures Legal(c, s, ins) && !FlushClash(Run(c, s, ins))
    decreases |ins|
  {
    QuietNeverClashes(c, s);
    if ins != [] {
      QuietStep(c, s, ins[0]);
      QuietRunsAreLegal(c, Next(c, s, ins[0]), ins[1..]);
    }
  }

  /** From reset, quiet flushes lose nothing. */
  lemma QuietRunIsSequential(c: Config, s: State, ins: seq<Input>)
    requires WellFormed(c) && Reset(c, s) && Quiet(c, s, ins)
    ensures Legal(c, s, ins)
    ensures var e := Run(c, s, ins);
            && Inv(c, e) && !FlushClash(e)
            && AllRight(c, Answers(c, s, ins))
            && Outstanding(e) + Tickets(Answers(c, s, ins)) == Accepted(c, s, ins)
  {
    ResetEstablishesInvariant(c, s);
    QuietRunsAreLegal(c, s, ins);
    RunKeepsInvariant(c, s, ins);
    EveryRunIsSequential(c, s, ins);
  }

  // ---------------------------------------------------------------- the clocked unit

  /** The cache as a clocked object: its registers and RAMs change once per clock edge. */
  class L1DataCache {
    const c: Config
    var regs: State

    ghost predicate Valid()
      reads this
    {
      WellFormed(c) && Inv(c, regs) && Excused(regs)
    }

    constructor (c: Config, reset: State)
      requires WellFormed(c) && Reset(c, reset)
      ensures Valid() && this.c == c && regs == reset
    {
      this.c, this.regs := c, reset;
      ResetEstablishesInvariant(c, reset);
    }

    /** One clock cycle: what the cache answers, and every store it commits, agrees with the
        reference memory. */
    method Clock(i: Input) returns (rsp: Option<Reply>)
      requires Valid() && Protocol(c, regs, i) && WindowRule(regs, i) && !FlushClash(regs)
      modifies this
      ensures Valid() && regs == Next(c, old(regs), i)
      ensures rsp == ReplyOf(c, old(regs), i) && (rsp.Some? ==> RightAnswer(c, rsp.value))
    {
      KeepsInvariant(c, regs, i);
      OnlySquashedLosePrediction(c, regs, i);
      AnswerIsRight(c, regs, i);
      var r := Comb(c, regs, i).rsp;
      rsp := if r.Some? then Some(Reply(r.value.op, r.value.answer, i.drain && regs.got2)) else None;
      regs := Next(c, regs, i);
    }
  }
}
