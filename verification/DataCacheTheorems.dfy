/**
  What the data cache promises (l1d.sv), for every reachable state and every run.
 */
module DataCacheTheorems {
  import opened MemoryTypes
  import opened DataCache
  import opened DataCacheInvariant
  import opened DataCacheProof

  // ---------------------------------------------------------------- one cycle

  lemma ActiveKeeps(c: Config, s: State, i: Input)
    requires WellFormed(c) && Inv(c, s) && Protocol(c, s, i) && s.fsm.Active? && !FlushClash(s)
    ensures Inv(c, Next(c, s, i))
  {
    var s' := Next(c, s, i);
    ActiveEdgeHolds(c, s, i);
    NextShape(c, s, i);
    ActiveMemory(c, s, i, s');
    ActiveLog(c, s, i, s');
    ActivePort1(c, s, i, s');
    ActivePort2(c, s, i, s');
    ActiveBypass(c, s, i, s');
    ActiveFsmInv(c, s, i, s');
    NextNoMoves(c, s, i);
    NextHeld1(c, s, i);
    NextGradInv(c, s, i);
    NextCount(c, s, i);
  }

  lemma OtherFsmInv(c: Config, s: State, i: Input, s': State)
    requires Step(c, s, i) && OtherEdge(c, s, i, s') && !s.fsm.Active? && BusRule(s, i)
    requires Port1Inv(c, s) && FsmInv(c, s) && RamInv(c, s.ram)
    ensures FsmInv(c, s')
  {
    match s.fsm {
      case Inject => ReloadFsmInv(c, s, i, s');
      case HandleReload => ReloadFsmInv(c, s, i, s');
      case FlushLine => FlushLineFsmInv(c, s, i, s');
      case FlushLineWait => FlushLineFsmInv(c, s, i, s');
      case FlushAll => FlushAllFsmInv(c, s, i, s');
      case FlushAllWait => FlushAllWaitFsmInv(c, s, i, s');
      case _ =>
    }
  }

  lemma OtherKeeps(c: Config, s: State, i: Input)
    requires WellFormed(c) && Inv(c, s) && Protocol(c, s, i) && !s.fsm.Active?
    ensures Inv(c, Next(c, s, i))
  {
    var s' := Next(c, s, i);
    OtherEdgeHolds(c, s, i);
    NextShape(c, s, i);
    OtherMemory(c, s, i, s');
    OtherLog(c, s, i, s');
    OtherPort1(c, s, i, s');
    OtherPort2(c, s, i, s');
    OtherFsmInv(c, s, i, s');
    NextNoMoves(c, s, i);
    NextHeld1(c, s, i);
    NextGradInv(c, s, i);
    NextCount(c, s, i);
  }

  /** A flush that starts in the cycle in which a port-1 load misses forgets that load: nothing
      waits for it any more, yet the in-flight counter still counts it. */
  lemma ClashLosesLoad(c: Config, s: State, i: Input)
    requires Step(c, s, i) && Port1Inv(c, s) && BypassInv(c, s) && CountInv(c, s) && FlushClash(s)
    ensures var s' := Next(c, s, i);
            && !IsStore(s.op.req) && Comb(c, s, i).rsp.None?
            && Order(s') == [] && s'.inflight == 1
  {
    ClashCount(c, s);
    MissKeepsAll(c, s, i);
    ActiveEdgeHolds(c, s, i);
    ClashEmpties(c, s, i, Next(c, s, i));
  }

  lemma ClashCount(c: Config, s: State)
    requires Shape(c, s) && BypassInv(c, s) && CountInv(c, s) && FlushClash(s) && (s.got ==> s.lastWr == IsStore(s.op.req))
    ensures !IsStore(s.op.req) && !s.got2 && s.inflight == 1
  {
    OwedSingle(s.op);
    assert Outstanding(s) == multiset{TicketOf(s.op)};
  }

  lemma ClashEmpties(c: Config, s: State, i: Input, s': State)
    requires Ready(c, s, i) && ActiveEdge(c, s, i, s') && FlushClash(s) && !s.got2
    requires PopAction(c, s, i).Keep? && !Accepts(c, s, i)
    ensures Order(s') == []
  {
    assert !FlushAction(s, false).NoFlush?;
    assert s'.mq == [] && Held1(s') == [] && !s'.got2;
  }

  /** The invariant survives a cycle exactly when no flush clashes with a load miss. */
  lemma KeepsInvariant(c: Config, s: State, i: Input)
    requires WellFormed(c) && Inv(c, s) && Protocol(c, s, i)
    ensures Inv(c, Next(c, s, i)) <==> !FlushClash(s)
  {
    if FlushClash(s) {
      ClashLosesLoad(c, s, i);
    } else if s.fsm.Active? {
      ActiveKeeps(c, s, i);
    } else {
      OtherKeeps(c, s, i);
    }
  }

  // ---------------------------------------------------------------- loads

  lemma Port1LoadValue(c: Config, s: State)
    requires Inv(c, s) && s.fsm.Active? && s.got && Hit1(s) && s.op.clean
    ensures Data1(s) == s.op.seen
  {
    assert Order(s)[0] == s.op;
    assert View(s.ram, s.op.req.la) == s.ram.data[s.idx];
  }

  lemma Port2LoadValue(c: Config, s: State)
    requires Inv(c, s) && s.got2 && Hit2(s) && !s.hitBusy2 && !IsStore(s.op2.req) && s.op2.clean
    ensures Data2(s) == s.op2.seen
  {
    var la := s.op2.req.la;
    var q := Held1(s) + s.mq;
    SeenConcat(c, s.written, q, [s.op2]);
    assert s.op2.seen == Replay(c, s.written + Stores(q), la);
    assert NoStoreTo(q, la.idx);
    StoresElsewhere(q, la);
    ReplaySkip(c, s.written, Stores(q), la);
    assert View(s.ram, la) == s.ram.data[s.idx2];
  }

  /** What kind of answer an operation gets, if it is `discarded` on port 2 by a drain or not: a drained
      request gets no data, a register move is acknowledged as one, a store is acknowledged when it enters
      the queue, and everything else is a load and gets a value. */
  ghost predicate RightKind(o: Op, answer: Answer, discarded: bool) {
    && (answer.Drained? <==> discarded)
    && (answer.Moved? <==> !discarded && IsMoveOp(o.req.pay.op))
    && (answer.Acked? <==> !discarded && IsStore(o.req))
    && (answer.Loaded? <==> !discarded && !IsMoveOp(o.req.pay.op) && !IsStore(o.req))
  }

  lemma Port2Kind(c: Config, s: State, i: Input)
    ensures var r := Port2Action(c, s, i).rsp;
            r.Some? ==> s.got2 && r.value.op == s.op2 && RightKind(s.op2, r.value.answer, i.drain)
  {
  }

  /** Every answer is of the right kind; the requests on port 2 of a draining cycle are discarded. */
  lemma AnswerKinds(c: Config, s: State, i: Input)
    requires Step(c, s, i) && BypassInv(c, s) && Port2Inv(c, s) && NoMoves(Held1(s))
    ensures var r := Comb(c, s, i).rsp;
            r.Some? ==> RightKind(r.value.op, r.value.answer, i.drain && s.got2)
  {
    RspIs(c, s, i);
    Port2Kind(c, s, i);
    if s.fsm.Active? && s.got { assert Held1(s)[0] == s.op; }
  }

  /** An undiscarded load is answered with the value of the line it recorded. */
  ghost predicate FlatAnswer(c: Config, o: Op, answer: Answer, discarded: bool) {
    !discarded && !IsMoveOp(o.req.pay.op) && !IsStore(o.req) ==> answer == Loaded(c.extract(o.req.pay, o.seen))
  }

  /** Every answer to a load carries the value that the reference memory held after all stores
      accepted before the load, unless one of those stores was squashed while the load waited. */
  lemma LoadReturnsFlatMemory(c: Config, s: State, i: Input)
    requires WellFormed(c) && Inv(c, s) && Protocol(c, s, i)
    ensures var r := Comb(c, s, i).rsp;
            r.Some? ==>
              && RightKind(r.value.op, r.value.answer, i.drain && s.got2)
              && (r.value.op.clean ==> FlatAnswer(c, r.value.op, r.value.answer, i.drain && s.got2))
  {
    var r := Comb(c, s, i).rsp;
    AnswerKinds(c, s, i);
    if r.Some? && r.value.answer.Loaded? {
      LoadSource(c, s, i);
      AnswerFrom(c, s, r.value);
    }
  }

  /** Where a load's answer comes from. */
  ghost predicate From1(c: Config, s: State, r: Rsp) {
    && s.fsm.Active? && s.got && Hit1(s) && r.op == s.op
    && r.answer == Loaded(c.extract(s.op.req.pay, Data1(s)))
  }
  ghost predicate From2(c: Config, s: State, r: Rsp) {
    && s.got2 && Hit2(s) && !s.hitBusy2 && !IsStore(s.op2.req) && r.op == s.op2
    && r.answer == Loaded(c.extract(s.op2.req.pay, Data2(s)))
  }

  lemma Port2Source(c: Config, s: State, i: Input)
    ensures var r := Port2Action(c, s, i).rsp;
            r.Some? && r.value.answer.Loaded? ==> From2(c, s, r.value)
  {
  }

  lemma RspIs(c: Config, s: State, i: Input)
    requires Step(c, s, i)
    ensures Comb(c, s, i).rsp == if s.fsm.Active? then ActiveRsp(c, s, i, Port1Action(s)) else None
  {
  }

  lemma LoadSource(c: Config, s: State, i: Input)
    requires Step(c, s, i)
    ensures var r := Comb(c, s, i).rsp;
            r.Some? && r.value.answer.Loaded? ==> From1(c, s, r.value) || From2(c, s, r.value)
  {
    RspIs(c, s, i);
    if !Port1Action(s).LoadHit? { Port2Source(c, s, i); }
  }

  lemma AnswerFrom(c: Config, s: State, r: Rsp)
    requires Inv(c, s) && (From1(c, s, r) || From2(c, s, r))
    ensures r.op.clean ==> r.answer.value == c.extract(r.op.req.pay, r.op.seen)
  {
    if r.op.clean {
      if From1(c, s, r) { Port1LoadValue(c, s); } else { Port2LoadValue(c, s); }
    }
  }

  /** What the newly accepted request recorded: the reference memory after every store accepted
      before it and not squashed. */
  lemma AcceptRecordsFlatMemory(c: Config, s: State, i: Input)
    requires WellFormed(c) && Inv(c, s) && Protocol(c, s, i) && Comb(c, s, i).accept
    ensures var s' := Next(c, s, i);
            var older := SquashLog(s, i, Comb(c, s, i).pop);
            && s'.got2 && s'.op2.req == i.core.value && s'.op2.clean
            && s'.op2.seen == Replay(c, older, i.core.value.la)
            && s'.log == if IsStore(i.core.value) then older + [i.core.value] else older
  {
    var s' := Next(c, s, i);
    var older := SquashLog(s, i, Comb(c, s, i).pop);
    assert IsStore(i.core.value) ==> (older + [i.core.value])[..|older|] == older;
  }

  // ---------------------------------------------------------------- stores

  /** A store reaches the data array only after its ROB entry retired; a store leaves the queue
      unwritten only if it did not retire and lies in the squashed ROB window. */
  lemma StoreDiscipline(c: Config, s: State, i: Input)
    requires WellFormed(c) && Inv(c, s) && Protocol(c, s, i)
    ensures WrArray(s) ==> s.op.retired && s.grad[s.op.req.rob].Retired?
    ensures var k := Comb(c, s, i);
            k.pop.Drop? ==> IsStore(s.mq[0].req) && !s.mq[0].retired && i.drain && s.mq[0].req.rob in i.dead
  {
    CtlFacts(c, s, i);
    if Comb(c, s, i).pop.Drop? { assert Owns(s.grad, s.mq[0]); }
  }

  /** The stores that were accepted and not squashed are written oldest first, each exactly once. */
  lemma StoresInOrder(c: Config, s: State, i: Input)
    requires WellFormed(c) && Inv(c, s) && Protocol(c, s, i) && !FlushClash(s)
    ensures var s' := Next(c, s, i);
            && s.written <= s'.written && s'.written <= s'.log
            && |s'.written| == |s.written| + (if WrArray(s) then 1 else 0)
            && (WrArray(s) ==> |s.written| < |s.log| && s.log[|s.written|] == s.op.req == s'.written[|s.written|])
  {
    KeepsInvariant(c, s, i);
    if WrArray(s) {
      assert Order(s)[0] == s.op;
    }
  }

  /** None of the conditions on which l1d.sv stops the simulation can hold: a first-time request
      on port 1, a push onto a full queue, a pop from an empty one, a store whose ROB index is
      still graduating, or a queued store without a graduation entry. */
  lemma NoStop(c: Config, s: State, i: Input)
    requires WellFormed(c) && Inv(c, s) && Protocol(c, s, i)
    ensures var k := Comb(c, s, i);
            && (s.got ==> s.isRetry || s.didReload)
            && (k.push ==> |s.mq| < c.mrq)
            && (!k.pop.Keep? ==> s.mq != [])
            && (k.push && IsStore(s.op2.req) ==> s.grad[s.op2.req.rob].Free?)
            && (s.mq != [] && IsStore(s.mq[0].req) ==> !s.grad[s.mq[0].req.rob].Free?)
  {
    if s.mq != [] { assert Owns(s.grad, s.mq[0]); }
  }

  /** With nothing outstanding, port 1 can only hold a retired store. */
  lemma NothingOwed(c: Config, s: State)
    requires Sized(c, s) && GradInv(c, s) && CountInv(c, s) && s.inflight == 0 && Held1(s) != []
    ensures IsStore(s.op.req) && s.op.retired && Held1(s) == [s.op]
  {
    OwedSingle(s.op);
  }

  lemma OnlyHeld(s: State)
    requires s.mq == [] && !s.got2 && (Held1(s) != [] ==> IsStore(s.op.req) && s.op.retired)
    ensures forall k :: 0 <= k < |Order(s)| ==> IsStore(Order(s)[k].req) && Order(s)[k].retired
  {
    assert Order(s) == Held1(s);
  }

  /** When the emptiness flag rises nothing is popped, pushed or accepted. */
  lemma EmptyStep(c: Config, s: State, i: Input)
    requires Step(c, s, i) && Next(c, s, i).memqEmpty
    ensures s.mq == [] && s.inflight == 0 && Next(c, s, i).mq == [] && !Next(c, s, i).got2 && !Comb(c, s, i).pop.Fire?
  {
    assert Next(c, s, i).mq == NextQueue(s, i, Comb(c, s, i).pop, Comb(c, s, i).push);
  }

  /** memq_empty rises exactly when the core drains and offers nothing, the queue is empty, no accepted
      request is unanswered and no reloaded operation is about to be retried. */
  lemma MemqEmptyExactly(c: Config, s: State, i: Input)
    requires Step(c, s, i) && Port1Inv(c, s) && Port2Inv(c, s) && CountInv(c, s)
    ensures Next(c, s, i).memqEmpty <==>
            i.drain && i.core.None? && s.mq == [] && Outstanding(s) == multiset{} && !s.fsm.HandleReload?
  {
    assert |Outstanding(s)| == 0 <==> Outstanding(s) == multiset{};
  }

  /** memq_empty tells the core that only retired stores are left in the cache. */
  lemma MemqEmptyMeansDrained(c: Config, s: State, i: Input)
    requires Step(c, s, i) && Port1Inv(c, s) && FsmInv(c, s) && GradInv(c, s) && CountInv(c, s) && !FlushClash(s)
    requires Next(c, s, i).memqEmpty
    ensures var s' := Next(c, s, i);
            && s'.mq == [] && !s'.got2
            && forall k :: 0 <= k < |Order(s')| ==> IsStore(Order(s')[k].req) && Order(s')[k].retired
  {
    EmptyStep(c, s, i);
    NextHeld1(c, s, i);
    if Held1(Next(c, s, i)) != [] { NothingOwed(c, s); }
    OnlyHeld(Next(c, s, i));
  }

  // ---------------------------------------------------------------- flush

  /** Nothing but a store changes what memory means: evictions, fills and flushes keep the view. */
  lemma OnlyStoresChangeView(c: Config, s: State, i: Input, la: LineAddr)
    requires WellFormed(c) && Inv(c, s) && Protocol(c, s, i) && !FlushClash(s) && la.idx < c.sets
    ensures View(Next(c, s, i).ram, la) ==
            if WrArray(s) && s.op.req.la == la then c.merge(s.op.req.pay, View(s.ram, la)) else View(s.ram, la)
  {
    KeepsInvariant(c, s, i);
    ReplayOne(c, s.written, s.op.req, la);
    assert View(s.ram, la) == Replay(c, s.written, la);
    assert View(Next(c, s, i).ram, la) == Replay(c, Next(c, s, i).written, la);
  }

  /** The last cycle of the walk leaves the RAMs alone. */
  lemma WalkEnds(c: Config, s: State, i: Input)
    requires Step(c, s, i) && BusRule(s, i) && s.fsm.FlushAll? && Next(c, s, i).fsm.Active?
    ensures var s' := Next(c, s, i);
            s.idx == c.sets - 1 && s'.flushDone && s'.ram == s.ram && s'.written == s.written
  {
  }

  lemma InvalidMeansMemory(c: Config, r: Ram, ws: seq<MemReq>, n: nat)
    requires RamShape(c, r) && ViewInv(c, r, ws) && FlushedBelow(r, n) && n <= c.sets
    ensures forall la: LineAddr :: la.idx < n ==> Read(r.mem, la) == Replay(c, ws, la)
  {
    forall la: LineAddr | la.idx < n ensures Read(r.mem, la) == Replay(c, ws, la) {
      assert View(r, la) == Replay(c, ws, la);
    }
  }

  /** When the walk of a full flush ends, every set before the last one is invalid, so memory
      itself holds those lines; the last set is never examined. */
  lemma FullFlushWritesBack(c: Config, s: State, i: Input)
    requires WellFormed(c) && Inv(c, s) && Protocol(c, s, i)
    requires s.fsm.FlushAll? && Next(c, s, i).fsm.Active?
    ensures var s' := Next(c, s, i);
            && s'.flushDone && s'.ram == s.ram && FlushedBelow(s'.ram, c.sets - 1)
            && forall la: LineAddr :: la.idx < c.sets - 1 ==> Read(s'.ram.mem, la) == Replay(c, s'.written, la)
  {
    WalkEnds(c, s, i);
    InvalidMeansMemory(c, s.ram, s.written, c.sets - 1);
  }

  /** Memory itself holds every line. */
  ghost predicate MemoryCurrent(c: Config, r: Ram, ws: seq<MemReq>) {
    forall la: LineAddr :: la.idx < c.sets ==> Read(r.mem, la) == Replay(c, ws, la)
  }

  /** The last set holds nothing that memory does not. */
  ghost predicate LastSetCurrent(c: Config, r: Ram)
    requires RamShape(c, r) && c.sets > 0
  {
    var last := c.sets - 1;
    r.dirty[last] ==> r.data[last] == Read(r.mem, LineAddr(r.tags[last], last))
  }

  lemma LastSetLine(c: Config, r: Ram, ws: seq<MemReq>, la: LineAddr)
    requires WellFormed(c) && RamShape(c, r) && RamInv(c, r) && ViewInv(c, r, ws) && LastSetCurrent(c, r) && la.idx == c.sets - 1
    ensures Read(r.mem, la) == Replay(c, ws, la)
  {
    assert SetInv(r, la.idx);
    assert View(r, la) == Replay(c, ws, la);
    assert r.tags[la.idx] == la.tag ==> la == LineAddr(r.tags[la.idx], la.idx);
  }

  lemma CurrentImpliesLast(c: Config, r: Ram, ws: seq<MemReq>)
    requires WellFormed(c) && RamShape(c, r) && RamInv(c, r) && ViewInv(c, r, ws) && MemoryCurrent(c, r, ws)
    ensures LastSetCurrent(c, r)
  {
    var last := c.sets - 1;
    var cached := LineAddr(r.tags[last], last);
    assert SetInv(r, last);
    assert View(r, cached) == Replay(c, ws, cached);
  }

  lemma CurrentExactly(c: Config, r: Ram, ws: seq<MemReq>)
    requires WellFormed(c) && RamShape(c, r) && RamInv(c, r) && ViewInv(c, r, ws) && FlushedBelow(r, c.sets - 1)
    ensures MemoryCurrent(c, r, ws) <==> LastSetCurrent(c, r)
  {
    if MemoryCurrent(c, r, ws) { CurrentImpliesLast(c, r, ws); }
    if LastSetCurrent(c, r) {
      InvalidMeansMemory(c, r, ws, c.sets - 1);
      forall la: LineAddr | la.idx == c.sets - 1 ensures Read(r.mem, la) == Replay(c, ws, la) {
        LastSetLine(c, r, ws, la);
      }
    }
  }

  /** A full flush leaves memory complete exactly when the last set, which the walk never examines,
      is not dirty or is dirty without differing from memory. */
  lemma FullFlushExactly(c: Config, s: State, i: Input)
    requires WellFormed(c) && Inv(c, s) && Protocol(c, s, i)
    requires s.fsm.FlushAll? && Next(c, s, i).fsm.Active?
    ensures var s' := Next(c, s, i);
            s'.flushDone && (MemoryCurrent(c, s'.ram, s'.written) <==> LastSetCurrent(c, s'.ram))
  {
    WalkEnds(c, s, i);
    CurrentExactly(c, s.ram, s.written);
  }

  /** The set that a line flush is working on. */
  function FlushSet(s: State): nat { if s.fsm.FlushLine? then s.idx else s.bus.la.idx }

  lemma FlushSetInvalid(c: Config, s: State, i: Input)
    requires Step(c, s, i) && BusRule(s, i) && FsmInv(c, s)
    requires (s.fsm.FlushLine? || s.fsm.FlushLineWait?) && Next(c, s, i).fsm.Active?
    ensures var s' := Next(c, s, i); s'.flushDone && !s'.ram.valid[FlushSet(s)]
  {
    assert Next(c, s, i).ram == NextRam(c, s, i, FlushInvalidates(c, s));
  }

  /** A line flush ends with its set invalid and with memory holding every line of that set, so a
      dirty line was written back first. */
  lemma LineFlushWritesBack(c: Config, s: State, i: Input)
    requires WellFormed(c) && Inv(c, s) && Protocol(c, s, i)
    requires (s.fsm.FlushLine? || s.fsm.FlushLineWait?) && Next(c, s, i).fsm.Active?
    ensures var s' := Next(c, s, i);
            && s'.flushDone && !s'.ram.valid[FlushSet(s)]
            && forall la: LineAddr :: la.idx == FlushSet(s) ==> Read(s'.ram.mem, la) == Replay(c, s'.written, la)
  {
    var s' := Next(c, s, i);
    KeepsInvariant(c, s, i);
    FlushSetInvalid(c, s, i);
    forall la: LineAddr | la.idx == FlushSet(s) ensures Read(s'.ram.mem, la) == Replay(c, s'.written, la) {
      assert View(s'.ram, la) == Replay(c, s'.written, la);
    }
  }

  /** A pending flush is not forgotten: it stays pending until it starts, and it starts as soon as the
      cache is idle and nothing is offered, a full flush before a line flush. */
  lemma FlushNotLost(c: Config, s: State, i: Input)
    requires Step(c, s, i)
    ensures s.flushReq || i.flush ==> Next(c, s, i).flushReq || (s.fsm.Active? && Next(c, s, i).fsm.FlushAll?)
    ensures s.flushLineReq || i.flushLine ==>
              Next(c, s, i).flushLineReq || (s.fsm.Active? && Next(c, s, i).fsm.FlushLine?)
  {
  }

  lemma FlushStarts(c: Config, s: State, i: Input)
    requires Step(c, s, i) && s.fsm.Active? && Order(s) == [] && i.core.None? && (s.lastWr ==> s.got)
    ensures s.flushReq ==> Next(c, s, i).fsm.FlushAll? && Next(c, s, i).idx == 0
    ensures !s.flushReq && s.flushLineReq ==> Next(c, s, i).fsm.FlushLine? && FlushSet(Next(c, s, i)) == i.flushIdx
  {
    assert Held1(s) == if s.got then [s.op] else [];
  }

  predicate Flushing(s: State) { s.fsm.FlushAll? || s.fsm.FlushAllWait? || s.fsm.FlushLine? || s.fsm.FlushLineWait? }

  lemma DoneOther(c: Config, s: State, i: Input, s': State)
    requires Step(c, s, i) && !s.fsm.Active? && OtherEdge(c, s, i, s')
    ensures s'.flushDone <==> Flushing(s) && s'.fsm.Active?
  {
  }

  /** Completion is reported exactly in the cycle that ends a flush. */
  lemma FlushDoneExactly(c: Config, s: State, i: Input)
    requires Step(c, s, i)
    ensures Next(c, s, i).flushDone <==> Flushing(s) && Next(c, s, i).fsm.Active?
  {
    if !s.fsm.Active? {
      OtherEdgeHolds(c, s, i);
      DoneOther(c, s, i, Next(c, s, i));
    }
  }

  /** A line flush works on the set addressed in the cycle in which it starts ... */
  lemma LineFlushStart(c: Config, s: State, i: Input)
    requires Step(c, s, i) && s.fsm.Active? && Next(c, s, i).fsm.FlushLine?
    ensures FlushSet(Next(c, s, i)) == i.flushIdx
  {
  }

  /** ... to its end. */
  lemma LineFlushAddress(c: Config, s: State, i: Input, s': State)
    requires Step(c, s, i) && OtherEdge(c, s, i, s') && (s.fsm.FlushLine? || s.fsm.FlushLineWait?) && !s'.fsm.Active?
    ensures s'.fsm.FlushLineWait? && FlushSet(s') == FlushSet(s)
  {
  }

  /** Progress of a full flush: two per set still to visit, less one while a line is on the bus. */
  function FlushRank(c: Config, s: State): nat {
    if s.idx >= c.sets then 0
    else if s.fsm.FlushAll? then 2 * (c.sets - s.idx)
    else if s.fsm.FlushAllWait? then 2 * (c.sets - s.idx) + 1
    else 0
  }

  /** A full flush advances in every cycle in which it is not waiting for memory, so it ends. */
  lemma FlushAdvances(c: Config, s: State, i: Input)
    requires WellFormed(c) && Inv(c, s) && Protocol(c, s, i) && (s.fsm.FlushAll? || s.fsm.FlushAllWait?)
    ensures var s' := Next(c, s, i);
            && (s'.fsm.FlushAll? || s'.fsm.FlushAllWait? || (s'.fsm.Active? && s'.flushDone))
            && (if s.fsm.FlushAllWait? && i.rsp.None? then FlushRank(c, s') == FlushRank(c, s)
                else FlushRank(c, s') < FlushRank(c, s))
  {
  }
}
