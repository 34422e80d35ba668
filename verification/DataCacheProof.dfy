/**
  Every clock cycle of the data cache keeps the invariant (l1d.sv).
 */
module DataCacheProof {
  import opened MemoryTypes
  import opened DataCache
  import opened DataCacheInvariant

  // ---------------------------------------------------------------- sequences of operations

  lemma {:induction false} StoresConcat(a: seq<Op>, b: seq<Op>)
    ensures Stores(a + b) == Stores(a) + Stores(b)
  {
    if a == [] {
      assert a + b == b;
    } else {
      assert (a + b)[1..] == a[1..] + b;
      StoresConcat(a[1..], b);
    }
  }

  lemma {:induction false} OwedConcat(a: seq<Op>, b: seq<Op>)
    ensures Owed(a + b) == Owed(a) + Owed(b)
  {
    if a == [] {
      assert a + b == b;
    } else {
      assert (a + b)[1..] == a[1..] + b;
      OwedConcat(a[1..], b);
    }
  }

  lemma SeenFirst(c: Config, ws: seq<MemReq>, h: Op, q: seq<Op>)
    ensures SeenOk(c, ws, [h] + q) <==>
            (h.clean ==> h.seen == Replay(c, ws, h.req.la)) && SeenOk(c, ws + StoreOf(h), q)
  {
    assert ([h] + q)[1..] == q;
  }

  lemma StoresFirst(h: Op, q: seq<Op>)
    ensures Stores([h] + q) == StoreOf(h) + Stores(q)
  {
    assert ([h] + q)[1..] == q;
  }

  lemma {:induction false} SeenConcat(c: Config, ws: seq<MemReq>, a: seq<Op>, b: seq<Op>)
    ensures SeenOk(c, ws, a + b) <==> SeenOk(c, ws, a) && SeenOk(c, ws + Stores(a), b)
    decreases |a|
  {
    if a == [] {
      assert a + b == b && ws + Stores(a) == ws;
    } else {
      var h, rest := a[0], a[1..];
      assert a == [h] + rest && a + b == [h] + (rest + b);
      SeenFirst(c, ws, h, rest);
      SeenFirst(c, ws, h, rest + b);
      StoresFirst(h, rest);
      SeenConcat(c, ws + StoreOf(h), rest, b);
      assert ws + StoreOf(h) + Stores(rest) == ws + Stores(a);
    }
  }

  /** The history marks do not change what an operation is or what it saw. */
  ghost predicate SameOps(a: seq<Op>, b: seq<Op>) {
    |a| == |b| && forall k :: 0 <= k < |a| ==>
      a[k].req == b[k].req && a[k].seen == b[k].seen && (b[k].clean ==> a[k].clean)
  }

  lemma {:induction false} SameOpsKeep(c: Config, ws: seq<MemReq>, a: seq<Op>, b: seq<Op>)
    requires SameOps(a, b)
    ensures Stores(a) == Stores(b) && Owed(a) == Owed(b)
    ensures SeenOk(c, ws, a) ==> SeenOk(c, ws, b)
    decreases |a|
  {
    if a != [] {
      SameOpsKeep(c, ws + StoreOf(a[0]), a[1..], b[1..]);
    }
  }

  lemma {:induction false} TaintedSeen(c: Config, ws: seq<MemReq>, q: seq<Op>)
    requires forall k :: 0 <= k < |q| ==> !q[k].clean
    ensures SeenOk(c, ws, q)
    decreases |q|
  {
    if q != [] {
      TaintedSeen(c, ws + StoreOf(q[0]), q[1..]);
    }
  }

  /** Stores to other lines do not change the reference line. */
  lemma {:induction false} ReplaySkip(c: Config, ws: seq<MemReq>, more: seq<MemReq>, la: LineAddr)
    requires forall k :: 0 <= k < |more| ==> more[k].la != la
    ensures Replay(c, ws + more, la) == Replay(c, ws, la)
  {
    if more == [] {
      assert ws + more == ws;
    } else {
      var n := |more| - 1;
      assert (ws + more)[..|ws + more| - 1] == ws + more[..n];
      ReplaySkip(c, ws, more[..n], la);
    }
  }

  lemma ReplayOne(c: Config, ws: seq<MemReq>, w: MemReq, la: LineAddr)
    ensures Replay(c, ws + [w], la) ==
            (if w.la == la then c.merge(w.pay, Replay(c, ws, la)) else Replay(c, ws, la))
  {
    assert (ws + [w])[..|ws|] == ws;
  }

  lemma {:induction false} StoresElsewhere(q: seq<Op>, la: LineAddr)
    requires NoStoreTo(q, la.idx)
    ensures forall k :: 0 <= k < |Stores(q)| ==> Stores(q)[k].la != la
  {
    if q != [] {
      assert NoStoreTo(q[1..], la.idx) by {
        forall k | 0 <= k < |q[1..]| && IsStore(q[1..][k].req)
          ensures q[1..][k].req.la.idx != la.idx
        { assert q[1..][k] == q[k + 1]; }
      }
      StoresElsewhere(q[1..], la);
    }
  }

  // ---------------------------------------------------------------- stages of an ACTIVE cycle

  /** One cycle acts on the waiting operations in stages; each stage keeps this relation between
      the written stores, the log and the operations still waiting, oldest first. */
  ghost predicate Consistent(c: Config, ws: seq<MemReq>, log: seq<MemReq>, q: seq<Op>) {
    log == ws + Stores(q) && SeenOk(c, ws, q)
  }

  /** The oldest operation completes: a store becomes written, a load leaves. */
  lemma FrontDone(c: Config, ws: seq<MemReq>, log: seq<MemReq>, o: Op, q: seq<Op>)
    requires Consistent(c, ws, log, [o] + q)
    ensures Consistent(c, ws + StoreOf(o), log, q)
  {
    assert ([o] + q)[1..] == q;
    assert ws + StoreOf(o) + Stores(q) == ws + (StoreOf(o) + Stores(q));
  }

  /** The youngest operation leaves: if it is a store it is struck from the log. */
  lemma BackGone(c: Config, ws: seq<MemReq>, log: seq<MemReq>, q: seq<Op>, o: Op)
    requires Consistent(c, ws, log, q + [o])
    ensures IsStore(o.req) ==> log != [] && Consistent(c, ws, log[..|log| - 1], q)
    ensures !IsStore(o.req) ==> Consistent(c, ws, log, q)
  {
    StoresConcat(q, [o]);
    SeenConcat(c, ws, q, [o]);
    assert Stores([o]) == StoreOf(o) + Stores([o][1..]) == StoreOf(o);
    if IsStore(o.req) {
      assert log == ws + Stores(q) + [o.req];
      assert log[..|log| - 1] == ws + Stores(q);
    }
  }

  /** The oldest operation is a store that is squashed. */
  lemma FrontDropped(c: Config, ws: seq<MemReq>, log: seq<MemReq>, o: Op, q: seq<Op>)
    requires Consistent(c, ws, log, [o] + q) && IsStore(o.req)
    ensures |ws| < |log| && log[|ws|] == o.req
    ensures Consistent(c, ws, log[..|ws|] + log[|ws| + 1..], Taint(q))
  {
    assert ([o] + q)[1..] == q;
    assert log == ws + ([o.req] + Stores(q));
    assert log[..|ws|] == ws && log[|ws| + 1..] == Stores(q);
    SameOpsKeep(c, ws, q, Taint(q));
    TaintedSeen(c, ws, Taint(q));
  }

  lemma SingleOp(c: Config, ws: seq<MemReq>, o: Op)
    ensures Stores([o]) == StoreOf(o)
    ensures o.seen == Replay(c, ws, o.req.la) ==> SeenOk(c, ws, [o])
  {
    assert [o][1..] == [];
  }

  lemma NewOpSees(c: Config, log: seq<MemReq>, r: MemReq)
    ensures NewOp(c, if IsStore(r) then log + [r] else log, r).seen == Replay(c, log, r.la)
  {
    assert (log + [r])[..|log|] == log;
  }

  /** A new youngest operation that saw the log. */
  lemma BackNew(c: Config, ws: seq<MemReq>, log: seq<MemReq>, q: seq<Op>, r: MemReq)
    requires Consistent(c, ws, log, q)
    ensures var log' := if IsStore(r) then log + [r] else log;
            Consistent(c, ws, log', q + [NewOp(c, log', r)])
  {
    var o := NewOp(c, if IsStore(r) then log + [r] else log, r);
    NewOpSees(c, log, r);
    StoresConcat(q, [o]);
    SeenConcat(c, ws, q, [o]);
    SingleOp(c, ws + Stores(q), o);
    assert ws + Stores(q) + StoreOf(o) == ws + (Stores(q) + StoreOf(o));
  }

  /** History marks on the waiting operations. */
  lemma Relabelled(c: Config, ws: seq<MemReq>, log: seq<MemReq>, q: seq<Op>, q': seq<Op>)
    requires Consistent(c, ws, log, q) && SameOps(q, q')
    ensures Consistent(c, ws, log, q')
  {
    SameOpsKeep(c, ws, q, q');
  }

  /** Port 1: its operation completes (`done`) or stays. */
  lemma FrontStage(c: Config, ws: seq<MemReq>, log: seq<MemReq>, h1: seq<Op>, rest: seq<Op>, done: bool)
    requires Consistent(c, ws, log, h1 + rest) && |h1| <= 1 && (done ==> h1 != [])
    ensures Consistent(c, if done then ws + StoreOf(h1[0]) else ws, log, (if done then [] else h1) + rest)
  {
    if done {
      assert h1 == [h1[0]];
      FrontDone(c, ws, log, h1[0], rest);
      assert [] + rest == rest;
    }
  }

  /** Port 2: its operation enters the queue (`push`) or leaves. */
  lemma BackStage(c: Config, ws: seq<MemReq>, log: seq<MemReq>, q: seq<Op>, h2: seq<Op>, push: bool)
    requires Consistent(c, ws, log, q + h2) && |h2| <= 1
    ensures !push && h2 != [] && IsStore(h2[0].req) ==> log != []
    ensures Consistent(c, ws,
              if !push && h2 != [] && IsStore(h2[0].req) then log[..|log| - 1] else log,
              q + if push then h2 else [])
  {
    if !push {
      assert q + [] == q;
      if h2 != [] {
        assert h2 == [h2[0]];
        BackGone(c, ws, log, q, h2[0]);
      } else {
        assert q + h2 == q;
      }
    }
  }

  /** The queue head stays, moves to port 1, or is squashed. */
  lemma HeadStage(c: Config, ws: seq<MemReq>, log: seq<MemReq>, head: Op, m: seq<Op>, tail: seq<Op>, drop: bool)
    requires Consistent(c, ws, log, m + tail) && m != []
    requires SameOps(m[..1], [head]) && (drop ==> IsStore(head.req))
    ensures !drop ==> Consistent(c, ws, log, [head] + (m[1..] + tail))
    ensures drop ==> |ws| < |log| && log[|ws|] == head.req
                     && Consistent(c, ws, log[..|ws|] + log[|ws| + 1..], Taint(m[1..] + tail))
  {
    var q := [head] + (m[1..] + tail);
    assert SameOps(m + tail, q) by {
      forall k | 0 <= k < |q|
        ensures var a := (m + tail)[k]; a.req == q[k].req && a.seen == q[k].seen && (q[k].clean ==> a.clean)
      {
        if k == 0 { assert m[..1][0] == m[0]; }
      }
    }
    Relabelled(c, ws, log, m + tail, q);
    if drop {
      FrontDropped(c, ws, log, head, m[1..] + tail);
    }
  }

  // ---------------------------------------------------------------- the ACTIVE cycle

  ghost predicate Ready(c: Config, s: State, i: Input) {
    WellFormed(c) && Shape(c, s) && InputShape(c, i) && s.fsm.Active?
  }

  /** What an ACTIVE cycle does to the registers: `s'` takes its fields from the signals. */
  ghost predicate ActiveEdge(c: Config, s: State, i: Input, s': State)
    requires Ready(c, s, i)
  {
    var p, pop, accept := Port1Action(s), PopAction(c, s, i), Accepts(c, s, i);
    var f, fire, la2 := FlushAction(s, accept), pop.Fire?, NextLa2(i, accept);
    && Sized(c, s')
    && s'.ram == NextRam(c, s, i, false) && s'.mq == NextQueue(s, i, pop, Port2Action(c, s, i).push)
    && s'.got == fire && s'.op == (if fire then s.mq[0] else s.op)
    && s'.idx == ActiveRead(s, i, p, pop, f) && s'.tag == (if fire then s.mq[0].req.la.tag else 0)
    && s'.lastWr == (fire && IsStore(s.mq[0].req)) && s'.isRetry == fire && !s'.didReload
    && s'.mustFwd == NextMustFwd(s, pop) && s'.rd == ReadSet(s.ram, s'.idx)
    && s'.rrIdx == s.idx && s'.rrLastWr == s.lastWr
    && s'.got2 == accept && s'.op2 == NextOp2(c, s, i, s'.log, accept) && s'.idx2 == la2.idx && s'.tag2 == la2.tag
    && s'.lastWr2 == (accept && IsStore(s'.op2.req)) && s'.mustFwd2 == (accept && CoreBlocked(s, s'.op2.req))
    && s'.hitBusy2 == Occupies(s.mq, la2.idx) && s'.rd2 == ReadSet(s.ram, la2.idx)
    && s'.wrData == NextWrData(c, s, i)
    && s'.fsm == ActiveFsm(p, f) && s'.lock == ActiveLock(s, p) && s'.inhibit == ActiveInhibit(s, p)
    && s'.issue == (s.issue || p.Evict? || p.Fill? || (p.Stall? && p.evict)) && s'.bus == ActiveBus(s, p)
    && s'.flushReq == ((s.flushReq || i.flush) && !f.StartAll?)
    && s'.flushLineReq == ((s.flushLineReq || i.flushLine) && !f.StartLine?)
    && s'.written == NextWritten(s) && s'.log == NextLog(s, i, pop, accept)
  }

  lemma ActiveEdgeHolds(c: Config, s: State, i: Input)
    requires Ready(c, s, i)
    ensures ActiveEdge(c, s, i, Next(c, s, i))
  {
  }

  /** Port 1 never stalls, never waits for its own write, and writes exactly on a store hit. */
  lemma Port1Facts(c: Config, s: State)
    requires Shape(c, s) && Port1Inv(c, s) && s.fsm.Active?
    ensures var p := Port1Action(s);
            && !p.Stall? && (p.Evict? || p.Fill? ==> !p.wait)
            && (p.Idle? <==> !s.got) && (p.StoreHit? <==> WrArray(s))
            && (s.lock ==> p.Fill?)
            && (p.Evict? ==> !s.lock && s.isRetry)
  {
  }

  lemma MissKeepsAll(c: Config, s: State, i: Input)
    requires Ready(c, s, i) && IsMiss(Port1Action(s))
    ensures PopAction(c, s, i).Keep? && !Accepts(c, s, i)
  {
  }

  /** After an ACTIVE cycle port 1 holds the operation that missed or the one that left the queue. */
  lemma ActiveHeld1(c: Config, s: State, i: Input, s': State)
    requires Ready(c, s, i) && ActiveEdge(c, s, i, s') && Port1Inv(c, s) && !FlushClash(s)
    ensures Held1(s') == (if IsMiss(Port1Action(s)) then [s.op]
                          else if PopAction(c, s, i).Fire? then [s.mq[0]] else [])
  {
    Port1Facts(c, s);
    if IsMiss(Port1Action(s)) {
      MissKeepsAll(c, s, i);
      assert FlushAction(s, false).NoFlush?;
    }
  }

  lemma ActiveHeld2(c: Config, s: State, i: Input, s': State)
    requires Ready(c, s, i) && ActiveEdge(c, s, i, s')
    ensures Held2(s') == (if Accepts(c, s, i) then [NewOp(c, s'.log, i.core.value)] else [])
  {
  }

  /** The log once the operation of port 2 has entered the queue or left. */
  function BackLog(s: State, i: Input): seq<MemReq> {
    if s.got2 && i.drain && IsStore(s.op2.req) && |s.log| > 0 then s.log[..|s.log| - 1] else s.log
  }

  lemma BackLogged(c: Config, s: State, i: Input, front: seq<Op>, push: bool)
    requires Consistent(c, NextWritten(s), s.log, front + Mark(s.mq, i) + Held2(s))
    requires (push ==> s.got2 && !i.drain) && (s.got2 && !push && IsStore(s.op2.req) ==> i.drain)
    ensures Consistent(c, NextWritten(s), BackLog(s, i), front + (Mark(s.mq, i) + if push then [s.op2] else []))
  {
    var m, tail := Mark(s.mq, i), if push then [s.op2] else [];
    BackStage(c, NextWritten(s), s.log, front + m, Held2(s), push);
    assert front + m + tail == front + (m + tail);
  }

  lemma HeadLogged(c: Config, s: State, i: Input, pop: Pop, push: bool)
    requires s.fsm.Active? && s.mq != [] && !pop.Keep? && (pop.Drop? ==> IsStore(s.mq[0].req))
    requires Consistent(c, NextWritten(s), BackLog(s, i), Mark(s.mq, i) + if push then [s.op2] else [])
    ensures var q := (if pop.Fire? then [s.mq[0]] else []) + NextQueue(s, i, pop, push);
            Consistent(c, NextWritten(s), SquashLog(s, i, pop), q)
  {
    var m, tail := Mark(s.mq, i), if push then [s.op2] else [];
    HeadStage(c, NextWritten(s), BackLog(s, i), s.mq[0], m, tail, pop.Drop?);
    assert pop.Drop? ==> [] + Taint(m[1..] + tail) == Taint(m[1..] + tail);
  }

  /** The waiting operations before a new request is accepted, once port 1 is settled. */
  lemma QueueLog(c: Config, s: State, i: Input, front: seq<Op>, pop: Pop, push: bool)
    requires s.fsm.Active? && Consistent(c, NextWritten(s), s.log, front + Mark(s.mq, i) + Held2(s))
    requires !pop.Keep? ==> s.mq != [] && front == []
    requires pop.Drop? ==> IsStore(s.mq[0].req)
    requires (push ==> s.got2) && (s.got2 && !push && IsStore(s.op2.req) ==> i.drain)
    requires i.drain ==> !push
    ensures var q := (if pop.Fire? then [s.mq[0]] else front) + NextQueue(s, i, pop, push);
            Consistent(c, NextWritten(s), SquashLog(s, i, pop), q)
  {
    BackLogged(c, s, i, front, push);
    if !pop.Keep? {
      var m, tail := Mark(s.mq, i), if push then [s.op2] else [];
      assert front + (m + tail) == m + tail;
      HeadLogged(c, s, i, pop, push);
    }
  }

  lemma MarkedSame(h1: seq<Op>, q: seq<Op>, h2: seq<Op>, i: Input)
    ensures SameOps(h1 + q + h2, h1 + (Mark(q, i) + h2))
  {
  }

  lemma MarkedOrder(c: Config, s: State, i: Input)
    requires LogInv(c, s)
    ensures Consistent(c, s.written, s.log, Held1(s) + (Mark(s.mq, i) + Held2(s)))
  {
    MarkedSame(Held1(s), s.mq, Held2(s), i);
    Relabelled(c, s.written, s.log, Order(s), Held1(s) + (Mark(s.mq, i) + Held2(s)));
  }

  /** A load or store hit finishes the operation of port 1, and a store hit writes it. */
  lemma FrontWritten(c: Config, s: State)
    requires Shape(c, s) && s.fsm.Active? && Port1Inv(c, s)
    ensures var p := Port1Action(s);
            var done := p.StoreHit? || p.LoadHit?;
            && (done ==> Held1(s) == [s.op])
            && (if IsMiss(p) then [s.op] else []) == (if done then [] else Held1(s))
            && NextWritten(s) == (if done then s.written + StoreOf(s.op) else s.written)
  {
    Port1Facts(c, s);
    assert Port1Action(s).LoadHit? ==> s.written + StoreOf(s.op) == s.written;
  }

  lemma ActiveFront(c: Config, s: State, i: Input)
    requires Shape(c, s) && s.fsm.Active? && Port1Inv(c, s) && LogInv(c, s)
    ensures Consistent(c, NextWritten(s), s.log,
              (if IsMiss(Port1Action(s)) then [s.op] else []) + Mark(s.mq, i) + Held2(s))
  {
    var p := Port1Action(s);
    var rest := Mark(s.mq, i) + Held2(s);
    var front := if IsMiss(p) then [s.op] else [];
    FrontWritten(c, s);
    MarkedOrder(c, s, i);
    FrontStage(c, s.written, s.log, Held1(s), rest, p.StoreHit? || p.LoadHit?);
    assert front + Mark(s.mq, i) + Held2(s) == front + rest;
  }

  lemma ActiveQueue(c: Config, s: State, i: Input)
    requires Ready(c, s, i) && Port1Inv(c, s) && LogInv(c, s)
    ensures var pop := PopAction(c, s, i);
            Consistent(c, NextWritten(s), SquashLog(s, i, pop),
              (if IsMiss(Port1Action(s)) then [s.op] else if pop.Fire? then [s.mq[0]] else [])
              + NextQueue(s, i, pop, Port2Action(c, s, i).push))
  {
    ActiveFront(c, s, i);
    if IsMiss(Port1Action(s)) { MissKeepsAll(c, s, i); }
    QueueLog(c, s, i, if IsMiss(Port1Action(s)) then [s.op] else [], PopAction(c, s, i), Port2Action(c, s, i).push);
  }

  lemma ActiveLog(c: Config, s: State, i: Input, s': State)
    requires Ready(c, s, i) && ActiveEdge(c, s, i, s') && Port1Inv(c, s) && LogInv(c, s) && !FlushClash(s)
    ensures LogInv(c, s')
  {
    ActiveHeld1(c, s, i, s');
    ActiveQueue(c, s, i);
    ActiveHeld2(c, s, i, s');
    AcceptLog(c, s, i, s', Held1(s') + s'.mq);
  }

  /** The youngest operation joins the waiting ones. */
  lemma AcceptLog(c: Config, s: State, i: Input, s': State, q: seq<Op>)
    requires Ready(c, s, i) && s'.log == NextLog(s, i, PopAction(c, s, i), Accepts(c, s, i)) && q == Held1(s') + s'.mq
    requires Consistent(c, s'.written, SquashLog(s, i, PopAction(c, s, i)), q)
    requires Held2(s') == (if Accepts(c, s, i) then [NewOp(c, s'.log, i.core.value)] else [])
    ensures LogInv(c, s')
  {
    if Accepts(c, s, i) {
      BackNew(c, s'.written, SquashLog(s, i, PopAction(c, s, i)), q, i.core.value);
    } else {
      assert Order(s') == q;
    }
  }

  // ---------------------------------------------------------------- memory

  /** A store writes one line and marks it dirty. */
  lemma WriteMemory(c: Config, r: Ram, r': Ram, ws: seq<MemReq>, w: MemReq)
    requires RamShape(c, r) && RamInv(c, r) && ViewInv(c, r, ws)
    requires w.la.idx < c.sets && r.valid[w.la.idx] && r.tags[w.la.idx] == w.la.tag
    requires r' == r.(data := r.data[w.la.idx := c.merge(w.pay, r.data[w.la.idx])],
                      dirty := r.dirty[w.la.idx := true])
    ensures RamInv(c, r') && ViewInv(c, r', ws + [w])
  {
    forall k | 0 <= k < c.sets ensures SetInv(r', k) { assert SetInv(r, k); }
    forall la: LineAddr | la.idx < c.sets
      ensures View(r', la) == Replay(c, ws + [w], la)
    {
      ReplayOne(c, ws, w, la);
      assert View(r, la) == Replay(c, ws, la);
    }
  }

  /** The response to a write-back stores the line in memory and invalidates its set. */
  lemma WriteBackMemory(c: Config, r: Ram, r': Ram, ws: seq<MemReq>, b: LineAddr, junk: Line)
    requires RamShape(c, r) && RamInv(c, r) && ViewInv(c, r, ws)
    requires b.idx < c.sets && r.valid[b.idx] && r.tags[b.idx] == b.tag
    requires r' == Ram(r.tags[b.idx := b.tag], r.data[b.idx := junk], r.valid[b.idx := false],
                       r.dirty[b.idx := false], r.mem[b := r.data[b.idx]])
    ensures RamInv(c, r') && ViewInv(c, r', ws)
  {
    assert View(r', b) == View(r, b) == Replay(c, ws, b);
    forall k | 0 <= k < c.sets ensures SetInv(r', k) {
      assert SetInv(r, k);
      assert LineAddr(r'.tags[k], k) == b ==> k == b.idx;
    }
    forall la: LineAddr | la.idx < c.sets && la != b
      ensures View(r', la) == Replay(c, ws, la)
    {
      assert View(r, la) == Replay(c, ws, la);
      assert Read(r'.mem, la) == Read(r.mem, la);
    }
  }

  lemma FillView(c: Config, r: Ram, r': Ram, b: LineAddr, la: LineAddr)
    requires RamShape(c, r) && la.idx < c.sets && b.idx < c.sets && SetInv(r, la.idx) && !r.dirty[b.idx]
    requires r' == Ram(r.tags[b.idx := b.tag], r.data[b.idx := Read(r.mem, b)], r.valid[b.idx := true],
                       r.dirty[b.idx := false], r.mem)
    ensures RamShape(c, r') && SetInv(r', la.idx) && View(r', la) == View(r, la)
  {
  }

  /** The response to a read fills a set that holds no dirty line. */
  lemma FillMemory(c: Config, r: Ram, r': Ram, ws: seq<MemReq>, b: LineAddr)
    requires RamShape(c, r) && RamInv(c, r) && ViewInv(c, r, ws)
    requires b.idx < c.sets && !r.dirty[b.idx]
    requires r' == Ram(r.tags[b.idx := b.tag], r.data[b.idx := Read(r.mem, b)], r.valid[b.idx := true],
                       r.dirty[b.idx := false], r.mem)
    ensures RamInv(c, r') && ViewInv(c, r', ws)
  {
    forall k | 0 <= k < c.sets ensures SetInv(r', k) {
      assert SetInv(r, k);
      FillView(c, r, r', b, LineAddr(0, k));
    }
    forall la: LineAddr | la.idx < c.sets ensures View(r', la) == Replay(c, ws, la) {
      assert View(r, la) == Replay(c, ws, la);
      assert SetInv(r, la.idx);
      FillView(c, r, r', b, la);
    }
  }

  /** Dropping a clean line is invisible. */
  lemma InvalidateMemory(c: Config, r: Ram, r': Ram, ws: seq<MemReq>, idx: nat)
    requires RamShape(c, r) && RamInv(c, r) && ViewInv(c, r, ws)
    requires idx < c.sets && !r.dirty[idx]
    requires r' == r.(valid := r.valid[idx := false])
    ensures RamInv(c, r') && ViewInv(c, r', ws)
  {
    forall k | 0 <= k < c.sets ensures SetInv(r', k) { assert SetInv(r, k); }
    forall la: LineAddr | la.idx < c.sets
      ensures View(r', la) == Replay(c, ws, la)
    {
      assert View(r, la) == Replay(c, ws, la);
      assert SetInv(r, la.idx);
    }
  }

  ghost predicate Step(c: Config, s: State, i: Input) {
    WellFormed(c) && Shape(c, s) && InputShape(c, i)
  }

  lemma ActiveMemory(c: Config, s: State, i: Input, s': State)
    requires Ready(c, s, i) && ActiveEdge(c, s, i, s') && BusRule(s, i) && Port1Inv(c, s)
    requires RamInv(c, s.ram) && ViewInv(c, s.ram, s.written)
    ensures RamInv(c, s'.ram) && ViewInv(c, s'.ram, s'.written)
  {
    Port1Facts(c, s);
    if WrArray(s) {
      WriteMemory(c, s.ram, s'.ram, s.written, s.op.req);
    } else {
      assert s'.ram == s.ram;
    }
  }

  /** What a cycle outside ACTIVE does: nothing is accepted, popped, written or squashed. */
  ghost predicate OtherEdge(c: Config, s: State, i: Input, s': State)
    requires Step(c, s, i)
  {
    var again := s.fsm.HandleReload?;
    && Sized(c, s')
    && s'.ram == NextRam(c, s, i, FlushInvalidates(c, s)) && s'.mq == NextQueue(s, i, Keep, false)
    && s'.got == again && s'.op == s.op && s'.idx == OtherRead(c, s) && s'.tag == (if again then s.op.req.la.tag else 0)
    && s'.lastWr == (again && IsStore(s.op.req)) && !s'.isRetry && s'.didReload == again
    && s'.mustFwd == NextMustFwd(s, Keep) && s'.rd == ReadSet(s.ram, s'.idx)
    && s'.rrIdx == s.idx && s'.rrLastWr == s.lastWr
    && !s'.got2 && !s'.lastWr2
    && s'.fsm == OtherFsm(c, s, i) && s'.lock == s.lock && s'.inhibit == OtherInhibit(c, s, i)
    && s'.issue == (s.issue && !(s.fsm.Inject? && i.rsp.Some?)) && s'.bus == OtherBus(c, s)
    && s'.flushReq == (s.flushReq || i.flush) && s'.flushLineReq == (s.flushLineReq || i.flushLine)
    && s'.flushDone == OtherFlushDone(c, s, i)
    && s'.written == NextWritten(s) && s'.log == NextLog(s, i, Keep, false)
  }

  lemma OtherEdgeHolds(c: Config, s: State, i: Input)
    requires Step(c, s, i) && !s.fsm.Active?
    ensures OtherEdge(c, s, i, Next(c, s, i))
  {
  }

  /** The bus answers: a write-back reaches memory, or a line is filled. */
  lemma ResponseMemory(c: Config, s: State, i: Input, s': State)
    requires Step(c, s, i) && OtherEdge(c, s, i, s') && !s.fsm.Active? && BusRule(s, i) && FsmInv(c, s) && i.rsp.Some?
    requires RamInv(c, s.ram) && ViewInv(c, s.ram, s.written)
    ensures RamInv(c, s'.ram) && ViewInv(c, s'.ram, s.written)
  {
    assert !FlushInvalidates(c, s);
    if s.fsm.Inject? && !s.lock {
      FillMemory(c, s.ram, s'.ram, s.written, s.bus.la);
    } else {
      WriteBackMemory(c, s.ram, s'.ram, s.written, s.bus.la, i.rsp.value);
    }
  }

  lemma QuietMemory(c: Config, s: State, i: Input, s': State)
    requires Step(c, s, i) && OtherEdge(c, s, i, s') && FsmInv(c, s) && i.rsp.None? && !WrArray(s)
    requires RamInv(c, s.ram) && ViewInv(c, s.ram, s.written)
    ensures RamInv(c, s'.ram) && ViewInv(c, s'.ram, s.written)
  {
    if FlushInvalidates(c, s) {
      assert s.rd == ReadSet(s.ram, s.idx);
      InvalidateMemory(c, s.ram, s'.ram, s.written, s.idx);
    } else {
      assert s'.ram == s.ram;
    }
  }

  lemma OtherMemory(c: Config, s: State, i: Input, s': State)
    requires Step(c, s, i) && OtherEdge(c, s, i, s') && !s.fsm.Active? && BusRule(s, i) && Port1Inv(c, s) && FsmInv(c, s)
    requires RamInv(c, s.ram) && ViewInv(c, s.ram, s.written)
    ensures RamInv(c, s'.ram) && ViewInv(c, s'.ram, s'.written)
  {
    assert !WrArray(s) && s'.written == s.written;
    if i.rsp.Some? { ResponseMemory(c, s, i, s'); } else { QuietMemory(c, s, i, s'); }
  }

  /** Outside ACTIVE nothing is accepted, popped, written or squashed. */
  lemma OtherParts(c: Config, s: State, i: Input, s': State)
    requires Step(c, s, i) && OtherEdge(c, s, i, s') && !s.fsm.Active? && Port1Inv(c, s)
    ensures s'.mq == Mark(s.mq, i) && s'.written == s.written && s'.log == s.log
  {
    assert Mark(s.mq, i) + [] == Mark(s.mq, i);
  }

  lemma OtherHeld(c: Config, s: State, i: Input, s': State)
    requires Step(c, s, i) && OtherEdge(c, s, i, s') && !s.fsm.Active? && Port1Inv(c, s) && FsmInv(c, s)
    ensures Held1(s') == Held1(s)
  {
  }

  lemma OtherLog(c: Config, s: State, i: Input, s': State)
    requires Step(c, s, i) && OtherEdge(c, s, i, s') && !s.fsm.Active?
    requires Port1Inv(c, s) && Port2Inv(c, s) && FsmInv(c, s) && LogInv(c, s)
    ensures LogInv(c, s')
  {
    OtherParts(c, s, i, s');
    OtherHeld(c, s, i, s');
    MarkedOrder(c, s, i);
    assert Order(s') == Held1(s) + (Mark(s.mq, i) + Held2(s));
  }

  // ---------------------------------------------------------------- pipeline registers

  lemma ActivePort1(c: Config, s: State, i: Input, s': State)
    requires Ready(c, s, i) && ActiveEdge(c, s, i, s') && BusRule(s, i) && Port1Inv(c, s) && !FlushClash(s)
    ensures Port1Inv(c, s')
  {
    var pop := PopAction(c, s, i);
    Port1Facts(c, s);
    if pop.Fire? {
      assert FlushAction(s, Accepts(c, s, i)).NoFlush?;
      assert ReadSet(s'.ram, s'.idx) == ReadSet(s.ram, s'.idx);
    }
  }

  lemma OtherPort1(c: Config, s: State, i: Input, s': State)
    requires Step(c, s, i) && OtherEdge(c, s, i, s') && !s.fsm.Active? && BusRule(s, i) && Port1Inv(c, s) && FsmInv(c, s)
    ensures Port1Inv(c, s')
  {
    if s.fsm.HandleReload? {
      assert s'.ram == s.ram;
    }
  }

  lemma ActivePort2(c: Config, s: State, i: Input, s': State)
    requires Ready(c, s, i) && ActiveEdge(c, s, i, s') && BusRule(s, i) && Port1Inv(c, s)
    ensures Port2Inv(c, s')
  {
    Port1Facts(c, s);
    if Accepts(c, s, i) { assert s'.fsm.Active?; }
  }

  lemma OtherPort2(c: Config, s: State, i: Input, s': State)
    requires Step(c, s, i) && OtherEdge(c, s, i, s')
    ensures Port2Inv(c, s') && BypassInv(c, s')
  {
  }

  /** What the queue holds after a cycle was there before, or is the request pushed from port 2. */
  lemma QueueOrigin(s: State, i: Input, pop: Pop, push: bool, k: nat)
    requires (!pop.Keep? ==> s.mq != []) && k < |NextQueue(s, i, pop, push)|
    ensures var r := NextQueue(s, i, pop, push)[k].req;
            var skip := if pop.Keep? then 0 else 1;
            if k + skip < |s.mq| then r == s.mq[k + skip].req else push && r == s.op2.req
  {
  }

  lemma NoStoreAfter(s: State, i: Input, pop: Pop, push: bool, idx: nat)
    requires (!pop.Keep? ==> s.mq != []) && !Occupies(s.mq, idx)
    requires push && IsStore(s.op2.req) ==> s.op2.req.la.idx != idx
    ensures NoStoreTo(NextQueue(s, i, pop, push), idx)
  {
    var q := NextQueue(s, i, pop, push);
    forall k | 0 <= k < |q| && IsStore(q[k].req) ensures q[k].req.la.idx != idx {
      QueueOrigin(s, i, pop, push, k);
    }
  }

  /** A request is accepted only if its slot is free and port 1 will not answer a load meanwhile. */
  lemma AcceptLeavesRoom(c: Config, s: State, i: Input, s': State)
    requires Ready(c, s, i) && ActiveEdge(c, s, i, s') && Accepts(c, s, i)
    ensures s'.fsm.Active? && |s'.mq| < c.mrq && (s'.got ==> IsStore(s'.op.req))
  {
  }

  lemma BypassFrom(c: Config, s: State)
    requires s.got2 ==> s.fsm.Active? && |s.mq| < c.mrq && (s.got ==> IsStore(s.op.req))
    requires s.got2 && !IsStore(s.op2.req) && !s.hitBusy2 ==>
               NoStoreTo(s.mq, s.idx2) && (s.got ==> s.op.req.la.idx != s.idx2)
    ensures BypassInv(c, s)
  {
  }

  lemma ActiveBypass(c: Config, s: State, i: Input, s': State)
    requires Ready(c, s, i) && ActiveEdge(c, s, i, s') && Port1Inv(c, s) && Port2Inv(c, s)
    ensures BypassInv(c, s')
  {
    if s'.got2 {
      AcceptLeavesRoom(c, s, i, s');
      if !IsStore(s'.op2.req) && !s'.hitBusy2 { AcceptedLoadAlone(c, s, i, s'); }
    }
    BypassFrom(c, s');
  }

  /** A load accepted past an unoccupied set meets no waiting store of that set. */
  lemma AcceptedLoadAlone(c: Config, s: State, i: Input, s': State)
    requires Ready(c, s, i) && ActiveEdge(c, s, i, s') && Port2Inv(c, s) && Accepts(c, s, i)
    requires !IsStore(i.core.value) && !Occupies(s.mq, i.core.value.la.idx)
    ensures NoStoreTo(s'.mq, i.core.value.la.idx) && (s'.got ==> s'.op.req.la.idx != i.core.value.la.idx)
  {
    NoStoreAfter(s, i, PopAction(c, s, i), Port2Action(c, s, i).push, i.core.value.la.idx);
  }

  lemma MissFsmInv(c: Config, s: State, i: Input, s': State)
    requires Ready(c, s, i) && ActiveEdge(c, s, i, s') && BusRule(s, i) && Port1Inv(c, s) && FsmInv(c, s)
    requires !FlushClash(s) && RamInv(c, s.ram) && IsMiss(Port1Action(s))
    ensures FsmInv(c, s')
  {
    Port1Facts(c, s);
    MissKeepsAll(c, s, i);
    assert FlushAction(s, false).NoFlush? && s'.ram == s.ram;
    assert SetInv(s.ram, s.idx);
  }

  lemma ActiveFsmInv(c: Config, s: State, i: Input, s': State)
    requires Ready(c, s, i) && ActiveEdge(c, s, i, s') && BusRule(s, i) && Port1Inv(c, s) && FsmInv(c, s)
    requires !FlushClash(s) && RamInv(c, s.ram)
    ensures FsmInv(c, s')
  {
    if IsMiss(Port1Action(s)) {
      MissFsmInv(c, s, i, s');
    } else {
      Port1Facts(c, s);
      if !FlushAction(s, Accepts(c, s, i)).NoFlush? { assert s'.ram == s.ram && !s.lock; }
    }
  }

  lemma ReloadFsmInv(c: Config, s: State, i: Input, s': State)
    requires Step(c, s, i) && OtherEdge(c, s, i, s') && (s.fsm.Inject? || s.fsm.HandleReload?) && BusRule(s, i)
    requires Port1Inv(c, s) && FsmInv(c, s)
    ensures FsmInv(c, s')
  {
  }

  lemma FlushLineFsmInv(c: Config, s: State, i: Input, s': State)
    requires Step(c, s, i) && OtherEdge(c, s, i, s') && (s.fsm.FlushLine? || s.fsm.FlushLineWait?) && BusRule(s, i)
    requires Port1Inv(c, s) && FsmInv(c, s) && RamInv(c, s.ram)
    ensures FsmInv(c, s')
  {
    assert SetInv(s.ram, s.idx);
  }

  lemma FlushAllFsmInv(c: Config, s: State, i: Input, s': State)
    requires Step(c, s, i) && OtherEdge(c, s, i, s') && s.fsm.FlushAll? && BusRule(s, i)
    requires Port1Inv(c, s) && FsmInv(c, s) && RamInv(c, s.ram)
    ensures FsmInv(c, s')
  {
    assert SetInv(s.ram, s.idx);
    if s.idx + 1 != c.sets {
      assert s'.idx == s.idx + 1;
      assert ReadSet(s'.ram, s'.idx) == ReadSet(s.ram, s'.idx);
    }
  }

  lemma FlushAllWaitFsmInv(c: Config, s: State, i: Input, s': State)
    requires Step(c, s, i) && OtherEdge(c, s, i, s') && s.fsm.FlushAllWait? && BusRule(s, i)
    requires Port1Inv(c, s) && FsmInv(c, s)
    ensures FsmInv(c, s')
  {
    assert ReadSet(s'.ram, s.idx) == ReadSet(s.ram, s.idx);
  }

  // ---------------------------------------------------------------- shape, graduation, counting

  lemma NextShape(c: Config, s: State, i: Input)
    requires Step(c, s, i) && Port2Inv(c, s) && BypassInv(c, s)
    ensures Shape(c, Next(c, s, i))
  {
    var s' := Next(c, s, i);
    var k := Comb(c, s, i);
    assert s'.mq == NextQueue(s, i, k.pop, k.push);
    forall j | 0 <= j < |s'.mq|
      ensures OpShape(c, s'.mq[j])
    {
      QueueOrigin(s, i, k.pop, k.push, j);
    }
  }

  lemma NextNoMoves(c: Config, s: State, i: Input)
    requires Step(c, s, i) && NoMoves(s.mq)
    ensures NoMoves(Next(c, s, i).mq)
  {
    var s' := Next(c, s, i);
    var k := Comb(c, s, i);
    assert s'.mq == NextQueue(s, i, k.pop, k.push);
    forall j | 0 <= j < |s'.mq|
      ensures !IsMoveOp(s'.mq[j].req.pay.op)
    {
      QueueOrigin(s, i, k.pop, k.push, j);
    }
  }

  /** A waiting store keeps its graduation entry unless it is the one written or squashed;
      retirement is recorded. */
  lemma KeepsEntry(c: Config, s: State, i: Input, k: Ctl, o: Op, o': Op)
    requires Shape(c, s) && InputShape(c, i) && CtlShape(c, s, i, k)
    requires OpShape(c, o) && Owns(s.grad, o) && IsStore(o.req)
    requires o'.req == o.req && o'.retired == MarkOne(o, i).retired
    requires k.pop.Drop? ==> o.req.rob != s.mq[0].req.rob
    requires s.fsm.Active? && Port1Action(s).StoreHit? ==> o.req.rob != s.op.req.rob
    requires k.push && IsStore(s.op2.req) ==> s.grad[s.op2.req.rob].Free?
    ensures Owns(NextGrad(s, i, k), o')
  {
  }

  lemma Apart(a: seq<Op>, b: seq<Op>, j: nat, k: nat)
    requires DistinctRobs(a + b) && j < k < |b| && IsStore(b[j].req) && IsStore(b[k].req)
    ensures b[j].req.rob != b[k].req.rob
  {
    assert (a + b)[|a| + j] == b[j] && (a + b)[|a| + k] == b[k];
  }

  lemma HeldApart(s: State, k: nat)
    requires DistinctRobs(Held1(s) + s.mq) && Held1(s) != [] && k < |s.mq|
    requires IsStore(s.op.req) && IsStore(s.mq[k].req)
    ensures s.op.req.rob != s.mq[k].req.rob
  {
    assert (Held1(s) + s.mq)[0] == s.op && (Held1(s) + s.mq)[1 + k] == s.mq[k];
  }

  /** A store that stays in the queue keeps its entry. */
  lemma StaysOwned(c: Config, s: State, i: Input, k: Ctl, n: nat, o': Op)
    requires Shape(c, s) && InputShape(c, i) && CtlShape(c, s, i, k) && GradInv(c, s)
    requires (k.pop.Drop? ==> IsStore(s.mq[0].req)) && (k.push ==> s.got2 && !k.pop.Drop?)
    requires n < |s.mq| && (!k.pop.Keep? ==> n > 0) && o'.req == s.mq[n].req && IsStore(o'.req)
    requires o'.retired == MarkOne(s.mq[n], i).retired
    ensures Owns(NextGrad(s, i, k), o')
  {
    assert Owns(s.grad, s.mq[n]);
    if k.pop.Drop? { Apart(Held1(s), s.mq, 0, n); }
    if s.fsm.Active? && Port1Action(s).StoreHit? { HeldApart(s, n); }
    KeepsEntry(c, s, i, k, s.mq[n], o');
  }

  lemma QueueOwns(c: Config, s: State, i: Input, k: Ctl, j: nat)
    requires Shape(c, s) && InputShape(c, i) && CtlShape(c, s, i, k) && GradInv(c, s)
    requires (k.pop.Drop? ==> IsStore(s.mq[0].req)) && (k.push ==> s.got2 && !k.pop.Drop?)
    requires j < |NextQueue(s, i, k.pop, k.push)|
    ensures Owns(NextGrad(s, i, k), NextQueue(s, i, k.pop, k.push)[j])
  {
    var o' := NextQueue(s, i, k.pop, k.push)[j];
    var n := if k.pop.Keep? then j else j + 1;
    QueueOrigin(s, i, k.pop, k.push, j);
    if IsStore(o'.req) {
      if n < |s.mq| {
        StaysOwned(c, s, i, k, n, o');
      } else if s.fsm.Active? && Port1Action(s).StoreHit? {
        assert Owns(s.grad, s.op);
      }
    }
  }

  /** The signals of one cycle that concern stores. */
  lemma CtlFacts(c: Config, s: State, i: Input)
    requires Step(c, s, i)
    ensures var k := Comb(c, s, i);
            && (k.pop.Drop? ==> s.fsm.Active? && IsStore(s.mq[0].req) && !s.grad[s.mq[0].req.rob].Retired?
                                && i.drain && s.mq[0].req.rob in i.dead)
            && (k.pop.Fire? ==> s.fsm.Active? && (IsStore(s.mq[0].req) ==> s.grad[s.mq[0].req.rob].Retired?))
            && (k.push ==> s.got2 && !i.drain)
            && (k.accept ==> s.fsm.Active? && s.grad[i.core.value.rob].Free?)
  {
  }

  /** Port 1 after a cycle holds the operation it held, or the one that left the queue. */
  lemma NextHeld1(c: Config, s: State, i: Input)
    requires Step(c, s, i) && Port1Inv(c, s) && FsmInv(c, s) && !FlushClash(s)
    ensures var h := Held1(Next(c, s, i));
            var k := Comb(c, s, i);
            if k.pop.Fire? then h == [s.mq[0]]
            else if s.fsm.Active? && !IsMiss(Port1Action(s)) then h == []
            else h == Held1(s) && (s.fsm.Active? ==> k.pop.Keep?)
  {
    if s.fsm.Active? {
      ActiveEdgeHolds(c, s, i);
      ActiveHeld1(c, s, i, Next(c, s, i));
      if IsMiss(Port1Action(s)) { MissKeepsAll(c, s, i); }
    } else {
      OtherEdgeHolds(c, s, i);
      OtherHeld(c, s, i, Next(c, s, i));
    }
  }

  lemma NextHeldOwns(c: Config, s: State, i: Input, k: Ctl, o: Op)
    requires Shape(c, s) && InputShape(c, i) && CtlShape(c, s, i, k) && GradInv(c, s)
    requires k.push ==> s.got2
    requires if k.pop.Fire? then o == s.mq[0] && (IsStore(o.req) ==> s.grad[o.req.rob].Retired?)
             else o == s.op && Held1(s) != [] && k.pop.Keep? && !(s.fsm.Active? && Port1Action(s).StoreHit?)
    ensures Owns(NextGrad(s, i, k), o) && (IsStore(o.req) ==> o.retired)
  {
    if IsStore(o.req) {
      if k.pop.Fire? {
        assert Owns(s.grad, s.mq[0]);
        if s.fsm.Active? && Port1Action(s).StoreHit? { HeldApart(s, 0); }
      }
      KeepsEntry(c, s, i, k, o, o);
    }
  }

  /** `q'` drops the first `d` operations of `q` and appends `o` if `push`. */
  ghost predicate Shifted(q: seq<Op>, q': seq<Op>, d: nat, push: bool, o: Op) {
    forall k :: 0 <= k < |q'| ==> ShiftedAt(q, q'[k].req, k + d, push, o)
  }
  ghost predicate ShiftedAt(q: seq<Op>, r: MemReq, k: nat, push: bool, o: Op) {
    if k < |q| then r == q[k].req else push && k == |q| && r == o.req
  }

  lemma ShiftedDistinct(q: seq<Op>, q': seq<Op>, d: nat, push: bool, o: Op)
    requires DistinctRobs(q) && Shifted(q, q', d, push, o)
    requires push && IsStore(o.req) ==> forall k :: 0 <= k < |q| && IsStore(q[k].req) ==> q[k].req.rob != o.req.rob
    ensures DistinctRobs(q')
  {
    forall j, k | 0 <= j < k < |q'| && IsStore(q'[j].req) && IsStore(q'[k].req)
      ensures q'[j].req.rob != q'[k].req.rob
    {
      assert ShiftedAt(q, q'[j].req, j + d, push, o) && ShiftedAt(q, q'[k].req, k + d, push, o);
    }
  }

  lemma QueueReqAt(s: State, i: Input, pop: Pop, push: bool, j: nat)
    requires (!pop.Keep? ==> s.mq != []) && j < |NextQueue(s, i, pop, push)|
    ensures ShiftedAt(s.mq, NextQueue(s, i, pop, push)[j].req, j + (if pop.Keep? then 0 else 1), push, s.op2)
  {
    QueueOrigin(s, i, pop, push, j);
    QueueLength(s, i, pop, push);
  }

  lemma QueueLength(s: State, i: Input, pop: Pop, push: bool)
    requires !pop.Keep? ==> s.mq != []
    ensures |NextQueue(s, i, pop, push)| == |s.mq| - (if pop.Keep? then 0 else 1) + (if push then 1 else 0)
  {
  }

  lemma FireReqs(q: seq<Op>, rest: seq<Op>, push: bool, o: Op)
    requires q != [] && forall j :: 0 <= j < |rest| ==> ShiftedAt(q, rest[j].req, j + 1, push, o)
    ensures Shifted(q, [q[0]] + rest, 0, push, o)
  {
    var all := [q[0]] + rest;
    forall j | 0 <= j < |all| ensures ShiftedAt(q, all[j].req, j + 0, push, o) {
      if j > 0 { assert all[j] == rest[j - 1] && ShiftedAt(q, rest[j - 1].req, j - 1 + 1, push, o); }
    }
  }

  /** The queue after a cycle, with the popped head still in front of it. */
  lemma QueueReqs(s: State, i: Input, pop: Pop, push: bool)
    requires !pop.Keep? ==> s.mq != []
    ensures var h := if pop.Fire? then [s.mq[0]] else [];
            Shifted(s.mq, h + NextQueue(s, i, pop, push), if pop.Drop? then 1 else 0, push, s.op2)
  {
    var q := NextQueue(s, i, pop, push);
    forall j | 0 <= j < |q| ensures ShiftedAt(s.mq, q[j].req, j + (if pop.Keep? then 0 else 1), push, s.op2) {
      QueueReqAt(s, i, pop, push, j);
    }
    if pop.Fire? {
      FireReqs(s.mq, q, push, s.op2);
    } else {
      assert [] + q == q;
    }
  }

  /** A prefix that stays in front, or leaves altogether. */
  lemma ShiftedStays(h: seq<Op>, q: seq<Op>, q': seq<Op>, push: bool, o: Op)
    requires Shifted(q, q', 0, push, o)
    ensures Shifted(h + q, h + q', 0, push, o)
  {
    forall k | 0 <= k < |h + q'| ensures ShiftedAt(h + q, (h + q')[k].req, k + 0, push, o) {
      if k >= |h| { assert ShiftedAt(q, q'[k - |h|].req, k - |h| + 0, push, o); }
    }
  }

  lemma ShiftedLeaves(h: seq<Op>, q: seq<Op>, q': seq<Op>, d: nat, push: bool, o: Op)
    requires Shifted(q, q', d, push, o)
    ensures Shifted(h + q, q', |h| + d, push, o)
  {
    forall k | 0 <= k < |q'| ensures ShiftedAt(h + q, q'[k].req, k + (|h| + d), push, o) {
      assert ShiftedAt(q, q'[k].req, k + d, push, o);
    }
  }

  lemma DoneShift(s: State, i: Input, pop: Pop, push: bool, h: seq<Op>)
    requires (!pop.Keep? ==> s.mq != []) && h == (if pop.Fire? then [s.mq[0]] else [])
    ensures Shifted(Held1(s) + s.mq, h + NextQueue(s, i, pop, push), |Held1(s)| + (if pop.Drop? then 1 else 0), push, s.op2)
  {
    QueueReqs(s, i, pop, push);
    ShiftedLeaves(Held1(s), s.mq, h + NextQueue(s, i, pop, push), if pop.Drop? then 1 else 0, push, s.op2);
  }

  lemma StayShift(s: State, i: Input, push: bool)
    ensures Shifted(Held1(s) + s.mq, Held1(s) + NextQueue(s, i, Keep, push), 0, push, s.op2)
  {
    var q := NextQueue(s, i, Keep, push);
    QueueReqs(s, i, Keep, push);
    assert [] + q == q;
    ShiftedStays(Held1(s), s.mq, q, push, s.op2);
  }

  /** How the operations of port 1 and the queue shift in one cycle: port 1 is `done` with its
      operation or keeps it. */
  lemma QueueShift(s: State, i: Input, pop: Pop, push: bool, h: seq<Op>, done: bool)
    requires !pop.Keep? ==> s.mq != [] && done
    requires h == (if pop.Fire? then [s.mq[0]] else if done then [] else Held1(s))
    ensures var d := (if done then |Held1(s)| else 0) + (if pop.Drop? then 1 else 0);
            Shifted(Held1(s) + s.mq, h + NextQueue(s, i, pop, push), d, push, s.op2)
  {
    if done { DoneShift(s, i, pop, push, h); } else { StayShift(s, i, push); }
  }

  lemma NextOwns(c: Config, s: State, i: Input)
    requires Step(c, s, i) && GradInv(c, s)
    ensures forall j :: 0 <= j < |Next(c, s, i).mq| ==> Owns(Next(c, s, i).grad, Next(c, s, i).mq[j])
  {
    var s' := Next(c, s, i);
    var k := Comb(c, s, i);
    CtlFacts(c, s, i);
    assert s'.mq == NextQueue(s, i, k.pop, k.push) && s'.grad == NextGrad(s, i, k);
    forall j | 0 <= j < |s'.mq| ensures Owns(s'.grad, s'.mq[j]) {
      QueueOwns(c, s, i, k, j);
    }
  }

  /** A free graduation entry stays free unless the store on port 2 takes it. */
  lemma FreeStays(s: State, i: Input, k: Ctl, r: nat)
    requires r < |s.grad| && s.grad[r].Free? && (k.pop.Drop? ==> s.mq != [])
    requires k.push && IsStore(s.op2.req) ==> r != s.op2.req.rob
    ensures NextGrad(s, i, k)[r].Free?
  {
  }

  lemma AcceptFacts(c: Config, s: State, i: Input)
    requires Step(c, s, i)
    ensures var s', k := Next(c, s, i), Comb(c, s, i);
            && s'.got2 == k.accept && s'.grad == NextGrad(s, i, k)
            && (k.accept ==> s'.op2.req == i.core.value && !s'.op2.retired)
  {
  }

  /** A store that enters port 2 finds its graduation entry free after the cycle. */
  lemma NextPort2Free(c: Config, s: State, i: Input)
    requires Step(c, s, i) && CoreRule(s, i)
    ensures var s' := Next(c, s, i);
            s'.got2 ==> !s'.op2.retired && (IsStore(s'.op2.req) ==> s'.grad[s'.op2.req.rob].Free?)
  {
    AcceptFacts(c, s, i);
    CtlFacts(c, s, i);
    if Comb(c, s, i).accept { FreeStays(s, i, Comb(c, s, i), i.core.value.rob); }
  }

  lemma NextGradInv(c: Config, s: State, i: Input)
    requires Step(c, s, i) && CoreRule(s, i) && Port1Inv(c, s) && FsmInv(c, s) && GradInv(c, s) && !FlushClash(s)
    ensures GradInv(c, Next(c, s, i))
  {
    var s' := Next(c, s, i);
    var k := Comb(c, s, i);
    assert s'.grad == NextGrad(s, i, k);
    NextPort2Free(c, s, i);
    NextOwns(c, s, i);
    NextDistinct(c, s, i);
    NextHeld1(c, s, i);
    CtlFacts(c, s, i);
    if Held1(s') != [] { NextHeldOwns(c, s, i, k, s'.op); }
  }

  /** A store on port 2 shares its ROB index with no waiting store. */
  lemma Port2Apart(c: Config, s: State, j: nat)
    requires Sized(c, s) && GradInv(c, s) && s.got2 && IsStore(s.op2.req)
    requires j < |Held1(s) + s.mq| && IsStore((Held1(s) + s.mq)[j].req)
    ensures (Held1(s) + s.mq)[j].req.rob != s.op2.req.rob
  {
    var q := Held1(s) + s.mq;
    if j < |Held1(s)| { assert q[j] == s.op; } else { assert q[j] == s.mq[j - |Held1(s)|]; }
    assert Owns(s.grad, q[j]);
  }

  lemma DistinctAfter(c: Config, s: State, i: Input, pop: Pop, push: bool, h: seq<Op>, done: bool)
    requires Sized(c, s) && GradInv(c, s) && (push ==> s.got2) && (!pop.Keep? ==> s.mq != [] && done)
    requires h == (if pop.Fire? then [s.mq[0]] else if done then [] else Held1(s))
    ensures DistinctRobs(h + NextQueue(s, i, pop, push))
  {
    var q := Held1(s) + s.mq;
    QueueShift(s, i, pop, push, h, done);
    if push && IsStore(s.op2.req) {
      forall j | 0 <= j < |q| && IsStore(q[j].req) ensures q[j].req.rob != s.op2.req.rob {
        Port2Apart(c, s, j);
      }
    }
    var d := (if done then |Held1(s)| else 0) + (if pop.Drop? then 1 else 0);
    ShiftedDistinct(q, h + NextQueue(s, i, pop, push), d, push, s.op2);
  }

  lemma NextDistinct(c: Config, s: State, i: Input)
    requires Step(c, s, i) && Port1Inv(c, s) && FsmInv(c, s) && GradInv(c, s) && !FlushClash(s)
    ensures DistinctRobs(Held1(Next(c, s, i)) + Next(c, s, i).mq)
  {
    var k := Comb(c, s, i);
    NextHeld1(c, s, i);
    CtlFacts(c, s, i);
    DistinctAfter(c, s, i, k.pop, k.push, Held1(Next(c, s, i)), s.fsm.Active? && !IsMiss(Port1Action(s)));
  }

  lemma {:induction false} OwedBound(q: seq<Op>)
    ensures |Owed(q)| <= |q|
  {
    if q != [] { OwedBound(q[1..]); }
  }

  lemma OwedSingle(o: Op)
    ensures Owed([o]) == OwedOne(o)
  {
    assert Owed([o]) == OwedOne(o) + Owed([o][1..]);
  }

  lemma NextSameOps(s: State, i: Input, pop: Pop, push: bool)
    requires !pop.Keep? ==> s.mq != []
    ensures SameOps((if pop.Keep? then s.mq else s.mq[1..]) + (if push then [s.op2] else []), NextQueue(s, i, pop, push))
  {
  }

  lemma OwedNext(c: Config, s: State, i: Input, pop: Pop, push: bool)
    requires !pop.Keep? ==> s.mq != []
    ensures var rest := if pop.Keep? then s.mq else s.mq[1..];
            Owed(NextQueue(s, i, pop, push)) == Owed(rest) + (if push then OwedOne(s.op2) else multiset{})
  {
    var rest := if pop.Keep? then s.mq else s.mq[1..];
    var tail := if push then [s.op2] else [];
    NextSameOps(s, i, pop, push);
    SameOpsKeep(c, [], rest + tail, NextQueue(s, i, pop, push));
    OwedConcat(rest, tail);
    OwedSingle(s.op2);
  }

  /** What leaves the queue plus what stays is what was there plus what entered. */
  lemma OwedQueue(c: Config, s: State, i: Input, pop: Pop, push: bool)
    requires !pop.Keep? ==> s.mq != []
    ensures (if pop.Keep? then multiset{} else OwedOne(s.mq[0])) + Owed(NextQueue(s, i, pop, push))
            == Owed(s.mq) + (if push then OwedOne(s.op2) else multiset{})
  {
    OwedNext(c, s, i, pop, push);
  }

  /** Requests that move between the stages of a cycle are neither lost nor repeated. */
  lemma Balance<T>(h1: multiset<T>, q: multiset<T>, h2: multiset<T>, h1': multiset<T>, q': multiset<T>,
                   h2': multiset<T>, head: multiset<T>, push: multiset<T>, rsp1: multiset<T>, rsp2: multiset<T>)
    requires head + q' == q + push && push + rsp2 == h2 && h1' + rsp1 == h1 + head
    ensures h1' + q' + h2' + (rsp1 + rsp2) == h1 + q + h2 + h2'
  {
    forall x: T ensures (h1' + q' + h2' + (rsp1 + rsp2))[x] == (h1 + q + h2 + h2')[x] {
      assert (head + q')[x] == (q + push)[x];
      assert (push + rsp2)[x] == h2[x];
      assert (h1' + rsp1)[x] == (h1 + head)[x];
    }
  }

  lemma CardBalance<T>(a: multiset<T>, b: multiset<T>, x: multiset<T>, y: multiset<T>)
    requires a + b == x + y
    ensures |a| + |b| == |x| + |y|
  {
    assert |a + b| == |a| + |b| && |x + y| == |x| + |y|;
  }

  /** The request that a cycle answers, and the one that it accepts. */
  function Answered(k: Ctl): multiset<Ticket> {
    RspTicket(k.rsp)
  }
  function RspTicket(r: Option<Rsp>): multiset<Ticket> {
    if r.Some? then multiset{TicketOf(r.value.op)} else multiset{}
  }
  function Taken(s': State): multiset<Ticket> {
    if s'.got2 then multiset{TicketOf(s'.op2)} else multiset{}
  }

  lemma OtherOutstanding(c: Config, s: State, i: Input, s': State)
    requires Step(c, s, i) && OtherEdge(c, s, i, s') && !s.fsm.Active? && Port1Inv(c, s) && Port2Inv(c, s) && FsmInv(c, s)
    ensures Outstanding(s') == Outstanding(s)
  {
    OtherParts(c, s, i, s');
    OtherHeld(c, s, i, s');
    SameOpsKeep(c, [], s.mq, Mark(s.mq, i));
  }

  /** Port 2 answers, pushes, or answers and pushes a store, for which nothing more is owed. */
  lemma Port2Cases(c: Config, s: State, i: Input)
    ensures var p2 := Port2Action(c, s, i);
            && (!s.got2 ==> !p2.push && p2.rsp.None?)
            && (s.got2 ==> p2.push || p2.rsp.Some?) && (p2.rsp.Some? ==> p2.rsp.value.op == s.op2)
            && (p2.push ==> (p2.rsp.Some? <==> IsStore(s.op2.req)))
  {
  }

  lemma OwedParts(o: Op, got: bool, push: bool, rsp: Option<Rsp>)
    requires (!got ==> !push && rsp.None?) && (got ==> push || rsp.Some?) && (rsp.Some? ==> rsp.value.op == o)
    requires push ==> (rsp.Some? <==> IsStore(o.req))
    ensures (if push then OwedOne(o) else multiset{}) + RspTicket(rsp) == (if got then multiset{TicketOf(o)} else multiset{})
  {
  }

  lemma Port2Owed(c: Config, s: State, i: Input)
    ensures var p2 := Port2Action(c, s, i);
            (if p2.push then OwedOne(s.op2) else multiset{}) + RspTicket(p2.rsp)
            == (if s.got2 then multiset{TicketOf(s.op2)} else multiset{})
  {
    Port2Cases(c, s, i);
    OwedParts(s.op2, s.got2, Port2Action(c, s, i).push, Port2Action(c, s, i).rsp);
  }

  /** Port 1 takes over the popped head and answers a load that hits. */
  lemma Port1Owed(c: Config, s: State, i: Input, h: seq<Op>)
    requires Ready(c, s, i) && Port1Inv(c, s)
    requires h == (if IsMiss(Port1Action(s)) then [s.op] else if PopAction(c, s, i).Fire? then [s.mq[0]] else [])
    ensures Owed(h) + (if Port1Action(s).LoadHit? then multiset{TicketOf(s.op)} else multiset{})
            == Owed(Held1(s)) + (if PopAction(c, s, i).Keep? then multiset{} else OwedOne(s.mq[0]))
  {
    Port1Facts(c, s);
    OwedSingle(s.op);
    if IsMiss(Port1Action(s)) {
      MissKeepsAll(c, s, i);
      assert h == Held1(s);
    } else {
      assert Owed(Held1(s)) == if Port1Action(s).LoadHit? then multiset{TicketOf(s.op)} else multiset{};
      HeadOwed(c, s, i, h);
    }
  }

  lemma HeadOwed(c: Config, s: State, i: Input, h: seq<Op>)
    requires Ready(c, s, i) && h == (if PopAction(c, s, i).Fire? then [s.mq[0]] else [])
    ensures Owed(h) == (if PopAction(c, s, i).Keep? then multiset{} else OwedOne(s.mq[0]))
  {
    if s.mq != [] { OwedSingle(s.mq[0]); }
  }

  /** A cycle moves requests from accepted to outstanding and from outstanding to answered,
      never losing or repeating one. */
  lemma ActiveOutstanding(c: Config, s: State, i: Input, s': State)
    requires Ready(c, s, i) && ActiveEdge(c, s, i, s') && Port1Inv(c, s) && !FlushClash(s)
    ensures var p2, rsp1 := Port2Action(c, s, i), if Port1Action(s).LoadHit? then multiset{TicketOf(s.op)} else multiset{};
            Outstanding(s') + (rsp1 + RspTicket(p2.rsp)) == Outstanding(s) + Taken(s')
  {
    var pop, p2, p := PopAction(c, s, i), Port2Action(c, s, i), Port1Action(s);
    var none: multiset<Ticket> := multiset{};
    var head := if pop.Keep? then none else OwedOne(s.mq[0]);
    var push := if p2.push then OwedOne(s.op2) else none;
    var rsp1 := if p.LoadHit? then multiset{TicketOf(s.op)} else none;
    var h2 := if s.got2 then multiset{TicketOf(s.op2)} else none;
    ActiveHeld1(c, s, i, s');
    Port1Owed(c, s, i, Held1(s'));
    Port2Owed(c, s, i);
    OwedQueue(c, s, i, pop, p2.push);
    Balance(Owed(Held1(s)), Owed(s.mq), h2, Owed(Held1(s')), Owed(s'.mq), Taken(s'), head, push, rsp1, RspTicket(p2.rsp));
  }

  /** One response at a time: port 1 answers a load only when port 2 holds no request that answers. */
  lemma OneAnswer(c: Config, s: State, i: Input)
    requires Ready(c, s, i) && Port1Inv(c, s) && BypassInv(c, s)
    ensures Answered(Comb(c, s, i)) ==
            (if Port1Action(s).LoadHit? then multiset{TicketOf(s.op)} else multiset{}) + RspTicket(Port2Action(c, s, i).rsp)
  {
  }

  lemma NextOutstanding(c: Config, s: State, i: Input)
    requires Step(c, s, i) && Port1Inv(c, s) && Port2Inv(c, s) && BypassInv(c, s) && FsmInv(c, s) && !FlushClash(s)
    ensures var k := Comb(c, s, i);
            Outstanding(Next(c, s, i)) + Answered(k) == Outstanding(s) + Taken(Next(c, s, i))
  {
    if s.fsm.Active? {
      ActiveEdgeHolds(c, s, i);
      ActiveOutstanding(c, s, i, Next(c, s, i));
      OneAnswer(c, s, i);
    } else {
      OtherEdgeHolds(c, s, i);
      OtherOutstanding(c, s, i, Next(c, s, i));
    }
  }

  lemma OutstandingBound(s: State)
    ensures |Outstanding(s)| <= |s.mq| + (if s.got2 then 2 else 1)
  {
    OwedBound(s.mq);
    OwedBound(Held1(s));
  }

  lemma CountStep(c: Config, s: State, k: Ctl, n: nat)
    requires WellFormed(c) && n + (if k.rsp.Some? then 1 else 0) == s.inflight + (if k.accept then 1 else 0)
    requires s.inflight <= |s.mq| + 2 && (k.accept ==> |s.mq| + 1 < c.mrq)
    ensures NextInflight(c, s, k) == n
  {
  }

  lemma NextCount(c: Config, s: State, i: Input)
    requires Step(c, s, i) && Port1Inv(c, s) && Port2Inv(c, s) && BypassInv(c, s) && FsmInv(c, s)
    requires CountInv(c, s) && !FlushClash(s)
    ensures CountInv(c, Next(c, s, i))
  {
    var k := Comb(c, s, i);
    var n := |Outstanding(Next(c, s, i))|;
    assert n + |Answered(k)| == s.inflight + |Taken(Next(c, s, i))| by {
      NextOutstanding(c, s, i);
      CardBalance(Outstanding(Next(c, s, i)), Answered(k), Outstanding(s), Taken(Next(c, s, i)));
    }
    OutstandingBound(s);
    assert k.accept ==> |s.mq| + 1 < c.mrq;
    CountStep(c, s, k, n);
  }
}
