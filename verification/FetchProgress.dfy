/**
  Progress of instruction fetch (l1i.sv): with nothing to interrupt it, fetch pushes an instruction after bounded
  work, and every restart that is asked for is acknowledged after bounded work.
 */
module FetchProgress {
  import opened MemoryTypes
  import opened FetchQueue
  import opened Fetch
  import opened FetchTheorems
  import opened FetchWords

  // ---------------------------------------------------------------- the work before the next push

  predicate Room(c: Config, s: State)
    requires Shape(c, s) && WellFormed(c)
  {
    !Full(c.entries, s.q, 1)
  }

  /** The line of p is in the cache. */
  predicate Cached(c: Config, s: State, p: Pc)
    requires Shape(c, s) && PcShape(c, p)
  {
    s.ram.valid[p.idx] && s.ram.tags[p.idx] == p.tag
  }

  /** In ACTIVE the RAM outputs are those of the set that was read. */
  ghost predicate ReadCurrent(c: Config, s: State)
    requires Shape(c, s)
  {
    s.fsm.Active? ==> s.rd.valid == s.ram.valid[s.cacheIdx] && s.rd.tag == s.ram.tags[s.cacheIdx]
  }

  lemma KeepsReadCurrent(c: Config, s: State, i: Input)
    requires WellFormed(c) && Shape(c, s) && CtlShape(c, Comb(c, s, i)) && Shape(c, Next(c, s, i)) && Protocol(c, s, i)
    ensures ReadCurrent(c, Next(c, s, i))
  {
  }

  /** Nobody asks for a restart or a flush, and a lookup finds its page. */
  predicate Undisturbed(s: State, i: Input) {
    !WantsRestart(s, i) && !WantsFlush(s, i) && (s.fsm.Active? && s.req ==> i.utlb)
  }

  /** Fetch waits for memory, for the TLB or for room in the queue. */
  predicate Waits(c: Config, s: State, i: Input)
    requires WellFormed(c) && Shape(c, s)
  {
    || (s.fsm.InjectReload? && !i.memRsp)
    || (s.fsm.ReloadUtlb? && !i.tlbRsp)
    || ((s.fsm.WaitForNotFull? || s.fsm.ReloadTurnaround?) && !Room(c, s))
  }

  /** Cycles of work left before a push. */
  function Rank(c: Config, s: State): (n: nat)
    requires WellFormed(c) && Shape(c, s)
    ensures n <= 6
  {
    match s.fsm
    case Active => if !s.req then 5 else if Miss(s) then 4 else if Room(c, s) then 1 else 3
    case InjectReload => 3
    case ReloadTurnaround => if Cached(c, s, s.missPc) then 2 else 5
    case WaitForNotFull => if Cached(c, s, s.missPc) then 2 else 5
    case ReloadUtlb => 6
    case _ => 0
  }

  /** A queue to which nothing is pushed keeps its room. */
  lemma RoomStays(c: Config, s: State, i: Input)
    requires WellFormed(c) && Inv(c, s) && Fetching(s.fsm) && Protocol(c, s, i) && Room(c, s)
    requires CtlShape(c, Comb(c, s, i)) && Shape(c, Next(c, s, i)) && Comb(c, s, i).push == 0 && !Comb(c, s, i).clear
    ensures Room(c, Next(c, s, i))
  {
    PopsFit(c, s, i);
    PointersKeep(c.entries, s.q, [], Pops(i));
    FlagsCountFreeSlots(c.entries, s.q, 1);
    FlagsCountFreeSlots(c.entries, Next(c, s, i).q, 1);
    assert Pushes(c, s, Guess(c, s, i), 0) == [];
  }

  /** What a disturbed-free cycle needs to be known of the state. */
  ghost predicate Going(c: Config, s: State, i: Input) {
    && WellFormed(c) && Shape(c, s) && Fetching(s.fsm) && Undisturbed(s, i) && ReadCurrent(c, s)
    && (s.fsm.Active? && s.req ==> s.cacheIdx == s.cachePc.idx && s.cacheTag == s.cachePc.tag)
    && CtlShape(c, Comb(c, s, i)) && Shape(c, Next(c, s, i))
  }

  lemma ActiveMoves(c: Config, s: State, i: Input)
    requires Going(c, s, i) && s.fsm.Active? && Comb(c, s, i).push == 0 && !i.memRsp
    requires Room(c, s) ==> Room(c, Next(c, s, i))
    ensures Fetching(Next(c, s, i).fsm) && Rank(c, Next(c, s, i)) < Rank(c, s)
  {
  }

  lemma ReloadMoves(c: Config, s: State, i: Input)
    requires Going(c, s, i) && (s.fsm.InjectReload? || s.fsm.ReloadUtlb?) && (s.fsm.ReloadUtlb? ==> !i.memRsp)
    requires Room(c, s) ==> Room(c, Next(c, s, i))
    ensures Fetching(Next(c, s, i).fsm) && Rank(c, Next(c, s, i)) <= Rank(c, s)
    ensures !Waits(c, s, i) ==> Rank(c, Next(c, s, i)) < Rank(c, s)
  {
  }

  lemma WaitMoves(c: Config, s: State, i: Input)
    requires Going(c, s, i) && (s.fsm.WaitForNotFull? || s.fsm.ReloadTurnaround?) && !i.memRsp
    requires Room(c, s) ==> Room(c, Next(c, s, i))
    ensures Fetching(Next(c, s, i).fsm) && Rank(c, Next(c, s, i)) <= Rank(c, s)
    ensures !Waits(c, s, i) ==> Rank(c, Next(c, s, i)) < Rank(c, s)
  {
  }

  /** Undisturbed, each cycle pushes, or comes closer to a push, or waits for memory, the TLB or room. */
  lemma FetchAdvances(c: Config, s: State, i: Input)
    requires WellFormed(c) && TargetsFit(c) && Inv(c, s) && Protocol(c, s, i) && ReadCurrent(c, s)
    requires Fetching(s.fsm) && Undisturbed(s, i)
    ensures CtlShape(c, Comb(c, s, i)) && Shape(c, Next(c, s, i))
    ensures Comb(c, s, i).push > 0 ||
            (var s' := Next(c, s, i);
             Fetching(s'.fsm) && Rank(c, s') <= Rank(c, s) && (!Waits(c, s, i) ==> Rank(c, s') < Rank(c, s)))
  {
    NextShape(c, s, i);
    if Comb(c, s, i).push == 0 {
      if Room(c, s) { NoClear(c, s, i); RoomStays(c, s, i); }
      if s.fsm.Active? {
        ActiveMoves(c, s, i);
      } else if s.fsm.InjectReload? || s.fsm.ReloadUtlb? {
        ReloadMoves(c, s, i);
      } else {
        WaitMoves(c, s, i);
      }
    }
  }

  lemma NoClear(c: Config, s: State, i: Input)
    requires WellFormed(c) && Shape(c, s) && Fetching(s.fsm) && Undisturbed(s, i)
    ensures !Comb(c, s, i).clear
  {
  }

  // ---------------------------------------------------------------- runs

  lemma {:induction false} RunKeepsRead(c: Config, s: State, ins: seq<Input>)
    requires WellFormed(c) && TargetsFit(c) && Inv(c, s) && Legal(c, s, ins) && ReadCurrent(c, s)
    ensures Inv(c, Run(c, s, ins)) && ReadCurrent(c, Run(c, s, ins))
    decreases |ins|
  {
    if ins != [] {
      KeepsInvariant(c, s, ins[0]);
      KeepsReadCurrent(c, s, ins[0]);
      RunKeepsRead(c, Next(c, s, ins[0]), ins[1..]);
    }
  }

  /** A run in which nothing disturbs fetch until it pushes. */
  ghost predicate UndisturbedRun(c: Config, s: State, ins: seq<Input>)
    requires WellFormed(c) && Legal(c, s, ins)
    decreases |ins|
  {
    ins == [] ||
    (Undisturbed(s, ins[0]) && (Comb(c, s, ins[0]).push > 0 || UndisturbedRun(c, Next(c, s, ins[0]), ins[1..])))
  }

  /** The cycles in which fetch does not wait. */
  ghost function Working(c: Config, s: State, ins: seq<Input>): nat
    requires WellFormed(c) && Legal(c, s, ins)
    decreases |ins|
  {
    if ins == [] then 0 else (if Waits(c, s, ins[0]) then 0 else 1) + Working(c, Next(c, s, ins[0]), ins[1..])
  }

  ghost predicate PushesSome(c: Config, s: State, ins: seq<Input>)
    requires WellFormed(c) && Legal(c, s, ins)
    decreases |ins|
  {
    ins != [] && (Comb(c, s, ins[0]).push > 0 || PushesSome(c, Next(c, s, ins[0]), ins[1..]))
  }

  lemma {:induction false} PushedByRank(c: Config, s: State, ins: seq<Input>)
    requires WellFormed(c) && TargetsFit(c) && Inv(c, s) && Legal(c, s, ins) && ReadCurrent(c, s)
    requires Fetching(s.fsm) && UndisturbedRun(c, s, ins) && Working(c, s, ins) > Rank(c, s)
    ensures PushesSome(c, s, ins)
    decreases |ins|
  {
    FetchAdvances(c, s, ins[0]);
    if Comb(c, s, ins[0]).push == 0 {
      KeepsInvariant(c, s, ins[0]);
      KeepsReadCurrent(c, s, ins[0]);
      PushedByRank(c, Next(c, s, ins[0]), ins[1..]);
    }
  }

  /** From every reachable fetching state, undisturbed, an instruction is pushed within seven cycles that do not
      wait for memory, for the TLB or for room in the queue. */
  lemma FetchKeepsPushing(c: Config, s: State, before: seq<Input>, ins: seq<Input>)
    requires WellFormed(c) && TargetsFit(c) && Reset(c, s) && Legal(c, s, before) && Legal(c, Run(c, s, before), ins)
    requires Fetching(Run(c, s, before).fsm) && UndisturbedRun(c, Run(c, s, before), ins)
    requires Working(c, Run(c, s, before), ins) >= 7
    ensures PushesSome(c, Run(c, s, before), ins)
  {
    ResetEstablishesInvariant(c, s);
    RunKeepsRead(c, s, before);
    PushedByRank(c, Run(c, s, before), ins);
  }

  // ---------------------------------------------------------------- how many are pushed

  /** d words from the read address on, the first predicted not taken and no BGEZAL, up to the next control
      transfer or the end of the line. */
  ghost predicate GroupOf(c: Config, s: State, i: Input, d: nat)
    requires WellFormed(c) && Shape(c, s)
  {
    var p := s.cachePc;
    && 1 <= d && p.word + d <= 4 && !s.slot && !IsLink(c.code(p))
    && Expected(c, p, c.code(p), Tip(i.pht, i.btb, i.ras, true)).None?
    && (forall k :: p.word < k < p.word + d ==> Plain(c.code(p.(word := k))))
    && (p.word + d < 4 ==> !Plain(c.code(p.(word := p.word + d))))
  }

  lemma LineWord(c: Config, s: State, k: nat)
    requires Shape(c, s) && ReadOk(c, s.rd, s.cacheIdx) && Hit(s)
    requires s.cacheIdx == s.cachePc.idx && s.cacheTag == s.cachePc.tag && k < 4
    ensures s.rd.line.words[k] == c.code(s.cachePc.(word := k))
    ensures s.rd.line.kinds[k].NotCflow? <==> Plain(c.code(s.cachePc.(word := k)))
  {
    PlainByWord(c.code(s.cachePc.(word := k)));
  }

  lemma FirstWordFree(c: Config, s: State, i: Input)
    requires Shape(c, s) && ReadOk(c, s.rd, s.cacheIdx) && Hit(s)
    requires s.cacheIdx == s.cachePc.idx && s.cacheTag == s.cachePc.tag
    requires !IsLink(c.code(s.cachePc)) && Expected(c, s.cachePc, c.code(s.cachePc), Tip(i.pht, i.btb, i.ras, true)).None?
    ensures Guess(c, s, i).None? && !Marker(s, i, 0)
  {
    var p := s.cachePc;
    assert p.(word := p.word) == p;
    LineWord(c, s, p.word);
    PredictedByWord(c, p, c.code(p), i, true);
  }

  /** The same, from the predecoded kinds. */
  lemma GroupCount(c: Config, s: State, i: Input, d: nat)
    requires WellFormed(c) && Shape(c, s) && Guess(c, s, i).None? && !s.slot && !Marker(s, i, 0)
    requires 1 <= d && s.cachePc.word + d <= 4
    requires forall k :: s.cachePc.word < k < s.cachePc.word + d ==> s.rd.line.kinds[k].NotCflow?
    requires s.cachePc.word + d < 4 ==> !s.rd.line.kinds[s.cachePc.word + d].NotCflow?
    ensures PushCount(c, s, i) == if Full(c.entries, s.q, d) then 1 else d
  {
    assert Marker(s, i, d);
    assert d == FirstBranch(s, i);
  }

  /** A hit pushes the whole group if there is room for it, and else its first word alone. */
  lemma GroupExactly(c: Config, s: State, i: Input, d: nat)
    requires WellFormed(c) && Shape(c, s) && ReadOk(c, s.rd, s.cacheIdx) && Hit(s) && RingInv(c.entries, s.q)
    requires s.cacheIdx == s.cachePc.idx && s.cacheTag == s.cachePc.tag && GroupOf(c, s, i, d)
    ensures PushCount(c, s, i) == if Len(c.entries, s.q) + d <= c.entries then d else 1
  {
    FirstWordFree(c, s, i);
    forall k | 0 <= k < 4 ensures s.rd.line.kinds[k].NotCflow? <==> Plain(c.code(s.cachePc.(word := k))) {
      LineWord(c, s, k);
    }
    GroupCount(c, s, i, d);
    FlagsCountFreeSlots(c.entries, s.q, d);
  }

  /** Something is pushed exactly in ACTIVE cycles without a flush or restart wanted in which the lookup finds its page
      and its line and the queue has room. */
  lemma PushesExactly(c: Config, s: State, i: Input)
    requires WellFormed(c) && Inv(c, s)
    ensures Comb(c, s, i).push > 0 <==>
            && s.fsm.Active? && !WantsFlush(s, i) && !WantsRestart(s, i) && i.utlb && s.req
            && s.rd.valid && s.rd.tag == s.cacheTag && Len(c.entries, s.q) < c.entries
  {
    if s.fsm.Active? {
      FlagsCountFreeSlots(c.entries, s.q, 1);
      PushesInActive(c, s, i);
    } else {
      PushesNowhereElse(c, s, i);
    }
  }
  lemma PushesInActive(c: Config, s: State, i: Input)
    requires WellFormed(c) && Shape(c, s) && s.fsm.Active?
    ensures Comb(c, s, i).push > 0 <==>
            !WantsFlush(s, i) && !WantsRestart(s, i) && (i.utlb || !s.req) && Hit(s) && !Full(c.entries, s.q, 1)
  {
    assert Comb(c, s, i) == ActiveCtl(c, s, i);
  }
  lemma PushesNowhereElse(c: Config, s: State, i: Input)
    requires WellFormed(c) && Shape(c, s) && !s.fsm.Active?
    ensures Comb(c, s, i).push == 0
  {
  }

  /** What the decoder acknowledges, one or two instructions, leaves the queue at the front, and what is pushed joins
      at the back. */
  lemma DecoderTakes(c: Config, s: State, i: Input)
    requires WellFormed(c) && Inv(c, s) && Protocol(c, s, i) && RingInv(c.entries, s.q)
    requires CtlShape(c, Comb(c, s, i)) && !Comb(c, s, i).clear
    ensures var n := (if i.ack then 1 else 0) + if i.ackTwo then 1 else 0;
            var q' := Next(c, s, i).q;
            && RingInv(c.entries, q') && n <= Len(c.entries, s.q)
            && Contents(c.entries, q') ==
               (Contents(c.entries, s.q) + Pushes(c, s, Guess(c, s, i), Comb(c, s, i).push))[n..]
  {
    PopsFit(c, s, i);
    PushesFit(c, s, i);
    QueueIsFifo(c.entries, s.q, Pushes(c, s, Guess(c, s, i), Comb(c, s, i).push), Pops(i));
  }

  // ---------------------------------------------------------------- restarts and flushes

  /** A flush is taken up exactly when the walk is entered. */
  lemma FlushTaken(c: Config, s: State, i: Input, x: Ctl)
    requires WellFormed(c) && Shape(c, s) && x == Comb(c, s, i)
    ensures x.flushStart <==> x.fsm.FlushCache? && !s.fsm.FlushCache?
  {
    match s.fsm {
      case Active => ActiveAcks(c, s, i);
      case ReloadTurnaround => WaitAcks(c, s, i);
      case WaitForNotFull => WaitAcks(c, s, i);
      case _ =>
    }
  }

  lemma RequestsKept(c: Config, s: State, i: Input, x: Ctl)
    requires WellFormed(c) && Shape(c, s) && CtlShape(c, x)
    ensures var s' := Edge(c, s, i, x);
            && s'.fsm == x.fsm
            && (s'.restartReq <==> (s.restartReq || i.restart) && !x.restartAck)
            && (s'.flushReq <==> (s.flushReq || i.flush) && !x.flushStart)
  {
  }

  /** A request for a restart or a flush is kept until it is served. */
  lemma RequestsNotLost(c: Config, s: State, i: Input)
    requires WellFormed(c) && Shape(c, s) && CtlShape(c, Comb(c, s, i))
    ensures var x, s' := Comb(c, s, i), Next(c, s, i);
            && (s'.restartReq <==> (s.restartReq || i.restart) && !x.restartAck)
            && (s'.flushReq <==> (s.flushReq || i.flush) && !(s'.fsm.FlushCache? && !s.fsm.FlushCache?))
  {
    FlushTaken(c, s, i, Comb(c, s, i));
    RequestsKept(c, s, i, Comb(c, s, i));
  }

  /** Cycles of work left before a restart is acknowledged. */
  function StepsToRestart(c: Config, fsm: Fsm, cacheIdx: nat): nat {
    match fsm
    case Idle => 0
    case FlushCache => if cacheIdx < c.sets then c.sets - cacheIdx else 0
    case Active => c.sets + 1
    case ReloadTurnaround => c.sets + 2
    case WaitForNotFull => c.sets + 2
    case InjectReload => c.sets + 3
    case ReloadUtlb => c.sets + 3
  }
  function RestartRank(c: Config, s: State): nat { StepsToRestart(c, s.fsm, s.cacheIdx) }

  /** A reload waits for its answer. */
  predicate WaitsForReload(s: State, i: Input) { (s.fsm.InjectReload? && !i.memRsp) || (s.fsm.ReloadUtlb? && !i.tlbRsp) }

  lemma AckRestarts(c: Config, s: State, i: Input, x: Ctl)
    requires WellFormed(c) && Shape(c, s) && x == Comb(c, s, i) && x.restartAck
    ensures x.fsm.Active? && x.pc == i.restartPc && x.clear && x.push == 0
  {
    match s.fsm {
      case Active => ActiveAcks(c, s, i);
      case ReloadTurnaround => WaitAcks(c, s, i);
      case WaitForNotFull => WaitAcks(c, s, i);
      case _ =>
    }
  }

  lemma ActiveAcks(c: Config, s: State, i: Input)
    requires WellFormed(c) && Shape(c, s)
    ensures var x := ActiveCtl(c, s, i);
            && (x.restartAck ==> x == Restarting(s, i, false, s.pc, s.pc))
            && (x.flushStart <==> x.fsm.FlushCache?)
  {
    HitFlags(c, s, i);
  }
  lemma HitFlags(c: Config, s: State, i: Input)
    requires WellFormed(c) && Shape(c, s)
    ensures var x := HitCtl(c, s, i); !x.restartAck && !x.flushStart && x.fsm.Active?
  {
  }
  lemma WaitAcks(c: Config, s: State, i: Input)
    requires WellFormed(c) && Shape(c, s) && (s.fsm.ReloadTurnaround? || s.fsm.WaitForNotFull?)
    ensures var x := WaitCtl(c, s, i);
            && (x.restartAck ==> x.fsm.Active? && x.pc == i.restartPc && x.clear && x.push == 0)
            && (x.flushStart <==> x.fsm.FlushCache?)
  {
  }

  lemma RestartTakes(c: Config, s: State, i: Input, x: Ctl)
    requires WellFormed(c) && Shape(c, s) && CtlShape(c, x)
    requires x.restartAck && x.fsm.Active? && x.pc == i.restartPc && x.clear && x.push == 0
    ensures var s' := Edge(c, s, i, x);
            s'.fsm.Active? && s'.pc == s'.start == i.restartPc && s'.pushed == [] && s'.popped == 0
  {
  }

  lemma WantedWaits(c: Config, s: State, i: Input, x: Ctl)
    requires WellFormed(c) && Shape(c, s) && x == Comb(c, s, i) && WantsRestart(s, i) && !x.restartAck
    ensures !s.fsm.Idle? && (s.fsm.Active? ==> x.fsm.FlushCache? && x.rdIdx == 0) && x.push == 0
    ensures StepsToRestart(c, x.fsm, x.rdIdx) <= RestartRank(c, s)
    ensures !WaitsForReload(s, i) ==> StepsToRestart(c, x.fsm, x.rdIdx) < RestartRank(c, s)
  {
  }

  /** While a restart is wanted, each cycle acknowledges it, at the address given, or comes closer, or waits for a
      reload to be answered. */
  lemma RestartAdvances(c: Config, s: State, i: Input)
    requires WellFormed(c) && Shape(c, s) && CtlShape(c, Comb(c, s, i)) && WantsRestart(s, i)
    ensures var x, s' := Comb(c, s, i), Next(c, s, i);
            if x.restartAck then s'.fsm.Active? && s'.pc == s'.start == i.restartPc && s'.pushed == [] && s'.popped == 0
            else && s'.restartReq && x.push == 0 && RestartRank(c, s') <= RestartRank(c, s)
                 && (!WaitsForReload(s, i) ==> RestartRank(c, s') < RestartRank(c, s))
  {
    var x := Comb(c, s, i);
    if x.restartAck {
      AckRestarts(c, s, i, x);
      RestartTakes(c, s, i, x);
    } else {
      WantedWaits(c, s, i, x);
    }
  }

  ghost function RestartWork(c: Config, s: State, ins: seq<Input>): nat
    requires WellFormed(c) && Legal(c, s, ins)
    decreases |ins|
  {
    if ins == [] then 0
    else (if WaitsForReload(s, ins[0]) then 0 else 1) + RestartWork(c, Next(c, s, ins[0]), ins[1..])
  }

  ghost predicate Restarts(c: Config, s: State, ins: seq<Input>)
    requires WellFormed(c) && Legal(c, s, ins)
    decreases |ins|
  {
    ins != [] && (Comb(c, s, ins[0]).restartAck || Restarts(c, Next(c, s, ins[0]), ins[1..]))
  }

  lemma {:induction false} RestartedByRank(c: Config, s: State, ins: seq<Input>)
    requires WellFormed(c) && TargetsFit(c) && Inv(c, s) && Legal(c, s, ins)
    requires s.restartReq && RestartWork(c, s, ins) > RestartRank(c, s)
    ensures Restarts(c, s, ins)
    decreases |ins|
  {
    RestartAdvances(c, s, ins[0]);
    if !Comb(c, s, ins[0]).restartAck {
      KeepsInvariant(c, s, ins[0]);
      RestartedByRank(c, Next(c, s, ins[0]), ins[1..]);
    }
  }

  /** In every run a restart that has been asked for is acknowledged within sets + 4 cycles that do not wait for a
      reload, even if a flush has to be walked first. */
  lemma EveryRestartIsServed(c: Config, s: State, before: seq<Input>, ins: seq<Input>)
    requires WellFormed(c) && TargetsFit(c) && Reset(c, s) && Legal(c, s, before) && Legal(c, Run(c, s, before), ins)
    requires Run(c, s, before).restartReq && RestartWork(c, Run(c, s, before), ins) >= c.sets + 4
    ensures Restarts(c, Run(c, s, before), ins)
  {
    ResetEstablishesInvariant(c, s);
    RunKeepsInvariant(c, s, before);
    RestartedByRank(c, Run(c, s, before), ins);
  }
}
