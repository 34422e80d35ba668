/**
  Fetching several instructions per cycle is fetching one at a time (l1i.sv).
 */
module FetchTheorems {
  import opened MemoryTypes
  import opened FetchQueue
  import opened Fetch

  // ---------------------------------------------------------------- one-at-a-time fetch

  /** The reference machine: the next instruction, and the target that follows it if it sits in
      the delay slot of a branch predicted taken. */
  datatype Ref = Ref(pc: Pc, pending: Option<Pc>)

  /** The prediction in force: only control transfers outside delay slots are predicted. */
  function RefTarget(c: Config, r: Ref, ask: Ask): Option<Pc> {
    if r.pending.Some? || Predecode(c.code(r.pc)).NotCflow? || ask.NotAsked? then None else ask.guess
  }

  function RefNext(c: Config, r: Ref, ask: Ask): (r': Ref)
    requires PcShape(c, r.pc)
  {
    if r.pending.Some? then Ref(r.pending.value, None) else Ref(Inc(c, r.pc), RefTarget(c, r, ask))
  }

  function RefEmit(c: Config, r: Ref, ask: Ask): Fetched {
    Fetched(r.pc, c.code(r.pc), RefTarget(c, r, ask))
  }

  ghost predicate GuessesFit(c: Config, gs: seq<Ask>) {
    forall k :: 0 <= k < |gs| && gs[k].Asked? && gs[k].guess.Some? ==> PcShape(c, gs[k].guess.value)
  }

  ghost predicate RefShape(c: Config, r: Ref) {
    PcShape(c, r.pc) && (r.pending.Some? ==> PcShape(c, r.pending.value))
  }

  /** The machine after the guesses `gs`, and what it emitted. */
  function RefRun(c: Config, r: Ref, gs: seq<Ask>): (e: Ref)
    requires RefShape(c, r) && GuessesFit(c, gs)
    ensures RefShape(c, e)
  {
    if gs == [] then r else RefNext(c, RefRun(c, r, gs[..|gs| - 1]), gs[|gs| - 1])
  }

  function RefStream(c: Config, r: Ref, gs: seq<Ask>): (e: seq<Fetched>)
    requires RefShape(c, r) && GuessesFit(c, gs)
    ensures |e| == |gs|
  {
    if gs == [] then []
    else
      RefStream(c, r, gs[..|gs| - 1]) + [RefEmit(c, RefRun(c, r, gs[..|gs| - 1]), gs[|gs| - 1])]
  }

  lemma {:induction false} RefAppend(c: Config, r: Ref, a: seq<Ask>, b: seq<Ask>)
    requires RefShape(c, r) && GuessesFit(c, a) && GuessesFit(c, b)
    ensures GuessesFit(c, a + b)
    ensures RefRun(c, r, a + b) == RefRun(c, RefRun(c, r, a), b)
    ensures RefStream(c, r, a + b) == RefStream(c, r, a) + RefStream(c, RefRun(c, r, a), b)
    decreases |b|
  {
    if b == [] {
      assert a + b == a;
    } else {
      var b' := b[..|b| - 1];
      assert (a + b)[..|a + b| - 1] == a + b';
      RefAppend(c, r, a, b');
    }
  }

  // ---------------------------------------------------------------- the invariant

  /** What the RAM and its output register hold is program text. */
  ghost predicate ReadOk(c: Config, r: ReadOut, idx: nat) { r.valid ==> r.line == CodeLine(c, r.tag, idx) }

  ghost predicate RamOk(c: Config, r: Ram)
    requires RamShape(c, r)
  {
    forall k :: 0 <= k < c.sets ==> ReadOk(c, ReadSet(r, k), k)
  }

  /** Outside IDLE and the flush there is an instruction to fetch next. */
  predicate Fetching(f: Fsm) { !f.Idle? && !f.FlushCache? }

  /** The next instruction to push, and what r_pc holds: its successor, or the target of the branch
      whose delay slot it is. */
  ghost predicate Follows(c: Config, r: Ref, p: Pc, pc: Pc, slot: bool)
    requires PcShape(c, p)
  {
    r.pc == p && (if slot then r.pending == Some(pc) else r.pending.None? && pc == Inc(c, p))
  }

  ghost predicate Tracks(c: Config, s: State, r: Ref)
    requires Shape(c, s)
  {
    match s.fsm
    case Active =>
      if s.req then
        Follows(c, r, s.cachePc, s.pc, s.slot) && s.cacheIdx == s.cachePc.idx && s.cacheTag == s.cachePc.tag
      else !s.slot && r == Ref(s.pc, None)
    case InjectReload => Follows(c, r, s.missPc, s.pc, s.slot)
    case ReloadTurnaround => Follows(c, r, s.missPc, s.pc, s.slot)
    case WaitForNotFull => Follows(c, r, s.missPc, s.pc, s.slot)
    case ReloadUtlb => Follows(c, r, s.missPc, s.pc, s.slot)
    case _ => true
  }

  /** After the first restart the queue pointers are in step; before it the queue is empty. */
  ghost predicate QueueInv(c: Config, s: State)
    requires Shape(c, s)
  {
    if RingInv(c.entries, s.q) then
      s.popped <= |s.pushed| && Contents(c.entries, s.q) == s.pushed[s.popped..]
    else s.fsm.Idle? && s.q.head == s.q.tail && s.q.nextHead != s.q.tail
  }

  /** Every control transfer that was pushed was put to the predictor. */
  ghost predicate BranchesAsked(gs: seq<Ask>, pushed: seq<Fetched>) {
    |gs| == |pushed| && forall k :: 0 <= k < |gs| && gs[k].NotAsked? ==> Predecode(pushed[k].insn).NotCflow?
  }

  ghost predicate StreamInv(c: Config, s: State)
    requires Shape(c, s)
  {
    && BranchesAsked(s.guesses, s.pushed)
    && PcShape(c, s.start) && GuessesFit(c, s.guesses)
    && s.pushed == RefStream(c, Ref(s.start, None), s.guesses)
    && Tracks(c, s, RefRun(c, Ref(s.start, None), s.guesses))
  }

  ghost predicate Inv(c: Config, s: State) {
    && Shape(c, s) && RamOk(c, s.ram) && ReadOk(c, s.rd, s.cacheIdx)
    && QueueInv(c, s) && (Fetching(s.fsm) ==> StreamInv(c, s))
  }

  /** Memory answers only a reload; the decoder pops only what the queue offers. */
  ghost predicate Protocol(c: Config, s: State, i: Input) {
    && InputShape(c, i) && (i.memRsp ==> s.fsm.InjectReload?)
    && (i.ack ==> !Empty(s.q)) && (i.ackTwo ==> i.ack && !NextEmpty(s.q))
  }

  /** Restart from IDLE leaves the delay-slot flag of the code before the flush. */
  predicate StaleSlot(s: State, i: Input) { s.fsm.Idle? && WantsRestart(s, i) && s.slot }

  /** A control transfer in a delay slot is predicted taken. */
  ghost predicate SlotBranch(c: Config, s: State, i: Input)
    requires WellFormed(c) && Shape(c, s)
  {
    s.fsm.Active? && Comb(c, s, i).push > 0 && s.slot && Guess(c, s, i).Some?
  }

  // ---------------------------------------------------------------- pushes

  lemma GuessFits(c: Config, s: State, i: Input)
    requires TargetsFit(c) && Shape(c, s) && InputShape(c, i)
    ensures Guess(c, s, i).Some? ==> PcShape(c, Guess(c, s, i).value)
  {
  }

  lemma HitShape(c: Config, s: State, i: Input)
    requires WellFormed(c) && TargetsFit(c) && Shape(c, s) && InputShape(c, i)
    ensures CtlShape(c, HitCtl(c, s, i))
  {
    GuessFits(c, s, i);
  }

  lemma ActiveShape(c: Config, s: State, i: Input)
    requires WellFormed(c) && Shape(c, s) && InputShape(c, i) && CtlShape(c, HitCtl(c, s, i))
    ensures CtlShape(c, ActiveCtl(c, s, i))
  {
  }

  lemma WaitShape(c: Config, s: State, i: Input)
    requires WellFormed(c) && Shape(c, s) && InputShape(c, i)
    ensures CtlShape(c, WaitCtl(c, s, i))
  {
  }

  lemma CombShape(c: Config, s: State, i: Input)
    requires WellFormed(c) && TargetsFit(c) && Shape(c, s) && InputShape(c, i)
    ensures CtlShape(c, Comb(c, s, i))
  {
    if s.fsm.Active? {
      HitShape(c, s, i);
      ActiveShape(c, s, i);
    } else {
      WaitShape(c, s, i);
    }
  }

  lemma {:induction false} PlusInLine(c: Config, p: Pc, n: nat)
    requires PcShape(c, p) && p.word + n <= 3
    ensures Plus(c, p, n) == p.(word := p.word + n)
  {
    if n > 0 { PlusInLine(c, p, n - 1); }
  }

  /** A straight-line run of n instructions without predictions. */
  lemma {:induction false} StraightLine(c: Config, p: Pc, n: nat)
    requires PcShape(c, p)
    ensures RefRun(c, Ref(p, None), Unasked(n)) == Ref(Plus(c, p, n), None)
    ensures forall j :: 0 <= j < n ==>
              RefStream(c, Ref(p, None), Unasked(n))[j] == Fetched(Plus(c, p, j), c.code(Plus(c, p, j)), None)
  {
    if n > 0 {
      assert Unasked(n)[..n - 1] == Unasked(n - 1);
      StraightLine(c, p, n - 1);
    }
  }

  lemma {:induction false} PlusFirst(c: Config, p: Pc, n: nat)
    requires PcShape(c, p)
    ensures Plus(c, Inc(c, p), n) == Plus(c, p, n + 1)
  {
    if n > 0 { PlusFirst(c, p, n - 1); }
  }

  lemma RefOne(c: Config, r: Ref, a: Ask)
    requires RefShape(c, r) && GuessesFit(c, [a])
    ensures RefRun(c, r, [a]) == RefNext(c, r, a) && RefStream(c, r, [a]) == [RefEmit(c, r, a)]
  {
    assert [a][..0] == [];
  }

  /** A group whose first instruction is predicted not taken: n steps of the reference machine. */
  lemma GroupIsSequential(c: Config, p: Pc, n: nat)
    requires PcShape(c, p) && n >= 1
    ensures GuessesFit(c, Guessed(None, n))
    ensures RefRun(c, Ref(p, None), Guessed(None, n)) == Ref(Plus(c, p, n), None)
    ensures forall j :: 0 <= j < n ==>
              RefStream(c, Ref(p, None), Guessed(None, n))[j] == Fetched(Plus(c, p, j), c.code(Plus(c, p, j)), None)
  {
    var a := Asked(None);
    RefOne(c, Ref(p, None), a);
    RefAppend(c, Ref(p, None), [a], Unasked(n - 1));
    StraightLine(c, Inc(c, p), n - 1);
    PlusFirst(c, p, n - 1);
    assert Plus(c, p, 1) == Inc(c, p) by { assert Plus(c, p, 0) == p; }
    forall j | 0 <= j < n
      ensures RefStream(c, Ref(p, None), Guessed(None, n))[j] == Fetched(Plus(c, p, j), c.code(Plus(c, p, j)), None)
    {
      if j > 0 { PlusFirst(c, p, j - 1); }
    }
  }

  // ---------------------------------------------------------------- a hit

  /** The words of a hit are program text, and the marker says where control transfers are. */
  lemma HitWords(c: Config, s: State, j: nat)
    requires Shape(c, s) && ReadOk(c, s.rd, s.cacheIdx) && Hit(s)
    requires s.cacheIdx == s.cachePc.idx && s.cacheTag == s.cachePc.tag && s.cachePc.word + j < 4
    ensures s.rd.line.words[s.cachePc.word + j] == c.code(Plus(c, s.cachePc, j))
    ensures s.rd.line.kinds[s.cachePc.word + j] == Predecode(c.code(Plus(c, s.cachePc, j)))
  {
    PlusInLine(c, s.cachePc, j);
  }

  /** A group of n fits the line, starts with an instruction predicted not taken, holds no further
      control transfer, and has room in the queue. */
  lemma GroupFacts(c: Config, s: State, i: Input)
    requires WellFormed(c) && Shape(c, s)
    ensures var n := PushCount(c, s, i);
            && s.cachePc.word + n <= 4
            && (n > 1 ==> Guess(c, s, i).None? && !s.slot)
            && (forall k :: s.cachePc.word < k < s.cachePc.word + n ==> s.rd.line.kinds[k].NotCflow?)
            && (!Full(c.entries, s.q, 1) ==> !Full(c.entries, s.q, n))
  {
  }

  /** State in which a hit pushes. */
  ghost predicate Hitting(c: Config, s: State, r: Ref) {
    && WellFormed(c) && Shape(c, s) && ReadOk(c, s.rd, s.cacheIdx) && s.fsm.Active? && Hit(s)
    && RefShape(c, r) && Tracks(c, s, r)
  }

  /** The pushed words are program text. */
  lemma PushedText(c: Config, s: State, i: Input, r: Ref, j: nat)
    requires Hitting(c, s, r) && j < PushCount(c, s, i)
    ensures var g := Guess(c, s, i);
            Pushes(c, s, g, PushCount(c, s, i))[j] ==
            Fetched(Plus(c, s.cachePc, j), c.code(Plus(c, s.cachePc, j)), if j == 0 then g else None)
  {
    GroupFacts(c, s, i);
    HitWords(c, s, j);
  }

  /** A predicted-taken branch, or a delay slot: one step of the reference machine. */
  lemma SingleIsSequential(c: Config, s: State, i: Input, r: Ref)
    requires Hitting(c, s, r) && TargetsFit(c) && InputShape(c, i)
    requires (s.slot && Guess(c, s, i).None?) || (!s.slot && Guess(c, s, i).Some?)
    ensures var g := Guess(c, s, i);
            && PushCount(c, s, i) == 1 && GuessesFit(c, Guessed(g, 1))
            && RefStream(c, r, Guessed(g, 1)) == Pushes(c, s, g, 1)
            && RefRun(c, r, Guessed(g, 1)) == (if s.slot then Ref(s.pc, None) else Ref(s.pc, g))
  {
    var g := Guess(c, s, i);
    GuessFits(c, s, i);
    assert Guessed(g, 1) == [Asked(g)];
    RefOne(c, r, Asked(g));
    PushedText(c, s, i, r, 0);
    HitWords(c, s, 0);
    assert Plus(c, s.cachePc, 0) == s.cachePc;
  }

  lemma GroupPushes(c: Config, s: State, i: Input, r: Ref)
    requires Hitting(c, s, r) && !s.slot && Guess(c, s, i).None?
    ensures var n := PushCount(c, s, i);
            && GuessesFit(c, Guessed(None, n))
            && RefStream(c, r, Guessed(None, n)) == Pushes(c, s, None, n)
            && RefRun(c, r, Guessed(None, n)) == Ref(Plus(c, s.cachePc, n), None)
  {
    var n := PushCount(c, s, i);
    GroupIsSequential(c, s.cachePc, n);
    forall j | 0 <= j < n ensures RefStream(c, r, Guessed(None, n))[j] == Pushes(c, s, None, n)[j] {
      PushedText(c, s, i, r, j);
    }
  }

  /** The next read goes to the line of the next instruction. */
  lemma NextRead(c: Config, s: State, i: Input, r: Ref)
    requires Hitting(c, s, r) && !s.slot && Guess(c, s, i).None?
    ensures var n := PushCount(c, s, i);
            HitIdx(c, s, n) == Plus(c, s.cachePc, n).idx && (n == 1 ==> s.pc == Plus(c, s.cachePc, n))
  {
    var n := PushCount(c, s, i);
    GroupFacts(c, s, i);
    PlusInLine(c, s.cachePc, if s.cachePc.word + n <= 3 then n else n - 1);
    assert Plus(c, s.cachePc, 0) == s.cachePc;
  }

  /** A hit pushes what the reference machine emits, and tracks it into the next cycle. */
  lemma HitTracks(c: Config, s: State, i: Input, r: Ref)
    requires Hitting(c, s, r) && TargetsFit(c) && InputShape(c, i)
    requires !(s.slot && Guess(c, s, i).Some?)
    ensures var g, n, x := Guess(c, s, i), PushCount(c, s, i), HitCtl(c, s, i);
            && GuessesFit(c, Guessed(g, n))
            && RefStream(c, r, Guessed(g, n)) == Pushes(c, s, g, n)
            && PcShape(c, x.cachePc) && Follows(c, RefRun(c, r, Guessed(g, n)), x.cachePc, x.pc, x.slot)
            && x.rdIdx == x.cachePc.idx && x.rdTag == x.cachePc.tag
  {
    if s.slot || Guess(c, s, i).Some? {
      SingleIsSequential(c, s, i, r);
    } else {
      GroupPushes(c, s, i, r);
      NextRead(c, s, i, r);
    }
  }

  lemma HitAsks(c: Config, s: State, i: Input, r: Ref)
    requires Hitting(c, s, r)
    ensures var g, n := Guess(c, s, i), PushCount(c, s, i);
            BranchesAsked(Guessed(g, n), Pushes(c, s, g, n))
  {
    var g, n := Guess(c, s, i), PushCount(c, s, i);
    GroupFacts(c, s, i);
    forall j | 1 <= j < n ensures Predecode(Pushes(c, s, g, n)[j].insn).NotCflow? {
      PushedText(c, s, i, r, j);
      HitWords(c, s, j);
    }
  }

  // ---------------------------------------------------------------- one cycle

  lemma NextShape(c: Config, s: State, i: Input)
    requires WellFormed(c) && TargetsFit(c) && Inv(c, s) && Protocol(c, s, i)
    ensures CtlShape(c, Comb(c, s, i)) && Shape(c, Next(c, s, i))
    ensures RamOk(c, Next(c, s, i).ram) && ReadOk(c, Next(c, s, i).rd, Next(c, s, i).cacheIdx)
  {
    CombShape(c, s, i);
    var s' := Next(c, s, i);
    forall k | 0 <= k < c.sets ensures ReadOk(c, ReadSet(s'.ram, k), k) {
      assert ReadOk(c, ReadSet(s.ram, k), k);
    }
    assert ReadOk(c, ReadSet(s.ram, s'.cacheIdx), s'.cacheIdx);
  }

  /** How a cycle can act: it pushes on a hit, or clears the queue for a restart or a flush, or neither. */
  ghost predicate ActsOne(c: Config, s: State, i: Input, x: Ctl)
    requires WellFormed(c) && Shape(c, s)
  {
    && (x.push > 0 ==> s.fsm.Active? && x == HitCtl(c, s, i) && Hit(s) && !Full(c.entries, s.q, 1))
    && (x.restartAck ==> x.clear && x.push == 0 && x.fsm.Active? && !x.req && x.pc == i.restartPc
                         && (x.slot <==> StaleSlot(s, i)))
    && (!x.restartAck ==> !StaleSlot(s, i))
    && (x.clear && !x.restartAck ==> x.fsm.FlushCache?)
    && (!Fetching(s.fsm) && !x.restartAck ==> !Fetching(x.fsm))
  }

  lemma ActiveKinds(c: Config, s: State, i: Input)
    requires WellFormed(c) && Shape(c, s) && s.fsm.Active?
    ensures ActsOne(c, s, i, ActiveCtl(c, s, i))
  {
  }

  lemma WaitKinds(c: Config, s: State, i: Input)
    requires WellFormed(c) && Shape(c, s) && (s.fsm.ReloadTurnaround? || s.fsm.WaitForNotFull?)
    ensures ActsOne(c, s, i, WaitCtl(c, s, i))
  {
  }

  lemma CtlKinds(c: Config, s: State, i: Input)
    requires WellFormed(c) && Shape(c, s)
    ensures ActsOne(c, s, i, Comb(c, s, i))
  {
    match s.fsm {
      case Active => ActiveKinds(c, s, i);
      case ReloadTurnaround => WaitKinds(c, s, i);
      case WaitForNotFull => WaitKinds(c, s, i);
      case _ =>
    }
  }

  lemma PushesFit(c: Config, s: State, i: Input)
    requires WellFormed(c) && Shape(c, s) && RingInv(c.entries, s.q)
    ensures Len(c.entries, s.q) + Comb(c, s, i).push <= c.entries
  {
    var x := Comb(c, s, i);
    CtlKinds(c, s, i);
    GroupFacts(c, s, i);
    if x.push > 0 { FlagsCountFreeSlots(c.entries, s.q, x.push); }
  }

  lemma DropChain(pushed: seq<Fetched>, news: seq<Fetched>, popped: nat, k: nat)
    requires popped <= |pushed| && popped + k <= |pushed| + |news|
    ensures (pushed[popped..] + news)[k..] == (pushed + news)[popped + k..]
  {
  }

  lemma PopsFit(c: Config, s: State, i: Input)
    requires WellFormed(c) && Protocol(c, s, i) && RingInv(c.entries, s.q)
    ensures Pops(i) <= Len(c.entries, s.q)
  {
    FlagsCountFreeSlots(c.entries, s.q, 1);
  }

  lemma QueueEdge(c: Config, s: State, i: Input, x: Ctl)
    requires WellFormed(c) && Shape(c, s) && CtlShape(c, x) && Shape(c, Edge(c, s, i, x)) && RingInv(c.entries, s.q)
    requires s.popped <= |s.pushed| && Contents(c.entries, s.q) == s.pushed[s.popped..]
    requires !x.clear && Pops(i) <= Len(c.entries, s.q) && Len(c.entries, s.q) + x.push <= c.entries
    ensures QueueInv(c, Edge(c, s, i, x))
  {
    var news := Pushes(c, s, Guess(c, s, i), x.push);
    QueueIsFifo(c.entries, s.q, news, Pops(i));
    DropChain(s.pushed, news, s.popped, Pops(i));
  }

  lemma ClearedQueue(c: Config, s: State, i: Input, x: Ctl)
    requires WellFormed(c) && Shape(c, s) && CtlShape(c, x) && Shape(c, Edge(c, s, i, x)) && x.clear
    ensures QueueInv(c, Edge(c, s, i, x))
  {
    assert Contents(c.entries, Edge(c, s, i, x).q) == [];
  }

  lemma UnusedQueue(c: Config, s: State, i: Input, x: Ctl)
    requires WellFormed(c) && Shape(c, s) && CtlShape(c, x) && Shape(c, Edge(c, s, i, x)) && QueueInv(c, s)
    requires Protocol(c, s, i) && !RingInv(c.entries, s.q) && !x.clear && x.push == 0 && x.fsm.Idle?
    ensures QueueInv(c, Edge(c, s, i, x))
  {
    var q, q' := s.q, Edge(c, s, i, x).q;
    assert Pops(i) == 0;
    assert q'.head == q.head && q'.tail == q.tail && q'.nextHead == q.nextHead && q'.nextTail == q.nextTail;
    assert q'.next3 == q.next3 && q'.next4 == q.next4;
  }

  lemma QueueKeeps(c: Config, s: State, i: Input)
    requires WellFormed(c) && Shape(c, s) && CtlShape(c, Comb(c, s, i)) && QueueInv(c, s) && Protocol(c, s, i)
    requires Shape(c, Next(c, s, i))
    ensures QueueInv(c, Next(c, s, i))
  {
    var x := Comb(c, s, i);
    if x.clear {
      ClearedQueue(c, s, i, x);
    } else if RingInv(c.entries, s.q) {
      PushesFit(c, s, i);
      PopsFit(c, s, i);
      QueueEdge(c, s, i, x);
    } else {
      UnusedQueue(c, s, i, x);
    }
  }

  lemma AppendAsked(g0: seq<Ask>, p0: seq<Fetched>, g: seq<Ask>, news: seq<Fetched>)
    requires BranchesAsked(g0, p0) && BranchesAsked(g, news)
    ensures BranchesAsked(g0 + g, p0 + news)
  {
  }

  lemma AppendStream(c: Config, r0: Ref, s: State, g: seq<Ask>, news: seq<Fetched>)
    requires RefShape(c, r0) && GuessesFit(c, s.guesses) && GuessesFit(c, g)
    requires s.pushed == RefStream(c, r0, s.guesses) && news == RefStream(c, RefRun(c, r0, s.guesses), g)
    requires BranchesAsked(s.guesses, s.pushed) && BranchesAsked(g, news)
    ensures GuessesFit(c, s.guesses + g) && s.pushed + news == RefStream(c, r0, s.guesses + g)
    ensures RefRun(c, r0, s.guesses + g) == RefRun(c, RefRun(c, r0, s.guesses), g)
    ensures BranchesAsked(s.guesses + g, s.pushed + news)
  {
    RefAppend(c, r0, s.guesses, g);
    AppendAsked(s.guesses, s.pushed, g, news);
  }

  lemma HitStream(c: Config, s: State, i: Input)
    requires WellFormed(c) && TargetsFit(c) && Shape(c, s) && CtlShape(c, Comb(c, s, i)) && InputShape(c, i)
    requires ReadOk(c, s.rd, s.cacheIdx) && StreamInv(c, s) && Shape(c, Next(c, s, i))
    requires Comb(c, s, i).push > 0 && !SlotBranch(c, s, i) && s.fsm.Active? && Hit(s) && Comb(c, s, i) == HitCtl(c, s, i)
    ensures StreamInv(c, Next(c, s, i))
  {
    var r := RefRun(c, Ref(s.start, None), s.guesses);
    HitTracks(c, s, i, r);
    HitAsks(c, s, i, r);
    var g, n := Guess(c, s, i), PushCount(c, s, i);
    AppendStream(c, Ref(s.start, None), s, Guessed(g, n), Pushes(c, s, g, n));
  }

  /** A cycle without a push keeps track of the next instruction. */
  lemma ActiveTracks(c: Config, s: State, i: Input, r: Ref)
    requires WellFormed(c) && Shape(c, s) && CtlShape(c, Comb(c, s, i)) && s.fsm.Active? && Tracks(c, s, r)
    requires Comb(c, s, i).push == 0 && !Comb(c, s, i).clear && Shape(c, Next(c, s, i))
    ensures Tracks(c, Next(c, s, i), r)
  {
    assert Comb(c, s, i) == ActiveCtl(c, s, i);
  }

  lemma ReloadTracks(c: Config, s: State, i: Input, r: Ref)
    requires WellFormed(c) && Shape(c, s) && CtlShape(c, Comb(c, s, i)) && (s.fsm.InjectReload? || s.fsm.ReloadUtlb?)
    requires Tracks(c, s, r) && Shape(c, Next(c, s, i))
    ensures Tracks(c, Next(c, s, i), r)
  {
  }

  lemma WaitFacts(c: Config, s: State, i: Input)
    requires WellFormed(c) && Shape(c, s) && (s.fsm.ReloadTurnaround? || s.fsm.WaitForNotFull?)
    ensures var x := WaitCtl(c, s, i);
            !x.clear ==>
              && x.missPc == s.missPc && x.pc == s.pc && x.slot == s.slot
              && x.rdIdx == s.missPc.idx && x.rdTag == s.missPc.tag
              && (x.fsm == s.fsm || (x.fsm.Active? && x.req && x.cachePc == s.missPc))
  {
  }

  lemma WaitTracks(c: Config, s: State, i: Input, r: Ref, x: Ctl)
    requires WellFormed(c) && Shape(c, s) && CtlShape(c, x) && (s.fsm.ReloadTurnaround? || s.fsm.WaitForNotFull?)
    requires x.missPc == s.missPc && x.pc == s.pc && x.slot == s.slot
    requires x.rdIdx == s.missPc.idx && x.rdTag == s.missPc.tag
    requires x.fsm == s.fsm || (x.fsm.Active? && x.req && x.cachePc == s.missPc)
    requires Tracks(c, s, r) && Shape(c, Edge(c, s, i, x))
    ensures Tracks(c, Edge(c, s, i, x), r)
  {
  }

  lemma QuietStream(c: Config, s: State, i: Input)
    requires WellFormed(c) && Shape(c, s) && CtlShape(c, Comb(c, s, i)) && InputShape(c, i)
    requires StreamInv(c, s) && Shape(c, Next(c, s, i))
    requires Comb(c, s, i).push == 0 && !Comb(c, s, i).clear && !Comb(c, s, i).restartAck && Fetching(s.fsm)
    ensures StreamInv(c, Next(c, s, i))
  {
    var x, s' := Comb(c, s, i), Next(c, s, i);
    var r := RefRun(c, Ref(s.start, None), s.guesses);
    if s.fsm.Active? {
      ActiveTracks(c, s, i, r);
    } else if s.fsm.InjectReload? || s.fsm.ReloadUtlb? {
      ReloadTracks(c, s, i, r);
    } else {
      WaitFacts(c, s, i);
      WaitTracks(c, s, i, r, x);
    }
    assert s'.guesses == s.guesses && s'.pushed == s.pushed;
  }

  lemma RestartStream(c: Config, s: State, i: Input, x: Ctl)
    requires WellFormed(c) && Shape(c, s) && CtlShape(c, x) && InputShape(c, i) && Shape(c, Edge(c, s, i, x))
    requires x.restartAck && x.clear && x.push == 0 && x.fsm.Active? && !x.req && x.pc == i.restartPc
    ensures StreamInv(c, Edge(c, s, i, x)) <==> !x.slot
  {
  }

  /** A control transfer predicted taken in a delay slot derails the stream. */
  lemma SlotBranchDerails(c: Config, s: State, i: Input)
    requires WellFormed(c) && Shape(c, s) && CtlShape(c, Comb(c, s, i)) && TargetsFit(c) && InputShape(c, i)
    requires ReadOk(c, s.rd, s.cacheIdx) && StreamInv(c, s) && Shape(c, Next(c, s, i)) && SlotBranch(c, s, i)
    requires Hit(s) && Comb(c, s, i) == HitCtl(c, s, i)
    ensures !StreamInv(c, Next(c, s, i))
  {
    var r0, g := Ref(s.start, None), Guess(c, s, i);
    var r := RefRun(c, r0, s.guesses);
    GuessFits(c, s, i);
    assert Guessed(g, 1) == [Asked(g)];
    RefAppend(c, r0, s.guesses, [Asked(g)]);
    RefOne(c, r, Asked(g));
    PushedText(c, s, i, r, 0);
    var news := Pushes(c, s, g, 1);
    assert (s.pushed + news)[|s.pushed|].target == g;
    assert (s.pushed + RefStream(c, r, [Asked(g)]))[|s.pushed|].target == None;
  }

  /** Every cycle keeps the invariant, except a restart from IDLE with a stale delay-slot flag and a
      control transfer predicted taken in a delay slot, which both break it. */
  lemma KeepsInvariant(c: Config, s: State, i: Input)
    requires WellFormed(c) && TargetsFit(c) && Inv(c, s) && Protocol(c, s, i)
    ensures CtlShape(c, Comb(c, s, i))
    ensures Inv(c, Next(c, s, i)) <==> !StaleSlot(s, i) && !SlotBranch(c, s, i)
  {
    NextShape(c, s, i);
    QueueKeeps(c, s, i);
    StreamKeeps(c, s, i);
  }

  lemma StreamKeeps(c: Config, s: State, i: Input)
    requires WellFormed(c) && TargetsFit(c) && Shape(c, s) && Protocol(c, s, i) && ReadOk(c, s.rd, s.cacheIdx)
    requires Fetching(s.fsm) ==> StreamInv(c, s)
    requires CtlShape(c, Comb(c, s, i)) && Shape(c, Next(c, s, i))
    ensures (Fetching(Next(c, s, i).fsm) ==> StreamInv(c, Next(c, s, i))) <==>
            !StaleSlot(s, i) && !SlotBranch(c, s, i)
  {
    var x := Comb(c, s, i);
    CtlKinds(c, s, i);
    if x.restartAck {
      RestartStream(c, s, i, x);
    } else if x.push > 0 {
      if SlotBranch(c, s, i) { SlotBranchDerails(c, s, i); } else { HitStream(c, s, i); }
    } else if Fetching(s.fsm) && !x.clear {
      QuietStream(c, s, i);
    }
  }

  // ---------------------------------------------------------------- what the stream looks like

  lemma {:induction false} StreamPrefix(c: Config, r: Ref, gs: seq<Ask>, k: nat)
    requires RefShape(c, r) && GuessesFit(c, gs) && k < |gs|
    ensures GuessesFit(c, gs[..k])
    ensures RefStream(c, r, gs)[k] == RefEmit(c, RefRun(c, r, gs[..k]), gs[k])
    ensures RefRun(c, r, gs[..k + 1]) == RefNext(c, RefRun(c, r, gs[..k]), gs[k])
    decreases |gs|
  {
    var front := gs[..|gs| - 1];
    if k < |gs| - 1 {
      StreamPrefix(c, r, front, k);
      assert front[..k] == gs[..k] && front[..k + 1] == gs[..k + 1];
    } else {
      assert gs[..k + 1] == gs && gs[..k] == front;
    }
  }

  /** Every predicted-taken branch is followed by its delay slot and then by its target; everything
      else outside a delay slot is followed by the next word. */
  lemma TakenThenSlotThenTarget(c: Config, r: Ref, gs: seq<Ask>, k: nat)
    requires RefShape(c, r) && GuessesFit(c, gs) && k + 2 < |gs|
    ensures var e := RefStream(c, r, gs);
            && PcShape(c, e[k].pc)
            && (e[k].target.Some? ==> e[k + 1].pc == Inc(c, e[k].pc) && e[k + 2].pc == e[k].target.value)
            && (e[k].target.None? && (if k == 0 then r.pending.None? else e[k - 1].target.None?)
                ==> e[k + 1].pc == Inc(c, e[k].pc))
  {
    StreamPrefix(c, r, gs, k);
    StreamPrefix(c, r, gs, k + 1);
    StreamPrefix(c, r, gs, k + 2);
    if k == 0 {
      assert gs[..0] == [];
    } else {
      StreamPrefix(c, r, gs, k - 1);
    }
  }

  // ---------------------------------------------------------------- runs

  /** After reset: nothing cached, an empty queue whose far pointers are not yet in step. */
  ghost predicate Reset(c: Config, s: State) {
    && Shape(c, s) && s.fsm.Idle? && !s.slot && !s.restartReq && !s.flushReq && !s.rd.valid
    && (forall k :: 0 <= k < c.sets ==> !s.ram.valid[k])
    && s.q.head == s.q.tail == 0 && s.q.nextHead == s.q.nextTail == s.q.next3 == s.q.next4 == 1
  }

  lemma ResetEstablishesInvariant(c: Config, s: State)
    requires WellFormed(c) && Reset(c, s)
    ensures Inv(c, s)
  {
    assert !RingInv(c.entries, s.q);
  }

  /** Inputs that follow the protocol and never meet one of the two hazards. */
  ghost predicate Legal(c: Config, s: State, ins: seq<Input>)
    requires WellFormed(c)
    decreases |ins|
  {
    ins == [] ||
    ( && Shape(c, s) && Protocol(c, s, ins[0]) && CtlShape(c, Comb(c, s, ins[0]))
      && !StaleSlot(s, ins[0]) && !SlotBranch(c, s, ins[0]) && Legal(c, Next(c, s, ins[0]), ins[1..]))
  }

  ghost function Run(c: Config, s: State, ins: seq<Input>): State
    requires WellFormed(c) && Legal(c, s, ins)
    decreases |ins|
  {
    if ins == [] then s else Run(c, Next(c, s, ins[0]), ins[1..])
  }

  lemma {:induction false} RunKeepsInvariant(c: Config, s: State, ins: seq<Input>)
    requires WellFormed(c) && TargetsFit(c) && Inv(c, s) && Legal(c, s, ins)
    ensures Inv(c, Run(c, s, ins))
    decreases |ins|
  {
    if ins != [] {
      KeepsInvariant(c, s, ins[0]);
      RunKeepsInvariant(c, Next(c, s, ins[0]), ins[1..]);
    }
  }

  /** In every run, what was pushed since the last restart is what one-at-a-time fetch emits under the
      same predictions, every control transfer got its prediction, and the queue holds what the
      decoder has not taken. */
  lemma EveryRunFetchesSequentially(c: Config, s: State, ins: seq<Input>)
    requires WellFormed(c) && TargetsFit(c) && Reset(c, s) && Legal(c, s, ins)
    ensures var e := Run(c, s, ins);
            Fetching(e.fsm) ==>
              && PcShape(c, e.start) && GuessesFit(c, e.guesses)
              && e.pushed == RefStream(c, Ref(e.start, None), e.guesses)
              && BranchesAsked(e.guesses, e.pushed)
              && RingInv(c.entries, e.q) && e.popped <= |e.pushed|
              && Contents(c.entries, e.q) == e.pushed[e.popped..]
  {
    ResetEstablishesInvariant(c, s);
    RunKeepsInvariant(c, s, ins);
  }

  /** The conditions on which l1i.sv stops the simulation never hold: a push onto a full queue, or
      of four with fewer than four slots; and no group overruns the queue. */
  lemma NoOverflow(c: Config, s: State, i: Input)
    requires WellFormed(c) && Inv(c, s) && Comb(c, s, i).push > 0
    ensures RingInv(c.entries, s.q) && Len(c.entries, s.q) + Comb(c, s, i).push <= c.entries
    ensures !Full(c.entries, s.q, 1) && (Comb(c, s, i).push == 4 ==> !Full(c.entries, s.q, 4))
  {
    CtlKinds(c, s, i);
    GroupFacts(c, s, i);
    PushesFit(c, s, i);
  }

  /** Reset leaves the far pointers out of step, but nothing relies on them: as long as they are wrong
      the unit idles with an empty queue and pushes nothing, the first clear puts them in step, and
      from then on every flag is exact. */
  lemma FlagsExactAfterClear(c: Config, s: State, i: Input, k: nat)
    requires WellFormed(c) && TargetsFit(c) && Inv(c, s) && Protocol(c, s, i) && 1 <= k <= 4
    ensures CtlShape(c, Comb(c, s, i))
    ensures !RingInv(c.entries, s.q) ==> s.fsm.Idle? && Empty(s.q) && Comb(c, s, i).push == 0
    ensures RingInv(c.entries, s.q) || Comb(c, s, i).clear ==>
              var q := Next(c, s, i).q;
              RingInv(c.entries, q) && (Full(c.entries, q, k) <==> c.entries - Len(c.entries, q) < k)
  {
    var x := Comb(c, s, i);
    CombShape(c, s, i);
    if x.clear {
      FlagsCountFreeSlots(c.entries, Next(c, s, i).q, k);
    } else if RingInv(c.entries, s.q) {
      PushesFit(c, s, i);
      PopsFit(c, s, i);
      PointersKeep(c.entries, s.q, Pushes(c, s, Guess(c, s, i), x.push), Pops(i));
      FlagsCountFreeSlots(c.entries, Next(c, s, i).q, k);
    }
  }

  // ---------------------------------------------------------------- flush

  /** The walk has invalidated the sets before its own, and in IDLE nothing is cached. */
  ghost predicate FlushInv(c: Config, s: State)
    requires Shape(c, s)
  {
    && (s.fsm.FlushCache? ==> forall k :: 0 <= k < s.cacheIdx ==> !s.ram.valid[k])
    && (s.fsm.Idle? ==> forall k :: 0 <= k < c.sets ==> !s.ram.valid[k])
  }

  /** A walk starts at set 0 and goes on to the next set, and IDLE is entered from its last one. */
  lemma WalkFacts(c: Config, s: State, i: Input)
    requires WellFormed(c) && Shape(c, s)
    ensures var x := Comb(c, s, i);
            && (x.fsm.FlushCache? ==> x.rdIdx == 0 || (s.fsm.FlushCache? && x.rdIdx == s.cacheIdx + 1))
            && (x.fsm.Idle? ==> s.fsm.Idle? || (s.fsm.FlushCache? && s.cacheIdx + 1 == c.sets))
  {
    match s.fsm {
      case Active => ActiveKinds(c, s, i);
      case ReloadTurnaround => WaitKinds(c, s, i);
      case WaitForNotFull => WaitKinds(c, s, i);
      case _ =>
    }
  }

  lemma FlushKeeps(c: Config, s: State, i: Input)
    requires WellFormed(c) && Shape(c, s) && CtlShape(c, Comb(c, s, i)) && Shape(c, Next(c, s, i)) && Protocol(c, s, i)
    requires FlushInv(c, s)
    ensures FlushInv(c, Next(c, s, i))
  {
    WalkFacts(c, s, i);
    RamAfter(c, s, i);
  }

  /** Without a reload the walk clears the set that it visits and nothing else changes. */
  lemma RamAfter(c: Config, s: State, i: Input)
    requires WellFormed(c) && Shape(c, s) && (i.memRsp ==> s.fsm.InjectReload?)
    ensures s.fsm.FlushCache? ==> NextRam(c, s, i).valid == s.ram.valid[s.cacheIdx := false]
    ensures s.fsm.Idle? ==> NextRam(c, s, i).valid == s.ram.valid
  {
  }

  lemma {:induction false} RunKeepsFlush(c: Config, s: State, ins: seq<Input>)
    requires WellFormed(c) && TargetsFit(c) && Inv(c, s) && Legal(c, s, ins) && FlushInv(c, s)
    ensures Shape(c, Run(c, s, ins)) && FlushInv(c, Run(c, s, ins))
    decreases |ins|
  {
    if ins != [] {
      KeepsInvariant(c, s, ins[0]);
      FlushKeeps(c, s, ins[0]);
      RunKeepsFlush(c, Next(c, s, ins[0]), ins[1..]);
    }
  }

  /** In every run, when the flush walk has returned to IDLE no line is valid. */
  lemma FlushInvalidatesAll(c: Config, s: State, ins: seq<Input>, k: nat)
    requires WellFormed(c) && TargetsFit(c) && Reset(c, s) && Legal(c, s, ins) && Run(c, s, ins).fsm.Idle? && k < c.sets
    ensures k < |Run(c, s, ins).ram.valid| && !Run(c, s, ins).ram.valid[k]
  {
    ResetEstablishesInvariant(c, s);
    RunKeepsFlush(c, s, ins);
  }

  // ---------------------------------------------------------------- the clocked unit

  class FetchUnit {
    const c: Config
    var regs: State

    ghost predicate Valid()
      reads this
    {
      WellFormed(c) && TargetsFit(c) && Inv(c, regs)
    }

    constructor (c: Config, reset: State)
      requires WellFormed(c) && TargetsFit(c) && Reset(c, reset)
      ensures Valid() && this.c == c && regs == reset
    {
      this.c, this.regs := c, reset;
      ResetEstablishesInvariant(c, reset);
    }

    /** One clock cycle; returns what was pushed. */
    method Clock(i: Input) returns (news: seq<Fetched>)
      requires Valid() && Protocol(c, regs, i) && !StaleSlot(regs, i) && !SlotBranch(c, regs, i)
      modifies this
      ensures Valid() && CtlShape(c, Comb(c, old(regs), i)) && regs == Next(c, old(regs), i)
      ensures |news| == Comb(c, old(regs), i).push
      ensures !Comb(c, old(regs), i).clear ==> regs.pushed == old(regs.pushed) + news
    {
      KeepsInvariant(c, regs, i);
      news := Pushes(c, regs, Guess(c, regs, i), Comb(c, regs, i).push);
      regs := Next(c, regs, i);
    }
  }
}
