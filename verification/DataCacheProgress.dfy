/**
  Progress of the data cache (l1d.sv): every accepted load is answered after a bounded number of cycles
  in which the cache waits neither for memory nor for the retirement of the store at the queue head.
 */
module DataCacheProgress {
  import opened MemoryTypes
  import opened DataCache
  import opened DataCacheInvariant
  import opened DataCacheProof
  import opened DataCacheTheorems
  import opened DataCacheRuns

  // ---------------------------------------------------------------- the rank of a waiting load

  /** Where an operation waits: on port 1, as number j of the queue, or on port 2. */
  datatype Place = OnPort1 | InQueue(j: nat) | OnPort2

  predicate Waiting(s: State, p: Place) {
    match p case OnPort1 => Held1(s) != [] case InQueue(j) => j < |s.mq| case OnPort2 => s.got2
  }
  function OpAt(s: State, p: Place): Op
    requires Waiting(s, p)
  {
    match p case OnPort1 => s.op case InQueue(j) => s.mq[j] case OnPort2 => s.op2
  }

  /** Cycles of work left for the operation on port 1: write a victim back, fill the line, retry, hit. */
  function Stage(s: State): (n: nat)
    ensures n <= 7
  {
    match s.fsm
    case Active => if !s.got then 0 else if Hit1(s) then 1 else if s.rd.valid && s.rd.dirty then 7 else 4
    case Inject => if s.lock then 6 else 3
    case HandleReload => if s.lock then 5 else 2
    case _ => 0
  }

  /** Cycles of work left for the flush under way. */
  function FlushStage(c: Config, s: State): nat {
    match s.fsm
    case FlushLine => 2
    case FlushLineWait => 1
    case _ => FlushRank(c, s)
  }

  /** The work before the operation at a place is answered; from port 2 it may still meet a flush. */
  function Rank(c: Config, s: State, p: Place): nat {
    match p
    case OnPort1 => Stage(s)
    case InQueue(j) => Stage(s) + FlushStage(c, s) + 8 * (j + 1)
    case OnPort2 => Stage(s) + 8 * |s.mq| + 2 * c.sets + 9
  }

  function LoadBound(c: Config): nat { 8 * c.mrq + 2 * c.sets + 8 }

  /** The cache waits for memory, or for the ROB to retire or squash the store at the queue head. */
  predicate Waits(s: State, i: Input)
    requires |s.mq| > 0 ==> s.mq[0].req.rob < |s.grad|
  {
    || (i.rsp.None? && (s.fsm.Inject? || s.fsm.FlushAllWait? || s.fsm.FlushLineWait?))
    || (&& s.fsm.Active? && !s.got && s.mq != [] && IsStore(s.mq[0].req)
        && !s.grad[s.mq[0].req.rob].Retired? && !(i.drain && s.mq[0].req.rob in i.dead))
  }

  ghost predicate IsLoad(s: State, p: Place) { Waiting(s, p) && !IsStore(OpAt(s, p).req) }

  /** The operation at p of s is at p' of s', with less work before it unless the cycle waits. */
  ghost predicate Advances(c: Config, s: State, i: Input, p: Place, s': State, p': Place)
    requires |s.mq| > 0 ==> s.mq[0].req.rob < |s.grad|
  {
    && Waiting(s, p) && Waiting(s', p') && TicketOf(OpAt(s', p')) == TicketOf(OpAt(s, p))
    && Rank(c, s', p') <= Rank(c, s, p) && (!Waits(s, i) ==> Rank(c, s', p') < Rank(c, s, p))
  }

  lemma Closer(c: Config, s: State, i: Input, p: Place, s': State, p': Place)
    requires (|s.mq| > 0 ==> s.mq[0].req.rob < |s.grad|) && Waiting(s, p) && Waiting(s', p')
    requires TicketOf(OpAt(s', p')) == TicketOf(OpAt(s, p)) && Rank(c, s', p') < Rank(c, s, p)
    ensures Advances(c, s, i, p, s', p')
  {
  }

  lemma StageBounds(c: Config, s: State)
    requires WellFormed(c) && Sized(c, s) && Port1Inv(c, s) && FsmInv(c, s)
    ensures Held1(s) != [] ==> Stage(s) >= 1
    ensures Stage(s) + FlushStage(c, s) <= 2 * c.sets + 3
  {
  }

  lemma RankBounds(c: Config, s: State, p: Place)
    requires WellFormed(c) && Shape(c, s) && Port1Inv(c, s) && BypassInv(c, s) && FsmInv(c, s) && Waiting(s, p)
    ensures 1 <= Rank(c, s, p) <= LoadBound(c)
  {
    StageBounds(c, s);
  }

  // ---------------------------------------------------------------- outside ACTIVE

  lemma ReloadStage(c: Config, s: State, i: Input, s': State)
    requires Step(c, s, i) && OtherEdge(c, s, i, s') && (s.fsm.Inject? || s.fsm.HandleReload?) && BusRule(s, i)
    requires Port1Inv(c, s) && FsmInv(c, s) && Port1Inv(c, s')
    ensures Stage(s') <= Stage(s) && (!Waits(s, i) ==> Stage(s') < Stage(s))
    ensures FlushStage(c, s) == 0 && FlushStage(c, s') == 0
  {
  }

  lemma FlushStageFalls(c: Config, s: State, i: Input, s': State)
    requires Step(c, s, i) && OtherEdge(c, s, i, s') && BusRule(s, i) && FsmInv(c, s)
    requires s.fsm.FlushAll? || s.fsm.FlushAllWait? || s.fsm.FlushLine? || s.fsm.FlushLineWait?
    ensures Stage(s) == 0 && Stage(s') == 0 && Held1(s) == []
    ensures FlushStage(c, s') <= FlushStage(c, s) && (!Waits(s, i) ==> FlushStage(c, s') < FlushStage(c, s))
  {
  }

  lemma OtherStage(c: Config, s: State, i: Input, s': State)
    requires Step(c, s, i) && OtherEdge(c, s, i, s') && !s.fsm.Active? && BusRule(s, i)
    requires Port1Inv(c, s) && FsmInv(c, s) && Port1Inv(c, s')
    ensures Stage(s') + FlushStage(c, s') <= Stage(s) + FlushStage(c, s)
    ensures !Waits(s, i) ==> Stage(s') + FlushStage(c, s') < Stage(s) + FlushStage(c, s)
    ensures Held1(s) != [] ==> FlushStage(c, s) == 0 && FlushStage(c, s') == 0
  {
    if s.fsm.Inject? || s.fsm.HandleReload? { ReloadStage(c, s, i, s'); } else { FlushStageFalls(c, s, i, s'); }
  }

  lemma OtherAdvances(c: Config, s: State, i: Input, p: Place, s': State)
    requires Step(c, s, i) && OtherEdge(c, s, i, s') && !s.fsm.Active? && BusRule(s, i) && Waiting(s, p)
    requires Port1Inv(c, s) && Port2Inv(c, s) && FsmInv(c, s) && Port1Inv(c, s')
    ensures Advances(c, s, i, p, s', p)
  {
    OtherStage(c, s, i, s');
    OtherHeld(c, s, i, s');
    OtherParts(c, s, i, s');
  }

  // ---------------------------------------------------------------- in ACTIVE

  /** A miss enters the reload ... */
  lemma MissStage(c: Config, s: State, i: Input, s': State)
    requires Ready(c, s, i) && ActiveEdge(c, s, i, s') && Port1Inv(c, s) && !FlushClash(s) && IsMiss(Port1Action(s))
    ensures Stage(s') < Stage(s) && FlushStage(c, s') == 0 && PopAction(c, s, i).Keep?
  {
    Port1Facts(c, s);
    MissKeepsAll(c, s, i);
    assert FlushAction(s, false).NoFlush?;
  }

  /** ... and anything else leaves port 1. */
  lemma LeaveStage(c: Config, s: State, i: Input, s': State)
    requires Ready(c, s, i) && ActiveEdge(c, s, i, s') && Port1Inv(c, s) && !IsMiss(Port1Action(s))
    ensures !PopAction(c, s, i).Fire? ==> Stage(s') == 0 && (s.got ==> Stage(s) >= 1)
    ensures s.mq != [] ==> FlushStage(c, s') == 0
    ensures FlushStage(c, s') <= 2 * c.sets
  {
  }

  /** Port 1 moves on, and no flush starts while the queue holds something. */
  lemma ActiveStage(c: Config, s: State, i: Input, s': State)
    requires Ready(c, s, i) && ActiveEdge(c, s, i, s') && Port1Inv(c, s) && !FlushClash(s)
    ensures IsMiss(Port1Action(s)) ==> Stage(s') < Stage(s) && FlushStage(c, s') == 0 && PopAction(c, s, i).Keep?
    ensures !IsMiss(Port1Action(s)) && !PopAction(c, s, i).Fire? ==> Stage(s') == 0 && (s.got ==> Stage(s) >= 1)
    ensures s.mq != [] ==> FlushStage(c, s') == 0
    ensures FlushStage(c, s') <= 2 * c.sets
  {
    if IsMiss(Port1Action(s)) { MissStage(c, s, i, s'); } else { LeaveStage(c, s, i, s'); }
  }

  /** Why the queue head stays although port 1 does not miss. */
  lemma KeepReason(c: Config, s: State, i: Input)
    requires Ready(c, s, i) && Port1Inv(c, s) && s.mq != [] && !IsMiss(Port1Action(s)) && PopAction(c, s, i).Keep?
    ensures s.got || Waits(s, i)
  {
    Port1Facts(c, s);
  }

  lemma QueueTicket(s: State, i: Input, pop: Pop, push: bool, j: nat)
    requires (!pop.Keep? ==> s.mq != []) && j < |NextQueue(s, i, pop, push)|
    ensures var skip := if pop.Keep? then 0 else 1;
            TicketOf(NextQueue(s, i, pop, push)[j]) ==
            if j + skip < |s.mq| then TicketOf(s.mq[j + skip]) else TicketOf(s.op2)
  {
  }

  /** Number j of the queue stays behind the head, or moves up by one place when the head leaves. */
  lemma QueueMoves(c: Config, s: State, i: Input, j: nat, s': State, j': nat)
    requires Ready(c, s, i) && ActiveEdge(c, s, i, s') && j < |s.mq|
    requires if PopAction(c, s, i).Keep? then j' == j else j > 0 && j' == j - 1
    ensures j' < |s'.mq| && TicketOf(s'.mq[j']) == TicketOf(s.mq[j])
  {
    QueueLength(s, i, PopAction(c, s, i), Port2Action(c, s, i).push);
    QueueTicket(s, i, PopAction(c, s, i), Port2Action(c, s, i).push, j');
  }

  lemma QueueStays(c: Config, s: State, i: Input, j: nat, s': State)
    requires Ready(c, s, i) && ActiveEdge(c, s, i, s') && Port1Inv(c, s) && !FlushClash(s)
    requires j < |s.mq| && PopAction(c, s, i).Keep?
    ensures Advances(c, s, i, InQueue(j), s', InQueue(j))
  {
    ActiveStage(c, s, i, s');
    if !IsMiss(Port1Action(s)) { KeepReason(c, s, i); }
    QueueMoves(c, s, i, j, s', j);
  }

  lemma UpRank(c: Config, s: State, i: Input, j: nat, s': State)
    requires Ready(c, s, i) && ActiveEdge(c, s, i, s') && Port1Inv(c, s) && !FlushClash(s) && 0 < j < |s.mq|
    ensures Rank(c, s', InQueue(j - 1)) < Rank(c, s, InQueue(j))
  {
    ActiveStage(c, s, i, s');
  }

  lemma QueueMovesUp(c: Config, s: State, i: Input, j: nat, s': State)
    requires Ready(c, s, i) && ActiveEdge(c, s, i, s') && Port1Inv(c, s) && !FlushClash(s)
    requires 0 < j < |s.mq| && !PopAction(c, s, i).Keep?
    ensures Advances(c, s, i, InQueue(j), s', InQueue(j - 1))
  {
    UpRank(c, s, i, j, s');
    QueueMoves(c, s, i, j, s', j - 1);
    Closer(c, s, i, InQueue(j), s', InQueue(j - 1));
  }

  lemma HeadFires(c: Config, s: State, i: Input, s': State)
    requires Ready(c, s, i) && ActiveEdge(c, s, i, s') && Port1Inv(c, s) && !FlushClash(s)
    requires s.mq != [] && !IsStore(s.mq[0].req) && !PopAction(c, s, i).Keep?
    ensures Advances(c, s, i, InQueue(0), s', OnPort1)
  {
    ActiveStage(c, s, i, s');
    ActiveHeld1(c, s, i, s');
    assert PopAction(c, s, i).Fire?;
  }

  /** A load in the queue moves up, or stays while the cycle waits. */
  lemma QueueAdvances(c: Config, s: State, i: Input, j: nat, s': State) returns (p': Place)
    requires Ready(c, s, i) && ActiveEdge(c, s, i, s') && Port1Inv(c, s) && !FlushClash(s)
    requires j < |s.mq| && !IsStore(s.mq[j].req)
    ensures Advances(c, s, i, InQueue(j), s', p')
  {
    if PopAction(c, s, i).Keep? {
      QueueStays(c, s, i, j, s');
      p' := InQueue(j);
    } else if j == 0 {
      HeadFires(c, s, i, s');
      p' := OnPort1;
    } else {
      QueueMovesUp(c, s, i, j, s');
      p' := InQueue(j - 1);
    }
  }

  /** A push leaves more than enough: a pop takes one place away and a flush fits into the allowance. */
  lemma PushedRank(c: Config, s: State, i: Input, s': State)
    requires Ready(c, s, i) && ActiveEdge(c, s, i, s') && Port1Inv(c, s) && !FlushClash(s)
    requires Port2Action(c, s, i).push
    ensures |s'.mq| > 0 && Rank(c, s', InQueue(|s'.mq| - 1)) < Rank(c, s, OnPort2)
  {
    assert !PopAction(c, s, i).Drop?;
    ActiveStage(c, s, i, s');
    QueueLength(s, i, PopAction(c, s, i), true);
  }

  lemma PushedTicket(c: Config, s: State, i: Input, s': State)
    requires Ready(c, s, i) && ActiveEdge(c, s, i, s') && Port2Action(c, s, i).push
    ensures |s'.mq| > 0 && TicketOf(s'.mq[|s'.mq| - 1]) == TicketOf(s.op2)
  {
    QueueLength(s, i, PopAction(c, s, i), true);
    QueueTicket(s, i, PopAction(c, s, i), true, |s'.mq| - 1);
  }

  /** A load on port 2 that is not answered enters the queue. */
  lemma Port2Advances(c: Config, s: State, i: Input, s': State)
    requires Ready(c, s, i) && ActiveEdge(c, s, i, s') && Port1Inv(c, s) && !FlushClash(s)
    requires Port2Action(c, s, i).push
    ensures |s'.mq| > 0 && Advances(c, s, i, OnPort2, s', InQueue(|s'.mq| - 1))
  {
    PushedRank(c, s, i, s');
    PushedTicket(c, s, i, s');
    Closer(c, s, i, OnPort2, s', InQueue(|s'.mq| - 1));
  }

  lemma Port1Advances(c: Config, s: State, i: Input, s': State)
    requires Ready(c, s, i) && ActiveEdge(c, s, i, s') && Port1Inv(c, s) && !FlushClash(s)
    requires s.got && IsMiss(Port1Action(s))
    ensures Advances(c, s, i, OnPort1, s', OnPort1)
  {
    ActiveStage(c, s, i, s');
    ActiveHeld1(c, s, i, s');
  }

  /** The cycle answers the operation at p. */
  ghost predicate AnswersIt(c: Config, s: State, i: Input, p: Place)
    requires Step(c, s, i)
  {
    Waiting(s, p) && Comb(c, s, i).rsp.Some? && Comb(c, s, i).rsp.value.op == OpAt(s, p)
  }

  lemma HitAnswers(c: Config, s: State, i: Input)
    requires Ready(c, s, i) && Port1Inv(c, s) && s.got && !IsStore(s.op.req) && !IsMiss(Port1Action(s))
    ensures AnswersIt(c, s, i, OnPort1)
  {
    RspIs(c, s, i);
    assert Port1Action(s).LoadHit?;
  }

  lemma Port2Answers(c: Config, s: State, i: Input)
    requires Ready(c, s, i) && BypassInv(c, s) && s.got2 && !Port2Action(c, s, i).push
    ensures AnswersIt(c, s, i, OnPort2)
  {
    RspIs(c, s, i);
    Port2Cases(c, s, i);
  }

  lemma ActiveAdvances(c: Config, s: State, i: Input, p: Place, s': State) returns (p': Place)
    requires Ready(c, s, i) && ActiveEdge(c, s, i, s') && Port1Inv(c, s) && BypassInv(c, s) && !FlushClash(s) && IsLoad(s, p)
    ensures AnswersIt(c, s, i, p) || Advances(c, s, i, p, s', p')
  {
    match p {
      case OnPort1 =>
        p' := OnPort1;
        if IsMiss(Port1Action(s)) { Port1Advances(c, s, i, s'); } else { HitAnswers(c, s, i); }
      case InQueue(j) =>
        p' := QueueAdvances(c, s, i, j, s');
      case OnPort2 =>
        p' := OnPort1;
        if Port2Action(c, s, i).push {
          Port2Advances(c, s, i, s');
          p' := InQueue(|s'.mq| - 1);
        } else {
          Port2Answers(c, s, i);
        }
    }
  }

  // ---------------------------------------------------------------- every cycle

  /** In every cycle each waiting load is answered, or the work before it shrinks, or the cache waits. */
  lemma LoadAdvances(c: Config, s: State, i: Input, p: Place) returns (p': Place)
    requires WellFormed(c) && Inv(c, s) && Protocol(c, s, i) && !FlushClash(s) && IsLoad(s, p)
    ensures AnswersIt(c, s, i, p) || Advances(c, s, i, p, Next(c, s, i), p')
  {
    var s' := Next(c, s, i);
    KeepsInvariant(c, s, i);
    if s.fsm.Active? {
      ActiveEdgeHolds(c, s, i);
      p' := ActiveAdvances(c, s, i, p, s');
    } else {
      OtherEdgeHolds(c, s, i);
      OtherAdvances(c, s, i, p, s');
      p' := p;
    }
  }

  /** The cycles of a run in which the cache does not wait. */
  ghost function Working(c: Config, s: State, ins: seq<Input>): nat
    requires WellFormed(c) && Legal(c, s, ins)
    decreases |ins|
  {
    if ins == [] then 0
    else (if Waits(s, ins[0]) then 0 else 1) + Working(c, Next(c, s, ins[0]), ins[1..])
  }

  ghost predicate IsAnswered(rs: seq<Reply>, t: Ticket) { exists n :: 0 <= n < |rs| && TicketOf(rs[n].op) == t }

  lemma AnsweredLater(r: Option<Reply>, rs: seq<Reply>, t: Ticket)
    requires IsAnswered(rs, t)
    ensures IsAnswered(Listed(r) + rs, t)
  {
    var n :| 0 <= n < |rs| && TicketOf(rs[n].op) == t;
    assert (Listed(r) + rs)[|Listed(r)| + n] == rs[n];
  }

  lemma AnsweredFirst(r: Option<Reply>, rs: seq<Reply>)
    requires r.Some?
    ensures IsAnswered(Listed(r) + rs, TicketOf(r.value.op))
  {
    assert (Listed(r) + rs)[0] == r.value;
  }

  lemma AnsweredNow(c: Config, s: State, ins: seq<Input>, p: Place)
    requires WellFormed(c) && Legal(c, s, ins) && ins != [] && AnswersIt(c, s, ins[0], p)
    ensures IsAnswered(Answers(c, s, ins), TicketOf(OpAt(s, p)))
  {
    AnsweredFirst(ReplyOf(c, s, ins[0]), Answers(c, Next(c, s, ins[0]), ins[1..]));
  }

  lemma AnsweredThen(c: Config, s: State, ins: seq<Input>, t: Ticket)
    requires WellFormed(c) && Legal(c, s, ins) && ins != []
    requires IsAnswered(Answers(c, Next(c, s, ins[0]), ins[1..]), t)
    ensures IsAnswered(Answers(c, s, ins), t)
  {
    AnsweredLater(ReplyOf(c, s, ins[0]), Answers(c, Next(c, s, ins[0]), ins[1..]), t);
  }

  /** What is left to work decreases with what is left before the load. */
  lemma WorkLeft(c: Config, s: State, ins: seq<Input>, p: Place, p': Place)
    requires WellFormed(c) && Legal(c, s, ins) && ins != [] && Advances(c, s, ins[0], p, Next(c, s, ins[0]), p')
    ensures Rank(c, Next(c, s, ins[0]), p') + Working(c, s, ins) <= Rank(c, s, p) + Working(c, Next(c, s, ins[0]), ins[1..])
  {
  }

  /** A load is answered once the run has worked for as many cycles as its rank. */
  lemma {:induction false} AnsweredByRank(c: Config, s: State, ins: seq<Input>, p: Place)
    requires WellFormed(c) && Inv(c, s) && Legal(c, s, ins) && IsLoad(s, p) && Working(c, s, ins) >= Rank(c, s, p)
    ensures IsAnswered(Answers(c, s, ins), TicketOf(OpAt(s, p)))
    decreases |ins|
  {
    RankBounds(c, s, p);
    var p' := LoadAdvances(c, s, ins[0], p);
    if AnswersIt(c, s, ins[0], p) {
      AnsweredNow(c, s, ins, p);
    } else {
      WorkLeft(c, s, ins, p, p');
      KeepsInvariant(c, s, ins[0]);
      AnsweredByRank(c, Next(c, s, ins[0]), ins[1..], p');
      AnsweredThen(c, s, ins, TicketOf(OpAt(s, p)));
    }
  }

  /** The run discards nothing. */
  predicate NoDrain(ins: seq<Input>) { forall i :: i in ins ==> !i.drain }

  lemma {:induction false} NothingDiscarded(c: Config, s: State, ins: seq<Input>)
    requires WellFormed(c) && Legal(c, s, ins) && NoDrain(ins)
    ensures forall r :: r in Answers(c, s, ins) ==> !r.discarded
    decreases |ins|
  {
    if ins != [] {
      NothingDiscarded(c, Next(c, s, ins[0]), ins[1..]);
      assert ins[0] in ins;
    }
  }

  /** t is answered with a value, the reference memory's unless it was squashed. */
  ghost predicate GetsValue(c: Config, rs: seq<Reply>, t: Ticket) {
    exists n :: 0 <= n < |rs| && TicketOf(rs[n].op) == t && rs[n].answer.Loaded?
                && (!rs[n].op.squashed ==> rs[n].answer.value == c.extract(t.req.pay, t.seen))
  }

  lemma RightMeansValue(c: Config, rs: seq<Reply>, t: Ticket)
    requires IsAnswered(rs, t) && AllRight(c, rs) && (forall r :: r in rs ==> !r.discarded)
    requires !IsStore(t.req) && !IsMoveOp(t.req.pay.op)
    ensures GetsValue(c, rs, t)
  {
    var n :| 0 <= n < |rs| && TicketOf(rs[n].op) == t;
    assert rs[n] in rs && RightAnswer(c, rs[n]);
  }

  lemma {:induction false} RunKeepsExcuses(c: Config, s: State, ins: seq<Input>)
    requires WellFormed(c) && Inv(c, s) && Excused(s) && Legal(c, s, ins)
    ensures Excused(Run(c, s, ins))
    decreases |ins|
  {
    if ins != [] {
      KeepsInvariant(c, s, ins[0]);
      OnlySquashedLosePrediction(c, s, ins[0]);
      RunKeepsExcuses(c, Next(c, s, ins[0]), ins[1..]);
    }
  }

  /** Every load that a run from reset has accepted and not answered is answered in any continuation in
      which the cache works for LoadBound cycles; in the others it waits for memory, or for the ROB to
      decide about the store at the queue head.  The answer is of the right kind, and without a drain it
      is a value, flat memory's unless the load was squashed before. */
  lemma EveryLoadIsAnswered(c: Config, s: State, before: seq<Input>, ins: seq<Input>, p: Place)
    requires WellFormed(c) && Reset(c, s) && Legal(c, s, before) && Legal(c, Run(c, s, before), ins)
    requires IsLoad(Run(c, s, before), p) && Working(c, Run(c, s, before), ins) >= LoadBound(c)
    ensures var t, rs := TicketOf(OpAt(Run(c, s, before), p)), Answers(c, Run(c, s, before), ins);
            && IsAnswered(rs, t) && AllRight(c, rs)
            && (NoDrain(ins) && !IsMoveOp(t.req.pay.op) ==> GetsValue(c, rs, t))
  {
    var u := Run(c, s, before);
    ResetEstablishesInvariant(c, s);
    RunKeepsInvariant(c, s, before);
    assert Order(s) == [] && Excused(s);
    RunKeepsExcuses(c, s, before);
    RankBounds(c, u, p);
    AnsweredByRank(c, u, ins, p);
    RunAnswersFlatMemory(c, u, ins);
    if NoDrain(ins) && !IsMoveOp(OpAt(u, p).req.pay.op) {
      NothingDiscarded(c, u, ins);
      RightMeansValue(c, Answers(c, u, ins), TicketOf(OpAt(u, p)));
    }
  }
}
