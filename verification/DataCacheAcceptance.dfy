/**
  What the data cache takes and keeps (l1d.sv): no graduation entry is ever lost, a request that is offered is accepted
  after bounded work, and a store that is accepted is written or squashed after bounded work.
 */
module DataCacheAcceptance {
  import opened MemoryTypes
  import opened DataCache
  import opened DataCacheInvariant
  import opened DataCacheProof
  import opened DataCacheTheorems
  import opened DataCacheRuns
  import opened DataCacheProgress

  // ---------------------------------------------------------------- graduation entries

  /** The store at place p, on port 1 or in the queue, has ROB index r. */
  ghost predicate OwnedAt(s: State, p: Place, r: nat) {
    !p.OnPort2? && Waiting(s, p) && IsStore(OpAt(s, p).req) && OpAt(s, p).req.rob == r
  }

  /** Every graduation entry in use belongs to a waiting store. */
  ghost predicate NoLeak(s: State) {
    forall r :: 0 <= r < |s.grad| && !s.grad[r].Free? ==> exists p: Place :: OwnedAt(s, p, r)
  }

  /** How the stores of port 1 and the queue move in a cycle with signals k. */
  ghost predicate Moved(s: State, i: Input, k: Ctl, s': State) {
    && (!k.pop.Keep? ==> s.mq != []) && s'.mq == NextQueue(s, i, k.pop, k.push)
    && Held1(s') == (if k.pop.Fire? then [s.mq[0]]
                     else if s.fsm.Active? && !IsMiss(Port1Action(s)) then [] else Held1(s))
  }

  lemma MovedHolds(c: Config, s: State, i: Input)
    requires Step(c, s, i) && Port1Inv(c, s) && FsmInv(c, s) && !FlushClash(s)
    ensures Moved(s, i, Comb(c, s, i), Next(c, s, i))
  {
    NextHeld1(c, s, i);
  }

  lemma QueueOwner(s: State, i: Input, k: Ctl, s': State, j: nat, r: nat) returns (p': Place)
    requires Moved(s, i, k, s') && OwnedAt(s, InQueue(j), r) && (k.pop.Drop? ==> j > 0)
    ensures OwnedAt(s', p', r)
  {
    QueueLength(s, i, k.pop, k.push);
    p' := if k.pop.Keep? then InQueue(j) else if j > 0 then InQueue(j - 1) else OnPort1;
    if j > 0 || k.pop.Keep? {
      QueueReqAt(s, i, k.pop, k.push, if k.pop.Keep? then j else j - 1);
    }
  }

  lemma PushOwner(s: State, i: Input, k: Ctl, s': State) returns (p': Place)
    requires Moved(s, i, k, s') && k.push && IsStore(s.op2.req)
    ensures OwnedAt(s', p', s.op2.req.rob)
  {
    QueueLength(s, i, k.pop, k.push);
    p' := InQueue(|s'.mq| - 1);
    QueueReqAt(s, i, k.pop, k.push, |s'.mq| - 1);
  }

  /** An entry in use was taken by the store that enters the queue, or was in use and is not given back. */
  lemma InUse(s: State, i: Input, k: Ctl, r: nat)
    requires r < |s.grad| && (k.pop.Drop? ==> s.mq != []) && !GradAfter(s, i, k, r).Free?
    ensures (k.push && IsStore(s.op2.req) && r == s.op2.req.rob) ||
            (&& !s.grad[r].Free? && !(k.pop.Drop? && r == s.mq[0].req.rob)
             && !(s.fsm.Active? && Port1Action(s).StoreHit? && r == s.op.req.rob))
  {
  }

  lemma Port1Stays(s: State, i: Input, k: Ctl, s': State, r: nat)
    requires Moved(s, i, k, s') && OwnedAt(s, OnPort1, r) && !(k.pop.Fire? && IsMiss(Port1Action(s)))
    requires !(s.fsm.Active? && Port1Action(s).StoreHit?) && (k.pop.Fire? ==> s.fsm.Active?)
    ensures OwnedAt(s', OnPort1, r)
  {
  }

  lemma KeepsOwner(s: State, i: Input, k: Ctl, s': State, r: nat) returns (p': Place)
    requires Moved(s, i, k, s') && NoLeak(s) && r < |s.grad| && !GradAfter(s, i, k, r).Free?
    requires k.pop.Fire? ==> s.fsm.Active? && !IsMiss(Port1Action(s))
    ensures OwnedAt(s', p', r)
  {
    InUse(s, i, k, r);
    if k.push && IsStore(s.op2.req) && r == s.op2.req.rob {
      p' := PushOwner(s, i, k, s');
    } else {
      var p :| OwnedAt(s, p, r);
      if p.OnPort1? {
        p' := OnPort1;
        Port1Stays(s, i, k, s', r);
      } else {
        p' := QueueOwner(s, i, k, s', p.j, r);
      }
    }
  }

  lemma FireIsActive(c: Config, s: State, i: Input)
    requires Step(c, s, i) && Comb(c, s, i).pop.Fire?
    ensures s.fsm.Active? && !IsMiss(Port1Action(s))
  {
  }

  /** No cycle loses a graduation entry: what is not free is owned by a waiting store. */
  lemma KeepsNoLeak(c: Config, s: State, i: Input)
    requires WellFormed(c) && Inv(c, s) && Protocol(c, s, i) && !FlushClash(s) && NoLeak(s)
    ensures NoLeak(Next(c, s, i))
  {
    var k, s' := Comb(c, s, i), Next(c, s, i);
    MovedHolds(c, s, i);
    if k.pop.Fire? { FireIsActive(c, s, i); }
    NoneLost(s, i, k, s');
  }

  lemma NoneLost(s: State, i: Input, k: Ctl, s': State)
    requires Moved(s, i, k, s') && NoLeak(s) && s'.grad == NextGrad(s, i, k)
    requires k.pop.Fire? ==> s.fsm.Active? && !IsMiss(Port1Action(s))
    ensures NoLeak(s')
  {
    forall r | 0 <= r < |s'.grad| && !s'.grad[r].Free? ensures exists p: Place :: OwnedAt(s', p, r) {
      var p := KeepsOwner(s, i, k, s', r);
    }
  }

  lemma {:induction false} RunKeepsNoLeak(c: Config, s: State, ins: seq<Input>)
    requires WellFormed(c) && Inv(c, s) && Legal(c, s, ins) && NoLeak(s)
    ensures NoLeak(Run(c, s, ins))
    decreases |ins|
  {
    if ins != [] {
      KeepsInvariant(c, s, ins[0]);
      KeepsNoLeak(c, s, ins[0]);
      RunKeepsNoLeak(c, Next(c, s, ins[0]), ins[1..]);
    }
  }

  /** No store on port 1 or in the queue has ROB index r. */
  ghost predicate Fresh(s: State, r: nat) { forall p: Place :: !OwnedAt(s, p, r) }

  /** In every reachable state a graduation entry is in use exactly while a store with its ROB index waits. */
  lemma GraduationExactly(c: Config, s0: State, ins: seq<Input>, r: nat)
    requires WellFormed(c) && Reset(c, s0) && Legal(c, s0, ins) && r < c.robs
    ensures var s := Run(c, s0, ins); |s.grad| == c.robs && (s.grad[r].Free? <==> Fresh(s, r))
  {
    ResetEstablishesInvariant(c, s0);
    RunKeepsInvariant(c, s0, ins);
    RunKeepsNoLeak(c, s0, ins);
    FreshIsFree(c, Run(c, s0, ins), r);
  }

  lemma FreshIsFree(c: Config, s: State, r: nat)
    requires Sized(c, s) && GradInv(c, s) && NoLeak(s) && r < c.robs
    ensures s.grad[r].Free? <==> Fresh(s, r)
  {
    if !Fresh(s, r) {
      var p :| OwnedAt(s, p, r);
      if p.InQueue? { assert Owns(s.grad, s.mq[p.j]); } else { assert Owns(s.grad, s.op); }
    }
  }

  // ---------------------------------------------------------------- acceptance

  /** In ACTIVE a request with a fresh ROB index is accepted exactly if port 1 does not miss, the queue has two
      free entries, no load leaves the queue, and it is not a load to the set of the store on port 2. */
  lemma AcceptsExactly(c: Config, s: State, i: Input)
    requires WellFormed(c) && Inv(c, s) && InputShape(c, i) && NoLeak(s) && s.fsm.Active?
    requires i.core.Some? && Fresh(s, i.core.value.rob)
    ensures Comb(c, s, i).accept <==>
            && !(s.got && !Hit1(s)) && |s.mq| + 2 <= c.mrq
            && !(PopAction(c, s, i).Fire? && !IsStore(s.mq[0].req))
            && !(!IsStore(i.core.value) && s.got2 && IsStore(s.op2.req) && s.idx2 == i.core.value.la.idx)
  {
    FreshIsFree(c, s, i.core.value.rob);
    Port1Facts(c, s);
  }

  /** The work that can keep a request out: what port 1, a flush and the queue still have to do, and for the
      request on port 2 a place in the queue and one flush. */
  function Backlog(c: Config, s: State): nat {
    Stage(s) + FlushStage(c, s) + 8 * |s.mq| + if s.got2 then 2 * c.sets + 9 else 0
  }
  function AcceptBound(c: Config): nat { 8 * c.mrq + 4 * c.sets + 13 }

  lemma BacklogBound(c: Config, s: State)
    requires WellFormed(c) && Shape(c, s) && Port1Inv(c, s) && FsmInv(c, s)
    ensures Backlog(c, s) < AcceptBound(c)
  {
    StageBounds(c, s);
  }

  lemma BacklogOther(c: Config, s: State, i: Input, s': State)
    requires Step(c, s, i) && OtherEdge(c, s, i, s') && !s.fsm.Active? && BusRule(s, i)
    requires Port1Inv(c, s) && FsmInv(c, s) && Port1Inv(c, s')
    ensures Backlog(c, s') <= Backlog(c, s) && (!Waits(s, i) ==> Backlog(c, s') < Backlog(c, s))
  {
    OtherStage(c, s, i, s');
    assert |s'.mq| == |s.mq|;
  }

  /** Refused although port 1 does not miss and the queue is empty: a load behind a store to its set. */
  lemma EmptyRefusal(c: Config, s: State, i: Input)
    requires WellFormed(c) && Inv(c, s) && InputShape(c, i) && NoLeak(s) && s.fsm.Active? && s.mq == []
    requires i.core.Some? && Fresh(s, i.core.value.rob) && !Comb(c, s, i).accept && !IsMiss(Port1Action(s))
    ensures s.got2
  {
    AcceptsExactly(c, s, i);
    Port1Facts(c, s);
  }

  lemma BacklogLength(c: Config, s: State, i: Input, s': State)
    requires Ready(c, s, i) && ActiveEdge(c, s, i, s')
    ensures |s'.mq| == |s.mq| - (if PopAction(c, s, i).Keep? then 0 else 1) + (if Port2Action(c, s, i).push then 1 else 0)
    ensures s'.got2 == Accepts(c, s, i)
  {
    QueueLength(s, i, PopAction(c, s, i), Port2Action(c, s, i).push);
  }

  lemma StageSmall(s: State)
    ensures Stage(s) <= 7
  {
  }

  lemma BacklogActive(c: Config, s: State, i: Input, s': State)
    requires Ready(c, s, i) && ActiveEdge(c, s, i, s') && Port1Inv(c, s) && !FlushClash(s) && !Accepts(c, s, i)
    requires s.mq == [] && !IsMiss(Port1Action(s)) ==> s.got2
    ensures Backlog(c, s') <= Backlog(c, s) && (!Waits(s, i) ==> Backlog(c, s') < Backlog(c, s))
  {
    ActiveStage(c, s, i, s');
    BacklogLength(c, s, i, s');
    StageSmall(s');
    if s.mq != [] && !IsMiss(Port1Action(s)) && PopAction(c, s, i).Keep? { KeepReason(c, s, i); }
  }

  /** While a fresh request is refused, the backlog shrinks in every cycle that does not wait. */
  lemma RefusalShrinksBacklog(c: Config, s: State, i: Input)
    requires WellFormed(c) && Inv(c, s) && Protocol(c, s, i) && !FlushClash(s) && NoLeak(s)
    requires i.core.Some? && Fresh(s, i.core.value.rob) && !Comb(c, s, i).accept
    ensures Backlog(c, Next(c, s, i)) <= Backlog(c, s)
    ensures !Waits(s, i) ==> Backlog(c, Next(c, s, i)) < Backlog(c, s)
  {
    KeepsInvariant(c, s, i);
    if s.fsm.Active? {
      ActiveEdgeHolds(c, s, i);
      if s.mq == [] && !IsMiss(Port1Action(s)) { EmptyRefusal(c, s, i); }
      BacklogActive(c, s, i, Next(c, s, i));
    } else {
      OtherEdgeHolds(c, s, i);
      BacklogOther(c, s, i, Next(c, s, i));
    }
  }

  lemma OwnerCameFrom(s: State, i: Input, k: Ctl, s': State, p: Place, r: nat)
    requires Moved(s, i, k, s') && OwnedAt(s', p, r) && !(k.push && IsStore(s.op2.req) && s.op2.req.rob == r)
    ensures !Fresh(s, r)
  {
    if p.OnPort1? {
      if k.pop.Fire? { assert OwnedAt(s, InQueue(0), r); } else { assert OwnedAt(s, OnPort1, r); }
    } else {
      QueueLength(s, i, k.pop, k.push);
      QueueReqAt(s, i, k.pop, k.push, p.j);
      assert OwnedAt(s, InQueue(p.j + if k.pop.Keep? then 0 else 1), r);
    }
  }

  /** An index stays fresh: a store with it could only come from port 2. */
  lemma StaysFresh(c: Config, s: State, i: Input, r: nat)
    requires Step(c, s, i) && Port1Inv(c, s) && FsmInv(c, s) && !FlushClash(s) && Fresh(s, r)
    requires s.got2 && IsStore(s.op2.req) ==> s.op2.req.rob != r
    ensures Fresh(Next(c, s, i), r)
  {
    MovedHolds(c, s, i);
    forall p: Place ensures !OwnedAt(Next(c, s, i), p, r) {
      if OwnedAt(Next(c, s, i), p, r) { OwnerCameFrom(s, i, Comb(c, s, i), Next(c, s, i), p, r); }
    }
  }

  /** The same request is offered in every cycle. */
  ghost predicate Offered(ins: seq<Input>, r: MemReq) { forall k :: 0 <= k < |ins| ==> ins[k].core == Some(r) }

  ghost predicate IsAccepted(c: Config, s: State, ins: seq<Input>)
    requires WellFormed(c) && Legal(c, s, ins)
    decreases |ins|
  {
    ins != [] && (Comb(c, s, ins[0]).accept || IsAccepted(c, Next(c, s, ins[0]), ins[1..]))
  }

  lemma RefusalStep(c: Config, s: State, i: Input, r: MemReq, s': State)
    requires WellFormed(c) && Inv(c, s) && NoLeak(s) && Protocol(c, s, i) && !FlushClash(s) && s' == Next(c, s, i)
    requires i.core == Some(r) && Fresh(s, r.rob) && !Comb(c, s, i).accept
    ensures Inv(c, s') && NoLeak(s') && Fresh(s', r.rob)
    ensures Backlog(c, s') <= Backlog(c, s) && (!Waits(s, i) ==> Backlog(c, s') < Backlog(c, s))
  {
    RefusalShrinksBacklog(c, s, i);
    KeepsInvariant(c, s, i);
    KeepsNoLeak(c, s, i);
    StaysFresh(c, s, i, r.rob);
  }

  /** What is left to work decreases with the backlog. */
  lemma BacklogLeft(c: Config, s: State, ins: seq<Input>, r: MemReq, s': State)
    requires WellFormed(c) && Inv(c, s) && NoLeak(s) && Legal(c, s, ins) && ins != [] && s' == Next(c, s, ins[0])
    requires ins[0].core == Some(r) && Fresh(s, r.rob) && !Comb(c, s, ins[0]).accept
    ensures Inv(c, s') && NoLeak(s') && Fresh(s', r.rob) && Legal(c, s', ins[1..])
    ensures Backlog(c, s') + Working(c, s, ins) <= Backlog(c, s) + Working(c, s', ins[1..])
  {
    RefusalStep(c, s, ins[0], r, s');
  }

  lemma AcceptedThen(c: Config, s: State, ins: seq<Input>, s': State)
    requires WellFormed(c) && Legal(c, s, ins) && ins != [] && s' == Next(c, s, ins[0]) && IsAccepted(c, s', ins[1..])
    ensures IsAccepted(c, s, ins)
  {
  }

  lemma {:induction false} AcceptedByBacklog(c: Config, s: State, ins: seq<Input>, r: MemReq)
    requires WellFormed(c) && Inv(c, s) && NoLeak(s) && Legal(c, s, ins) && Offered(ins, r) && Fresh(s, r.rob)
    requires Working(c, s, ins) > Backlog(c, s)
    ensures IsAccepted(c, s, ins)
    decreases |ins|
  {
    assert ins != [];
    if !IsAccepted(c, s, ins) {
      var s' := Next(c, s, ins[0]);
      assert !Comb(c, s, ins[0]).accept;
      assert ins[0].core == Some(r);
      BacklogLeft(c, s, ins, r, s');
      assert Working(c, s', ins[1..]) > Backlog(c, s');
      assert Offered(ins[1..], r);
      AcceptedByBacklog(c, s', ins[1..], r);
      AcceptedThen(c, s, ins, s');
    }
  }

  /** From every reachable state: a request whose ROB index no waiting store has, offered in every cycle, is
      accepted once the cache has worked for AcceptBound cycles; in the others it waits for memory, or for the ROB
      to decide about the store at the queue head. */
  lemma EveryOfferIsAccepted(c: Config, s: State, before: seq<Input>, ins: seq<Input>, r: MemReq)
    requires WellFormed(c) && Reset(c, s) && Legal(c, s, before) && Legal(c, Run(c, s, before), ins)
    requires Offered(ins, r) && Fresh(Run(c, s, before), r.rob) && Working(c, Run(c, s, before), ins) >= AcceptBound(c)
    ensures IsAccepted(c, Run(c, s, before), ins)
  {
    var u := Run(c, s, before);
    ResetEstablishesInvariant(c, s);
    RunKeepsInvariant(c, s, before);
    RunKeepsNoLeak(c, s, before);
    BacklogBound(c, u);
    AcceptedByBacklog(c, u, ins, r);
  }

  // ---------------------------------------------------------------- stores

  ghost predicate IsStoreAt(s: State, p: Place) { Waiting(s, p) && IsStore(OpAt(s, p).req) }

  /** The store at p is written to the array in this cycle. */
  ghost predicate WritesIt(s: State, p: Place) { p.OnPort1? && WrArray(s) }

  /** The store at p is squashed in this cycle. */
  ghost predicate SquashesIt(c: Config, s: State, i: Input, p: Place)
    requires Step(c, s, i)
  {
    i.drain && ((p == InQueue(0) && Comb(c, s, i).pop.Drop?) || (p.OnPort2? && s.fsm.Active?))
  }

  lemma StoreFires(c: Config, s: State, i: Input, s': State)
    requires Ready(c, s, i) && ActiveEdge(c, s, i, s') && Port1Inv(c, s) && !FlushClash(s) && PopAction(c, s, i).Fire?
    ensures Advances(c, s, i, InQueue(0), s', OnPort1)
  {
    ActiveStage(c, s, i, s');
    ActiveHeld1(c, s, i, s');
  }

  lemma QueuedStoreAdvances(c: Config, s: State, i: Input, j: nat, s': State) returns (p': Place)
    requires Ready(c, s, i) && ActiveEdge(c, s, i, s') && Port1Inv(c, s) && !FlushClash(s) && j < |s.mq|
    ensures (j == 0 && PopAction(c, s, i).Drop?) || Advances(c, s, i, InQueue(j), s', p')
  {
    p' := InQueue(j);
    if PopAction(c, s, i).Keep? {
      QueueStays(c, s, i, j, s');
    } else if j > 0 {
      QueueMovesUp(c, s, i, j, s');
      p' := InQueue(j - 1);
    } else if PopAction(c, s, i).Fire? {
      StoreFires(c, s, i, s');
      p' := OnPort1;
    }
  }

  lemma StoreAdvancesActive(c: Config, s: State, i: Input, p: Place, s': State) returns (p': Place)
    requires Step(c, s, i) && s.fsm.Active? && ActiveEdge(c, s, i, s') && Port1Inv(c, s) && BypassInv(c, s)
    requires !FlushClash(s) && IsStoreAt(s, p) && !IsMoveOp(OpAt(s, p).req.pay.op)
    ensures WritesIt(s, p) || SquashesIt(c, s, i, p) || Advances(c, s, i, p, s', p')
  {
    p' := OnPort1;
    CtlFacts(c, s, i);
    match p {
      case OnPort1 =>
        Port1Facts(c, s);
        if IsMiss(Port1Action(s)) { Port1Advances(c, s, i, s'); }
      case InQueue(j) =>
        p' := QueuedStoreAdvances(c, s, i, j, s');
      case OnPort2 =>
        if !i.drain {
          Port2Advances(c, s, i, s');
          p' := InQueue(|s'.mq| - 1);
        }
    }
  }

  lemma StoreAdvancesOther(c: Config, s: State, i: Input, p: Place, s': State)
    requires WellFormed(c) && Inv(c, s) && Protocol(c, s, i) && !s.fsm.Active? && Waiting(s, p)
    requires s' == Next(c, s, i) && Port1Inv(c, s')
    ensures Advances(c, s, i, p, s', p)
  {
    OtherEdgeHolds(c, s, i);
    OtherAdvances(c, s, i, p, s');
  }

  lemma StoreIsNoMove(o: Op)
    requires IsStore(o.req)
    ensures !IsMoveOp(o.req.pay.op)
  {
  }

  /** In every cycle each waiting store is written, or squashed, or the work before it shrinks, or the cache waits. */
  lemma StoreAdvances(c: Config, s: State, i: Input, p: Place, s': State) returns (p': Place)
    requires WellFormed(c) && Inv(c, s) && Protocol(c, s, i) && !FlushClash(s) && IsStoreAt(s, p) && s' == Next(c, s, i)
    ensures WritesIt(s, p) || SquashesIt(c, s, i, p) || Advances(c, s, i, p, s', p')
  {
    if s.fsm.Active? {
      StoreIsNoMove(OpAt(s, p));
      ActiveEdgeHolds(c, s, i);
      p' := StoreAdvancesActive(c, s, i, p, s');
    } else {
      assert Port1Inv(c, s') by { KeepsInvariant(c, s, i); }
      StoreAdvancesOther(c, s, i, p, s');
      p' := p;
    }
  }

  /** A store with ticket t is written in some cycle of the run, or one is squashed. */
  ghost predicate Settles(c: Config, s: State, ins: seq<Input>, t: Ticket)
    requires WellFormed(c) && Legal(c, s, ins)
    decreases |ins|
  {
    ins != [] &&
    ((exists p: Place :: Waiting(s, p) && TicketOf(OpAt(s, p)) == t && (WritesIt(s, p) || SquashesIt(c, s, ins[0], p)))
     || Settles(c, Next(c, s, ins[0]), ins[1..], t))
  }

  lemma {:induction false} SettledByRank(c: Config, s: State, ins: seq<Input>, p: Place)
    requires WellFormed(c) && Inv(c, s) && Legal(c, s, ins) && IsStoreAt(s, p) && Working(c, s, ins) >= Rank(c, s, p)
    ensures Settles(c, s, ins, TicketOf(OpAt(s, p)))
    decreases |ins|
  {
    RankBounds(c, s, p);
    var p' := StoreAdvances(c, s, ins[0], p, Next(c, s, ins[0]));
    if !WritesIt(s, p) && !SquashesIt(c, s, ins[0], p) {
      WorkLeft(c, s, ins, p, p');
      KeepsInvariant(c, s, ins[0]);
      SettledByRank(c, Next(c, s, ins[0]), ins[1..], p');
    }
  }

  /** Every store that a run from reset has accepted and neither written nor squashed is written or squashed in any
      continuation in which the cache works for LoadBound cycles. */
  lemma EveryStoreSettles(c: Config, s: State, before: seq<Input>, ins: seq<Input>, p: Place)
    requires WellFormed(c) && Reset(c, s) && Legal(c, s, before) && Legal(c, Run(c, s, before), ins)
    requires IsStoreAt(Run(c, s, before), p) && Working(c, Run(c, s, before), ins) >= LoadBound(c)
    ensures Settles(c, Run(c, s, before), ins, TicketOf(OpAt(Run(c, s, before), p)))
  {
    ResetEstablishesInvariant(c, s);
    RunKeepsInvariant(c, s, before);
    RankBounds(c, Run(c, s, before), p);
    SettledByRank(c, Run(c, s, before), ins, p);
  }

  // ---------------------------------------------------------------- requests to memory

  predicate AwaitsMemory(s: State) { s.fsm.Inject? || s.fsm.FlushAllWait? || s.fsm.FlushLineWait? }

  lemma ActiveRequests(c: Config, s: State, i: Input, s': State)
    requires Step(c, s, i) && s.fsm.Active? && Port1Inv(c, s) && !FlushClash(s) && s' == Next(c, s, i)
    ensures s'.busValid <==> AwaitsMemory(s')
  {
    Port1Facts(c, s);
  }

  lemma OtherRequests(c: Config, s: State, i: Input, s': State)
    requires Step(c, s, i) && !s.fsm.Active? && Port1Inv(c, s) && FsmInv(c, s) && s' == Next(c, s, i)
    ensures s'.busValid <==> AwaitsMemory(s') && !AwaitsMemory(s)
    ensures AwaitsMemory(s) && i.rsp.None? ==> s'.fsm == s.fsm && s'.bus == s.bus
  {
  }

  /** While the cache waits, its request is the read of the line that port 1 needs, or the write of a dirty line
      that the cache still holds. */
  lemma AwaitedRequest(c: Config, s: State)
    requires WellFormed(c) && Sized(c, s) && FsmInv(c, s) && AwaitsMemory(s)
    ensures WritingBack(c, s) ||
            (s.fsm.Inject? && s.bus.kind.ReadLine? && s.bus.la == s.op.req.la && !s.ram.dirty[s.bus.la.idx])
  {
  }

  /** A request goes to memory in exactly the cycle in which the cache begins to wait for memory, and stands
      unchanged until it is answered. */
  lemma RequestsExactly(c: Config, s: State, i: Input)
    requires Step(c, s, i) && Port1Inv(c, s) && FsmInv(c, s) && !FlushClash(s)
    ensures var s' := Next(c, s, i);
            && (s'.busValid <==> AwaitsMemory(s') && !AwaitsMemory(s))
            && (AwaitsMemory(s) && i.rsp.None? ==> s'.fsm == s.fsm && s'.bus == s.bus)
  {
    if s.fsm.Active? { ActiveRequests(c, s, i, Next(c, s, i)); } else { OtherRequests(c, s, i, Next(c, s, i)); }
  }
}
