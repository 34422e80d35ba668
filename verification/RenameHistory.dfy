/**
  What the entries of the reorder buffer stand for (core.sv): a history beside the hardware records for
  each slot the uop that was allocated there and the last completion it was given, and recovery is stated
  in these terms.
 */
module RenameHistory {
  import opened MemoryTypes
  import opened Rings
  import opened RegisterFile
  import opened Rename
  import opened RenameInvariant
  import opened RenameProof
  import opened RenameTheorems
  import opened RenameRuns

  // ---------------------------------------------------------------- the history

  /** A slot's uop, whether the uop allocated just before it has a delay slot, and its last completion. */
  datatype Life = Life(uop: Uop, inSlot: bool, last: Option<Completion>)

  /** `slot`: the uop allocated last has a delay slot that is still to come. */
  datatype History = History(lives: seq<Life>, slot: bool)

  /** What is known about a uop: its last completion, or what folding did at its allocation. */
  function OutcomeOf(l: Life): Completion {
    if l.last.Some? then l.last.value
    else if l.uop.fold then Completion(true, l.uop.illegal, l.uop.illegal, l.uop.jump)
    else Completion(false, false, false, false)
  }

  ghost function NextLife(c: Config, s: State, i: Input, h: History, k: nat): Life
    requires Step(c, s, i) && |h.lives| == c.robs && k < c.robs
  {
    var l :=
      if AllocTwo(c, s, i) && k == Slot(c.robs, s.ring.nextTail) then Life(i.uop2.value, i.uop.value.ds, None)
      else if AllocOne(c, s, i) && k == Slot(c.robs, s.ring.tail) then Life(i.uop.value, h.slot, None)
      else h.lives[k];
    if k in i.done then l.(last := Some(i.done[k])) else l
  }

  /** A recovery, and the end of a serializing uop, leave no delay slot pending. */
  ghost function NextSlot(c: Config, s: State, i: Input, h: History): bool
    requires Step(c, s, i)
  {
    if AllocTwo(c, s, i) then i.uop2.value.ds
    else if AllocOne(c, s, i) then i.uop.value.ds
    else if s.fsm.Rat? || ((s.fsm.WaitForSerialize? || s.fsm.WaitForMonitor?) && HeadComplete(c, s)) then false
    else h.slot
  }

  ghost function NextHistory(c: Config, s: State, i: Input, h: History): (h': History)
    requires Step(c, s, i) && |h.lives| == c.robs
    ensures |h'.lives| == c.robs
  {
    History(seq(c.robs, k requires 0 <= k < c.robs => NextLife(c, s, i, h, k)), NextSlot(c, s, i, h))
  }

  // ---------------------------------------------------------------- entries follow the history

  /** The entry is that of its uop, with the outcome of its last completion. */
  ghost predicate EntryIs(e: Entry, complete: bool, l: Life) {
    var u, o := l.uop, OutcomeOf(l);
    && e.ds == u.ds && e.nds == u.nds && e.isBr == u.isBr && e.isRet == u.isRet && e.isCall == u.isCall
    && e.stops == u.stops && e.inDs == l.inSlot
    && complete == o.complete && e.faulted == o.faulted && e.trap == o.trap && e.takeBr == o.takeBr
    && (e.dst.Some? <==> u.dst.Some?)
    && (e.dst.Some? ==> e.dst.value.cls == u.dst.value.cls && e.dst.value.d.ldst == u.dst.value.ldst)
  }

  /** Every live entry follows its history. */
  ghost predicate Follows(c: Config, s: State, h: History)
    requires Shape(c, s)
  {
    && |h.lives| == c.robs && h.slot == s.inDs
    && forall k :: 0 <= k < c.robs && s.dead[k] ==> EntryIs(s.ring.slots[k], s.complete[k], h.lives[k])
  }

  lemma NewEntryIs(u: Uop, dst: Option<Dst>, inSlot: bool)
    requires dst.Some? <==> u.dst.Some?
    requires dst.Some? ==> dst.value.cls == u.dst.value.cls && dst.value.d.ldst == u.dst.value.ldst
    ensures EntryIs(NewEntry(u, dst, inSlot), u.fold, Life(u, inSlot, None))
  {
  }

  lemma FinishIs(e: Entry, complete: bool, l: Life, done: map<nat, Completion>, k: nat)
    requires EntryIs(e, complete, l)
    ensures EntryIs(Finish(e, done, k), if k in done then done[k].complete else complete,
                    if k in done then l.(last := Some(done[k])) else l)
  {
  }

  /** What a cycle writes to slot k, before completions. */
  lemma WrittenIs(c: Config, s: State, i: Input, h: History, k: nat)
    requires Step(c, s, i) && Follows(c, s, h) && k < c.robs && !s.fsm.Rat?
    requires NextDead(c, s, Comb(c, s, i))[k]
    ensures var x := Comb(c, s, i);
            var two, one := x.a2.Some? && k == Slot(c.robs, s.ring.nextTail), x.a1.Some? && k == Slot(c.robs, s.ring.tail);
            EntryIs(Written(c, s.ring, x, k),
                    if two then i.uop2.value.fold else if one then i.uop.value.fold else s.complete[k],
                    if two then Life(i.uop2.value, i.uop.value.ds, None)
                    else if one then Life(i.uop.value, h.slot, None) else h.lives[k])
  {
    if AllocOne(c, s, i) {
      var d1 := FirstDest(c, s, i.uop.value);
      NewEntryIs(i.uop.value, d1, s.inDs);
      if AllocTwo(c, s, i) { NewEntryIs(i.uop2.value, SecondDest(c, s, d1, i.uop2.value), i.uop.value.ds); }
    }
  }

  /** The fields of slot k after the cycle. */
  lemma SlotAfter(c: Config, s: State, i: Input, k: nat)
    requires Step(c, s, i) && k < c.robs && Next(c, s, i).dead[k]
    ensures var x, s' := Comb(c, s, i), Next(c, s, i);
            var two, one := x.a2.Some? && k == Slot(c.robs, s.ring.nextTail), x.a1.Some? && k == Slot(c.robs, s.ring.tail);
            && NextDead(c, s, x)[k] && !s.fsm.Rat?
            && s'.ring.slots[k] == Finish(Written(c, s.ring, x, k), i.done, k)
            && s'.complete[k] == if k in i.done then i.done[k].complete
                                 else if two then i.uop2.value.fold else if one then i.uop.value.fold else s.complete[k]
  {
  }

  lemma SlotFollows(c: Config, s: State, i: Input, h: History, k: nat)
    requires Step(c, s, i) && Follows(c, s, h) && k < c.robs && Next(c, s, i).dead[k]
    ensures EntryIs(Next(c, s, i).ring.slots[k], Next(c, s, i).complete[k], NextLife(c, s, i, h, k))
  {
    SlotAfter(c, s, i, k);
    WrittenIs(c, s, i, h, k);
    var x := Comb(c, s, i);
    var two, one := x.a2.Some? && k == Slot(c.robs, s.ring.nextTail), x.a1.Some? && k == Slot(c.robs, s.ring.tail);
    FinishIs(Written(c, s.ring, x, k),
             if two then i.uop2.value.fold else if one then i.uop.value.fold else s.complete[k],
             if two then Life(i.uop2.value, i.uop.value.ds, None)
             else if one then Life(i.uop.value, h.slot, None) else h.lives[k], i.done, k);
  }

  lemma StepFollows(c: Config, s: State, i: Input, h: History)
    requires Step(c, s, i) && Follows(c, s, h) && Shape(c, Next(c, s, i))
    ensures Follows(c, Next(c, s, i), NextHistory(c, s, i, h))
  {
    forall k | 0 <= k < c.robs && Next(c, s, i).dead[k]
      ensures EntryIs(Next(c, s, i).ring.slots[k], Next(c, s, i).complete[k], NextHistory(c, s, i, h).lives[k])
    {
      SlotFollows(c, s, i, h, k);
    }
  }

  // ---------------------------------------------------------------- runs

  ghost function Histories(c: Config, s: State, h: History, ins: seq<Input>): (e: History)
    requires WellFormed(c) && Legal(c, s, ins) && |h.lives| == c.robs
    ensures |e.lives| == c.robs
    decreases |ins|
  {
    if ins == [] then h else Histories(c, Next(c, s, ins[0]), NextHistory(c, s, ins[0], h), ins[1..])
  }

  lemma {:induction false} RunFollows(c: Config, s: State, h: History, ins: seq<Input>)
    requires WellFormed(c) && Inv(c, s) && Legal(c, s, ins) && Follows(c, s, h)
    ensures Inv(c, Run(c, s, ins)) && Follows(c, Run(c, s, ins), Histories(c, s, h, ins))
    decreases |ins|
  {
    if ins != [] {
      KeepsInvariant(c, s, ins[0]);
      StepFollows(c, s, ins[0], h);
      RunFollows(c, Next(c, s, ins[0]), NextHistory(c, s, ins[0], h), ins[1..]);
    }
  }

  /** In every run each live entry is that of the uop allocated in its slot, with the outcome of the last
      completion that the slot was given since. */
  lemma EveryEntryFollows(c: Config, s: State, h: History, ins: seq<Input>, j: nat)
    requires WellFormed(c) && Reset(c, s) && Legal(c, s, ins) && |h.lives| == c.robs && !h.slot
    requires RingShape(c.robs, Run(c, s, ins).ring) && j < Len(c.robs, Run(c, s, ins).ring)
    ensures var e, h' := Run(c, s, ins), Histories(c, s, h, ins);
            && Inv(c, e) && e.inDs == h'.slot
            && var k := SlotAt(c.robs, e.ring.head, j);
               EntryIs(e.ring.slots[k], e.complete[k], h'.lives[k])
  {
    ResetEstablishesInvariant(c, s);
    RunFollows(c, s, h, ins);
    var e := Run(c, s, ins);
    DeadMaskIsWindow(c, e, SlotAt(c.robs, e.ring.head, j));
  }

  // ---------------------------------------------------------------- recovery

  /** The history of the oldest entry. */
  ghost function HeadLife(c: Config, s: State, h: History): Life
    requires RingShape(c.robs, s.ring) && |h.lives| == c.robs
  {
    h.lives[Slot(c.robs, s.ring.head)]
  }

  /** The delay slot of a redirecting uop executes unless the uop nullifies it and did not branch. */
  ghost predicate SlotExecutes(l: Life) { l.uop.ds && !(l.uop.nds && !OutcomeOf(l).takeBr) }

  lemma HeadFollows(c: Config, s: State, h: History)
    requires Inv(c, s) && Follows(c, s, h) && !Empty(s.ring)
    ensures EntryIs(Head(c.robs, s.ring), HeadComplete(c, s), HeadLife(c, s, h))
  {
    RingFlags(c.robs, s.ring);
    assert SlotAt(c.robs, s.ring.head, 0) == Slot(c.robs, s.ring.head);
    DeadMaskIsWindow(c, s, Slot(c.robs, s.ring.head));
  }

  /** A redirect happens exactly when the oldest uop has completed with a fault, no interrupt is taken, and
      a delay slot, nullified or not, is already there. */
  lemma RedirectExactly(c: Config, s: State, h: History, i: Input)
    requires WellFormed(c) && Inv(c, s) && Follows(c, s, h) && s.fsm.Active? && !Empty(s.ring)
    ensures var l := HeadLife(c, s, h);
            Redirects(c, s, i) <==>
            && !(i.irq && !l.inSlot) && OutcomeOf(l).complete && OutcomeOf(l).faulted
            && (l.uop.ds || l.uop.nds ==> Len(c.robs, s.ring) >= 2)
  {
    HeadFollows(c, s, h);
    RingFlags(c.robs, s.ring);
  }

  /** Recovery is precise.  In every run from reset, when execution resumes after a redirect, the map is the
      one after every entry retired before the redirecting uop, that uop, and its delay slot exactly if
      that executes by the uop's kind and its last completion; the free registers are the unmapped ones. */
  lemma PreciseRecovery(c: Config, s0: State, h0: History, before: seq<Input>, i: Input, ins: seq<Input>, k: Class)
    requires WellFormed(c) && Reset(c, s0) && |h0.lives| == c.robs && !h0.slot && Legal(c, s0, before)
    requires var s := Run(c, s0, before);
             && Inv(c, s) && Protocol(c, s, i) && Redirects(c, s, i) && Next(c, s, i).fsm.Drain?
             && Legal(c, Next(c, s, i), ins) && StaysRecovering(c, Next(c, s, i), ins)
             && Run(c, Next(c, s, i), ins).fsm.Active?
    ensures var s, l := Run(c, s0, before), HeadLife(c, Run(c, s0, before), Histories(c, s0, h0, before));
            var slot := if SlotExecutes(l) then DestOf(Some(NextHead(c.robs, s.ring)), k) else None;
            Restored(Run(c, Next(c, s, i), ins), k,
                     MapTo(MapTo(FileOf(s.files, k).rrat, DestOf(Some(Head(c.robs, s.ring)), k)), slot))
  {
    var s := Run(c, s0, before);
    ResetEstablishesInvariant(c, s0);
    RunFollows(c, s0, h0, before);
    HeadFollows(c, s, Histories(c, s0, h0, before));
    RecoveryOfEntry(c, s, i, ins, k);
  }
}
