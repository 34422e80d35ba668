/**
  What is pushed, read from the instruction words alone (l1i.sv): which words are control transfers, where
  each one is predicted to go, and which words may share a push group.  The opcodes are those of the MIPS
  instruction set; the predecoded kinds of the cache line are not used here.
 */
module FetchWords {
  import opened MemoryTypes
  import opened FetchQueue
  import opened Fetch
  import opened FetchTheorems

  // ---------------------------------------------------------------- instruction words

  function Op(w: bv32): bv32 { w >> 26 }
  function Rs(w: bv32): bv32 { (w >> 21) & 31 }
  function Rt(w: bv32): bv32 { (w >> 16) & 31 }
  function Fn(w: bv32): bv32 { w & 63 }
  predicate OnFlag(w: bv32) { Op(w) == 17 && Rs(w) == 8 }
  predicate LikelyBit(w: bv32) { (w >> 17) & 1 == 1 }

  /** J and JAL. */
  predicate IsJump(w: bv32) { Op(w) == 2 || Op(w) == 3 }
  /** JR $31, and JR and JALR. */
  predicate IsReturn(w: bv32) { Op(w) == 0 && Fn(w) == 8 && Rs(w) == 31 }
  predicate IsRegisterJump(w: bv32) { Op(w) == 0 && (Fn(w) == 8 || Fn(w) == 9) }
  /** BEQ $0, $0. */
  predicate IsAlways(w: bv32) { Op(w) == 4 && Rs(w) == 0 && Rt(w) == 0 }
  /** BEQL, BNEL, BLEZL, BGTZL, BLTZL, BGEZL, BC1FL and BC1TL. */
  predicate IsLikely(w: bv32) {
    Op(w) == 20 || Op(w) == 21 || Op(w) == 22 || Op(w) == 23
    || (Op(w) == 1 && (Rt(w) == 2 || Rt(w) == 3)) || (OnFlag(w) && LikelyBit(w))
  }
  /** BEQ, BNE, BLEZ, BGTZ, BLTZ, BGEZ, BC1F and BC1T. */
  predicate IsConditional(w: bv32) {
    (Op(w) == 4 && !IsAlways(w)) || Op(w) == 5 || Op(w) == 6 || Op(w) == 7
    || (Op(w) == 1 && (Rt(w) == 0 || Rt(w) == 1)) || (OnFlag(w) && !LikelyBit(w))
  }
  /** BGEZAL; with $0 it always branches. */
  predicate IsLink(w: bv32) { Op(w) == 1 && Rt(w) == 17 }

  /** No control transfer. */
  predicate Plain(w: bv32) {
    && !IsJump(w) && !IsReturn(w) && !IsRegisterJump(w) && !IsAlways(w) && !IsLikely(w) && !IsConditional(w)
    && !IsLink(w)
  }

  /** The predictor's outputs when a word was pushed, and whether it was the first one of its group. */
  datatype Tip = Tip(pht: bool, btb: Pc, ras: Pc, first: bool)

  /** Where a word outside a delay slot is predicted to go. */
  function Expected(c: Config, p: Pc, w: bv32, t: Tip): Option<Pc> {
    if IsJump(w) then Some(c.jump(p, w))
    else if IsLikely(w) || IsAlways(w) then Some(c.relative(p, w))
    else if IsConditional(w) then (if t.pht then Some(c.relative(p, w)) else None)
    else if IsLink(w) then (if t.pht || Rs(w) == 0 then Some(c.relative(p, w)) else None)
    else if IsReturn(w) then Some(t.ras)
    else if IsRegisterJump(w) then Some(t.btb)
    else None
  }

  /** Predecoding and prediction together do what the words say. */
  lemma PredictedByWord(c: Config, p: Pc, w: bv32, i: Input, first: bool)
    ensures Predicted(c, p, w, Predecode(w), i) == Expected(c, p, w, Tip(i.pht, i.btb, i.ras, first))
  {
  }

  lemma PlainByWord(w: bv32)
    ensures Predecode(w).NotCflow? <==> Plain(w)
  {
  }

  // ---------------------------------------------------------------- the history of predictions

  ghost function NewTips(i: Input, n: nat): (r: seq<Tip>)
    ensures |r| == n
  {
    seq(n, j => Tip(i.pht, i.btb, i.ras, j == 0))
  }

  ghost function NextTips(c: Config, s: State, i: Input, tips: seq<Tip>): seq<Tip>
    requires WellFormed(c) && Shape(c, s)
  {
    var x := Comb(c, s, i);
    if x.clear then [] else tips + NewTips(i, x.push)
  }

  /** Word k of the stream: program text; nothing predicted in a delay slot; elsewhere the target that the
      word and the predictor give; and only the first word of a group may be a control transfer. */
  ghost predicate WordOk(c: Config, pushed: seq<Fetched>, tips: seq<Tip>, k: nat)
    requires k < |pushed| == |tips|
  {
    var e := pushed[k];
    && e.insn == c.code(e.pc)
    && e.target == (if k > 0 && pushed[k - 1].target.Some? then None else Expected(c, e.pc, e.insn, tips[k]))
    && (!tips[k].first ==> Plain(e.insn))
  }

  ghost predicate WordsOk(c: Config, pushed: seq<Fetched>, tips: seq<Tip>) {
    |pushed| == |tips| && forall k :: 0 <= k < |pushed| ==> WordOk(c, pushed, tips, k)
  }

  ghost predicate WordsInv(c: Config, s: State, tips: seq<Tip>) { Fetching(s.fsm) ==> WordsOk(c, s.pushed, tips) }

  /** The machine waits for a delay slot exactly after a word with a target. */
  lemma PendingIsTarget(c: Config, r: Ref, gs: seq<Ask>)
    requires RefShape(c, r) && GuessesFit(c, gs) && gs != []
    ensures RefRun(c, r, gs).pending == RefStream(c, r, gs)[|gs| - 1].target
  {
  }

  lemma SlotIsTarget(c: Config, s: State)
    requires Shape(c, s) && StreamInv(c, s) && s.fsm.Active? && s.req
    ensures s.slot <==> s.pushed != [] && s.pushed[|s.pushed| - 1].target.Some?
  {
    var r := Ref(s.start, None);
    if s.guesses != [] { PendingIsTarget(c, r, s.guesses); }
  }

  lemma PlainExpectsNothing(c: Config, p: Pc, w: bv32, t: Tip)
    requires Plain(w)
    ensures Expected(c, p, w, t) == None
  {
  }

  /** The words of a group on their own. */
  lemma GroupWord(c: Config, s: State, i: Input, r: Ref, j: nat)
    requires Hitting(c, s, r) && !(s.slot && Guess(c, s, i).Some?) && j < PushCount(c, s, i)
    ensures var n := PushCount(c, s, i);
            var news, tip := Pushes(c, s, Guess(c, s, i), n), NewTips(i, n)[j];
            && news[j].insn == c.code(news[j].pc) && (!tip.first ==> Plain(news[j].insn))
            && (j > 0 ==> !s.slot && news[j - 1].target.None?)
            && news[j].target == (if s.slot then None else Expected(c, news[j].pc, news[j].insn, tip))
  {
    var p := Plus(c, s.cachePc, j);
    GroupFacts(c, s, i);
    PushedText(c, s, i, r, j);
    HitWords(c, s, j);
    PlainByWord(c.code(p));
    if j == 0 {
      assert p == s.cachePc;
      PredictedByWord(c, p, c.code(p), i, true);
    } else {
      PushedText(c, s, i, r, j - 1);
      PlainExpectsNothing(c, p, c.code(p), NewTips(i, PushCount(c, s, i))[j]);
    }
  }

  lemma AppendWords(c: Config, pushed: seq<Fetched>, tips: seq<Tip>, news: seq<Fetched>, more: seq<Tip>)
    requires WordsOk(c, pushed, tips) && |news| == |more|
    requires forall k :: |pushed| <= k < |pushed + news| ==> WordOk(c, pushed + news, tips + more, k)
    ensures WordsOk(c, pushed + news, tips + more)
  {
    forall k | 0 <= k < |pushed + news| ensures WordOk(c, pushed + news, tips + more, k) {
      if k < |pushed| { assert WordOk(c, pushed, tips, k); }
    }
  }

  /** Word j of a group behind the words pushed so far. */
  lemma GroupWordOk(c: Config, s: State, i: Input, tips: seq<Tip>, j: nat)
    requires WellFormed(c) && Shape(c, s) && ReadOk(c, s.rd, s.cacheIdx) && StreamInv(c, s) && InputShape(c, i)
    requires s.fsm.Active? && Hit(s) && !(s.slot && Guess(c, s, i).Some?) && |s.pushed| == |tips|
    requires j < PushCount(c, s, i)
    ensures var n := PushCount(c, s, i);
            WordOk(c, s.pushed + Pushes(c, s, Guess(c, s, i), n), tips + NewTips(i, n), |s.pushed| + j)
  {
    var n := PushCount(c, s, i);
    var news, more := Pushes(c, s, Guess(c, s, i), n), NewTips(i, n);
    SlotIsTarget(c, s);
    GroupWord(c, s, i, RefRun(c, Ref(s.start, None), s.guesses), j);
    assert (s.pushed + news)[|s.pushed| + j] == news[j] && (tips + more)[|s.pushed| + j] == more[j];
    if j > 0 {
      assert (s.pushed + news)[|s.pushed| + j - 1] == news[j - 1];
    } else if s.pushed != [] {
      assert (s.pushed + news)[|s.pushed| - 1] == s.pushed[|s.pushed| - 1];
    }
  }

  lemma HitWordsOk(c: Config, s: State, i: Input, tips: seq<Tip>)
    requires WellFormed(c) && Shape(c, s) && ReadOk(c, s.rd, s.cacheIdx) && StreamInv(c, s) && InputShape(c, i)
    requires s.fsm.Active? && Hit(s) && !(s.slot && Guess(c, s, i).Some?) && WordsOk(c, s.pushed, tips)
    ensures var n := PushCount(c, s, i);
            WordsOk(c, s.pushed + Pushes(c, s, Guess(c, s, i), n), tips + NewTips(i, n))
  {
    var n := PushCount(c, s, i);
    var news, more := Pushes(c, s, Guess(c, s, i), n), NewTips(i, n);
    forall k | |s.pushed| <= k < |s.pushed + news| ensures WordOk(c, s.pushed + news, tips + more, k) {
      GroupWordOk(c, s, i, tips, k - |s.pushed|);
    }
    AppendWords(c, s.pushed, tips, news, more);
  }

  lemma StepKeepsWords(c: Config, s: State, i: Input, tips: seq<Tip>)
    requires WellFormed(c) && TargetsFit(c) && Inv(c, s) && Protocol(c, s, i) && CtlShape(c, Comb(c, s, i))
    requires !StaleSlot(s, i) && !SlotBranch(c, s, i) && WordsInv(c, s, tips)
    ensures WordsInv(c, Next(c, s, i), NextTips(c, s, i, tips))
  {
    var x := Comb(c, s, i);
    CtlKinds(c, s, i);
    if x.push > 0 {
      HitWordsOk(c, s, i, tips);
    } else if !x.clear {
      assert s.pushed + Pushes(c, s, Guess(c, s, i), 0) == s.pushed && tips + NewTips(i, 0) == tips;
    }
  }

  ghost function TipsOf(c: Config, s: State, tips: seq<Tip>, ins: seq<Input>): seq<Tip>
    requires WellFormed(c) && Legal(c, s, ins)
    decreases |ins|
  {
    if ins == [] then tips else TipsOf(c, Next(c, s, ins[0]), NextTips(c, s, ins[0], tips), ins[1..])
  }

  lemma {:induction false} RunKeepsWords(c: Config, s: State, tips: seq<Tip>, ins: seq<Input>)
    requires WellFormed(c) && TargetsFit(c) && Inv(c, s) && Legal(c, s, ins) && WordsInv(c, s, tips)
    ensures WordsInv(c, Run(c, s, ins), TipsOf(c, s, tips, ins))
    decreases |ins|
  {
    if ins != [] {
      KeepsInvariant(c, s, ins[0]);
      StepKeepsWords(c, s, ins[0], tips);
      RunKeepsWords(c, Next(c, s, ins[0]), NextTips(c, s, ins[0], tips), ins[1..]);
    }
  }

  /** In every run from reset each pushed word outside a delay slot carries exactly the target that its
      opcode and the predictor's outputs at its push give, a word in a delay slot carries none, and only
      the first word of a group is a control transfer. */
  lemma EveryRunFollowsWords(c: Config, s: State, ins: seq<Input>)
    requires WellFormed(c) && TargetsFit(c) && Reset(c, s) && Legal(c, s, ins)
    ensures var e := Run(c, s, ins); Fetching(e.fsm) ==> WordsOk(c, e.pushed, TipsOf(c, s, [], ins))
  {
    ResetEstablishesInvariant(c, s);
    RunKeepsWords(c, s, [], ins);
  }
}
