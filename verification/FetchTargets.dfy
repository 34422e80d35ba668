/**
  Where the direct control transfers go (l1i.sv), as word addresses of a 2^30-word address space, against the
  interpreter (interpret.cc).
 */
module FetchTargets {
  import opened Arithmetic
  import opened MemoryTypes
  import opened Fetch
  import opened FetchTheorems
  import opened FetchWords

  const WORDS: nat := 0x4000_0000
  const REGION: nat := 0x400_0000

  /** Tags, sets and four words a line fill the address space. */
  predicate Geometry(tags: nat, sets: nat) { tags >= 1 && sets >= 1 && 4 * (tags * sets) == WORDS }

  /** A program counter as a word address, and back. */
  function Number(sets: nat, p: Pc): nat { 4 * (p.tag * sets + p.idx) + p.word }
  function PcOf(sets: nat, n: nat): Pc
    requires sets >= 1
  {
    Pc(n / 4 / sets, n / 4 % sets, n % 4)
  }

  lemma NumberBack(tags: nat, sets: nat, n: nat)
    requires Geometry(tags, sets) && n < WORDS
    ensures var p := PcOf(sets, n); p.tag < tags && p.idx < sets && p.word < 4 && Number(sets, p) == n
  {
    DivMod(n / 4, sets);
    DivBelow(n / 4, sets, tags);
  }

  lemma BackAt(tags: nat, sets: nat, x: int)
    requires Geometry(tags, sets)
    ensures var p := PcOf(sets, x % WORDS);
            p.tag < tags && p.idx < sets && p.word < 4 && Number(sets, p) == x % WORDS
  {
    NumberBack(tags, sets, x % WORDS);
  }

  lemma NumberBelow(tags: nat, sets: nat, p: Pc)
    requires Geometry(tags, sets) && p.tag < tags && p.idx < sets && p.word < 4
    ensures Number(sets, p) < WORDS
  {
    MulAtMost(p.tag + 1, tags, sets);
    MulPlus(p.tag, 1, sets);
  }

  /** insn[25:0], and insn[15:0] as a signed number. */
  function Index26(w: bv32): nat { w as nat % REGION }
  function Offset16(w: bv32): int {
    var n := w as int % 0x1_0000;
    if n >= 0x8000 then n - 0x1_0000 else n
  }

  // ---------------------------------------------------------------- as the RTL computes them

  /** {r_cache_pc[31:28], insn[25:0], 00} */
  function JumpAddress(n: nat, w: bv32): nat { n / REGION * REGION + Index26(w) }

  /** r_cache_pc + 4 + the sign-extended offset */
  function BranchAddress(n: nat, w: bv32): int { n + 1 + Offset16(w) }

  /** The targets as program counters. */
  function JumpTarget(sets: nat, p: Pc, w: bv32): Pc
    requires sets >= 1
  {
    PcOf(sets, JumpAddress(Number(sets, p), w) % WORDS)
  }
  function BranchTarget(sets: nat, p: Pc, w: bv32): Pc
    requires sets >= 1
  {
    PcOf(sets, BranchAddress(Number(sets, p), w) % WORDS)
  }

  /** The fetch unit with these targets. */
  function Machine(tags: nat, sets: nat, entries: nat, code: Pc -> bv32): Config
    requires sets >= 1
  {
    Config(tags, sets, entries, code, (p, w) => JumpTarget(sets, p, w), (p, w) => BranchTarget(sets, p, w))
  }

  /** Its targets lie in the address space. */
  lemma MachineFits(tags: nat, sets: nat, entries: nat, code: Pc -> bv32)
    requires Geometry(tags, sets) && entries >= 4
    ensures var c := Machine(tags, sets, entries, code); WellFormed(c) && TargetsFit(c)
  {
    var c := Machine(tags, sets, entries, code);
    forall p: Pc, w: bv32 ensures PcShape(c, c.jump(p, w)) && PcShape(c, c.relative(p, w)) {
      BackAt(tags, sets, JumpAddress(Number(sets, p), w));
      BackAt(tags, sets, BranchAddress(Number(sets, p), w));
    }
  }

  // ---------------------------------------------------------------- as the interpreter computes them

  /** Both start from the address of the delay slot. */
  function InterpJump(n: nat, w: bv32): nat { (n + 1) % WORDS / REGION * REGION + Index26(w) }
  function InterpBranch(n: nat, w: bv32): nat { ((n + 1) % WORDS + Offset16(w)) % WORDS }

  lemma RegionOfNext(n: nat)
    requires n < WORDS
    ensures (n + 1) % WORDS / REGION == n / REGION <==> (n + 1) % REGION != 0
  {
    var q, r := n / REGION, n % REGION;
    DivMod(n, REGION);
    if r + 1 == REGION {
      DivUnique(n + 1, REGION, q + 1, 0);
    } else {
      DivUnique(n + 1, REGION, q, r + 1);
    }
    if n + 1 == WORDS {
      assert (n + 1) % WORDS == 0 && q == 15;
    } else {
      SmallMod(n + 1, WORDS);
    }
  }

  lemma JumpInRange(n: nat, w: bv32)
    requires n < WORDS
    ensures JumpAddress(n, w) % WORDS == JumpAddress(n, w)
  {
    DivBelow(n, REGION, 16);
    MulAtMost(n / REGION, 15, REGION);
    SmallMod(JumpAddress(n, w), WORDS);
  }

  lemma JumpNumber(tags: nat, sets: nat, p: Pc, w: bv32)
    requires Geometry(tags, sets) && p.tag < tags && p.idx < sets && p.word < 4
    ensures Number(sets, JumpTarget(sets, p, w)) == JumpAddress(Number(sets, p), w)
  {
    NumberBelow(tags, sets, p);
    JumpInRange(Number(sets, p), w);
    BackAt(tags, sets, JumpAddress(Number(sets, p), w));
  }

  lemma JumpDiffers(n: nat, w: bv32)
    requires n < WORDS
    ensures JumpAddress(n, w) == InterpJump(n, w) <==> (n + 1) % REGION != 0
  {
    RegionOfNext(n);
  }

  /** A jump goes where the interpreter goes unless it is the last word of its region of 2^26 words: there the
      delay slot lies in the next region. */
  lemma JumpAgrees(tags: nat, sets: nat, p: Pc, w: bv32)
    requires Geometry(tags, sets) && p.tag < tags && p.idx < sets && p.word < 4
    ensures var n := Number(sets, p);
            Number(sets, JumpTarget(sets, p, w)) == InterpJump(n, w) <==> (n + 1) % REGION != 0
  {
    JumpNumber(tags, sets, p, w);
    NumberBelow(tags, sets, p);
    JumpDiffers(Number(sets, p), w);
  }

  lemma WholeTurn(x: int)
    ensures (x + WORDS) % WORDS == x % WORDS
  {
    DivMod(x, WORDS);
    DivUnique(x + WORDS, WORDS, x / WORDS + 1, x % WORDS);
  }

  lemma NextThenOffset(n: nat, d: int)
    requires n < WORDS
    ensures (n + 1 + d) % WORDS == ((n + 1) % WORDS + d) % WORDS
  {
    if n + 1 == WORDS { WholeTurn(d); } else { SmallMod(n + 1, WORDS); }
  }

  lemma BranchSame(n: nat, w: bv32)
    requires n < WORDS
    ensures BranchAddress(n, w) % WORDS == InterpBranch(n, w)
  {
    NextThenOffset(n, Offset16(w));
  }

  /** A branch always goes where the interpreter goes. */
  lemma BranchAgrees(tags: nat, sets: nat, p: Pc, w: bv32)
    requires Geometry(tags, sets) && p.tag < tags && p.idx < sets && p.word < 4
    ensures Number(sets, BranchTarget(sets, p, w)) == InterpBranch(Number(sets, p), w)
  {
    NumberBelow(tags, sets, p);
    BranchSame(Number(sets, p), w);
    BackAt(tags, sets, BranchAddress(Number(sets, p), w));
  }

  // ---------------------------------------------------------------- in every run

  /** Where the interpreter goes from a direct transfer at word address n that is taken. */
  function InterpTarget(n: nat, w: bv32): nat { if IsJump(w) then InterpJump(n, w) else InterpBranch(n, w) }

  predicate Direct(w: bv32) { IsJump(w) || IsLikely(w) || IsAlways(w) || IsConditional(w) || IsLink(w) }

  /** What is pushed at e, with target t. */
  ghost predicate TargetOk(sets: nat, e: Fetched) {
    e.target.Some? && Direct(e.insn) ==>
      (Number(sets, e.target.value) == InterpTarget(Number(sets, e.pc), e.insn) <==>
       !(IsJump(e.insn) && (Number(sets, e.pc) + 1) % REGION == 0))
  }

  lemma ExpectedIsDirect(c: Config, p: Pc, w: bv32, t: Tip)
    requires Direct(w) && Expected(c, p, w, t).Some?
    ensures Expected(c, p, w, t).value == if IsJump(w) then c.jump(p, w) else c.relative(p, w)
  {
  }

  lemma WordTarget(tags: nat, sets: nat, c: Config, pushed: seq<Fetched>, tips: seq<Tip>, k: nat)
    requires Geometry(tags, sets) && c.tags == tags && c.sets == sets
    requires forall p: Pc, w: bv32 :: c.jump(p, w) == JumpTarget(sets, p, w)
    requires forall p: Pc, w: bv32 :: c.relative(p, w) == BranchTarget(sets, p, w)
    requires k < |pushed| == |tips| && WordOk(c, pushed, tips, k) && PcShape(c, pushed[k].pc)
    ensures TargetOk(sets, pushed[k])
  {
    var e := pushed[k];
    if e.target.Some? && Direct(e.insn) {
      ExpectedIsDirect(c, e.pc, e.insn, tips[k]);
      JumpAgrees(tags, sets, e.pc, e.insn);
      BranchAgrees(tags, sets, e.pc, e.insn);
    }
  }

  lemma {:induction false} StreamPcs(c: Config, r: Ref, gs: seq<Ask>, k: nat)
    requires RefShape(c, r) && GuessesFit(c, gs) && k < |gs|
    ensures PcShape(c, RefStream(c, r, gs)[k].pc)
  {
    if k < |gs| - 1 { StreamPcs(c, r, gs[..|gs| - 1], k); }
  }

  lemma PushedShape(c: Config, s: State, ins: seq<Input>, k: nat)
    requires WellFormed(c) && TargetsFit(c) && Reset(c, s) && Legal(c, s, ins)
    requires Fetching(Run(c, s, ins).fsm) && k < |Run(c, s, ins).pushed|
    ensures PcShape(c, Run(c, s, ins).pushed[k].pc)
  {
    EveryRunFetchesSequentially(c, s, ins);
    StreamPcs(c, Ref(Run(c, s, ins).start, None), Run(c, s, ins).guesses, k);
  }

  /** In every run of the machine each direct control transfer that is pushed with a target carries the interpreter's
      target, except a jump in the last word of its region, which never does. */
  lemma EveryTargetIsInterpreters(tags: nat, sets: nat, entries: nat, code: Pc -> bv32, s: State, ins: seq<Input>, k: nat)
    requires Geometry(tags, sets) && entries >= 4
    requires var c := Machine(tags, sets, entries, code);
             && Reset(c, s) && Legal(c, s, ins)
             && Fetching(Run(c, s, ins).fsm) && k < |Run(c, s, ins).pushed|
    ensures TargetOk(sets, Run(Machine(tags, sets, entries, code), s, ins).pushed[k])
  {
    var c := Machine(tags, sets, entries, code);
    MachineFits(tags, sets, entries, code);
    EveryRunFollowsWords(c, s, ins);
    PushedShape(c, s, ins, k);
    WordTarget(tags, sets, c, Run(c, s, ins).pushed, TipsOf(c, s, [], ins), k);
  }
}
