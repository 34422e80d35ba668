/**
  The unaligned loads and stores through the cache's data path (l1d.sv): on lines of sixteen bytes, at every
  address, across word and line ends.
 */
module UnalignedAccess {
  import opened MemoryTypes
  import opened Lanes
  import opened DataPath

  // ---------------------------------------------------------------- lines as byte memory

  /** A memory of lines. */
  type Lines = nat -> Line

  /** The word that holds offset o of a line. */
  function WordNo(o: nat): (q: bv4)
    ensures q < 4
  {
    if o < 4 then 0 else if o < 8 then 1 else if o < 12 then 2 else 3
  }

  /** The byte at address a. */
  function ByteOf(m: Lines, a: nat): bv8 { ByteAt(m(a / 16), WordNo(a % 16), a % 4) }
  function Bytes(m: Lines): nat -> bv8 { (a: nat) => ByteOf(m, a) }

  /** p is an access at address a. */
  predicate Accesses(p: Payload, a: nat) { p.off as nat == a % 16 }

  lemma AccessParts(p: Payload, a: nat)
    requires Accesses(p, a)
    ensures WordNo(a % 16) == Pos(p.off) < 4 && LaneOf(a) == Lane(p.off) < 4
  {
    OffsetParts(p.off);
    WordIndex(Pos(p.off));
    WordIndex(Lane(p.off));
    assert a % 4 == (a % 16) % 4;
  }

  lemma RawBack(w: bv32)
    ensures RawWord(Byte(w, 0), Byte(w, 1), Byte(w, 2), Byte(w, 3)) == w
  {
  }

  lemma Quarters(a: nat)
    ensures (a % 16) / 4 < 4 && a / 4 == 4 * (a / 16) + (a % 16) / 4 && (a % 16) % 4 == a % 4
  {
    var n, o := a / 16, a % 16;
    assert a == 16 * n + o && o == 4 * (o / 4) + o % 4;
    assert a == 4 * (4 * n + o / 4) + o % 4;
  }

  lemma WordNoIs(o: nat, q: nat)
    requires o < 16 && q < 16
    ensures WordNo(o) == WordNo(q) <==> o / 4 == q / 4
  {
  }

  /** Which addresses lie in the word at a. */
  lemma InWord(a: nat, b: nat)
    ensures (Aligned(a) <= b < Aligned(a) + 4) <==> b / 16 == a / 16 && WordNo(b % 16) == WordNo(a % 16)
    ensures Aligned(a) <= b < Aligned(a) + 4 ==> b - Aligned(a) == b % 4
  {
    Quarters(a);
    Quarters(b);
    WordNoIs(a % 16, b % 16);
    assert Aligned(a) == 4 * (a / 4) && b == 4 * (b / 4) + b % 4;
  }

  /** Byte j of the word at a. */
  lemma SameWord(a: nat, j: nat)
    requires j < 4
    ensures var b := Aligned(a) + j; b / 16 == a / 16 && b % 4 == j && WordNo(b % 16) == WordNo(a % 16)
  {
    InWord(a, Aligned(a) + j);
  }

  /** The word of the byte memory is the word that select_cl32 gives. */
  lemma WordIsSelected(m: Lines, a: nat, p: Payload)
    requires Accesses(p, a)
    ensures WordAt(Bytes(m), Aligned(a)) == Select32(m(a / 16), Pos(p.off))
  {
    AccessParts(p, a);
    SameWord(a, 0);
    SameWord(a, 1);
    SameWord(a, 2);
    SameWord(a, 3);
    RawBack(Select32(m(a / 16), Pos(p.off)));
  }

  // ---------------------------------------------------------------- loads

  lemma LowOfJoin(hi: bv32, lo: bv32)
    ensures Low32(Join64(hi, lo)) == lo
  {
  }
  lemma LowOfWide(x: bv32)
    ensures Low32(x as bv64) == x
  {
  }
  lemma LowOfSext(x: bv32)
    ensures Low32(Sext32(x)) == x
  {
    LowOfJoin(0xffff_ffff, x);
    LowOfWide(x);
  }

  lemma ExtractLeft(p: Payload, cl: Line)
    requires p.op.LWL?
    ensures Extract(p, cl) == Sext32(LoadLeft(Lane(p.off), Swap32(Select32(cl, Pos(p.off))), Low32(p.data)))
  {
  }
  lemma ExtractRight(p: Payload, cl: Line)
    requires p.op.LWR?
    ensures Extract(p, cl) == Sext32(LoadRight(Lane(p.off), Swap32(Select32(cl, Pos(p.off))), Low32(p.data)))
  {
  }

  /** LWL through the cache: in big-endian order the register gets the bytes from its address to the end of
      the word and keeps its trailing bytes. */
  lemma LwlLoads(p: Payload, cl: Line, j: nat)
    requires p.op.LWL? && j < 4
    ensures var q, k, x := Pos(p.off), Index(Lane(p.off)), Low32(Extract(p, cl));
            && Extract(p, cl) == Sext32(x)
            && RegByte(x, j) == if k + j < 4 then ByteAt(cl, q, k + j) else RegByte(Low32(p.data), j)
  {
    var w := Select32(cl, Pos(p.off));
    OffsetParts(p.off);
    ExtractLeft(p, cl);
    LowOfSext(LoadLeft(Lane(p.off), Swap32(w), Low32(p.data)));
    LoadLeftBytes(Lane(p.off), w, Low32(p.data), j);
  }

  /** LWR through the cache: the register keeps its leading bytes and gets the bytes from the start of the
      word to its address. */
  lemma LwrLoads(p: Payload, cl: Line, j: nat)
    requires p.op.LWR? && j < 4
    ensures var q, k, x := Pos(p.off), Index(Lane(p.off)), Low32(Extract(p, cl));
            && Extract(p, cl) == Sext32(x)
            && RegByte(x, j) == if k + j >= 3 then ByteAt(cl, q, k + j - 3) else RegByte(Low32(p.data), j)
  {
    var w := Select32(cl, Pos(p.off));
    OffsetParts(p.off);
    ExtractRight(p, cl);
    LowOfSext(LoadRight(Lane(p.off), Swap32(w), Low32(p.data)));
    LoadRightBytes(Lane(p.off), w, Low32(p.data), j);
  }

  /** Both are the interpreter's on the word at the address. */
  lemma LoadsAreInterpreters(p: Payload, cl: Line)
    requires p.op.LWL? || p.op.LWR?
    ensures var m, r := Swap32(Select32(cl, Pos(p.off))), Low32(p.data);
            Extract(p, cl) == Sext32(if p.op.LWL? then InterpLwl(Lane(p.off), m, r) else InterpLwr(Lane(p.off), m, r))
  {
    OffsetParts(p.off);
    if p.op.LWL? { ExtractLeft(p, cl); } else { ExtractRight(p, cl); }
    LoadsAgree(Lane(p.off), Swap32(Select32(cl, Pos(p.off))), Low32(p.data));
  }

  lemma LwlOnLines(m: Lines, a: nat, p: Payload)
    requires p.op.LWL? && Accesses(p, a)
    ensures Extract(p, m(a / 16)) == Sext32(Lwl(Bytes(m), a, Low32(p.data)))
  {
    AccessParts(p, a);
    WordIsSelected(m, a, p);
    ExtractLeft(p, m(a / 16));
  }
  lemma LwrOnLines(m: Lines, a: nat, p: Payload)
    requires p.op.LWR? && Accesses(p, a)
    ensures Extract(p, m(a / 16)) == Sext32(Lwr(Bytes(m), a, Low32(p.data)))
  {
    AccessParts(p, a);
    WordIsSelected(m, a, p);
    ExtractRight(p, m(a / 16));
  }

  lemma FirstLoad(m: Lines, a: nat, p: Payload)
    requires p.op.LWL? && Accesses(p, a)
    ensures Low32(Extract(p, m(a / 16))) == Lwl(Bytes(m), a, Low32(p.data))
  {
    LwlOnLines(m, a, p);
    LowOfSext(Lwl(Bytes(m), a, Low32(p.data)));
  }

  lemma SecondLoad(m: Lines, a: nat, p: Payload, r: bv32, x: bv32)
    requires p.op.LWR? && Accesses(p, a + 3) && Low32(p.data) == x && x == Lwl(Bytes(m), a, r)
    ensures Extract(p, m((a + 3) / 16)) == Sext32(Lwr(Bytes(m), a + 3, Lwl(Bytes(m), a, r)))
  {
    LwrOnLines(m, a + 3, p);
  }

  lemma PairValue(m: Lines, a: nat, r: bv32)
    ensures Lwr(Bytes(m), a + 3, Lwl(Bytes(m), a, r)) ==
            BigEndian(ByteOf(m, a), ByteOf(m, a + 1), ByteOf(m, a + 2), ByteOf(m, a + 3))
  {
    LoadPair(Bytes(m), a, r);
  }

  /** LWL at a, then LWR at a + 3 on its result: the four big-endian bytes at a, for every address, within
      a word, across words and across lines, and whatever the register held. */
  lemma LoadPairOnLines(m: Lines, a: nat, left: Payload, right: Payload)
    requires left.op.LWL? && Accesses(left, a) && right.op.LWR? && Accesses(right, a + 3)
    requires right.data == Extract(left, m(a / 16))
    ensures Extract(right, m((a + 3) / 16)) ==
            Sext32(BigEndian(ByteOf(m, a), ByteOf(m, a + 1), ByteOf(m, a + 2), ByteOf(m, a + 3)))
  {
    FirstLoad(m, a, left);
    SecondLoad(m, a, right, Low32(left.data), Low32(right.data));
    PairValue(m, a, Low32(left.data));
  }

  // ---------------------------------------------------------------- stores

  /** The lines after a store at address a. */
  function Stored(m: Lines, a: nat, p: Payload): Lines {
    (n: nat) => if n == a / 16 then Merge(p, m(n)) else m(n)
  }

  /** The word that SWL and SWR leave. */
  function LeftWord(p: Payload, w: bv32): bv32 {
    if p.op.SWL? then StoreLeft(Lane(p.off), w, Low32(p.data)) else StoreRight(Lane(p.off), w, Low32(p.data))
  }

  lemma MergeIs(p: Payload, cl: Line, q: bv4)
    requires (p.op.SWL? || p.op.SWR?) && q < 4
    ensures Select32(Merge(p, cl), q) ==
            if q == Pos(p.off) then LeftWord(p, Select32(cl, Pos(p.off))) else Select32(cl, q)
  {
    OffsetParts(p.off);
    MergeSelect(cl, LeftWord(p, Select32(cl, Pos(p.off))), Pos(p.off), q);
  }

  /** A store changes the bytes of its word to those of the word that it leaves. */
  lemma StoreOnLines(m: Lines, a: nat, p: Payload, b: nat)
    requires (p.op.SWL? || p.op.SWR?) && Accesses(p, a)
    ensures ByteOf(Stored(m, a, p), b) == Put(Bytes(m), Aligned(a), LeftWord(p, WordAt(Bytes(m), Aligned(a))))(b)
  {
    AccessParts(p, a);
    WordIsSelected(m, a, p);
    InWord(a, b);
    if b / 16 == a / 16 { MergeIs(p, m(a / 16), WordNo(b % 16)); }
  }

  lemma SwlOnLines(m: Lines, a: nat, p: Payload, b: nat)
    requires p.op.SWL? && Accesses(p, a)
    ensures ByteOf(Stored(m, a, p), b) == Swl(Bytes(m), a, Low32(p.data))(b)
  {
    AccessParts(p, a);
    StoreOnLines(m, a, p, b);
  }
  lemma SwrOnLines(m: Lines, a: nat, p: Payload, b: nat)
    requires p.op.SWR? && Accesses(p, a)
    ensures ByteOf(Stored(m, a, p), b) == Swr(Bytes(m), a, Low32(p.data))(b)
  {
    AccessParts(p, a);
    StoreOnLines(m, a, p, b);
  }

  lemma SwrSame(m1: nat -> bv8, m2: nat -> bv8, a: nat, r: bv32, b: nat)
    requires forall x: nat :: m1(x) == m2(x)
    ensures Swr(m1, a, r)(b) == Swr(m2, a, r)(b)
  {
    var p := Aligned(a);
    assert m1(p) == m2(p) && m1(p + 1) == m2(p + 1) && m1(p + 2) == m2(p + 2) && m1(p + 3) == m2(p + 3);
    assert WordAt(m1, p) == WordAt(m2, p);
  }

  /** SWL at a, then SWR at a + 3, of the same register: exactly the four bytes at a change, to the
      register's in big-endian order. */
  lemma StorePairOnLines(m: Lines, a: nat, left: Payload, right: Payload, b: nat)
    requires left.op.SWL? && Accesses(left, a) && right.op.SWR? && Accesses(right, a + 3)
    requires Low32(left.data) == Low32(right.data)
    ensures ByteOf(Stored(Stored(m, a, left), a + 3, right), b) ==
            if a <= b < a + 4 then RegByte(Low32(left.data), b - a) else ByteOf(m, b)
  {
    var r, m1 := Low32(left.data), Stored(m, a, left);
    forall x: nat ensures Bytes(m1)(x) == Swl(Bytes(m), a, r)(x) { SwlOnLines(m, a, left, x); }
    SwrOnLines(m1, a + 3, right, b);
    SwrSame(Bytes(m1), Swl(Bytes(m), a, r), a + 3, r, b);
    StorePair(Bytes(m), a, r, b);
  }

  lemma PairBytes(m: Lines, a: nat, sl: Payload, sr: Payload)
    requires sl.op.SWL? && Accesses(sl, a) && sr.op.SWR? && Accesses(sr, a + 3) && Low32(sl.data) == Low32(sr.data)
    ensures var m' := Stored(Stored(m, a, sl), a + 3, sr);
            BigEndian(ByteOf(m', a), ByteOf(m', a + 1), ByteOf(m', a + 2), ByteOf(m', a + 3)) == Low32(sl.data)
  {
    var m' := Stored(Stored(m, a, sl), a + 3, sr);
    StorePairOnLines(m, a, sl, sr, a);
    StorePairOnLines(m, a, sl, sr, a + 1);
    StorePairOnLines(m, a, sl, sr, a + 2);
    StorePairOnLines(m, a, sl, sr, a + 3);
    BytesBack(Low32(sl.data), ByteOf(m', a), ByteOf(m', a + 1), ByteOf(m', a + 2), ByteOf(m', a + 3));
  }

  /** The pairs round-trip through the cache's lines: a register stored by SWL and SWR is loaded back by LWL
      and LWR from any address, sign-extended. */
  lemma PairRoundTripOnLines(m: Lines, a: nat, sl: Payload, sr: Payload, ll: Payload, lr: Payload)
    requires sl.op.SWL? && Accesses(sl, a) && sr.op.SWR? && Accesses(sr, a + 3) && Low32(sl.data) == Low32(sr.data)
    requires ll.op.LWL? && Accesses(ll, a) && lr.op.LWR? && Accesses(lr, a + 3)
    requires var m' := Stored(Stored(m, a, sl), a + 3, sr); lr.data == Extract(ll, m'(a / 16))
    ensures var m' := Stored(Stored(m, a, sl), a + 3, sr);
            Extract(lr, m'((a + 3) / 16)) == Sext32(Low32(sl.data))
  {
    LoadPairOnLines(Stored(Stored(m, a, sl), a + 3, sr), a, ll, lr);
    PairBytes(m, a, sl, sr);
  }

  lemma BytesBack(r: bv32, b0: bv8, b1: bv8, b2: bv8, b3: bv8)
    requires b0 == RegByte(r, 0) && b1 == RegByte(r, 1) && b2 == RegByte(r, 2) && b3 == RegByte(r, 3)
    ensures BigEndian(b0, b1, b2, b3) == r
  {
    RegBytesBack(r);
  }
}
