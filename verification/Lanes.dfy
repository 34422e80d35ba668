/**
  The byte lanes of the data cache (l1d.sv, machine.vh in its BIG_ENDIAN form): how loads pick and
  stores merge the bytes of a line, against a byte-by-byte reference and the interpreter.
 */
module Lanes {
  import opened MemoryTypes

  // ---------------------------------------------------------------- data path helpers

  function Swap16(x: bv16): bv16 { ((x & 0xff) << 8) | (x >> 8) }
  function Swap32(x: bv32): bv32 {
    ((x & 0xff) << 24) | ((x & 0xff00) << 8) | ((x >> 8) & 0xff00) | (x >> 24)
  }
  function Low32(x: bv64): bv32 { (x & 0xffff_ffff) as bv32 }
  function High32(x: bv64): bv32 { (x >> 32) as bv32 }
  function Join64(hi: bv32, lo: bv32): bv64 { (hi as bv64 << 32) | (lo as bv64) }
  function Swap64(x: bv64): bv64 { Join64(Swap32(Low32(x)), Swap32(High32(x))) }

  /** Sign extension of a 32-bit word to the 64-bit register. */
  function Sext32(x: bv32): bv64 { if x >> 31 == 1 then Join64(0xffff_ffff, x) else x as bv64 }
  function Sext16(x: bv16): bv64 { if x >> 15 == 1 then 0xffff_ffff_ffff_0000 | (x as bv64) else x as bv64 }
  function Sext8(x: bv8): bv64 { if x >> 7 == 1 then 0xffff_ffff_ffff_ff00 | (x as bv64) else x as bv64 }

  /** select_cl32 */
  function Select32(cl: Line, pos: bv4): bv32 {
    if pos == 0 then (cl & 0xffff_ffff) as bv32
    else if pos == 1 then ((cl >> 32) & 0xffff_ffff) as bv32
    else if pos == 2 then ((cl >> 64) & 0xffff_ffff) as bv32
    else (cl >> 96) as bv32
  }

  const LOW: Line := 0xffff_ffff

  /** merge_cl32 */
  function Merge32(cl: Line, w: bv32, pos: bv4): Line {
    if pos == 0 then (cl & !LOW) | (w as Line)
    else if pos == 1 then (cl & !(LOW << 32)) | (w as Line << 32)
    else if pos == 2 then (cl & !(LOW << 64)) | (w as Line << 64)
    else (cl & !(LOW << 96)) | (w as Line << 96)
  }

  lemma MergeFirst(cl: Line, w: bv32, q: bv4)
    requires q == 0 || q == 1 || q == 2 || q == 3
    ensures Select32(Merge32(cl, w, 0), q) == if q == 0 then w else Select32(cl, q)
  {
    if q == 0 {} else if q == 1 {} else if q == 2 {} else {}
  }
  lemma MergeSecond(cl: Line, w: bv32, q: bv4)
    requires q == 0 || q == 1 || q == 2 || q == 3
    ensures Select32(Merge32(cl, w, 1), q) == if q == 1 then w else Select32(cl, q)
  {
    if q == 0 {} else if q == 1 {} else if q == 2 {} else {}
  }
  lemma MergeThird(cl: Line, w: bv32, q: bv4)
    requires q == 0 || q == 1 || q == 2 || q == 3
    ensures Select32(Merge32(cl, w, 2), q) == if q == 2 then w else Select32(cl, q)
  {
    if q == 0 {} else if q == 1 {} else if q == 2 {} else {}
  }
  lemma MergeFourth(cl: Line, w: bv32, q: bv4)
    requires q == 0 || q == 1 || q == 2 || q == 3
    ensures Select32(Merge32(cl, w, 3), q) == if q == 3 then w else Select32(cl, q)
  {
    if q == 0 {} else if q == 1 {} else if q == 2 {} else {}
  }

  lemma WordIndex(p: bv4)
    requires p < 4
    ensures p == 0 || p == 1 || p == 2 || p == 3
  {
  }

  /** A merged word can be selected again, and the other three words are untouched. */
  lemma MergeSelect(cl: Line, w: bv32, p: bv4, q: bv4)
    requires p < 4 && q < 4
    ensures Select32(Merge32(cl, w, p), q) == if p == q then w else Select32(cl, q)
  {
    WordIndex(p);
    WordIndex(q);
    if p == 0 {
      MergeFirst(cl, w, q);
    } else if p == 1 {
      MergeSecond(cl, w, q);
    } else if p == 2 {
      MergeThird(cl, w, q);
    } else {
      MergeFourth(cl, w, q);
    }
  }

  function Pos(off: bv4): bv4 { off >> 2 }
  function Lane(off: bv4): bv4 { off & 3 }

  // ---------------------------------------------------------------- loads and stores of one word

  /** MEM_LWL and MEM_LWR: the swapped word `m` against the register `r`. */
  function LoadLeft(lane: bv4, m: bv32, r: bv32): bv32 {
    if lane == 0 then m
    else if lane == 1 then (m << 8) | (r & 0xff)
    else if lane == 2 then (m << 16) | (r & 0xffff)
    else (m << 24) | (r & 0xff_ffff)
  }
  function LoadRight(lane: bv4, m: bv32, r: bv32): bv32 {
    if lane == 0 then (r & 0xffff_ff00) | (m >> 24)
    else if lane == 1 then (r & 0xffff_0000) | (m >> 16)
    else if lane == 2 then (r & 0xff00_0000) | (m >> 8)
    else m
  }

  /** The swapped word with the register's leading or trailing bytes merged in. */
  function MergeLeft(lane: bv4, m: bv32, r: bv32): bv32 {
    if lane == 1 then (m & 0xff00_0000) | (r >> 8)
    else if lane == 2 then (m & 0xffff_0000) | (r >> 16)
    else (m & 0xffff_ff00) | (r >> 24)
  }
  function MergeRight(lane: bv4, m: bv32, r: bv32): bv32 {
    if lane == 0 then (r << 24) | (m & 0xff_ffff)
    else if lane == 1 then (r << 16) | (m & 0xffff)
    else if lane == 2 then (r << 8) | (m & 0xff)
    else r
  }

  /** MEM_SWL and MEM_SWR: the raw word to write; the aligned MEM_SWL writes the old word back with
      its bytes swapped. */
  function StoreLeft(lane: bv4, w: bv32, r: bv32): bv32 {
    if lane == 0 then Swap32(w) else Swap32(MergeLeft(lane, Swap32(w), r))
  }
  function StoreRight(lane: bv4, w: bv32, r: bv32): bv32 { Swap32(MergeRight(lane, Swap32(w), r)) }

  // ---------------------------------------------------------------- bytes

  /** Byte j of a raw memory word, lowest address first. */
  function Byte(w: bv32, j: nat): bv8
    requires j < 4
  {
    if j == 0 then (w & 0xff) as bv8 else if j == 1 then ((w >> 8) & 0xff) as bv8
    else if j == 2 then ((w >> 16) & 0xff) as bv8 else (w >> 24) as bv8
  }

  /** The raw word with the given bytes, and the big-endian value of four bytes. */
  function RawWord(b0: bv8, b1: bv8, b2: bv8, b3: bv8): bv32 {
    (b0 as bv32) | (b1 as bv32 << 8) | (b2 as bv32 << 16) | (b3 as bv32 << 24)
  }
  function BigEndian(b0: bv8, b1: bv8, b2: bv8, b3: bv8): bv32 {
    (b0 as bv32 << 24) | (b1 as bv32 << 16) | (b2 as bv32 << 8) | (b3 as bv32)
  }

  lemma SwapIsBigEndian(b0: bv8, b1: bv8, b2: bv8, b3: bv8)
    ensures Swap32(RawWord(b0, b1, b2, b3)) == BigEndian(b0, b1, b2, b3)
  {
  }
  lemma RawBytes(b0: bv8, b1: bv8, b2: bv8, b3: bv8)
    ensures var w := RawWord(b0, b1, b2, b3);
            Byte(w, 0) == b0 && Byte(w, 1) == b1 && Byte(w, 2) == b2 && Byte(w, 3) == b3
  {
  }

  // ---------------------------------------------------------------- the interpreter

  /** _lwl, _lwr, _swl and _swr on the swapped word, for ma = lane (big-endian). */
  function InterpLwl(ma: bv4, r: bv32, x: bv32): bv32 {
    if ma == 0 then r
    else if ma == 1 then ((r & 0x00ff_ffff) << 8) | (x & 0xff)
    else if ma == 2 then ((r & 0x0000_ffff) << 16) | (x & 0xffff)
    else ((r & 0x00ff_ffff) << 24) | (x & 0x00ff_ffff)
  }
  function InterpLwr(ma: bv4, r: bv32, x: bv32): bv32 {
    if ma == 0 then (x & 0xffff_ff00) | (r >> 24)
    else if ma == 1 then (x & 0xffff_0000) | (r >> 16)
    else if ma == 2 then (x & 0xff00_0000) | (r >> 8)
    else r
  }
  function InterpSwl(ma: bv4, r: bv32, x: bv32): bv32
    requires ma != 0  // the mask is built with a shift by 32 there, which C++ leaves undefined
  {
    if ma == 1 then (r & 0xff00_0000) | (x >> 8)
    else if ma == 2 then (r & 0xffff_0000) | (x >> 16)
    else (r & 0xffff_ff00) | (x >> 24)
  }
  function InterpSwr(ma: bv4, r: bv32, x: bv32): bv32 {
    var rm: bv32 := if ma == 0 then 0xff_ffff else if ma == 1 then 0xffff else if ma == 2 then 0xff else 0;
    var xs := if ma == 0 then x << 24 else if ma == 1 then x << 16 else if ma == 2 then x << 8 else x;
    xs | (rm & r)
  }

  /** The unaligned loads are the interpreter's for every lane, word and register. */
  lemma LoadsAgree(lane: bv4, m: bv32, x: bv32)
    requires lane < 4
    ensures LoadLeft(lane, m, x) == InterpLwl(lane, m, x) && LoadRight(lane, m, x) == InterpLwr(lane, m, x)
  {
  }

  /** The merges of the unaligned stores are the interpreter's. */
  lemma MergeRightAgrees(lane: bv4, m: bv32, x: bv32)
    requires lane < 4
    ensures MergeRight(lane, m, x) == InterpSwr(lane, m, x)
  {
    if lane == 0 {} else if lane == 1 {} else if lane == 2 {} else {}
  }
  lemma SwapInjective(x: bv32, y: bv32)
    ensures Swap32(x) == Swap32(y) ==> x == y
  {
  }

  /** SWR stores what the interpreter stores. */
  lemma SwrAgrees(lane: bv4, w: bv32, x: bv32)
    requires lane < 4
    ensures StoreRight(lane, w, x) == Swap32(InterpSwr(lane, Swap32(w), x))
  {
    MergeRightAgrees(lane, Swap32(w), x);
  }

  /** An unaligned SWL stores what the interpreter stores. */
  lemma SwlAgrees(lane: bv4, w: bv32, x: bv32)
    requires 1 <= lane < 4
    ensures StoreLeft(lane, w, x) == Swap32(InterpSwl(lane, Swap32(w), x))
  {
    assert MergeLeft(lane, Swap32(w), x) == InterpSwl(lane, Swap32(w), x);
  }

  /** An aligned SWL should store the whole register; it does exactly when the word in memory
      happens to hold the register's bytes in reverse. */
  lemma AlignedSwl(w: bv32, x: bv32)
    ensures StoreLeft(0, w, x) == Swap32(x) <==> w == x
  {
    SwapInjective(w, x);
  }

  /** An aligned SWL of 1 over zero leaves zero. */
  lemma AlignedSwlExample()
    ensures StoreLeft(0, 0, 1) == 0 && Swap32(1) == 0x0100_0000
  {
  }

  // ---------------------------------------------------------------- unaligned pairs

  /** A byte memory and its aligned words. */
  function WordAt(m: nat -> bv8, p: nat): bv32 { RawWord(m(p), m(p + 1), m(p + 2), m(p + 3)) }

  function LaneOf(a: nat): (l: bv4)
    ensures l < 4
  {
    if a % 4 == 0 then 0 else if a % 4 == 1 then 1 else if a % 4 == 2 then 2 else 3
  }
  function Aligned(a: nat): nat { a - a % 4 }

  /** LWL and LWR at address a on register r. */
  function Lwl(m: nat -> bv8, a: nat, r: bv32): bv32 { LoadLeft(LaneOf(a), Swap32(WordAt(m, Aligned(a))), r) }
  function Lwr(m: nat -> bv8, a: nat, r: bv32): bv32 { LoadRight(LaneOf(a), Swap32(WordAt(m, Aligned(a))), r) }

  function Put(m: nat -> bv8, p: nat, w: bv32): nat -> bv8 {
    (q: nat) => if p <= q < p + 4 then Byte(w, q - p) else m(q)
  }

  /** SWL and SWR at address a of register r. */
  function Swl(m: nat -> bv8, a: nat, r: bv32): nat -> bv8 {
    Put(m, Aligned(a), StoreLeft(LaneOf(a), WordAt(m, Aligned(a)), r))
  }
  function Swr(m: nat -> bv8, a: nat, r: bv32): nat -> bv8 {
    Put(m, Aligned(a), StoreRight(LaneOf(a), WordAt(m, Aligned(a)), r))
  }

  lemma Pair1(b0: bv8, b1: bv8, b2: bv8, b3: bv8, b4: bv8, b5: bv8, b6: bv8, b7: bv8, r: bv32)
    ensures LoadRight(0, BigEndian(b4, b5, b6, b7), LoadLeft(1, BigEndian(b0, b1, b2, b3), r)) == BigEndian(b1, b2, b3, b4)
  {
  }
  lemma Pair2(b0: bv8, b1: bv8, b2: bv8, b3: bv8, b4: bv8, b5: bv8, b6: bv8, b7: bv8, r: bv32)
    ensures LoadRight(1, BigEndian(b4, b5, b6, b7), LoadLeft(2, BigEndian(b0, b1, b2, b3), r)) == BigEndian(b2, b3, b4, b5)
  {
  }
  lemma Pair3(b0: bv8, b1: bv8, b2: bv8, b3: bv8, b4: bv8, b5: bv8, b6: bv8, b7: bv8, r: bv32)
    ensures LoadRight(2, BigEndian(b4, b5, b6, b7), LoadLeft(3, BigEndian(b0, b1, b2, b3), r)) == BigEndian(b3, b4, b5, b6)
  {
  }

  lemma PairLanes(k: nat, b0: bv8, b1: bv8, b2: bv8, b3: bv8, b4: bv8, b5: bv8, b6: bv8, b7: bv8, r: bv32)
    requires 1 <= k < 4
    ensures LoadRight(LaneOf(k - 1), BigEndian(b4, b5, b6, b7), LoadLeft(LaneOf(k), BigEndian(b0, b1, b2, b3), r)) ==
            if k == 1 then BigEndian(b1, b2, b3, b4) else if k == 2 then BigEndian(b2, b3, b4, b5) else BigEndian(b3, b4, b5, b6)
  {
    if k == 1 {
      Pair1(b0, b1, b2, b3, b4, b5, b6, b7, r);
    } else if k == 2 {
      Pair2(b0, b1, b2, b3, b4, b5, b6, b7, r);
    } else {
      Pair3(b0, b1, b2, b3, b4, b5, b6, b7, r);
    }
  }

  lemma LoadPairAt(m: nat -> bv8, p: nat, k: nat, r: bv32)
    requires p % 4 == 0 && 1 <= k < 4
    ensures var w0 := BigEndian(m(p), m(p + 1), m(p + 2), m(p + 3));
            var w1 := BigEndian(m(p + 4), m(p + 5), m(p + 6), m(p + 7));
            LoadRight(LaneOf(k - 1), w1, LoadLeft(LaneOf(k), w0, r)) == BigEndian(m(p + k), m(p + k + 1), m(p + k + 2), m(p + k + 3))
  {
    PairLanes(k, m(p), m(p + 1), m(p + 2), m(p + 3), m(p + 4), m(p + 5), m(p + 6), m(p + 7), r);
  }

  lemma SwappedWord(m: nat -> bv8, p: nat)
    ensures Swap32(WordAt(m, p)) == BigEndian(m(p), m(p + 1), m(p + 2), m(p + 3))
  {
    SwapIsBigEndian(m(p), m(p + 1), m(p + 2), m(p + 3));
  }

  lemma LwlIs(m: nat -> bv8, p: nat, k: nat, r: bv32)
    requires p % 4 == 0 && k < 4
    ensures Lwl(m, p + k, r) == LoadLeft(LaneOf(k), BigEndian(m(p), m(p + 1), m(p + 2), m(p + 3)), r)
  {
    SwappedWord(m, p);
    assert Aligned(p + k) == p && LaneOf(p + k) == LaneOf(k);
  }
  lemma LwrIs(m: nat -> bv8, p: nat, k: nat, r: bv32)
    requires p % 4 == 0 && k < 4
    ensures Lwr(m, p + k, r) == LoadRight(LaneOf(k), BigEndian(m(p), m(p + 1), m(p + 2), m(p + 3)), r)
  {
    SwappedWord(m, p);
    assert Aligned(p + k) == p && LaneOf(p + k) == LaneOf(k);
  }

  lemma AlignedPair(m: nat -> bv8, p: nat, r: bv32)
    requires p % 4 == 0
    ensures Lwr(m, p + 3, Lwl(m, p, r)) == BigEndian(m(p), m(p + 1), m(p + 2), m(p + 3))
  {
    LwrIs(m, p, 3, Lwl(m, p, r));
  }

  lemma UnalignedPair(m: nat -> bv8, p: nat, k: nat, r: bv32)
    requires p % 4 == 0 && 1 <= k < 4
    ensures Lwr(m, (p + 4) + (k - 1), Lwl(m, p + k, r)) == BigEndian(m(p + k), m(p + k + 1), m(p + k + 2), m(p + k + 3))
  {
    LwlIs(m, p, k, r);
    var x := Lwl(m, p + k, r);
    LwrIs(m, p + 4, k - 1, x);
    LoadPairAt(m, p, k, r);
  }

  /** For every address a, LWL a then LWR a+3 loads the four big-endian bytes at a, whatever the
      register held. */
  lemma LoadPair(m: nat -> bv8, a: nat, r: bv32)
    ensures Lwr(m, a + 3, Lwl(m, a, r)) == BigEndian(m(a), m(a + 1), m(a + 2), m(a + 3))
  {
    var k := a % 4;
    if k == 0 {
      AlignedPair(m, a, r);
    } else {
      UnalignedPair(m, a - k, k, r);
    }
  }

  /** Byte j of a register in big-endian order. */
  function RegByte(r: bv32, j: nat): bv8
    requires j < 4
  {
    Byte(r, 3 - j)
  }

  lemma StoreLeft1(w: bv32, r: bv32, j: nat)
    requires j < 4
    ensures Byte(StoreLeft(1, w, r), j) == if j < 1 then Byte(w, j) else RegByte(r, j - 1)
  {
    if j == 0 {} else if j == 1 {} else if j == 2 {} else {}
  }
  lemma StoreLeft2(w: bv32, r: bv32, j: nat)
    requires j < 4
    ensures Byte(StoreLeft(2, w, r), j) == if j < 2 then Byte(w, j) else RegByte(r, j - 2)
  {
    if j == 0 {} else if j == 1 {} else if j == 2 {} else {}
  }
  lemma StoreLeft3(w: bv32, r: bv32, j: nat)
    requires j < 4
    ensures Byte(StoreLeft(3, w, r), j) == if j < 3 then Byte(w, j) else RegByte(r, j - 3)
  {
    if j == 0 {} else if j == 1 {} else if j == 2 {} else {}
  }

  /** An unaligned SWL writes the register's leading bytes from its lane to the end of the word. */
  lemma StoreLeftBytes(lane: bv4, w: bv32, r: bv32, j: nat)
    requires 1 <= lane < 4 && j < 4
    ensures var k := if lane == 1 then 1 else if lane == 2 then 2 else 3;
            Byte(StoreLeft(lane, w, r), j) == if j < k then Byte(w, j) else RegByte(r, j - k)
  {
    WordIndex(lane);
    if lane == 1 {
      StoreLeft1(w, r, j);
    } else if lane == 2 {
      StoreLeft2(w, r, j);
    } else {
      StoreLeft3(w, r, j);
    }
  }

  lemma StoreRight0(w: bv32, r: bv32, j: nat)
    requires j < 4
    ensures Byte(StoreRight(0, w, r), j) == if j <= 0 then RegByte(r, 3 + j) else Byte(w, j)
  {
    if j == 0 {} else if j == 1 {} else if j == 2 {} else {}
  }
  lemma StoreRight1(w: bv32, r: bv32, j: nat)
    requires j < 4
    ensures Byte(StoreRight(1, w, r), j) == if j <= 1 then RegByte(r, 2 + j) else Byte(w, j)
  {
    if j == 0 {} else if j == 1 {} else if j == 2 {} else {}
  }
  lemma StoreRight2(w: bv32, r: bv32, j: nat)
    requires j < 4
    ensures Byte(StoreRight(2, w, r), j) == if j <= 2 then RegByte(r, 1 + j) else Byte(w, j)
  {
    if j == 0 {} else if j == 1 {} else if j == 2 {} else {}
  }
  lemma StoreRight3(w: bv32, r: bv32, j: nat)
    requires j < 4
    ensures Byte(StoreRight(3, w, r), j) == if j <= 3 then RegByte(r, 0 + j) else Byte(w, j)
  {
    if j == 0 {} else if j == 1 {} else if j == 2 {} else {}
  }

  /** SWR writes the register's trailing bytes from the start of the word to its lane. */
  lemma StoreRightBytes(lane: bv4, w: bv32, r: bv32, j: nat)
    requires lane < 4 && j < 4
    ensures var k := if lane == 0 then 0 else if lane == 1 then 1 else if lane == 2 then 2 else 3;
            Byte(StoreRight(lane, w, r), j) == if j <= k then RegByte(r, 3 - k + j) else Byte(w, j)
  {
    WordIndex(lane);
    if lane == 0 {
      StoreRight0(w, r, j);
    } else if lane == 1 {
      StoreRight1(w, r, j);
    } else if lane == 2 {
      StoreRight2(w, r, j);
    } else {
      StoreRight3(w, r, j);
    }
  }

  // ---------------------------------------------------------------- loads, byte by byte

  lemma LoadLeft0(w: bv32, r: bv32, j: nat)
    requires j < 4
    ensures RegByte(LoadLeft(0, Swap32(w), r), j) == Byte(w, j)
  {
    if j == 0 {} else if j == 1 {} else if j == 2 {} else {}
  }
  lemma LoadLeft1(w: bv32, r: bv32, j: nat)
    requires j < 4
    ensures RegByte(LoadLeft(1, Swap32(w), r), j) == if j < 3 then Byte(w, 1 + j) else RegByte(r, j)
  {
    if j == 0 {} else if j == 1 {} else if j == 2 {} else {}
  }
  lemma LoadLeft2(w: bv32, r: bv32, j: nat)
    requires j < 4
    ensures RegByte(LoadLeft(2, Swap32(w), r), j) == if j < 2 then Byte(w, 2 + j) else RegByte(r, j)
  {
    if j == 0 {} else if j == 1 {} else if j == 2 {} else {}
  }
  lemma LoadLeft3(w: bv32, r: bv32, j: nat)
    requires j < 4
    ensures RegByte(LoadLeft(3, Swap32(w), r), j) == if j < 1 then Byte(w, 3 + j) else RegByte(r, j)
  {
    if j == 0 {} else if j == 1 {} else if j == 2 {} else {}
  }

  /** LWL loads the bytes from its lane to the end of the word above the register's trailing bytes. */
  lemma LoadLeftBytes(lane: bv4, w: bv32, r: bv32, j: nat)
    requires lane < 4 && j < 4
    ensures var k := if lane == 0 then 0 else if lane == 1 then 1 else if lane == 2 then 2 else 3;
            RegByte(LoadLeft(lane, Swap32(w), r), j) == if k + j < 4 then Byte(w, k + j) else RegByte(r, j)
  {
    WordIndex(lane);
    if lane == 0 {
      LoadLeft0(w, r, j);
    } else if lane == 1 {
      LoadLeft1(w, r, j);
    } else if lane == 2 {
      LoadLeft2(w, r, j);
    } else {
      LoadLeft3(w, r, j);
    }
  }

  lemma LoadRight0(w: bv32, r: bv32, j: nat)
    requires j < 4
    ensures RegByte(LoadRight(0, Swap32(w), r), j) == if j >= 3 then Byte(w, j - 3) else RegByte(r, j)
  {
    if j == 0 {} else if j == 1 {} else if j == 2 {} else {}
  }
  lemma LoadRight1(w: bv32, r: bv32, j: nat)
    requires j < 4
    ensures RegByte(LoadRight(1, Swap32(w), r), j) == if j >= 2 then Byte(w, j - 2) else RegByte(r, j)
  {
    if j == 0 {} else if j == 1 {} else if j == 2 {} else {}
  }
  lemma LoadRight2(w: bv32, r: bv32, j: nat)
    requires j < 4
    ensures RegByte(LoadRight(2, Swap32(w), r), j) == if j >= 1 then Byte(w, j - 1) else RegByte(r, j)
  {
    if j == 0 {} else if j == 1 {} else if j == 2 {} else {}
  }
  lemma LoadRight3(w: bv32, r: bv32, j: nat)
    requires j < 4
    ensures RegByte(LoadRight(3, Swap32(w), r), j) == Byte(w, j)
  {
    if j == 0 {} else if j == 1 {} else if j == 2 {} else {}
  }

  /** LWR loads the bytes from the start of the word to its lane below the register's leading bytes. */
  lemma LoadRightBytes(lane: bv4, w: bv32, r: bv32, j: nat)
    requires lane < 4 && j < 4
    ensures var k := if lane == 0 then 0 else if lane == 1 then 1 else if lane == 2 then 2 else 3;
            RegByte(LoadRight(lane, Swap32(w), r), j) == if k + j >= 3 then Byte(w, k + j - 3) else RegByte(r, j)
  {
    WordIndex(lane);
    if lane == 0 {
      LoadRight0(w, r, j);
    } else if lane == 1 {
      LoadRight1(w, r, j);
    } else if lane == 2 {
      LoadRight2(w, r, j);
    } else {
      LoadRight3(w, r, j);
    }
  }

  // ---------------------------------------------------------------- store pairs

  lemma WordBytes(m: nat -> bv8, p: nat, j: nat)
    requires j < 4
    ensures Byte(WordAt(m, p), j) == m(p + j)
  {
    RawBytes(m(p), m(p + 1), m(p + 2), m(p + 3));
  }

  /** What an unaligned SWL does to memory: the register's leading bytes from a to the word's end. */
  lemma SwlWrites(m: nat -> bv8, p: nat, k: nat, r: bv32, q: nat)
    requires p % 4 == 0 && 1 <= k < 4
    ensures Swl(m, p + k, r)(q) == if p + k <= q < p + 4 then RegByte(r, q - (p + k)) else m(q)
  {
    assert Aligned(p + k) == p && LaneOf(p + k) == LaneOf(k);
    if p <= q < p + 4 {
      WordBytes(m, p, q - p);
      StoreLeftBytes(LaneOf(k), WordAt(m, p), r, q - p);
    }
  }

  /** SWR: the register's trailing bytes from the word's start to a. */
  lemma SwrWrites(m: nat -> bv8, p: nat, k: nat, r: bv32, q: nat)
    requires p % 4 == 0 && k < 4
    ensures Swr(m, p + k, r)(q) == if p <= q <= p + k then RegByte(r, 3 - k + (q - p)) else m(q)
  {
    assert Aligned(p + k) == p && LaneOf(p + k) == LaneOf(k);
    if p <= q < p + 4 {
      WordBytes(m, p, q - p);
      StoreRightBytes(LaneOf(k), WordAt(m, p), r, q - p);
    }
  }

  lemma AlignedSwlStaysInWord(m: nat -> bv8, p: nat, r: bv32, q: nat)
    requires p % 4 == 0 && !(p <= q < p + 4)
    ensures Swl(m, p, r)(q) == m(q)
  {
  }

  lemma AlignedStorePair(m: nat -> bv8, p: nat, r: bv32, q: nat)
    requires p % 4 == 0
    ensures Swr(Swl(m, p, r), p + 3, r)(q) == if p <= q < p + 4 then RegByte(r, q - p) else m(q)
  {
    SwrWrites(Swl(m, p, r), p, 3, r, q);
    if !(p <= q < p + 4) { AlignedSwlStaysInWord(m, p, r, q); }
  }

  /** SWR after memory m1 already holds the leading bytes. */
  lemma TrailingBytes(m: nat -> bv8, m1: nat -> bv8, p: nat, k: nat, r: bv32, q: nat)
    requires p % 4 == 0 && 1 <= k < 4 && m1(q) == if p + k <= q < p + 4 then RegByte(r, q - (p + k)) else m(q)
    ensures Swr(m1, (p + 4) + (k - 1), r)(q) == if p + k <= q < p + k + 4 then RegByte(r, q - (p + k)) else m(q)
  {
    SwrWrites(m1, p + 4, k - 1, r, q);
    if p + 4 <= q < p + k + 4 { assert 3 - (k - 1) + (q - (p + 4)) == q - (p + k); }
  }

  lemma UnalignedStorePair(m: nat -> bv8, p: nat, k: nat, r: bv32, q: nat)
    requires p % 4 == 0 && 1 <= k < 4
    ensures Swr(Swl(m, p + k, r), (p + 4) + (k - 1), r)(q) ==
            if p + k <= q < p + k + 4 then RegByte(r, q - (p + k)) else m(q)
  {
    SwlWrites(m, p, k, r, q);
    TrailingBytes(m, Swl(m, p + k, r), p, k, r, q);
  }

  lemma StorePairUnaligned(m: nat -> bv8, a: nat, r: bv32, q: nat)
    requires a % 4 != 0
    ensures Swr(Swl(m, a, r), a + 3, r)(q) == if a <= q < a + 4 then RegByte(r, q - a) else m(q)
  {
    var p, k := a - a % 4, a % 4;
    UnalignedStorePair(m, p, k, r, q);
    assert p + k == a && (p + 4) + (k - 1) == a + 3;
  }

  /** For every address a, SWL a then SWR a+3 stores the register's four bytes at a, big-endian, and
      changes nothing else; so the aligned SWL does no harm in a pair. */
  lemma StorePair(m: nat -> bv8, a: nat, r: bv32, q: nat)
    ensures Swr(Swl(m, a, r), a + 3, r)(q) == if a <= q < a + 4 then RegByte(r, q - a) else m(q)
  {
    if a % 4 == 0 {
      AlignedStorePair(m, a, r, q);
    } else {
      StorePairUnaligned(m, a, r, q);
    }
  }

  lemma RegBytesBack(r: bv32)
    ensures BigEndian(RegByte(r, 0), RegByte(r, 1), RegByte(r, 2), RegByte(r, 3)) == r
  {
  }

  /** The pairs round-trip: a stored register is loaded back from any address. */
  lemma PairRoundTrip(m: nat -> bv8, a: nat, r: bv32, x: bv32)
    ensures var m' := Swr(Swl(m, a, r), a + 3, r);
            Lwr(m', a + 3, Lwl(m', a, x)) == r
  {
    var m' := Swr(Swl(m, a, r), a + 3, r);
    LoadPair(m', a, x);
    StorePair(m, a, r, a);
    StorePair(m, a, r, a + 1);
    StorePair(m, a, r, a + 2);
    StorePair(m, a, r, a + 3);
    RegBytesBack(r);
  }
}
