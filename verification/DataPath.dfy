/**
  The load and store data path of the L1 data cache (l1d.sv): which bytes of a line each memory
  operation reads and writes.
 */
module DataPath {
  import opened MemoryTypes
  import opened Lanes
  import C = DataCache

  // ---------------------------------------------------------------- as the RTL computes it

  function Half(w: bv32, high: bool): bv16 { if high then (w >> 16) as bv16 else (w & 0xffff) as bv16 }

  /** bswap16 of the half word that address bit 1 selects. */
  function SwappedHalf(w: bv32, off: bv4): bv16 { Swap16(Half(w, off & 2 != 0)) }

  /** Sign or zero extension. */
  function Extend8(signed: bool, b: bv8): Word { if signed then Sext8(b) else b as bv64 }
  function Extend16(signed: bool, h: bv16): Word { if signed then Sext16(h) else h as bv64 }

  /** t_rsp_data for the loads. */
  function Extract(p: Payload, cl: Line): Word {
    var w := Select32(cl, Pos(p.off));
    var m := Swap32(w);
    match p.op
    case LB => Extend8(true, Byte(w, Index(Lane(p.off))))
    case LBU => Extend8(false, Byte(w, Index(Lane(p.off))))
    case LH => Extend16(true, SwappedHalf(w, p.off))
    case LHU => Extend16(false, SwappedHalf(w, p.off))
    case LW => Sext32(m)
    case LWC1Merge => if p.lo then Join64(m, Low32(p.data)) else Join64(High32(p.data), m)
    case LDC1 => Swap64(Select64(cl, p.off & 8 != 0))
    case LWR => Sext32(LoadRight(Lane(p.off), m, Low32(p.data)))
    case LWL => Sext32(LoadLeft(Lane(p.off), m, Low32(p.data)))
    case _ => 0
  }

  function Index(lane: bv4): (j: nat)
    ensures j < 4
  {
    if lane == 0 then 0 else if lane == 1 then 1 else if lane == 2 then 2 else 3
  }

  function Select64(cl: Line, high: bool): bv64 {
    if high then (cl >> 64) as bv64 else (cl & 0xffff_ffff_ffff_ffff) as bv64
  }
  function Merge64(cl: Line, w: bv64, high: bool): Line {
    if high then (cl & 0xffff_ffff_ffff_ffff) | (w as Line << 64)
    else (cl & (0xffff_ffff_ffff_ffff << 64)) | (w as Line)
  }

  /** The word that MEM_SB and MEM_SH write. */
  function WithByte(w: bv32, lane: bv4, b: bv32): bv32 {
    if lane == 0 then (w & 0xffff_ff00) | b
    else if lane == 1 then (w & 0xffff_00ff) | (b << 8)
    else if lane == 2 then (w & 0xff00_ffff) | (b << 16)
    else (w & 0x00ff_ffff) | (b << 24)
  }
  function WithHalf(w: bv32, high: bool, h: bv16): bv32 {
    if high then (w & 0xffff) | (h as bv32 << 16) else (w & 0xffff_0000) | (h as bv32)
  }

  function WithSwappedHalf(w: bv32, off: bv4, r: bv32): bv32 {
    WithHalf(w, off & 2 != 0, Swap16((r & 0xffff) as bv16))
  }

  /** The word written by a store of at most 32 bits. */
  function NewWord(p: Payload, w: bv32): bv32 {
    var r := Low32(p.data);
    match p.op
    case SB => WithByte(w, Lane(p.off), r & 0xff)
    case SH => WithSwappedHalf(w, p.off, r)
    case SWC1Merge => Swap32(if p.lo then High32(p.data) else r)
    case SWR => StoreRight(Lane(p.off), w, r)
    case SWL => StoreLeft(Lane(p.off), w, r)
    case _ => Swap32(r)
  }

  /** t_array_data for the stores. */
  function Merge(p: Payload, cl: Line): Line {
    if p.op.SDC1? then Merge64(cl, Swap64(p.data), p.off & 8 != 0)
    else if IsStoreOp(p.op) then Merge32(cl, NewWord(p, Select32(cl, Pos(p.off))), Pos(p.off))
    else 0
  }

  // ---------------------------------------------------------------- byte by byte

  /** Byte j of word q of a line; byte addresses grow from word to word and within a word. */
  function ByteAt(cl: Line, q: bv4, j: nat): bv8
    requires j < 4
  {
    Byte(Select32(cl, q), j)
  }

  function StoredHalf(r: bv32, off: bv4, j: nat): Option<bv8>
    requires j < 4
  {
    if off & 2 != 0 then (if j == 2 then Some(RegByte(r, 2)) else if j == 3 then Some(RegByte(r, 3)) else None)
    else (if j == 0 then Some(RegByte(r, 2)) else if j == 1 then Some(RegByte(r, 3)) else None)
  }

  /** The byte that a store puts at byte j of its own word, if it writes there: the reference. */
  function Stored(p: Payload, j: nat): Option<bv8>
    requires j < 4
  {
    var r, k := Low32(p.data), Index(Lane(p.off));
    match p.op
    case SB => if j == k then Some(RegByte(r, 3)) else None
    case SH => StoredHalf(r, p.off, j)
    case SWR => if j <= k then Some(RegByte(r, 3 - k + j)) else None
    case SWL => if j >= k then Some(RegByte(r, j - k)) else None
    case SWC1Merge => Some(RegByte(if p.lo then High32(p.data) else r, j))
    case _ => Some(RegByte(r, j))
  }

  function Keep(o: Option<bv8>, b: bv8): bv8 { if o.Some? then o.value else b }

  lemma SwapBytes(x: bv32, j: nat)
    requires j < 4
    ensures Byte(Swap32(x), j) == RegByte(x, j)
  {
  }

  lemma ByteLane0(w: bv32, r: bv32, j: nat)
    requires j < 4
    ensures Byte(WithByte(w, 0, r & 0xff), j) == if j == 0 then RegByte(r, 3) else Byte(w, j)
  {
    if j == 0 {} else if j == 1 {} else if j == 2 {} else {}
  }
  lemma ByteLane1(w: bv32, r: bv32, j: nat)
    requires j < 4
    ensures Byte(WithByte(w, 1, r & 0xff), j) == if j == 1 then RegByte(r, 3) else Byte(w, j)
  {
    if j == 0 {} else if j == 1 {} else if j == 2 {} else {}
  }
  lemma ByteLane2(w: bv32, r: bv32, j: nat)
    requires j < 4
    ensures Byte(WithByte(w, 2, r & 0xff), j) == if j == 2 then RegByte(r, 3) else Byte(w, j)
  {
    if j == 0 {} else if j == 1 {} else if j == 2 {} else {}
  }
  lemma ByteLane3(w: bv32, r: bv32, j: nat)
    requires j < 4
    ensures Byte(WithByte(w, 3, r & 0xff), j) == if j == 3 then RegByte(r, 3) else Byte(w, j)
  {
    if j == 0 {} else if j == 1 {} else if j == 2 {} else {}
  }
  lemma WithByteBytes(w: bv32, lane: bv4, r: bv32, j: nat)
    requires lane < 4 && j < 4
    ensures Byte(WithByte(w, lane, r & 0xff), j) == if j == Index(lane) then RegByte(r, 3) else Byte(w, j)
  {
    WordIndex(lane);
    if lane == 0 {
      ByteLane0(w, r, j);
    } else if lane == 1 {
      ByteLane1(w, r, j);
    } else if lane == 2 {
      ByteLane2(w, r, j);
    } else {
      ByteLane3(w, r, j);
    }
  }

  lemma LowHalfBytes(w: bv32, r: bv32)
    ensures var x := WithHalf(w, false, Swap16((r & 0xffff) as bv16));
            Byte(x, 0) == RegByte(r, 2) && Byte(x, 1) == RegByte(r, 3) && Byte(x, 2) == Byte(w, 2) && Byte(x, 3) == Byte(w, 3)
  {
  }
  lemma HighHalfBytes(w: bv32, r: bv32)
    ensures var x := WithHalf(w, true, Swap16((r & 0xffff) as bv16));
            Byte(x, 0) == Byte(w, 0) && Byte(x, 1) == Byte(w, 1) && Byte(x, 2) == RegByte(r, 2) && Byte(x, 3) == RegByte(r, 3)
  {
  }

  /** The byte that store `p` leaves at byte j of a word. */
  ghost predicate WritesByte(p: Payload, w: bv32, j: nat)
    requires j < 4
  {
    Byte(NewWord(p, w), j) == Keep(Stored(p, j), Byte(w, j))
  }

  lemma SbWrites(p: Payload, w: bv32, j: nat)
    requires p.op.SB? && j < 4
    ensures WritesByte(p, w, j)
  {
    WithByteBytes(w, Lane(p.off), Low32(p.data), j);
  }
  lemma HalfWrites(w: bv32, off: bv4, r: bv32, j: nat)
    requires j < 4
    ensures Byte(WithSwappedHalf(w, off, r), j) == Keep(StoredHalf(r, off, j), Byte(w, j))
  {
    if off & 2 != 0 { HighHalfBytes(w, r); } else { LowHalfBytes(w, r); }
    if j == 0 {} else if j == 1 {} else if j == 2 {} else {}
  }
  lemma ShWrites(p: Payload, w: bv32, j: nat)
    requires p.op.SH? && j < 4
    ensures WritesByte(p, w, j)
  {
    HalfWrites(w, p.off, Low32(p.data), j);
  }
  lemma SwrWritesBytes(p: Payload, w: bv32, j: nat)
    requires p.op.SWR? && j < 4
    ensures WritesByte(p, w, j)
  {
    StoreRightBytes(Lane(p.off), w, Low32(p.data), j);
  }
  lemma SwlWritesBytes(p: Payload, w: bv32, j: nat)
    requires p.op.SWL? && Lane(p.off) != 0 && j < 4
    ensures WritesByte(p, w, j)
  {
    StoreLeftBytes(Lane(p.off), w, Low32(p.data), j);
  }
  lemma SwWrites(p: Payload, w: bv32, j: nat)
    requires (p.op.SW? || p.op.SC?) && j < 4
    ensures WritesByte(p, w, j)
  {
    SwapBytes(Low32(p.data), j);
  }
  lemma FpWrites(p: Payload, w: bv32, j: nat)
    requires p.op.SWC1Merge? && j < 4
    ensures WritesByte(p, w, j)
  {
    SwapBytes(if p.lo then High32(p.data) else Low32(p.data), j);
  }

  /** A store of at most 32 bits writes exactly its bytes of its word, except for the aligned SWL. */
  lemma NewWordBytes(p: Payload, w: bv32, j: nat)
    requires IsStoreOp(p.op) && !p.op.SDC1? && !(p.op.SWL? && Lane(p.off) == 0) && j < 4
    ensures WritesByte(p, w, j)
  {
    match p.op {
      case SB => SbWrites(p, w, j);
      case SH => ShWrites(p, w, j);
      case SWR => SwrWritesBytes(p, w, j);
      case SWL => SwlWritesBytes(p, w, j);
      case SWC1Merge => FpWrites(p, w, j);
      case _ => SwWrites(p, w, j);
    }
  }

  /** A store changes exactly the bytes it names, in every word of the line. */
  lemma MergeWritesBytes(p: Payload, cl: Line, q: bv4, j: nat)
    requires IsStoreOp(p.op) && !p.op.SDC1? && !(p.op.SWL? && Lane(p.off) == 0) && q < 4 && j < 4
    ensures ByteAt(Merge(p, cl), q, j) ==
            if q == Pos(p.off) then Keep(Stored(p, j), ByteAt(cl, q, j)) else ByteAt(cl, q, j)
  {
    var w := Select32(cl, Pos(p.off));
    MergeSelect(cl, NewWord(p, w), Pos(p.off), q);
    NewWordBytes(p, w, j);
  }

  // ---------------------------------------------------------------- addresses

  /** The byte at offset a of a line: bits 8a + 7 down to 8a. */
  function LineByte(cl: Line, a: nat): bv8
    requires a < 16
  {
    if a == 0 then ((cl >> 0) & 0xff) as bv8
    else if a == 1 then ((cl >> 8) & 0xff) as bv8
    else if a == 2 then ((cl >> 16) & 0xff) as bv8
    else if a == 3 then ((cl >> 24) & 0xff) as bv8
    else if a == 4 then ((cl >> 32) & 0xff) as bv8
    else if a == 5 then ((cl >> 40) & 0xff) as bv8
    else if a == 6 then ((cl >> 48) & 0xff) as bv8
    else if a == 7 then ((cl >> 56) & 0xff) as bv8
    else if a == 8 then ((cl >> 64) & 0xff) as bv8
    else if a == 9 then ((cl >> 72) & 0xff) as bv8
    else if a == 10 then ((cl >> 80) & 0xff) as bv8
    else if a == 11 then ((cl >> 88) & 0xff) as bv8
    else if a == 12 then ((cl >> 96) & 0xff) as bv8
    else if a == 13 then ((cl >> 104) & 0xff) as bv8
    else if a == 14 then ((cl >> 112) & 0xff) as bv8
    else (cl >> 120) as bv8
  }

  lemma Word0Bytes(cl: Line, j: nat)
    requires j < 4
    ensures ByteAt(cl, 0, j) == LineByte(cl, 0 + j)
  {
    if j == 0 {} else if j == 1 {} else if j == 2 {} else {}
  }
  lemma Word1Bytes(cl: Line, j: nat)
    requires j < 4
    ensures ByteAt(cl, 1, j) == LineByte(cl, 4 + j)
  {
    if j == 0 {} else if j == 1 {} else if j == 2 {} else {}
  }
  lemma Word2Bytes(cl: Line, j: nat)
    requires j < 4
    ensures ByteAt(cl, 2, j) == LineByte(cl, 8 + j)
  {
    if j == 0 {} else if j == 1 {} else if j == 2 {} else {}
  }
  lemma Word3Bytes(cl: Line, j: nat)
    requires j < 4
    ensures ByteAt(cl, 3, j) == LineByte(cl, 12 + j)
  {
    if j == 0 {} else if j == 1 {} else if j == 2 {} else {}
  }

  /** Byte j of word q is the byte at offset 4q + j. */
  lemma ByteAtOffset(cl: Line, q: bv4, j: nat)
    requires q < 4 && j < 4
    ensures ByteAt(cl, q, j) == LineByte(cl, 4 * Index(q) + j)
  {
    WordIndex(q);
    if q == 0 {
      Word0Bytes(cl, j);
    } else if q == 1 {
      Word1Bytes(cl, j);
    } else if q == 2 {
      Word2Bytes(cl, j);
    } else {
      Word3Bytes(cl, j);
    }
  }

  /** The line offset as a number. */
  lemma OffsetParts(off: bv4)
    ensures Pos(off) < 4 && Lane(off) < 4 && (off as nat) == 4 * Index(Pos(off)) + Index(Lane(off))
  {
    if off == 0 {} else if off == 1 {} else if off == 2 {} else if off == 3 {} else if off == 4 {} else if off == 5 {} else if off == 6 {} else if off == 7 {} else if off == 8 {} else if off == 9 {} else if off == 10 {} else if off == 11 {} else if off == 12 {} else if off == 13 {} else if off == 14 {} else { assert off == 15; }
  }

  // ---------------------------------------------------------------- loads

  /** The reference value of a load, from bytes. */
  function LoadedWord(cl: Line, q: bv4): bv32 { BigEndian(ByteAt(cl, q, 0), ByteAt(cl, q, 1), ByteAt(cl, q, 2), ByteAt(cl, q, 3)) }

  function BigEndian16(b0: bv8, b1: bv8): bv16 { (b0 as bv16 << 8) | (b1 as bv16) }

  lemma SwapReads(w: bv32)
    ensures Swap32(w) == BigEndian(Byte(w, 0), Byte(w, 1), Byte(w, 2), Byte(w, 3))
  {
  }
  lemma SwapHalf(h: bv16)
    ensures Swap16(h) == BigEndian16((h & 0xff) as bv8, (h >> 8) as bv8)
  {
  }
  lemma LowHalfByte0(w: bv32)
    ensures (Half(w, false) & 0xff) as bv8 == Byte(w, 0)
  {
  }
  lemma LowHalfByte1(w: bv32)
    ensures (Half(w, false) >> 8) as bv8 == Byte(w, 1)
  {
  }
  lemma HighHalfByte2(w: bv32)
    ensures (Half(w, true) & 0xff) as bv8 == Byte(w, 2)
  {
  }
  lemma HighHalfByte3(w: bv32)
    ensures (Half(w, true) >> 8) as bv8 == Byte(w, 3)
  {
  }
  lemma HalfReads(w: bv32, high: bool)
    ensures Swap16(Half(w, high)) == if high then BigEndian16(Byte(w, 2), Byte(w, 3)) else BigEndian16(Byte(w, 0), Byte(w, 1))
  {
    SwapHalf(Half(w, high));
    if high {
      HighHalfByte2(w);
      HighHalfByte3(w);
    } else {
      LowHalfByte0(w);
      LowHalfByte1(w);
    }
  }

  lemma Select64Halves(cl: Line, high: bool)
    ensures var x := Select64(cl, high);
            if high then Low32(x) == Select32(cl, 2) && High32(x) == Select32(cl, 3)
            else Low32(x) == Select32(cl, 0) && High32(x) == Select32(cl, 1)
  {
  }

  lemma ExtractByte(p: Payload, cl: Line, b: bv8)
    requires (p.op.LB? || p.op.LBU?) && b == ByteAt(cl, Pos(p.off), Index(Lane(p.off)))
    ensures Extract(p, cl) == Extend8(p.op.LB?, b)
  {
  }

  /** LB and LBU extend the byte at their address. */
  lemma ByteLoads(p: Payload, cl: Line)
    requires p.op.LB? || p.op.LBU?
    ensures (p.off as nat) < 16
    ensures var b := LineByte(cl, p.off as nat);
            Extract(p, cl) == Extend8(p.op.LB?, b)
  {
    OffsetParts(p.off);
    ByteAtOffset(cl, Pos(p.off), Index(Lane(p.off)));
    ExtractByte(p, cl, LineByte(cl, p.off as nat));
  }

  lemma EvenParts(off: bv4)
    ensures Pos(off) < 4 && off as nat - off as nat % 2 == 4 * Index(Pos(off)) + (if off & 2 != 0 then 2 else 0)
  {
    if off == 0 {} else if off == 1 {} else if off == 2 {} else if off == 3 {} else if off == 4 {} else if off == 5 {} else if off == 6 {} else if off == 7 {} else if off == 8 {} else if off == 9 {} else if off == 10 {} else if off == 11 {} else if off == 12 {} else if off == 13 {} else if off == 14 {} else { assert off == 15; }
  }

  /** The even offset at or below an offset. */
  function Even(off: bv4): nat { off as nat - off as nat % 2 }

  function HalfAt(cl: Line, a: nat): bv16
    requires a < 15
  {
    BigEndian16(LineByte(cl, a), LineByte(cl, a + 1))
  }

  lemma HalfAtOffset(cl: Line, off: bv4)
    ensures Even(off) < 15 && SwappedHalf(Select32(cl, Pos(off)), off) == HalfAt(cl, Even(off))
  {
    var q, j := Pos(off), if off & 2 != 0 then 2 else 0;
    EvenParts(off);
    ByteAtOffset(cl, q, j);
    ByteAtOffset(cl, q, j + 1);
    HalfReads(Select32(cl, q), off & 2 != 0);
  }

  lemma ExtractHalf(p: Payload, cl: Line, h: bv16)
    requires (p.op.LH? || p.op.LHU?) && h == SwappedHalf(Select32(cl, Pos(p.off)), p.off)
    ensures Extract(p, cl) == Extend16(p.op.LH?, h)
  {
  }

  /** LH and LHU extend the big-endian half word at their address, whose lowest bit is ignored. */
  lemma HalfLoads(p: Payload, cl: Line)
    requires p.op.LH? || p.op.LHU?
    ensures Even(p.off) < 15
    ensures var h := HalfAt(cl, Even(p.off)); Extract(p, cl) == Extend16(p.op.LH?, h)
  {
    HalfAtOffset(cl, p.off);
    ExtractHalf(p, cl, HalfAt(cl, Even(p.off)));
  }

  /** LW and the merging LWC1 read the big-endian word at their address. */
  lemma WordLoads(p: Payload, cl: Line)
    ensures var x := LoadedWord(cl, Pos(p.off));
            && (p.op.LW? ==> Extract(p, cl) == Sext32(x))
            && (p.op.LWC1Merge? ==> Extract(p, cl) == if p.lo then Join64(x, Low32(p.data)) else Join64(High32(p.data), x))
  {
    SwapReads(Select32(cl, Pos(p.off)));
  }

  lemma DoubleLoads(p: Payload, cl: Line)
    ensures p.op.LDC1? ==>
              Extract(p, cl) == if p.off & 8 != 0 then Join64(LoadedWord(cl, 2), LoadedWord(cl, 3))
                                else Join64(LoadedWord(cl, 0), LoadedWord(cl, 1))
  {
    DoubleReads(cl, p.off & 8 != 0);
  }

  lemma DoubleReads(cl: Line, high: bool)
    ensures Swap64(Select64(cl, high)) ==
            if high then Join64(LoadedWord(cl, 2), LoadedWord(cl, 3)) else Join64(LoadedWord(cl, 0), LoadedWord(cl, 1))
  {
    Select64Halves(cl, high);
    if high {
      SwapReads(Select32(cl, 2));
      SwapReads(Select32(cl, 3));
    } else {
      SwapReads(Select32(cl, 0));
      SwapReads(Select32(cl, 1));
    }
  }

  // ---------------------------------------------------------------- round trips

  lemma SamePlace(a: bv4, b: bv4)
    ensures a == b <==> Pos(a) == Pos(b) && Index(Lane(a)) == Index(Lane(b))
  {
    OffsetParts(a);
    OffsetParts(b);
  }

  /** A byte stored can be loaded back, and a byte store elsewhere does not disturb a byte load. */
  lemma ByteRoundTrip(cl: Line, st: Payload, ld: Payload)
    requires st.op.SB? && (ld.op.LB? || ld.op.LBU?)
    ensures Extract(ld, Merge(st, cl)) ==
            if ld.off == st.off then Extend8(ld.op.LB?, RegByte(Low32(st.data), 3)) else Extract(ld, cl)
  {
    var q, j := Pos(ld.off), Index(Lane(ld.off));
    OffsetParts(ld.off);
    OffsetParts(st.off);
    MergeWritesBytes(st, cl, q, j);
    SamePlace(st.off, ld.off);
    ExtractByte(ld, cl, ByteAt(cl, q, j));
    ExtractByte(ld, Merge(st, cl), ByteAt(Merge(st, cl), q, j));
  }

  lemma SwapBack(x: bv32)
    ensures Swap32(Swap32(x)) == x
  {
  }

  /** A word stored can be loaded back, and a store to another word does not disturb a load. */
  lemma WordRoundTrip(cl: Line, st: Payload, ld: Payload)
    requires st.op.SW? && ld.op.LW?
    ensures Extract(ld, Merge(st, cl)) ==
            if Pos(ld.off) == Pos(st.off) then Sext32(Low32(st.data)) else Extract(ld, cl)
  {
    assert Pos(st.off) < 4 && Pos(ld.off) < 4;
    MergeSelect(cl, NewWord(st, Select32(cl, Pos(st.off))), Pos(st.off), Pos(ld.off));
    SwapBack(Low32(st.data));
  }

  /** SDC1 writes the two words of its half in big-endian order and leaves the other half alone. */
  lemma DoubleStores(p: Payload, cl: Line, q: bv4)
    requires p.op.SDC1? && q < 4
    ensures var high := p.off & 8 != 0;
            Select32(Merge(p, cl), q) ==
            if q == (if high then 2 else 0) then Swap32(High32(p.data))
            else if q == (if high then 3 else 1) then Swap32(Low32(p.data)) else Select32(cl, q)
  {
    Merge64Words(cl, Swap32(Low32(p.data)), Swap32(High32(p.data)), p.off & 8 != 0, q);
  }

  lemma Merge64Low(cl: Line, hi: bv32, lo: bv32)
    ensures var x := Merge64(cl, Join64(hi, lo), false);
            Select32(x, 0) == lo && Select32(x, 1) == hi && Select32(x, 2) == Select32(cl, 2) && Select32(x, 3) == Select32(cl, 3)
  {
  }
  lemma Merge64High(cl: Line, hi: bv32, lo: bv32)
    ensures var x := Merge64(cl, Join64(hi, lo), true);
            Select32(x, 0) == Select32(cl, 0) && Select32(x, 1) == Select32(cl, 1) && Select32(x, 2) == lo && Select32(x, 3) == hi
  {
  }
  lemma Merge64Words(cl: Line, hi: bv32, lo: bv32, high: bool, q: bv4)
    requires q < 4
    ensures Select32(Merge64(cl, Join64(hi, lo), high), q) ==
            if q == (if high then 2 else 0) then lo else if q == (if high then 3 else 1) then hi else Select32(cl, q)
  {
    if high { Merge64High(cl, hi, lo); } else { Merge64Low(cl, hi, lo); }
    if q == 0 {} else if q == 1 {} else if q == 2 {} else {}
  }

  lemma SelectMerge64(cl: Line, w: bv64, high: bool)
    ensures Select64(Merge64(cl, w, high), high) == w
  {
  }

  lemma Swap64Twice(x: bv64)
    ensures Swap64(Swap64(x)) == x
  {
  }

  /** A double word stored by SDC1 is loaded back by LDC1. */
  lemma DoubleRoundTrip(cl: Line, st: Payload, ld: Payload)
    requires st.op.SDC1? && ld.op.LDC1? && st.off & 8 == ld.off & 8
    ensures Extract(ld, Merge(st, cl)) == st.data
  {
    SelectMerge64(cl, Swap64(st.data), st.off & 8 != 0);
    Swap64Twice(st.data);
  }

  // ---------------------------------------------------------------- the reference memory, byte by byte

  /** The byte that SDC1 puts at byte j of word q: the upper word comes first in its half. */
  function StoredDouble(p: Payload, q: bv4, j: nat): Option<bv8>
    requires j < 4
  {
    var high := p.off & 8 != 0;
    if q == (if high then 2 else 0) then Some(RegByte(High32(p.data), j))
    else if q == (if high then 3 else 1) then Some(RegByte(Low32(p.data), j))
    else None
  }

  /** The byte that a store puts at byte j of word q of its line, if it writes there: the reference. */
  function Covered(p: Payload, q: bv4, j: nat): Option<bv8>
    requires j < 4
  {
    if p.op.SDC1? then StoredDouble(p, q, j) else if q == Pos(p.off) then Stored(p, j) else None
  }

  /** The stores whose effect is byte-exact: all but the aligned SWL. */
  predicate Exact(p: Payload) { IsStoreOp(p.op) && !(p.op.SWL? && Lane(p.off) == 0) }

  lemma ShortStoreByte(p: Payload, cl: Line, q: bv4, j: nat)
    requires Exact(p) && !p.op.SDC1? && q < 4 && j < 4
    ensures ByteAt(Merge(p, cl), q, j) == Keep(Covered(p, q, j), ByteAt(cl, q, j))
  {
    MergeWritesBytes(p, cl, q, j);
  }
  lemma DoubleStoreByte(p: Payload, cl: Line, q: bv4, j: nat)
    requires p.op.SDC1? && q < 4 && j < 4
    ensures ByteAt(Merge(p, cl), q, j) == Keep(StoredDouble(p, q, j), ByteAt(cl, q, j))
  {
    DoubleStores(p, cl, q);
    SwapBytes(High32(p.data), j);
    SwapBytes(Low32(p.data), j);
  }

  /** Merging a store changes exactly the bytes it covers, for every store and every byte of the line. */
  lemma StoreByte(p: Payload, cl: Line, q: bv4, j: nat)
    requires Exact(p) && q < 4 && j < 4
    ensures ByteAt(Merge(p, cl), q, j) == Keep(Covered(p, q, j), ByteAt(cl, q, j))
  {
    if p.op.SDC1? { DoubleStoreByte(p, cl, q, j); } else { ShortStoreByte(p, cl, q, j); }
  }

  /** The byte that the newest store of ws covering byte j of word q of line la wrote there. */
  function Newest(ws: seq<C.MemReq>, la: C.LineAddr, q: bv4, j: nat): Option<bv8>
    requires j < 4
  {
    if ws == [] then None
    else
      var w := ws[|ws| - 1];
      if w.la == la && Covered(w.pay, q, j).Some? then Covered(w.pay, q, j) else Newest(ws[..|ws| - 1], la, q, j)
  }

  lemma KeepNewest(ws: seq<C.MemReq>, la: C.LineAddr, q: bv4, j: nat, first: bv8)
    requires ws != [] && j < 4
    ensures var front, w := ws[..|ws| - 1], ws[|ws| - 1];
            var older := Keep(Newest(front, la, q, j), first);
            Keep(Newest(ws, la, q, j), first) == if w.la == la then Keep(Covered(w.pay, q, j), older) else older
  {
  }

  /** Every byte of the reference memory is the one written by the newest store that covers it, or the
      initial one: the cache's lines are a byte-addressed memory. */
  lemma {:induction false} ReferenceMemoryBytes(c: C.Config, ws: seq<C.MemReq>, la: C.LineAddr, q: bv4, j: nat)
    requires c.merge == Merge && q < 4 && j < 4 && forall w :: w in ws && w.la == la ==> Exact(w.pay)
    ensures ByteAt(C.Replay(c, ws, la), q, j) == Keep(Newest(ws, la, q, j), ByteAt(C.Read(c.init, la), q, j))
  {
    if ws != [] {
      var front, w := ws[..|ws| - 1], ws[|ws| - 1];
      ReferenceMemoryBytes(c, front, la, q, j);
      KeepNewest(ws, la, q, j, ByteAt(C.Read(c.init, la), q, j));
      if w.la == la { StoreByte(w.pay, C.Replay(c, front, la), q, j); }
    }
  }

  /** In the reference memory of the cache: a word load sees the newest word store to its address,
      whatever came before, and no store to another word or line. */
  lemma ReferenceMemoryLoads(c: C.Config, ws: seq<C.MemReq>, st: C.MemReq, la: C.LineAddr, ld: Payload)
    requires c.merge == Merge && c.extract == Extract && st.pay.op.SW? && ld.op.LW?
    ensures c.extract(ld, C.Replay(c, ws + [st], la)) ==
            if st.la == la && Pos(ld.off) == Pos(st.pay.off) then Sext32(Low32(st.pay.data))
            else c.extract(ld, C.Replay(c, ws, la))
  {
    assert (ws + [st])[..|ws|] == ws;
    if st.la == la { WordRoundTrip(C.Replay(c, ws, la), st.pay, ld); }
  }
}
