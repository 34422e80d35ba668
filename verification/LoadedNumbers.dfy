/**
  What the loads of the data path leave in a 64-bit register, as numbers (l1d.sv): the big-endian number of the
  bytes at the address, signed or unsigned.
 */
module LoadedNumbers {
  import opened MemoryTypes
  import opened Lanes
  import opened DataPath

  /** A register of 64 bits holds v, in two's complement if v is negative. */
  predicate Holds(x: bv64, v: int) { x as int == if v >= 0 then v else v + 0x1_0000_0000_0000_0000 }

  /** n < k read as a signed number of that range. */
  function SignedIn(k: nat, n: nat): int { if 2 * n >= k then n - k else n }

  // ---------------------------------------------------------------- bytes to numbers

  lemma SignByte(b: bv8)
    ensures b >> 7 == 1 <==> b as int >= 0x80
  {
  }
  lemma UpperByte(b: bv8)
    ensures (0xffff_ffff_ffff_ff00 | (b as bv64)) as int == 0xffff_ffff_ffff_ff00 + b as int
  {
  }
  lemma WidenByte(b: bv8)
    ensures (b as bv64) as int == b as int
  {
  }

  lemma ShiftedByte(b: bv8)
    ensures (b as bv16 << 8) as int == 0x100 * b as int
  {
  }
  lemma LowByteJoins(x: bv16, b: bv8)
    requires x & 0xff == 0
    ensures (x | (b as bv16)) as int == x as int + b as int
  {
  }
  lemma HalfNumber(b0: bv8, b1: bv8)
    ensures BigEndian16(b0, b1) as int == 0x100 * b0 as int + b1 as int
  {
    ShiftedByte(b0);
    assert (b0 as bv16 << 8) & 0xff == 0;
    LowByteJoins(b0 as bv16 << 8, b1);
  }
  lemma HalfSign(b0: bv8, b1: bv8)
    ensures BigEndian16(b0, b1) >> 15 == 1 <==> b0 >> 7 == 1
  {
  }
  lemma UpperHalf(h: bv16)
    ensures (0xffff_ffff_ffff_0000 | (h as bv64)) as int == 0xffff_ffff_ffff_0000 + h as int
  {
  }
  lemma WidenHalf(h: bv16)
    ensures (h as bv64) as int == h as int
  {
  }

  lemma WordHalves(b0: bv8, b1: bv8, b2: bv8, b3: bv8)
    ensures BigEndian(b0, b1, b2, b3) == (BigEndian16(b0, b1) as bv32 << 16) | (BigEndian16(b2, b3) as bv32)
  {
  }
  lemma HalvesNumber(h: bv16, l: bv16)
    ensures ((h as bv32 << 16) | (l as bv32)) as int == 0x1_0000 * h as int + l as int
  {
  }

  /** The number that four bytes stand for. */
  function Number4(b0: bv8, b1: bv8, b2: bv8, b3: bv8): nat {
    0x100_0000 * b0 as int + 0x1_0000 * b1 as int + 0x100 * b2 as int + b3 as int
  }

  lemma WordNumber(b0: bv8, b1: bv8, b2: bv8, b3: bv8)
    ensures BigEndian(b0, b1, b2, b3) as int == Number4(b0, b1, b2, b3)
  {
    WordHalves(b0, b1, b2, b3);
    HalvesNumber(BigEndian16(b0, b1), BigEndian16(b2, b3));
    HalfNumber(b0, b1);
    HalfNumber(b2, b3);
  }
  lemma WordSign(b0: bv8, b1: bv8, b2: bv8, b3: bv8)
    ensures BigEndian(b0, b1, b2, b3) >> 31 == 1 <==> b0 >> 7 == 1
  {
  }
  lemma UpperWord(w: bv32)
    ensures (0xffff_ffff_0000_0000 | (w as bv64)) as int == 0xffff_ffff_0000_0000 + w as int
  {
  }
  lemma WidenWord(w: bv32)
    ensures (w as bv64) as int == w as int
  {
  }
  lemma JoinedOnes(w: bv32)
    ensures Join64(0xffff_ffff, w) == 0xffff_ffff_0000_0000 | (w as bv64)
  {
  }

  // ---------------------------------------------------------------- sign and zero extension

  lemma ByteExtends(signed: bool, b: bv8)
    ensures Holds(Extend8(signed, b), if signed then SignedIn(0x100, b as int) else b as int)
  {
    SignByte(b);
    UpperByte(b);
    WidenByte(b);
  }

  lemma HalfNegative(b0: bv8, b1: bv8)
    ensures BigEndian16(b0, b1) >> 15 == 1 <==> 0x100 * b0 as int + b1 as int >= 0x8000
  {
    HalfSign(b0, b1);
    SignByte(b0);
  }

  lemma HalfWidens(signed: bool, h: bv16, n: nat)
    requires h as int == n && (h >> 15 == 1 <==> n >= 0x8000)
    ensures Holds(Extend16(signed, h), if signed then SignedIn(0x1_0000, n) else n)
  {
    UpperHalf(h);
    WidenHalf(h);
  }

  lemma HalfExtends(signed: bool, b0: bv8, b1: bv8)
    ensures var n := 0x100 * b0 as int + b1 as int;
            Holds(Extend16(signed, BigEndian16(b0, b1)), if signed then SignedIn(0x1_0000, n) else n)
  {
    HalfNumber(b0, b1);
    HalfNegative(b0, b1);
    HalfWidens(signed, BigEndian16(b0, b1), 0x100 * b0 as int + b1 as int);
  }

  lemma WordNegative(b0: bv8, b1: bv8, b2: bv8, b3: bv8)
    ensures BigEndian(b0, b1, b2, b3) >> 31 == 1 <==> Number4(b0, b1, b2, b3) >= 0x8000_0000
  {
    WordSign(b0, b1, b2, b3);
    SignByte(b0);
  }

  lemma WordWidens(w: bv32, n: nat)
    requires w as int == n && (w >> 31 == 1 <==> n >= 0x8000_0000)
    ensures Holds(Sext32(w), SignedIn(0x1_0000_0000, n))
  {
    JoinedOnes(w);
    UpperWord(w);
    WidenWord(w);
  }

  lemma WordExtends(b0: bv8, b1: bv8, b2: bv8, b3: bv8)
    ensures Holds(Sext32(BigEndian(b0, b1, b2, b3)), SignedIn(0x1_0000_0000, Number4(b0, b1, b2, b3)))
  {
    WordNumber(b0, b1, b2, b3);
    WordNegative(b0, b1, b2, b3);
    WordWidens(BigEndian(b0, b1, b2, b3), Number4(b0, b1, b2, b3));
  }

  // ---------------------------------------------------------------- the loads

  /** LB loads the signed, LBU the unsigned number of the byte at its address. */
  lemma ByteLoadNumber(p: Payload, cl: Line)
    requires p.op.LB? || p.op.LBU?
    ensures (p.off as nat) < 16
    ensures var n := LineByte(cl, p.off as nat) as int;
            Holds(Extract(p, cl), if p.op.LB? then SignedIn(0x100, n) else n)
  {
    ByteLoads(p, cl);
    ByteExtends(p.op.LB?, LineByte(cl, p.off as nat));
  }

  /** LH loads the signed, LHU the unsigned number of the two bytes at its even address, the upper byte first. */
  lemma HalfLoadNumber(p: Payload, cl: Line)
    requires p.op.LH? || p.op.LHU?
    ensures Even(p.off) < 15
    ensures var n := 0x100 * LineByte(cl, Even(p.off)) as int + LineByte(cl, Even(p.off) + 1) as int;
            Holds(Extract(p, cl), if p.op.LH? then SignedIn(0x1_0000, n) else n)
  {
    HalfLoads(p, cl);
    HalfExtends(p.op.LH?, LineByte(cl, Even(p.off)), LineByte(cl, Even(p.off) + 1));
  }

  lemma WordBytes(cl: Line, q: bv4, a: nat)
    requires q < 4 && a == 4 * Index(q)
    ensures LoadedWord(cl, q) == BigEndian(LineByte(cl, a), LineByte(cl, a + 1), LineByte(cl, a + 2), LineByte(cl, a + 3))
  {
    ByteAtOffset(cl, q, 0);
    ByteAtOffset(cl, q, 1);
    ByteAtOffset(cl, q, 2);
    ByteAtOffset(cl, q, 3);
  }

  /** LW loads the signed number of the four bytes of its word, the upper byte first. */
  lemma WordLoadNumber(p: Payload, cl: Line)
    requires p.op.LW?
    ensures var a := p.off as nat - p.off as nat % 4;
            a < 13 &&
            Holds(Extract(p, cl), SignedIn(0x1_0000_0000, Number4(LineByte(cl, a), LineByte(cl, a + 1),
                                                                  LineByte(cl, a + 2), LineByte(cl, a + 3))))
  {
    var q := Pos(p.off);
    var a := 4 * Index(q);
    OffsetParts(p.off);
    assert p.off as nat - p.off as nat % 4 == a;
    WordLoads(p, cl);
    WordBytes(cl, q, a);
    WordExtends(LineByte(cl, a), LineByte(cl, a + 1), LineByte(cl, a + 2), LineByte(cl, a + 3));
  }
}
