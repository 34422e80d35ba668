/** Registers of w bits read and written as signed numbers. */
module TwosComplement {
  import opened Bits

  /** Two's complement negation. */
  function Negate(w: nat, x: nat): (r: nat)
    ensures r < Pow2(w)
  {
    if x == 0 || x >= Pow2(w) then 0 else Pow2(w) - x
  }

  predicate SignBit(w: nat, x: nat)
    requires w > 0
  {
    x >= Pow2(w - 1)
  }

  /** A register read as a signed number. */
  function SignedValue(w: nat, x: nat): int
    requires w > 0
  {
    if SignBit(w, x) then x - Pow2(w) else x
  }

  /** A signed number as a register. */
  function Pattern(w: nat, v: int): int { if v >= 0 then v else v + Pow2(w) }
}
