/**
  The recursive priority encoders (find_first_set.sv, count_leading_zeros.sv) and the
  rotating-priority selector built on them (fair_sched.sv).
 */
module PriorityEncoder {
  import opened Bits

  /** A vector of 2^lg bits. */
  predicate Vector(lg: nat, b: seq<bool>) { |b| == Pow2(lg) }

  /** A half of a vector is zero, as the reduction wires lo_z and hi_z compute it. */
  predicate IsZero(b: seq<bool>) { forall k :: 0 <= k < |b| ==> !b[k] }

  function LowHalf(lg: nat, b: seq<bool>): (h: seq<bool>)
    requires lg > 0 && Vector(lg, b)
    ensures Vector(lg - 1, h)
  {
    b[..Pow2(lg - 1)]
  }

  function HighHalf(lg: nat, b: seq<bool>): (h: seq<bool>)
    requires lg > 0 && Vector(lg, b)
    ensures Vector(lg - 1, h)
  {
    b[Pow2(lg - 1)..]
  }

  /** find_first_set: on a zero input the base case answers 3'b111, the recursive case N. */
  function FindFirstSet(lg: nat, b: seq<bool>): nat
    requires lg >= 2 && Vector(lg, b)
  {
    if lg == 2 then
      assert |b| == 2 * (2 * Pow2(0));
      if b[3] then 3 else if b[2] then 2 else if b[1] then 1 else if b[0] then 0 else 7
    else
      var n2 := Pow2(lg - 1);
      var lo, hi := LowHalf(lg, b), HighHalf(lg, b);
      if IsZero(lo) && IsZero(hi) then 2 * n2
      else if !IsZero(hi) then n2 + FindFirstSet(lg - 1, hi)
      else FindFirstSet(lg - 1, lo)
  }

  /** count_leading_zeros. */
  function CountLeadingZeros(lg: nat, b: seq<bool>): nat
    requires lg >= 2 && Vector(lg, b)
  {
    if lg == 2 then
      assert |b| == 2 * (2 * Pow2(0));
      if b[3] then 0 else if b[2] then 1 else if b[1] then 2 else if b[0] then 3 else 4
    else if IsZero(HighHalf(lg, b)) then Pow2(lg - 1) + CountLeadingZeros(lg - 1, LowHalf(lg, b))
    else CountLeadingZeros(lg - 1, HighHalf(lg, b))
  }

  /** The encoder returns the highest set bit for every width; on zero it returns a value that
      is no bit index. */
  lemma {:induction false} FindFirstSetIsHighest(lg: nat, b: seq<bool>)
    requires lg >= 2 && Vector(lg, b)
    ensures AnySet(b) ==> IsHighest(b, FindFirstSet(lg, b))
    ensures !AnySet(b) ==> FindFirstSet(lg, b) == (if lg == 2 then 7 else Pow2(lg))
  {
    if lg == 2 {
      assert |b| == 2 * (2 * Pow2(0));
    } else {
      var lo, hi := LowHalf(lg, b), HighHalf(lg, b);
      var n2 := Pow2(lg - 1);
      assert forall k :: 0 <= k < n2 ==> b[k] == lo[k] && b[n2 + k] == hi[k];
      if !IsZero(hi) {
        FindFirstSetIsHighest(lg - 1, hi);
      } else if !IsZero(lo) {
        FindFirstSetIsHighest(lg - 1, lo);
        assert forall k :: n2 <= k < |b| ==> b[k] == hi[k - n2];
      } else {
        assert forall k :: n2 <= k < |b| ==> b[k] == hi[k - n2];
      }
    }
  }

  /** The leading-zero count and the highest set bit add up to N - 1. */
  lemma {:induction false} LeadingZerosComplement(lg: nat, b: seq<bool>)
    requires lg >= 2 && Vector(lg, b)
    ensures AnySet(b) ==> CountLeadingZeros(lg, b) + FindFirstSet(lg, b) == Pow2(lg) - 1
    ensures !AnySet(b) ==> CountLeadingZeros(lg, b) == Pow2(lg)
  {
    if lg == 2 {
      assert |b| == 2 * (2 * Pow2(0));
    } else {
      var lo, hi := LowHalf(lg, b), HighHalf(lg, b);
      var n2 := Pow2(lg - 1);
      assert forall k :: 0 <= k < n2 ==> b[k] == lo[k] && b[n2 + k] == hi[k];
      if IsZero(hi) {
        assert forall k :: n2 <= k < |b| ==> b[k] == hi[k - n2];
        LeadingZerosComplement(lg - 1, lo);
      } else {
        LeadingZerosComplement(lg - 1, hi);
      }
    }
  }

  /** Shifting a non-zero vector left by its leading-zero count fills the top bit:
      2^(N-1) <= v * 2^clz < 2^N. */
  lemma LeadingZerosNormalise(lg: nat, b: seq<bool>)
    requires lg >= 2 && Vector(lg, b) && AnySet(b)
    ensures CountLeadingZeros(lg, b) < Pow2(lg)
    ensures var z := CountLeadingZeros(lg, b);
            Pow2(Pow2(lg) - 1) <= Value(b) * Pow2(z) < Pow2(Pow2(lg))
  {
    var y, z := FindFirstSet(lg, b), CountLeadingZeros(lg, b);
    FindFirstSetIsHighest(lg, b);
    LeadingZerosComplement(lg, b);
    HighestBounds(b, y);
    Pow2Add(y, z);
    Pow2Add(y + 1, z);
    MulOrder(Pow2(y), Value(b), Pow2(y + 1), Pow2(z));
    assert y + z == Pow2(lg) - 1 && y + 1 + z == Pow2(lg);
  }

  lemma MulOrder(a: nat, v: nat, b: nat, m: nat)
    requires a <= v < b && m > 0
    ensures a * m <= v * m < b * m
  {
    assert (v - a) * m >= 0 && (b - v) * m > 0;
  }

  // ---------------------------------------------------------------- rotating select

  /** Addition modulo n of two reduced operands. */
  function Wrap(n: nat, a: nat, d: nat): (r: nat)
    requires a < n && d < n
    ensures r < n
  {
    if a + d >= n then a + d - n else a + d
  }

  /** Subtraction modulo n of two reduced operands. */
  function Back(n: nat, a: nat, d: nat): (r: nat)
    requires a < n && d < n
    ensures r < n
  {
    if a >= d then a - d else a + n - d
  }

  lemma WrapBack(n: nat, a: nat, d: nat)
    requires a < n && d < n
    ensures Back(n, Wrap(n, a, d), d) == a && Wrap(n, Back(n, a, d), d) == a
  {
  }

  /** t_in: the upper half of the doubled request vector shifted left by r_cnt. */
  function Rotate(b: seq<bool>, cnt: nat): (r: seq<bool>)
    requires cnt < |b|
    ensures |r| == |b|
  {
    (b + b)[|b| - cnt..2 * |b| - cnt]
  }

  /** The selected line; all ones when no line requests. */
  function Select(lg: nat, b: seq<bool>, cnt: nat): nat
    requires lg >= 2 && Vector(lg, b) && cnt < |b|
  {
    if IsZero(b) then 2 * |b| - 1
    else
      var y := FindFirstSet(lg, Rotate(b, cnt));
      if y < |b| then Back(|b|, y, cnt) else 0
  }

  lemma RotateAt(b: seq<bool>, cnt: nat, k: nat)
    requires cnt < |b| && k < |b|
    ensures Rotate(b, cnt)[k] == b[Back(|b|, k, cnt)]
  {
  }

  lemma RotateKeepsRequest(b: seq<bool>, cnt: nat, k: nat)
    requires cnt < |b| && k < |b| && b[k]
    ensures Rotate(b, cnt)[Wrap(|b|, k, cnt)]
  {
    RotateAt(b, cnt, Wrap(|b|, k, cnt));
    WrapBack(|b|, k, cnt);
  }

  /** A requesting line is picked whenever there is one, and the line whose turn it is wins. */
  lemma SelectPicksRequest(lg: nat, b: seq<bool>, cnt: nat)
    requires lg >= 2 && Vector(lg, b) && cnt < |b| && AnySet(b)
    ensures Select(lg, b, cnt) < |b| && b[Select(lg, b, cnt)]
    ensures b[|b| - 1 - cnt] ==> Select(lg, b, cnt) == |b| - 1 - cnt
  {
    var k :| 0 <= k < |b| && b[k];
    RotateKeepsRequest(b, cnt, k);
    var y := FindFirstSet(lg, Rotate(b, cnt));
    FindFirstSetIsHighest(lg, Rotate(b, cnt));
    assert AnySet(Rotate(b, cnt));
    RotateAt(b, cnt, y);
    RotateAt(b, cnt, |b| - 1);
  }

  /** The counter after one cycle. */
  function NextCnt(b: seq<bool>, cnt: nat): (c: nat)
    requires cnt < |b|
    ensures c < |b|
  {
    if IsZero(b) then cnt else if cnt + 1 == |b| then 0 else cnt + 1
  }

  /** The lines picked in a run. */
  function Picks(lg: nat, ins: seq<seq<bool>>, cnt: nat): (p: seq<nat>)
    requires lg >= 2 && cnt < Pow2(lg) && forall b :: b in ins ==> Vector(lg, b)
    ensures |p| == |ins|
  {
    if ins == [] then []
    else [Select(lg, ins[0], cnt)] + Picks(lg, ins[1..], NextCnt(ins[0], cnt))
  }

  /** Cycles until it is line `k`'s turn. */
  function Turn(n: nat, cnt: nat, k: nat): (t: nat)
    requires cnt < n && k < n
    ensures t < n
  {
    Back(n, n - 1 - k, cnt)
  }

  lemma {:induction false} PickedOnTurn(lg: nat, ins: seq<seq<bool>>, cnt: nat, k: nat)
    requires lg >= 2 && cnt < Pow2(lg) && k < Pow2(lg)
    requires forall b :: b in ins ==> Vector(lg, b) && b[k]
    requires Turn(Pow2(lg), cnt, k) < |ins|
    ensures Picks(lg, ins, cnt)[Turn(Pow2(lg), cnt, k)] == k
    decreases |ins|
  {
    var b := ins[0];
    assert b in ins && b[k];
    if Turn(Pow2(lg), cnt, k) == 0 {
      SelectPicksRequest(lg, b, cnt);
    } else {
      var next := NextCnt(b, cnt);
      assert Turn(Pow2(lg), next, k) == Turn(Pow2(lg), cnt, k) - 1;
      PickedOnTurn(lg, ins[1..], next, k);
    }
  }

  /** A line held high is picked within N consecutive cycles, from any counter value. */
  lemma NoStarvation(lg: nat, ins: seq<seq<bool>>, cnt: nat, k: nat)
    requires lg >= 2 && cnt < Pow2(lg) && k < Pow2(lg) && |ins| == Pow2(lg)
    requires forall b :: b in ins ==> Vector(lg, b) && b[k]
    ensures exists t :: 0 <= t < |ins| && Picks(lg, ins, cnt)[t] == k
  {
    PickedOnTurn(lg, ins, cnt, k);
  }

  /** The selector as a clocked object. */
  class FairScheduler {
    const lg: nat
    var cnt: nat

    ghost predicate Valid()
      reads this
    {
      lg >= 2 && cnt < Pow2(lg)
    }

    constructor (lg: nat)
      requires lg >= 2
      ensures Valid() && this.lg == lg && cnt == 0
    {
      this.lg, this.cnt := lg, 0;
    }

    method Clock(b: seq<bool>) returns (y: nat)
      requires Valid() && Vector(lg, b)
      modifies this
      ensures Valid() && cnt == NextCnt(b, old(cnt)) && y == Select(lg, b, old(cnt))
      ensures AnySet(b) ==> y < |b| && b[y]
    {
      y := Select(lg, b, cnt);
      if AnySet(b) { SelectPicksRequest(lg, b, cnt); }
      cnt := NextCnt(b, cnt);
    }
  }
}
