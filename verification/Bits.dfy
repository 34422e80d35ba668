/** Powers of two and bit vectors as sequences, bit 0 first. */
module Bits {

  function Pow2(n: nat): (p: nat)
    ensures p > 0
  {
    if n == 0 then 1 else 2 * Pow2(n - 1)
  }

  lemma {:induction false} Pow2Add(m: nat, n: nat)
    ensures Pow2(m + n) == Pow2(m) * Pow2(n)
  {
    if m == 0 {
    } else {
      Pow2Add(m - 1, n);
      assert Pow2(m + n) == 2 * Pow2(m - 1 + n);
      assert 2 * (Pow2(m - 1) * Pow2(n)) == (2 * Pow2(m - 1)) * Pow2(n);
    }
  }

  lemma {:induction false} Pow2Mono(m: nat, n: nat)
    requires m <= n
    ensures Pow2(m) <= Pow2(n)
    decreases n - m
  {
    if m < n { Pow2Mono(m + 1, n); }
  }

  /** The unsigned number that a bit vector encodes. */
  function Value(b: seq<bool>): nat {
    if b == [] then 0
    else Value(b[..|b| - 1]) + (if b[|b| - 1] then Pow2(|b| - 1) else 0)
  }

  lemma {:induction false} ValueBound(b: seq<bool>)
    ensures Value(b) < Pow2(|b|)
  {
    if b != [] { ValueBound(b[..|b| - 1]); }
  }

  ghost predicate AnySet(b: seq<bool>) { exists k :: 0 <= k < |b| && b[k] }

  /** `y` is the index of the highest set bit. */
  ghost predicate IsHighest(b: seq<bool>, y: nat) {
    y < |b| && b[y] && forall k :: y < k < |b| ==> !b[k]
  }

  /** A vector whose highest set bit is `y` encodes a number in [2^y, 2^(y+1)). */
  lemma {:induction false} HighestBounds(b: seq<bool>, y: nat)
    requires IsHighest(b, y)
    ensures Pow2(y) <= Value(b) < Pow2(y + 1)
  {
    var n := |b| - 1;
    if y == n {
      ValueBound(b[..n]);
    } else {
      HighestBounds(b[..n], y);
    }
  }

  lemma {:induction false} NoneSetIsZero(b: seq<bool>)
    requires !AnySet(b)
    ensures Value(b) == 0
  {
    if b != [] {
      assert !b[|b| - 1];
      NoneSetIsZero(b[..|b| - 1]);
    }
  }
}
