/**
  Ring buffers of n slots whose pointers carry one bit more than a slot index and run modulo 2n: the
  reorder buffer of core.sv and the fetch queue of l1i.sv.
 */
module Rings {

  function Advance(n: nat, p: nat, d: nat): (r: nat)
    requires n >= 4 && p < 2 * n && d <= 4
    ensures r < 2 * n
  {
    if p + d >= 2 * n then p + d - 2 * n else p + d
  }

  /** The low bits of a pointer. */
  function Slot(n: nat, p: nat): (r: nat)
    requires p < 2 * n
    ensures r < n
  {
    if p >= n then p - n else p
  }

  /** The distance from one pointer to another. */
  function Span(n: nat, h: nat, t: nat): nat
    requires h < 2 * n && t < 2 * n
  {
    if t >= h then t - h else t + 2 * n - h
  }

  /** The slot of the j-th entry behind the head. */
  function SlotAt(n: nat, h: nat, j: nat): (k: nat)
    requires h < 2 * n && j <= n
    ensures k < n
  {
    if h + j >= 2 * n then h + j - 2 * n
    else if h + j >= n then h + j - n else h + j
  }

  /** The distance of a slot from the head. */
  function Offset(n: nat, h: nat, k: nat): (j: nat)
    requires h < 2 * n && k < n
    ensures j < n
  {
    if k >= Slot(n, h) then k - Slot(n, h) else k + n - Slot(n, h)
  }

  lemma AdvanceTwice(n: nat, p: nat, a: nat, b: nat)
    requires n >= 4 && p < 2 * n && a <= 4 && b <= 4
    ensures Advance(n, Advance(n, p, a), b) == Advance(n, Advance(n, p, b), a)
  {
  }

  lemma SpanMoves(n: nat, h: nat, t: nat, pops: nat, pushes: nat)
    requires n >= 4 && h < 2 * n && t < 2 * n && pops <= 2 && pushes <= 4
    requires pops <= Span(n, h, t) && Span(n, h, t) + pushes <= n
    ensures Span(n, Advance(n, h, pops), Advance(n, t, pushes)) == Span(n, h, t) + pushes - pops
  {
  }

  lemma SlotMoves(n: nat, h: nat, d: nat, j: nat)
    requires n >= 4 && h < 2 * n && d <= 2 && j + d <= n
    ensures SlotAt(n, Advance(n, h, d), j) == SlotAt(n, h, j + d)
  {
  }

  lemma OffsetMoves(n: nat, h: nat, d: nat, k: nat)
    requires n >= 4 && h < 2 * n && d <= 2 && k < n
    ensures var j := Offset(n, h, k); Offset(n, Advance(n, h, d), k) == (if j >= d then j - d else j + n - d)
  {
  }
}
