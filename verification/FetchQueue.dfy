/**
  The fetch queue ring (l1i.sv): pointers of LG_FQ_ENTRIES + 1 bits, up to four pushes and two pops
  per cycle, and four flags that say whether k slots are free.
 */
module FetchQueue {
  import opened Rings

  /** r_fq and its pointers; next3 and next4 follow tail at distance two and three. */
  datatype Ring<T> = Ring(slots: seq<T>, head: nat, nextHead: nat, tail: nat, nextTail: nat, next3: nat, next4: nat)

  predicate RingShape<T>(n: nat, q: Ring<T>) {
    && n >= 4 && |q.slots| == n && q.head < 2 * n && q.nextHead < 2 * n
    && q.tail < 2 * n && q.nextTail < 2 * n && q.next3 < 2 * n && q.next4 < 2 * n
  }

  predicate Empty<T>(q: Ring<T>) { q.head == q.tail }
  predicate NextEmpty<T>(q: Ring<T>) { q.nextHead == q.tail }

  /** A pointer laps the head. */
  predicate Laps<T>(n: nat, q: Ring<T>, p: nat)
    requires RingShape(n, q) && p < 2 * n
  {
    q.head != p && Slot(n, q.head) == Slot(n, p)
  }

  /** fq_full, fq_full2, fq_full3, fq_full4 */
  predicate Full<T>(n: nat, q: Ring<T>, k: nat)
    requires RingShape(n, q) && 1 <= k <= 4
  {
    || Laps(n, q, q.tail)
    || (k >= 2 && Laps(n, q, q.nextTail))
    || (k >= 3 && Laps(n, q, q.next3))
    || (k >= 4 && Laps(n, q, q.next4))
  }

  function Len<T>(n: nat, q: Ring<T>): nat
    requires RingShape(n, q)
  {
    Span(n, q.head, q.tail)
  }

  /** The pointers are in step and at most n entries are queued. */
  ghost predicate RingInv<T>(n: nat, q: Ring<T>) {
    && RingShape(n, q)
    && q.nextHead == Advance(n, q.head, 1) && q.nextTail == Advance(n, q.tail, 1)
    && q.next3 == Advance(n, q.tail, 2) && q.next4 == Advance(n, q.tail, 3)
    && Len(n, q) <= n
  }

  /** The k-slot flag means exactly "fewer than k free". */
  lemma FlagsCountFreeSlots<T>(n: nat, q: Ring<T>, k: nat)
    requires RingInv(n, q) && 1 <= k <= 4
    ensures Full(n, q, k) <==> n - Len(n, q) < k
    ensures (Empty(q) <==> Len(n, q) == 0) && (NextEmpty(q) <==> Len(n, q) == 1)
  {
  }

  // ---------------------------------------------------------------- one cycle

  /** The queued entries, oldest first. */
  function Contents<T>(n: nat, q: Ring<T>): (w: seq<T>)
    requires RingShape(n, q) && Len(n, q) <= n
    ensures |w| == Len(n, q)
  {
    seq(Len(n, q), j requires 0 <= j < Len(n, q) => q.slots[SlotAt(n, q.head, j)])
  }

  function NextSlots<T>(n: nat, q: Ring<T>, news: seq<T>): (r: seq<T>)
    requires RingShape(n, q) && |news| <= 4
    ensures |r| == n
  {
    seq(n, k requires 0 <= k < n =>
      if |news| >= 4 && k == Slot(n, q.next4) then news[3]
      else if |news| >= 3 && k == Slot(n, q.next3) then news[2]
      else if |news| >= 2 && k == Slot(n, q.nextTail) then news[1]
      else if |news| >= 1 && k == Slot(n, q.tail) then news[0]
      else q.slots[k])
  }

  function NextRing<T>(n: nat, q: Ring<T>, news: seq<T>, pops: nat, clear: bool): (r: Ring<T>)
    requires RingShape(n, q) && |news| <= 4 && pops <= 2
    ensures RingShape(n, r)
  {
    var slots := NextSlots(n, q, news);
    if clear then Ring(slots, 0, 1, 0, 1, 2, 3)
    else Ring(slots, Advance(n, q.head, pops), Advance(n, q.nextHead, pops),
              Advance(n, q.tail, |news|), Advance(n, q.nextTail, |news|), Advance(n, q.next3, |news|), Advance(n, q.next4, |news|))
  }

  lemma PointersKeep<T>(n: nat, q: Ring<T>, news: seq<T>, pops: nat)
    requires RingInv(n, q) && |news| <= 4 && pops <= 2 && pops <= Len(n, q) && Len(n, q) + |news| <= n
    ensures var q' := NextRing(n, q, news, pops, false);
            RingInv(n, q') && Len(n, q') == Len(n, q) + |news| - pops
  {
    SpanMoves(n, q.head, q.tail, pops, |news|);
    AdvanceTwice(n, q.head, 1, pops);
    AdvanceTwice(n, q.tail, 1, |news|);
    AdvanceTwice(n, q.tail, 2, |news|);
    AdvanceTwice(n, q.tail, 3, |news|);
  }

  lemma SlotFacts<T>(n: nat, q: Ring<T>, j: nat, d: nat, p: nat)
    requires RingInv(n, q) && d <= 3 && j < n && p == Advance(n, q.tail, d) && Len(n, q) + d < n
    ensures SlotAt(n, q.head, j) == Slot(n, p) <==> j == Len(n, q) + d
  {
  }

  lemma NewContents<T>(n: nat, q: Ring<T>, news: seq<T>, j: nat)
    requires RingInv(n, q) && |news| <= 4 && Len(n, q) + |news| <= n && j < Len(n, q) + |news|
    ensures NextSlots(n, q, news)[SlotAt(n, q.head, j)] == (Contents(n, q) + news)[j]
  {
    if |news| >= 1 { SlotFacts(n, q, j, 0, q.tail); }
    if |news| >= 2 { SlotFacts(n, q, j, 1, q.nextTail); }
    if |news| >= 3 { SlotFacts(n, q, j, 2, q.next3); }
    if |news| >= 4 { SlotFacts(n, q, j, 3, q.next4); }
  }

  /** A cycle is a FIFO operation: the new entries join at the back, the popped ones leave at the
      front. */
  lemma QueueIsFifo<T>(n: nat, q: Ring<T>, news: seq<T>, pops: nat)
    requires RingInv(n, q) && |news| <= 4 && pops <= 2 && pops <= Len(n, q) && Len(n, q) + |news| <= n
    ensures var q' := NextRing(n, q, news, pops, false);
            RingInv(n, q') && Contents(n, q') == (Contents(n, q) + news)[pops..]
  {
    var q' := NextRing(n, q, news, pops, false);
    PointersKeep(n, q, news, pops);
    forall j | 0 <= j < Len(n, q') ensures Contents(n, q')[j] == (Contents(n, q) + news)[pops..][j] {
      SlotMoves(n, q.head, pops, j);
      NewContents(n, q, news, j + pops);
    }
  }
}
