/** Bookkeeping with multisets. */
module Multisets {
  import opened MemoryTypes

  /** Two balanced steps in a row are balanced: o is what is open, t what is taken in, a what is
      answered. */
  lemma Chain<T>(o0: multiset<T>, o1: multiset<T>, o2: multiset<T>, a1: multiset<T>, a2: multiset<T>,
                 t1: multiset<T>, t2: multiset<T>)
    requires o1 + a1 == o0 + t1 && o2 + a2 == o1 + t2
    ensures o2 + (a1 + a2) == o0 + (t1 + t2)
  {
    forall x: T ensures (o2 + (a1 + a2))[x] == (o0 + (t1 + t2))[x] {
      assert (o1 + a1)[x] == (o0 + t1)[x];
      assert (o2 + a2)[x] == (o1 + t2)[x];
    }
  }

  /** The entries of a pipeline. */
  function Bag(o: Option<nat>): multiset<nat> { if o.Some? then multiset{o.value} else multiset{} }

  function Bags(q: seq<Option<nat>>): multiset<nat> {
    if q == [] then multiset{} else Bags(q[..|q| - 1]) + Bag(q[|q| - 1])
  }

  lemma Regroup<T>(a: multiset<T>, b: multiset<T>, c: multiset<T>)
    ensures (a + b) + c == a + (b + c) && (a + b) + c == (a + c) + b && a + b == b + a
  {
  }

  lemma BagsLast(q: seq<Option<nat>>, o: Option<nat>)
    ensures Bags(q + [o]) == Bags(q) + Bag(o)
  {
    assert (q + [o])[..|q|] == q;
  }

  lemma {:induction false} BagsFirst(o: Option<nat>, q: seq<Option<nat>>)
    ensures Bags([o] + q) == Bag(o) + Bags(q)
  {
    if q == [] {
      BagsLast([], o);
      assert [o] + q == [] + [o];
      Regroup(Bags([]), Bag(o), Bags([]));
    } else {
      var front, last := q[..|q| - 1], q[|q| - 1];
      BagsFirst(o, front);
      BagsLast([o] + front, last);
      assert [o] + q == ([o] + front) + [last];
      Regroup(Bag(o), Bags(front), Bag(last));
    }
  }

  /** A pipeline that moves by one place. */
  lemma BagsShift(first: Option<nat>, q: seq<Option<nat>>, last: Option<nat>)
    ensures Bags(q + [last]) + Bag(first) == Bags([first] + q) + Bag(last)
  {
    BagsFirst(first, q);
    BagsLast(q, last);
    Regroup(Bags(q), Bag(last), Bag(first));
    Regroup(Bags(q), Bag(first), Bag(last));
  }
}
