/** Circular arrays: the slots from an index on, wrapping at the end, as a sequence. */
module Circular {
  function Slot(head: nat, i: nat, capacity: nat): nat
    requires capacity > 0
  {
    (head + i) % capacity
  }

  lemma WrapsOnce(x: nat, c: nat)
    requires c <= x < 2 * c
    ensures x % c == x - c
  {
    var q, r := x / c, x % c;
    assert x == q * c + r;
    assert q >= 2 ==> q * c >= 2 * c;
    assert q <= 0 ==> q * c <= 0;
  }

  lemma SlotIs(head: nat, i: nat, capacity: nat)
    requires head < capacity && i <= capacity
    ensures Slot(head, i, capacity) == if head + i < capacity then head + i else head + i - capacity
  {
    if head + i >= capacity {
      WrapsOnce(head + i, capacity);
    }
  }

  lemma SlotsDiffer(head: nat, i: nat, j: nat, capacity: nat)
    requires i < j < capacity && head < capacity
    ensures Slot(head, i, capacity) != Slot(head, j, capacity)
  {
    SlotIs(head, i, capacity);
    SlotIs(head, j, capacity);
  }

  lemma SlotStep(head: nat, i: nat, capacity: nat)
    requires i < capacity && head < capacity
    ensures Slot((head + 1) % capacity, i, capacity) == Slot(head, i + 1, capacity)
    ensures (Slot(head, i, capacity) + 1) % capacity == Slot(head, i + 1, capacity)
  {
    SlotIs(head, 1, capacity);
    SlotIs(head, i, capacity);
    SlotIs(head, i + 1, capacity);
    SlotIs((head + 1) % capacity, i, capacity);
    SlotIs(Slot(head, i, capacity), 1, capacity);
  }

  /** What a circular array holds. */
  function Ring<T>(a: seq<T>, head: nat, count: nat): (s: seq<T>)
    requires count <= |a|
    ensures |s| == count
  {
    seq(count, i requires 0 <= i < count => a[Slot(head, i, |a|)])
  }

  lemma RingPut<T>(a: seq<T>, head: nat, count: nat, c: T)
    requires head < |a| && count < |a|
    ensures Ring(a[Slot(head, count, |a|) := c], head, count + 1) == Ring(a, head, count) + [c]
  {
    var a' := a[Slot(head, count, |a|) := c];
    forall i | 0 <= i < count ensures Ring(a', head, count + 1)[i] == Ring(a, head, count)[i] {
      SlotsDiffer(head, i, count, |a|);
    }
  }

  lemma RingTake<T>(a: seq<T>, head: nat, count: nat)
    requires head < |a| && 0 < count <= |a|
    ensures Ring(a, head, count)[0] == a[head]
    ensures Ring(a, (head + 1) % |a|, count - 1) == Ring(a, head, count)[1..]
  {
    SlotIs(head, 0, |a|);
    var next, rest := Ring(a, (head + 1) % |a|, count - 1), Ring(a, head, count)[1..];
    forall i | 0 <= i < count - 1 ensures next[i] == rest[i] {
      SlotStep(head, i, |a|);
    }
  }
}
