/**
  The wait room's pool: an array of parked connections whose items are removed by moving the last one
  into the hole. The functions say what the operations do to the array's contents; the class does it in
  place.
 */
module ConnPool {
  import opened Exchange

  const MAX_TICK_MS := 200

  // ---- What the operations do to the contents

  function SwapRemove(s: seq<Conn>, i: nat): seq<Conn>
    requires i < |s|
  {
    s[i := s[|s| - 1]][..|s| - 1]
  }

  lemma {:induction false} SwapRemoveTakesOne(s: seq<Conn>, i: nat)
    requires i < |s|
    ensures multiset(s) == multiset(SwapRemove(s, i)) + multiset{s[i]}
    ensures |SwapRemove(s, i)| == |s| - 1
    ensures forall j :: 0 <= j < |s| - 1 ==> SwapRemove(s, i)[j] == if j == i then s[|s| - 1] else s[j]
  {
    var n := |s| - 1;
    assert s == s[..n] + [s[n]];
    if i < n {
      assert s[i := s[n]][..n] == s[..n][i := s[n]];
    } else {
      assert s[i := s[n]][..n] == s[..n];
    }
  }

  /** The first index with descriptor `fd`, or -1. */
  function IndexOfFd(s: seq<Conn>, fd: int): (i: int)
    ensures -1 <= i < |s|
    ensures i >= 0 ==> s[i].fd == fd
    ensures forall j :: 0 <= j < (if i >= 0 then i else |s|) ==> s[j].fd != fd
  {
    if s == [] then -1
    else if s[0].fd == fd then 0
    else var r := IndexOfFd(s[1..], fd); if r < 0 then -1 else r + 1
  }

  datatype Swept = Swept(kept: seq<Conn>, gone: seq<Conn>)

  /** The sweep from index `i` on: what stays, in its final order, and what is closed, in closing order. */
  function Sweep(s: seq<Conn>, now: int, i: nat): Swept
    requires i <= |s|
    decreases |s| - i
  {
    if i == |s| then Swept(s, [])
    else if s[i].deadline <= now then
      var rest := Sweep(SwapRemove(s, i), now, i);
      Swept(rest.kept, [s[i]] + rest.gone)
    else Sweep(s, now, i + 1)
  }

  lemma {:induction false} SweepKeepsAll(s: seq<Conn>, now: int, i: nat)
    requires i <= |s|
    ensures multiset(Sweep(s, now, i).kept) + multiset(Sweep(s, now, i).gone) == multiset(s)
    decreases |s| - i
  {
    if i < |s| {
      if s[i].deadline <= now {
        var rest := Sweep(SwapRemove(s, i), now, i);
        SwapRemoveTakesOne(s, i);
        SweepKeepsAll(SwapRemove(s, i), now, i);
        var kept, gone, one := multiset(rest.kept), multiset(rest.gone), multiset{s[i]};
        assert multiset([s[i]] + rest.gone) == one + gone;
        assert kept + (one + gone) == (kept + gone) + one;
      } else {
        SweepKeepsAll(s, now, i + 1);
      }
    }
  }

  lemma {:induction false} SweepReadsClock(s: seq<Conn>, now: int, i: nat)
    requires i <= |s| && forall j :: 0 <= j < i ==> s[j].deadline > now
    ensures forall c :: c in Sweep(s, now, i).kept ==> c.deadline > now
    ensures forall c :: c in Sweep(s, now, i).gone ==> c.deadline <= now
    decreases |s| - i
  {
    if i < |s| {
      if s[i].deadline <= now {
        SweepReadsClock(SwapRemove(s, i), now, i);
      } else {
        SweepReadsClock(s, now, i + 1);
      }
    }
  }

  /** The sweep splits the pool exactly at the clock: every expired connection is closed once, every other
      one stays, although each removal moves an unexamined connection into the hole under examination. */
  lemma SweepIsExact(s: seq<Conn>, now: int)
    ensures var r := Sweep(s, now, 0);
            && multiset(r.kept) + multiset(r.gone) == multiset(s)
            && (forall c :: c in r.kept ==> c.deadline > now)
            && (forall c :: c in r.gone ==> c.deadline <= now)
  {
    SweepKeepsAll(s, now, 0);
    SweepReadsClock(s, now, 0);
  }

  function MinDeadline(s: seq<Conn>): (m: int)
    requires s != []
    ensures exists k :: 0 <= k < |s| && s[k].deadline == m
    ensures forall k :: 0 <= k < |s| ==> m <= s[k].deadline
  {
    var n := |s| - 1;
    if n == 0 then s[0].deadline
    else
      var m := MinDeadline(s[..n]);
      if s[n].deadline < m then s[n].deadline else m
  }

  /** The low 32 bits of a number as an int: the cast of a 64-bit difference, and what an int product leaves. */
  function ToInt32(x: int): int {
    (x + 0x8000_0000) % 0x1_0000_0000 - 0x8000_0000
  }

  function NearestMs(s: seq<Conn>, now: int): int {
    if s == [] then -1
    else
      var diff := ToInt32(MinDeadline(s) - now);
      if diff <= 0 then 0 else ToInt32(diff * 1000)
  }

  /** The timeout the wait room hands to the kernel. */
  function WaitMs(s: seq<Conn>, now: int): int {
    var ms := NearestMs(s, now);
    if ms == -1 || ms > MAX_TICK_MS then MAX_TICK_MS else ms
  }

  /** The kernel may sleep past a deadline, or past now if that deadline is over; a negative timeout has no end. */
  ghost predicate Oversleeps(s: seq<Conn>, now: int) {
    || WaitMs(s, now) < 0
    || exists c :: c in s && now * 1000 + WaitMs(s, now) > (if c.deadline > now then c.deadline else now) * 1000
  }

  /** The nearest deadline is over, but its distance taken modulo 2^32 reads as a time still to come, and the
      milliseconds do not vanish modulo 2^32 as well. */
  predicate LooksAhead(left: int) {
    left <= 0 && 0 < left % 0x1_0000_0000 < 0x8000_0000 && left % 0x2000_0000 != 0
  }

  lemma CastIsExact(x: int)
    requires -0x8000_0000 <= x < 0x8000_0000
    ensures ToInt32(x) == x
  {
  }

  lemma ToInt32Is(x: int) returns (q: int)
    ensures ToInt32(x) == x - q * 0x1_0000_0000 && -0x8000_0000 <= ToInt32(x) < 0x8000_0000
  {
    q := (x + 0x8000_0000) / 0x1_0000_0000;
  }

  /** The product is even, so it is never taken for the -1 of an empty pool. */
  lemma ProductIsNotMinusOne(d: int)
    ensures ToInt32(d * 1000) != -1
  {
    var q := ToInt32Is(d * 1000);
    assert 2 * (q * 0x8000_0000 - d * 500) != 1;
  }

  lemma Mod32(x: int, q: int, r: int)
    requires x == q * 0x1_0000_0000 + r && 0 <= r < 0x1_0000_0000
    ensures x % 0x1_0000_0000 == r
  {
  }

  lemma Mod29(x: int, q: int, r: int)
    requires x == q * 0x2000_0000 + r && 0 <= r < 0x2000_0000
    ensures x % 0x2000_0000 == r
  {
  }

  lemma CastIs(left: int)
    ensures var r := left % 0x1_0000_0000; ToInt32(left) == if r < 0x8000_0000 then r else r - 0x1_0000_0000
  {
    var q, r := left / 0x1_0000_0000, left % 0x1_0000_0000;
    if r < 0x8000_0000 {
      Mod32(left + 0x8000_0000, q, r + 0x8000_0000);
    } else {
      Mod32(left + 0x8000_0000, q + 1, r - 0x8000_0000);
    }
  }

  lemma CastLooksAheadIff(left: int)
    ensures ToInt32(left) > 0 <==> 0 < left % 0x1_0000_0000 < 0x8000_0000
    ensures ToInt32(left) > 0 ==> ToInt32(left) % 0x2000_0000 == left % 0x2000_0000
  {
    var q, r := left / 0x1_0000_0000, left % 0x1_0000_0000;
    CastIs(left);
    var a, b := r / 0x2000_0000, r % 0x2000_0000;
    Mod29(left, 8 * q + a, b);
  }

  /** 1000 is 8 times an odd number, whose inverse modulo 2^29 is 115964117. */
  lemma ProductVanishesIff(d: int)
    ensures ToInt32(d * 1000) == 0 <==> d % 0x2000_0000 == 0
  {
    var q := ToInt32Is(d * 1000);
    if ToInt32(d * 1000) == 0 {
      assert d * 125 == q * 0x2000_0000;
      assert d == d * (115964117 * 125) - d * (27 * 0x2000_0000) == (115964117 * q - 27 * d) * 0x2000_0000;
    }
    if d % 0x2000_0000 == 0 {
      var m := d / 0x2000_0000;
      assert ToInt32(d * 1000) == (m * 125 - q) * 0x1_0000_0000;
    }
  }

  lemma WaitWithTimeLeft(s: seq<Conn>, now: int)
    requires s != [] && 0 < MinDeadline(s) - now <= 0xFFFF
    ensures NearestMs(s, now) == (MinDeadline(s) - now) * 1000 && WaitMs(s, now) == MAX_TICK_MS && !Oversleeps(s, now)
  {
    CastIsExact(MinDeadline(s) - now);
    CastIsExact((MinDeadline(s) - now) * 1000);
  }

  lemma WaitWhenOver(s: seq<Conn>, now: int)
    requires s != [] && MinDeadline(s) <= now
    ensures WaitMs(s, now) <= MAX_TICK_MS
    ensures Oversleeps(s, now) <==> LooksAhead(MinDeadline(s) - now)
    ensures !Oversleeps(s, now) ==> WaitMs(s, now) == 0
  {
    ProductIsNotMinusOne(ToInt32(MinDeadline(s) - now));
    CastLooksAheadIff(MinDeadline(s) - now);
    ProductVanishesIff(ToInt32(MinDeadline(s) - now));
    var k :| 0 <= k < |s| && s[k].deadline == MinDeadline(s);
    assert s[k] in s;
  }

  /** The wait is at most 200 ms, and just that while no deadline is over. When the nearest one is over it is 0,
      unless that deadline looks ahead, for which it must be over for more than 2^31 seconds; then, and only
      then, the wait is negative or passes a deadline. */
  ghost predicate ExactlyBounded(s: seq<Conn>, now: int) {
    && WaitMs(s, now) <= 200
    && (s == [] || MinDeadline(s) > now ==> WaitMs(s, now) == 200)
    && (s != [] && MinDeadline(s) <= now && !Oversleeps(s, now) ==> WaitMs(s, now) == 0)
    && (Oversleeps(s, now) <==> s != [] && LooksAhead(MinDeadline(s) - now))
    && (Oversleeps(s, now) ==> MinDeadline(s) - now < -0x8000_0000)
  }

  /** With deadlines at most a 16-bit timeout ahead, the cast and the product are exact for every deadline less
      than 2^31 seconds over, and the wait is exactly bounded. */
  lemma WaitIsBounded(s: seq<Conn>, now: int)
    requires forall c :: c in s ==> c.deadline <= now + 0xFFFF
    ensures s != [] && MinDeadline(s) - now >= -0x8000_0000 ==>
              NearestMs(s, now) == (if MinDeadline(s) > now then MinDeadline(s) - now else 0) * 1000
    ensures ExactlyBounded(s, now)
  {
    if s != [] {
      var k :| 0 <= k < |s| && s[k].deadline == MinDeadline(s);
      assert s[k] in s;
      if MinDeadline(s) > now {
        WaitWithTimeLeft(s, now);
      } else {
        WaitWhenOver(s, now);
      }
    }
  }

  /** Such a pool: a deadline that was over 2^32 - 1 seconds ago is taken for one that is a second ahead. */
  lemma OversleepsAfterWrapping(c: Conn)
    requires c.deadline == 0
    ensures WaitMs([c], 0xFFFF_FFFF) == MAX_TICK_MS && Oversleeps([c], 0xFFFF_FFFF)
  {
    assert MinDeadline([c]) == 0 && ToInt32(-0xFFFF_FFFF) == 1;
    assert c in [c];
  }

  // ---- The pool itself

  class Pool {
    var items: array<Conn>
    var count: nat

    ghost predicate Valid()
      reads this
    {
      count <= items.Length
    }

    ghost function Contents(): seq<Conn>
      reads this, items
      requires Valid()
    {
      items[..count]
    }

    constructor (capacity: nat)
      ensures Valid() && fresh(items) && items.Length == capacity && Contents() == []
    {
      items := new Conn[capacity];
      count := 0;
    }

    method Add(c: Conn) returns (ok: bool)
      requires Valid()
      modifies this`count, items
      ensures Valid()
      ensures ok <==> |old(Contents())| < items.Length
      ensures Contents() == if ok then old(Contents()) + [c] else old(Contents())
    {
      if count >= items.Length {
        return false;
      }
      items[count] := c;
      count := count + 1;
      return true;
    }

    method RemoveAt(index: nat)
      requires Valid()
      modifies this`count, items
      ensures Valid()
      ensures Contents() == if index < |old(Contents())| then SwapRemove(old(Contents()), index) else old(Contents())
    {
      if index >= count {
        return;
      }
      items[index] := items[count - 1];
      count := count - 1;
    }

    method RemoveByFd(fd: int) returns (found: bool, c: Conn)
      requires Valid()
      modifies this`count, items
      ensures Valid()
      ensures var i := IndexOfFd(old(Contents()), fd);
              && (found <==> i >= 0)
              && (found ==> c == old(Contents())[i] && Contents() == SwapRemove(old(Contents()), i))
              && (!found ==> Contents() == old(Contents()))
    {
      for i := 0 to count
        invariant count == old(count) && items[..] == old(items[..])
        invariant forall j :: 0 <= j < i ==> items[j].fd != fd
      {
        if items[i].fd == fd {
          c := items[i];
          items[i] := items[count - 1];
          count := count - 1;
          return true, c;
        }
      }
      return false, Conn(0, 0, false, ProtoUnknown, 0);
    }

    method NearestTimeoutMs(now: int) returns (ms: int)
      requires Valid()
      ensures ms == NearestMs(Contents(), now)
    {
      if count == 0 {
        return -1;
      }
      var min := items[0].deadline;
      for i := 1 to count
        invariant min == MinDeadline(items[..i])
      {
        assert items[..i + 1][..i] == items[..i];
        if items[i].deadline < min {
          min := items[i].deadline;
        }
      }
      var diff := ToInt32(min - now);
      ms := if diff <= 0 then 0 else ToInt32(diff * 1000);
    }

    /** `unregistered` are the descriptors taken off the kernel's list, `closed` the connections closed. */
    method SweepExpired(now: int) returns (unregistered: seq<int>, closed: seq<Conn>)
      requires Valid()
      modifies this`count, items
      ensures Valid()
      ensures Contents() == Sweep(old(Contents()), now, 0).kept
      ensures closed == Sweep(old(Contents()), now, 0).gone
      ensures unregistered == seq(|closed|, k requires 0 <= k < |closed| => closed[k].fd)
    {
      var i := 0;
      unregistered, closed := [], [];
      while i < count
        invariant Valid() && i <= count
        invariant Sweep(old(Contents()), now, 0).kept == Sweep(Contents(), now, i).kept
        invariant Sweep(old(Contents()), now, 0).gone == closed + Sweep(Contents(), now, i).gone
        invariant unregistered == seq(|closed|, k requires 0 <= k < |closed| => closed[k].fd)
        decreases count - i
      {
        if items[i].deadline <= now {
          ghost var before := Contents();
          unregistered := unregistered + [items[i].fd];
          closed := closed + [items[i]];
          items[i] := items[count - 1];
          count := count - 1;
          assert Contents() == SwapRemove(before, i);
        } else {
          i := i + 1;
        }
      }
    }
  }
}
