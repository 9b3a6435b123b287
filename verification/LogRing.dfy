/**
  The log ring: a masked circular buffer with one slot always empty. Producers drop or block by target when
  it is full; the logger thread takes batches and splits them into two output streams.
 */
module LogRing {
  import opened Circular
  import opened PowerOfTwo

  const BATCH_SIZE := 32

  datatype Target = Access | Event
  datatype Entry = Entry(target: Target, line: string)

  /** The shared part of the ring; `size` is also the number of slots. */
  datatype Ring = Ring(size: nat, slots: seq<Entry>, head: nat, tail: nat)

  /** The index after `i`, as the code computes it. */
  function After(i: nat, size: nat): nat
    requires size > 0
  {
    BitAnd(i + 1, size - 1)
  }

  ghost predicate IsRing(r: Ring) {
    exists k :: r.size == Pow2(k) && |r.slots| == r.size && r.head < r.size && r.tail < r.size
  }

  function Used(r: Ring): nat
    requires r.head < r.size && r.tail < r.size
  {
    if r.tail >= r.head then r.tail - r.head else r.tail + r.size - r.head
  }

  /** The entries from head up to, not including, tail. */
  function Contents(r: Ring): (s: seq<Entry>)
    requires |r.slots| == r.size && r.head < r.size && r.tail < r.size
    ensures |s| == Used(r) < r.size
  {
    Circular.Ring(r.slots, r.head, Used(r))
  }

  lemma AfterIs(r: Ring, i: nat)
    requires IsRing(r) && i < r.size
    ensures After(i, r.size) == (if i + 1 == r.size then 0 else i + 1) == Slot(i, 1, r.size)
  {
    var k :| r.size == Pow2(k);
    MaskIsModulo(i + 1, k);
    SlotIs(i, 1, r.size);
  }

  /** The code's test for a full ring: all slots but one are taken. */
  lemma FullIff(r: Ring)
    requires IsRing(r)
    ensures After(r.tail, r.size) == r.head <==> |Contents(r)| == r.size - 1
  {
    AfterIs(r, r.tail);
  }

  // ---- Storing

  /** log_write's store: at the current tail, which then becomes the `next` computed earlier. */
  function Store(r: Ring, e: Entry, next: nat): Ring
    requires r.tail < |r.slots|
  {
    r.(slots := r.slots[r.tail := e], tail := next)
  }

  /** The store appends the entry, and loses nothing, exactly when `next` is the index behind the tail at that
      moment, that is, when the tail stands where it stood when `next` was computed. */
  lemma StoreAppendsIff(r: Ring, e: Entry, next: nat)
    requires IsRing(r) && next < r.size && next != r.head
    ensures Contents(Store(r, e, next)) == Contents(r) + [e] <==> next == After(r.tail, r.size)
  {
    AfterIs(r, r.tail);
    var r' := Store(r, e, next);
    if next == After(r.tail, r.size) {
      SlotIs(r.head, Used(r), r.size);
      RingPut(r.slots, r.head, Used(r), e);
      assert Used(r') == Used(r) + 1;
    } else {
      assert |Contents(r')| != |Contents(r)| + 1;
    }
  }

  // ---- Taking a batch

  /** The logger's loop takes the front of the ring, as long as a batch can be, and leaves the rest. */
  ghost predicate TakesFront(r: Ring, r': Ring, batch: seq<Entry>)
    requires IsRing(r)
  {
    && IsRing(r') && r' == r.(head := r'.head)
    && Contents(r) == batch + Contents(r')
    && |batch| == if BATCH_SIZE <= Used(r) then BATCH_SIZE else Used(r)
  }

  lemma TakeOne(r: Ring)
    requires IsRing(r) && r.head != r.tail
    ensures var r' := r.(head := After(r.head, r.size));
            && IsRing(r') && Contents(r) == [r.slots[r.head]] + Contents(r') && Used(r') == Used(r) - 1
  {
    AfterIs(r, r.head);
    var r' := r.(head := After(r.head, r.size));
    RingTake(r.slots, r.head, Used(r));
    assert Contents(r') == Contents(r)[1..];
  }

  /** As many entries as there are can be taken. */
  lemma {:induction false} FrontCanBeTaken(r: Ring, n: nat) returns (r': Ring)
    requires IsRing(r) && n <= Used(r)
    ensures IsRing(r') && r' == r.(head := r'.head) && Used(r') == Used(r) - n
    ensures Contents(r) == Contents(r)[..n] + Contents(r')
  {
    r' := r;
    if n > 0 {
      var r1 := FrontCanBeTaken(r, n - 1);
      TakeOne(r1);
      r' := r1.(head := After(r1.head, r1.size));
      assert Contents(r1) == Contents(r)[n - 1..];
      assert Contents(r') == Contents(r1)[1..];
    }
  }

  // ---- Splitting by target

  function Only(s: seq<Entry>, target: Target): seq<Entry> {
    if s == [] then []
    else Only(s[..|s| - 1], target) + (if s[|s| - 1].target == target then [s[|s| - 1]] else [])
  }

  lemma {:induction false} OnlyConcat(s: seq<Entry>, t: seq<Entry>, target: Target)
    ensures Only(s + t, target) == Only(s, target) + Only(t, target)
  {
    if t == [] {
      assert s + t == s;
    } else {
      var n := |t| - 1;
      OnlyConcat(s, t[..n], target);
      assert (s + t)[..|s + t| - 1] == s + t[..n];
    }
  }

  /** The selection holds every entry of that target as often as the whole does, and no other. */
  lemma {:induction false} OnlySelects(s: seq<Entry>, target: Target, e: Entry)
    ensures multiset(Only(s, target))[e] == if e.target == target then multiset(s)[e] else 0
  {
    if s != [] {
      var n := |s| - 1;
      OnlySelects(s[..n], target, e);
      assert s == s[..n] + [s[n]];
    }
  }

  lemma {:induction false} OnlyIsEmptyIff(s: seq<Entry>, target: Target)
    ensures Only(s, target) != [] <==> exists e :: e in s && e.target == target
  {
    if s != [] {
      var n := |s| - 1;
      OnlyIsEmptyIff(s[..n], target);
      assert s == s[..n] + [s[n]] && s[n] in s;
    }
  }

  // ---- The ring in memory

  datatype Outcome = Stored | Dropped | Blocks(next: nat) | Refused

  /** What becomes of a message when log_write first looks at the ring. */
  function Offered(r: Ring, target: Target, shutdown: bool): Outcome
    requires r.size > 0
  {
    var next := After(r.tail, r.size);
    if next != r.head then Stored
    else if target == Access then Dropped
    else if shutdown then Refused
    else Blocks(next)
  }

  /** What becomes of a waiting message when its producer wakes up. */
  function Resumed(r: Ring, next: nat, shutdown: bool): Outcome {
    if shutdown then Refused else if next == r.head then Blocks(next) else Stored
  }

  datatype Taken = Sleeps | Exits | Batch(entries: seq<Entry>)

  class Logger {
    const entries: array<Entry>
    var head: nat
    var tail: nat
    var shutdown: bool

    ghost predicate Valid()
      reads this, entries
    {
      IsRing(View())
    }

    ghost function View(): Ring
      reads this, entries
    {
      Ring.Ring(entries.Length, entries[..], head, tail)
    }

    constructor (size: nat, ghost k: nat)
      requires size == Pow2(k)
      ensures Valid() && fresh(entries) && entries.Length == size && Contents(View()) == [] && !shutdown
    {
      entries := new Entry[size](_ => Entry(Event, ""));
      head, tail := 0, 0;
      shutdown := false;
    }

    /** log_write from taking the mutex to releasing it, or to its first wait. */
    method Write(e: Entry) returns (r: Outcome)
      requires Valid()
      modifies this`tail, entries
      ensures Valid()
      ensures r == Offered(old(View()), e.target, shutdown)
      ensures r.Stored? <==> |old(Contents(View()))| < entries.Length - 1
      ensures r.Blocks? ==> e.target == Event && !shutdown
      ensures r.Dropped? ==> e.target == Access
      ensures if r.Stored? then Contents(View()) == old(Contents(View())) + [e] else View() == old(View())
    {
      AfterIs(View(), tail);
      FullIff(View());
      var next := After(tail, entries.Length);
      if next == head {
        if e.target == Access {
          return Dropped;
        }
        if !shutdown {
          return Blocks(next);
        }
        return Refused;
      }
      StoreAppendsIff(View(), e, next);
      entries[tail] := e;
      tail := next;
      return Stored;
    }

    /** log_write from waking up: `next` was computed before the wait. */
    method Resume(e: Entry, next: nat) returns (r: Outcome)
      requires Valid() && next < entries.Length
      modifies this`tail, entries
      ensures Valid()
      ensures r == Resumed(old(View()), next, shutdown)
      ensures View() == if r.Stored? then Store(old(View()), e, next) else old(View())
      ensures r.Stored? ==>
                (Contents(View()) == old(Contents(View())) + [e] <==> next == After(old(tail), entries.Length))
    {
      if next == head && !shutdown {
        return Blocks(next);
      }
      if shutdown {
        return Refused;
      }
      StoreAppendsIff(View(), e, next);
      entries[tail] := e;
      tail := next;
      return Stored;
    }

    /** One turn of the batch loop. */
    method TakeHead() returns (e: Entry)
      requires Valid() && head != tail
      modifies this`head
      ensures Valid() && View() == old(View()).(head := head)
      ensures old(Contents(View())) == [e] + Contents(View())
    {
      TakeOne(View());
      e := entries[head];
      head := After(head, entries.Length);
    }

    /** The logger thread's critical section. */
    method TakeBatch() returns (r: Taken)
      requires Valid()
      modifies this`head
      ensures Valid()
      ensures r.Sleeps? <==> old(Contents(View())) == [] && !shutdown
      ensures r.Exits? <==> old(Contents(View())) == [] && shutdown
      ensures if r.Batch? then TakesFront(old(View()), View(), r.entries) && r.entries != [] else View() == old(View())
      ensures r.Batch? ==>
                old(Contents(View())) == r.entries + Contents(View())
                && (|r.entries| == 32 || (|r.entries| < 32 && Contents(View()) == []))
    {
      if tail == head && !shutdown {
        return Sleeps;
      }
      if tail == head && shutdown {
        return Exits;
      }
      ghost var before := View();
      var batch: seq<Entry> := [];
      while head != tail && |batch| < BATCH_SIZE
        invariant |batch| <= BATCH_SIZE && Valid() && View() == before.(head := head)
        invariant Contents(before) == batch + Contents(View())
        decreases BATCH_SIZE - |batch|
      {
        ghost var taken, rest := batch, Contents(View());
        var e := TakeHead();
        batch := batch + [e];
        assert taken + rest == taken + ([e] + Contents(View())) == batch + Contents(View());
      }
      return Batch(batch);
    }
  }

  /** The two iovec arrays of a batch. */
  method Split(batch: seq<Entry>) returns (access: seq<Entry>, event: seq<Entry>)
    ensures access == Only(batch, Access) && event == Only(batch, Event)
    ensures |access| + |event| == |batch|
  {
    access, event := [], [];
    for i := 0 to |batch|
      invariant access == Only(batch[..i], Access) && event == Only(batch[..i], Event)
      invariant |access| + |event| == i
    {
      assert batch[..i + 1][..i] == batch[..i];
      if batch[i].target == Access {
        access := access + [batch[i]];
      } else {
        event := event + [batch[i]];
      }
    }
    assert batch[..|batch|] == batch;
  }
}
