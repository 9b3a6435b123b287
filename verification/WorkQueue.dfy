/**
  The bounded queue in memory: a circular array with `head`, `tail` and `count`. Each method is one
  stretch under the queue's mutex, from taking it to releasing it or to the wait that releases it; the
  outcome `Waits` means the thread goes to sleep and runs the method again when it wakes.
 */
module WorkQueue {
  import opened Circular

  datatype PopOutcome<T> = Waits | Shut | Empty | Popped(item: T)

  class Queue<T(0)> {
    const buf: array<T>
    var head: nat
    var tail: nat
    var count: nat
    var shuttingDown: bool
    ghost var pushed: seq<T>   // everything ever stored
    ghost var popped: seq<T>   // everything ever taken out

    ghost predicate Valid()
      reads this, buf
    {
      && count <= buf.Length
      && (buf.Length == 0 ==> head == tail == 0)
      && (buf.Length > 0 ==> head < buf.Length && tail == Slot(head, count, buf.Length))
      && pushed == popped + Contents()
    }

    ghost function Contents(): (s: seq<T>)
      reads this, buf
      requires count <= buf.Length
      ensures |s| == count
    {
      Ring(buf[..], head, count)
    }

    constructor (capacity: nat)
      ensures Valid() && fresh(buf) && buf.Length == capacity && Contents() == [] && !shuttingDown
      ensures pushed == [] && popped == []
    {
      buf := new T[capacity];
      head, tail, count := 0, 0, 0;
      shuttingDown := false;
      pushed, popped := [], [];
    }

    method Push(c: T) returns (waits: bool)
      requires Valid()
      modifies this`tail, this`count, this`pushed, buf
      ensures Valid()
      ensures waits <==> |old(Contents())| == buf.Length
      ensures Contents() == if waits then old(Contents()) else old(Contents()) + [c]
      ensures pushed == if waits then old(pushed) else old(pushed) + [c]
    {
      if count == buf.Length {
        return true;
      }
      RingPut(buf[..], head, count, c);
      SlotStep(head, count, buf.Length);
      buf[tail] := c;
      tail := (tail + 1) % buf.Length;
      count := count + 1;
      pushed := pushed + [c];
      return false;
    }

    method Pop() returns (r: PopOutcome<T>)
      requires Valid()
      modifies this`head, this`count, this`popped
      ensures Valid()
      ensures r == (if old(Contents()) != [] then Popped(old(Contents())[0]) else if shuttingDown then Shut else Waits)
      ensures Contents() == if r.Popped? then old(Contents())[1..] else old(Contents())
      ensures popped == if r.Popped? then old(popped) + [r.item] else old(popped)
    {
      if count == 0 && !shuttingDown {
        return Waits;
      }
      if shuttingDown && count == 0 {
        return Shut;
      }
      var out := TakeHead();
      return Popped(out);
    }

    method TryPop() returns (r: PopOutcome<T>)
      requires Valid()
      modifies this`head, this`count, this`popped
      ensures Valid()
      ensures r == (if old(Contents()) != [] then Popped(old(Contents())[0]) else if shuttingDown then Shut else Empty)
      ensures Contents() == if r.Popped? then old(Contents())[1..] else old(Contents())
      ensures popped == if r.Popped? then old(popped) + [r.item] else old(popped)
    {
      if count == 0 {
        return if shuttingDown then Shut else Empty;
      }
      var out := TakeHead();
      return Popped(out);
    }

    /** The lines queue_pop and queue_trypop share. */
    method TakeHead() returns (out: T)
      requires Valid() && count > 0
      modifies this`head, this`count, this`popped
      ensures Valid()
      ensures out == old(Contents())[0] && Contents() == old(Contents())[1..] && popped == old(popped) + [out]
    {
      ghost var before := Contents();
      RingTake(buf[..], head, count);
      SlotStep(head, count - 1, buf.Length);
      out := buf[head];
      head := (head + 1) % buf.Length;
      count := count - 1;
      popped := popped + [out];
      assert before == [out] + before[1..];
    }

    method ShutDown()
      requires Valid()
      modifies this`shuttingDown
      ensures Valid() && shuttingDown && Contents() == old(Contents())
    {
      shuttingDown := true;
    }
  }
}
