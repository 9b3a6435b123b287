/**
  What the steps of a run do, told by what can be seen before and after them: who is expired, closed, pooled, given
  back, kept and admitted, and what is handed from place to place.
 */
module Effects {
  import opened Exchange
  import opened Answers
  import opened ConnPool
  import opened Machine
  import opened Ledger
  import opened Drain
  import opened Kernel

  // ---- The wait room

  lemma SweepCounts(pool: seq<Conn>, now: int, c: Conn)
    ensures multiset(Sweep(pool, now, 0).kept)[c] == if c.deadline > now then multiset(pool)[c] else 0
    ensures multiset(Sweep(pool, now, 0).gone)[c] == if c.deadline > now then 0 else multiset(pool)[c]
  {
    SweepIsExact(pool, now);
    var r := Sweep(pool, now, 0);
    assert multiset(pool)[c] == multiset(r.kept)[c] + multiset(r.gone)[c];
    assert multiset(r.kept)[c] > 0 ==> c in r.kept;
    assert multiset(r.gone)[c] > 0 ==> c in r.gone;
  }

  lemma GoneIff(pool: seq<Conn>, now: int, c: Conn)
    ensures c in Sweep(pool, now, 0).gone <==> c in pool && c.deadline <= now
  {
    SweepCounts(pool, now, c);
    var gone := Sweep(pool, now, 0).gone;
    assert c in gone <==> multiset(gone)[c] > 0;
    assert c in pool <==> multiset(pool)[c] > 0;
  }

  /** A pooled connection with this descriptor is over. */
  ghost predicate Expired(s: State, fd: int) {
    exists c :: c in s.pool && c.deadline <= s.now && c.fd == fd
  }

  /** When the wait room has handled its events, it closes exactly what is over: in every run, behind that step a
      connection is pooled as often as before if its deadline is yet to come and not at all if it is over; one
      that is over is in the closed log as many times more as it was pooled, its descriptor is free and nothing is
      armed for it. Every other descriptor stays as it was. */
  lemma SweepExpires(states: seq<State>, steps: seq<Step>, k: nat)
    requires Run(states, steps) && k < |steps| && steps[k] == RoomStep(Sweeps)
    ensures var s, s' := states[k], states[k + 1];
            && (forall c :: multiset(s'.pool)[c] == if c.deadline > s.now then multiset(s.pool)[c] else 0)
            && (forall c :: multiset(s'.closed)[c] == multiset(s.closed)[c]
                                                      + if c.deadline > s.now then 0 else multiset(s.pool)[c])
            && (forall fd :: fd in s'.open <==> fd in s.open && !Expired(s, fd))
            && (forall key :: key in s'.armed <==> key in s.armed && !Expired(s, key.fd))
            && (s.room, s'.room) == (Handling([]), Top)
  {
    assert StepAt(states, steps, k);
    var s, s' := states[k], states[k + 1];
    forall c { SweepCounts(s.pool, s.now, c); }
    forall c { GoneIff(s.pool, s.now, c); }
    var gone := Sweep(s.pool, s.now, 0).gone;
    forall fd ensures Expired(s, fd) <==> exists c :: c in gone && c.fd == fd {
    }
  }

  /** What the wait room does with the event on top, in every run: the connection `c` that registered it leaves the
      pool; on an error it is closed and its descriptor is free, otherwise it is on its way to the workers. */
  lemma EventDecides(states: seq<State>, steps: seq<Step>, k: nat) returns (c: Conn)
    requires Run(states, steps) && k < |steps| && steps[k] == RoomStep(Handles)
    ensures var s, s' := states[k], states[k + 1];
            && s.room.Handling? && s.room.events != []
            && var e, rest := s.room.events[0], s.room.events[1..];
            && (KeyOf(c), multiset(s'.pool) + multiset{c}) == (e.key, multiset(s.pool))
            && (s'.room, s'.closed, s'.open.Keys) ==
               (if e.isError then (Handling(rest), s.closed + [c], s.open.Keys - {c.fd})
                else (Returning(c, rest), s.closed, s.open.Keys))
            && s'.armed == s.armed
  {
    assert StepAt(states, steps, k);
    var s := states[k];
    EveryEventFindsItsConnection(states, steps, k);
    var i := IndexOfFd(s.pool, s.room.events[0].key.fd);
    c := s.pool[i];
    SwapRemoveTakesOne(s.pool, i);
    NoCopies(states, steps, k);
    AgreesAlways(states, steps, k);
    BooksKeptAlways(states, steps, k);
    PoolFdsDiffer(s);
    HandlingAgrees(s.pool, s.armed, s.room.events);
  }

  /** What the wait room does with a connection it has taken, in every run: with room in the pool and the kernel
      willing it is pooled and armed; otherwise it is closed, and one connection with its descriptor is not in
      the pool - which is itself, so that the pool is as before, unless queue_trypop has returned -1. */
  lemma PoolingDecides(states: seq<State>, steps: seq<Step>, k: nat, registered: bool)
    requires Run(states, steps) && k < |steps| && steps[k] == RoomStep(Pools(registered))
    ensures var s, s' := states[k], states[k + 1];
            && s.room.Pooling? && s'.room == Draining
            && var c := s.room.conn;
            && (|s.pool| < s.poolCap && registered ==>
                  (s'.pool, s'.closed, s'.open, s'.armed) == (s.pool + [c], s.closed, s.open, s.armed + {KeyOf(c)}))
            && (|s.pool| >= s.poolCap || !registered ==>
                  && (s'.closed, s'.open.Keys) == (s.closed + [c], s.open.Keys - {c.fd})
                  && (|s.pool| >= s.poolCap || NoneStale(steps, k) ==> s'.pool == s.pool)
                  && exists d: Conn :: d.fd == c.fd
                                       && multiset(s'.pool) + multiset{d} == multiset(s.pool) + multiset{c})
  {
    assert StepAt(states, steps, k);
    var s, s' := states[k], states[k + 1];
    var c := s.room.conn;
    var i := IndexOfFd(s.pool + [c], c.fd);
    assert (s.pool + [c])[|s.pool|] == c;
    SwapRemoveTakesOne(s.pool + [c], i);
    if |s.pool| >= s.poolCap {
      assert multiset(s'.pool) + multiset{c} == multiset(s.pool) + multiset{c};
    } else if NoneStale(steps, k) {
      PhantomIffStale(states, steps, k);
      BooksKeptAlways(states, steps, k);
      TakesBackLast(s);
      assert SwapRemove(s.pool + [c], |s.pool|) == s.pool;
    }
  }

  /** What the wait room waits for: at most 64 different armed registrations, which are then no longer armed. */
  lemma PollReports(states: seq<State>, steps: seq<Step>, k: nat, events: seq<Event>)
    requires Run(states, steps) && k < |steps| && steps[k] == RoomStep(Polls(events))
    ensures var s, s' := states[k], states[k + 1];
            && (s'.room, |events| <= 64) == (Handling(events), true)
            && (forall key :: key in s'.armed <==> key in s.armed && !exists e: Event :: e in events && e.key == key)
            && (forall i, j :: 0 <= i < j < |events| ==> events[i].key in s.armed && events[i].key != events[j].key)
  {
    assert StepAt(states, steps, k);
  }

  // ---- Workers and listeners

  /** Kept, the connection is on its way to the wait queue; otherwise it is closed, its descriptor is free, and the
      worker pops the next one - or leaves, if it has run the handlers and finds the server stopping. What was
      sniffed and what was sent is on record. */
  ghost predicate GoesOn(s: State, s': State, w: nat, c: Conn, r: Served) {
    && w < |s.workers| == |s'.workers|
    && (s.workers[w], s'.workers[w], s'.closed, s'.open.Keys) ==
       (Serving(c),
        if r.keep then Parking(r.conn) else if r.answered && s.phase != Running then WorkerGone(false) else Popping,
        if r.keep then s.closed else s.closed + [r.conn],
        if r.keep then s.open.Keys else s.open.Keys - {c.fd})
    && (s'.answers, s'.demuxes) ==
       (if r.status == 0 then s.answers else s.answers + [Answer(c.id, r.status, SaidClose(r))],
        if c.protocol == ProtoUnknown then s.demuxes + multiset{c.id} else s.demuxes)
  }

  lemma AfterServeGoesOn(s: State, w: nat, c: Conn, r: Served)
    requires w < |s.workers| && s.workers[w] == Serving(c)
    requires KeyOf(r.conn) == KeyOf(c) && (r.demuxed <==> c.protocol == ProtoUnknown)
    ensures GoesOn(s, AfterServe(s, w, r), w, c, r)
  {
    assert !r.keep ==> AfterServe(s, w, r).open.Keys == s.open.Keys - {c.fd};
  }

  lemma ServedGoesOn(s: State, s': State, w: nat, env: Env, timeout: nat, r: Served)
    requires WorkerServed(s, s', w, env, timeout, r)
    ensures GoesOn(s, s', w, s.workers[w].conn, r) && timeout <= 0xFFFF
    ensures r == Serve(s.workers[w].conn, env, s.now + timeout)
  {
    ConnectionAfter(s.workers[w].conn, env, s.now + timeout);
    AfterServeGoesOn(s, w, s.workers[w].conn, r);
  }

  /** What becomes of a connection that a worker serves, in every run: one exchange decides how the worker goes
      on, and the deadline it may set is the time plus a 16-bit timeout. */
  lemma ServingDecides(states: seq<State>, steps: seq<Step>, k: nat, w: nat, env: Env, timeout: nat, r: Served)
    returns (c: Conn)
    requires Run(states, steps) && k < |steps| && steps[k] == WorkerStep(w, Serves(env, timeout, r))
    ensures GoesOn(states[k], states[k + 1], w, c, r)
    ensures r == Serve(c, env, states[k].now + timeout) && timeout <= 65535
  {
    assert StepAt(states, steps, k);
    ServedGoesOn(states[k], states[k + 1], w, env, timeout, r);
    c := states[k].workers[w].conn;
  }

  /** What becomes of an accepted socket, in every run: as long as the server runs, it is admitted under a new
      identity, with its protocol unknown, and is on its way to the workers; in shutdown it is closed again
      (but not as descriptor 0) and the listener leaves. */
  lemma AcceptingDecides(states: seq<State>, steps: seq<Step>, k: nat, l: nat, fd: int, tls: bool)
    requires Run(states, steps) && k < |steps| && steps[k] == ListenerStep(l, Accepts(fd, tls))
    ensures var s, s' := states[k], states[k + 1];
            && l < |s.listeners| == |s'.listeners| && fd !in s.open
            && (forall key :: key in s.admitted ==> key.id != s.nextId && s'.nextId > s.nextId)
            && (s'.listeners[l], s'.admitted, s'.open) ==
               if s.phase == Running then
                 (Pushing(Conn(s.nextId, fd, tls, ProtoUnknown, 0)), s.admitted + {Key(s.nextId, fd)},
                  s.open[fd := s.nextId])
               else (ListenerGone, s.admitted, if fd > 0 then s.open else s.open[fd := s.nextId])
  {
    assert StepAt(states, steps, k);
    BooksKeptAlways(states, steps, k);
  }

  /** What becomes of a socket whose set-up fails: it stays open under a new identity, and nobody is to close it. */
  lemma FailedSetUpLeaks(states: seq<State>, steps: seq<Step>, k: nat, l: nat, fd: int)
    requires Run(states, steps) && k < |steps| && steps[k] == ListenerStep(l, AcceptLeaves(fd))
    ensures var s, s' := states[k], states[k + 1];
            (s'.listeners, s'.admitted, s'.open, s'.nextId) ==
            (s.listeners, s.admitted, s.open[fd := s.nextId], s.nextId + 1)
  {
    assert StepAt(states, steps, k);
  }

  // ---- Between the places

  /** A connection is handed on as it is and in order: who pops gets the queue's oldest item, and who pushes adds
      what it holds behind the others. No other step touches what is in the queues. */
  ghost predicate HandsOn(s: State, s': State, step: Step) {
    match step
    case WorkerStep(w, Pops(Get(c))) =>
      && w < |s.workers| == |s'.workers|
      && (s.work.items, s'.workers[w]) == ([c] + s'.work.items, Serving(c))
    case WorkerStep(w, Parks(Put(c))) =>
      && w < |s.workers| == |s'.workers|
      && (s'.wait.items, s.workers[w], s'.workers[w]) == (s.wait.items + [c], Parking(c), Popping)
    case RoomStep(Takes(Get(c))) => (s.wait.items, s'.room, s'.last) == ([c] + s'.wait.items, Pooling(c), c)
    case RoomStep(Returns(Put(c))) =>
      && s'.room.Handling?
      && (s'.work.items, s.room) == (s.work.items + [c], Returning(c, s'.room.events))
    case ListenerStep(l, PushesWork(Put(c))) =>
      && l < |s.listeners| == |s'.listeners|
      && (s'.work.items, s.listeners[l], s'.listeners[l]) == (s.work.items + [c], Pushing(c), Accepting)
    case _ => (s'.work.items, s'.wait.items) == (s.work.items, s.wait.items)
  }

  lemma WorkerHandsOn(s: State, s': State, w: nat, act: WorkerAct)
    requires WorkerNext(s, s', w, act)
    ensures HandsOn(s, s', WorkerStep(w, act))
  {
    match act
    case Pops(Get(c)) => assert s.work.items == [c] + s'.work.items;
    case _ =>
  }

  lemma RoomHandsOn(s: State, s': State, act: RoomAct)
    requires RoomNext(s, s', act)
    ensures HandsOn(s, s', RoomStep(act))
  {
    match act
    case Takes(Get(c)) => assert s.wait.items == [c] + s'.wait.items;
    case _ =>
  }

  /** In every run connections are handed on like that. */
  lemma QueuesHandOn(states: seq<State>, steps: seq<Step>, k: nat)
    requires Run(states, steps) && k < |steps|
    ensures HandsOn(states[k], states[k + 1], steps[k])
  {
    assert StepAt(states, steps, k);
    match steps[k]
    case WorkerStep(w, act) => WorkerHandsOn(states[k], states[k + 1], w, act);
    case RoomStep(act) => RoomHandsOn(states[k], states[k + 1], act);
    case _ =>
  }

  /** A thread leaves in shutdown only: the wait room at the top of its loop, giving up the pool; a worker when the
      work queue is empty; a listener when it has nothing in hand. The wait room goes on with its stale local
      when it finds the wait queue empty and shut. */
  ghost predicate LeavesInShutdown(s: State, s': State, step: Step) {
    match step
    case RoomStep(Loops) =>
      (s.room, s'.room, s'.pool, s'.leaked) ==
      if s.phase == Running then (Top, Draining, s.pool, s.leaked) else (Top, RoomGone, [], s.leaked + s.pool)
    case RoomStep(FindsShut) =>
      (s.room, s.wait.items, s.wait.shut, s'.room, s'.phantom) ==
      (Draining, [], true, Pooling(s.last), s.phantom + [s.last])
    case WorkerStep(w, Pops(GetShut)) =>
      && w < |s.workers| == |s'.workers|
      && (s.workers[w], s.work.items, s.work.shut, s'.workers[w]) == (Popping, [], true, WorkerGone(true))
    case ListenerStep(l, AcceptFails) =>
      && l < |s.listeners| == |s'.listeners|
      && (s.listeners[l], s'.listeners[l]) == (Accepting, if s.phase == Running then Accepting else ListenerGone)
    case _ => true
  }

  /** In every run threads leave like that, and no earlier. */
  lemma ThreadsLeaveInShutdown(states: seq<State>, steps: seq<Step>, k: nat)
    requires Run(states, steps) && k < |steps|
    ensures LeavesInShutdown(states[k], states[k + 1], steps[k])
  {
    assert StepAt(states, steps, k);
  }

  /** No other step closes, pools, answers or admits anything. */
  lemma OthersLeaveAlone(states: seq<State>, steps: seq<Step>, k: nat)
    requires Run(states, steps) && k < |steps|
    ensures var s, s', step := states[k], states[k + 1], steps[k];
            var serves := step.WorkerStep? && step.wa.Serves?;
            var pools := step.RoomStep? && step.ra.Pools?;
            && (s'.closed == s.closed || serves || pools || step in {RoomStep(Handles), RoomStep(Sweeps)})
            && (s'.pool == s.pool || pools || step in {RoomStep(Handles), RoomStep(Sweeps), RoomStep(Loops)})
            && (s'.answers == s.answers || serves)
            && (s'.admitted == s.admitted || (step.ListenerStep? && step.la.Accepts?))
  {
    assert StepAt(states, steps, k);
  }
}
