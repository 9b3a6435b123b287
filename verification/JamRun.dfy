/**
  The run that jams a server, for any number of workers and any capacity: one client's connection goes all the
  way through the pool, as many as a queue holds are parked, one more is in each worker's hand, and as many
  again are queued.
 */
module JamRun {
  import opened Text
  import opened Exchange
  import opened ConnPool
  import opened QueueMonitor
  import opened Machine
  import opened Threads
  import opened Ledger
  import opened Jam

  // ---- A client that is always kept

  const HELLO := Request("GET", "/", "HTTP/1.1", [Header("Host", "h")])
  const KEEP := Env(Http11, true, HeadersRead(HELLO), true, true, "", "", "", "", "")

  function Kept(c: Conn): Conn {
    c.(protocol := Http11, deadline := 0)
  }

  lemma HelloIsPlain()
    ensures HasHeader(HELLO.headers, "Host") && !AsksForUpgrade(HELLO.headers) && !ClientCloses(HELLO.headers)
    ensures !SameIgnoringCase(HELLO.version, "HTTP/1.0") && ValidStatus(HELLO, Http11) == 200
  {
    assert SameIgnoringCase(HELLO.headers[0].key, "Host");
    assert LowerAll("Host")[0] == 'h' && LowerAll("Connection")[0] == 'c' && LowerAll("Upgrade")[0] == 'u';
    assert LowerAll("HTTP/1.1")[7] == '1' && LowerAll("HTTP/1.0")[7] == '0';
    assert !Contains(HELLO.uri, "..");
  }

  lemma KeepIsKept(c: Conn)
    requires c.protocol == ProtoUnknown
    ensures var r := Serve(c, KEEP, 0); r.keep && r.conn == Kept(c)
  {
    HelloIsPlain();
    ClosesIffError(GET, 200, KEEP);
  }

  // ---- The scene

  /** Reachable, nobody asleep, nothing shut, and descriptors handed out in order. */
  ghost predicate Calm(s: State) {
    && Reachable(s) && s.now == 0 && s.phase.Running? && s.wait.cap == s.work.cap >= 1 && !s.work.shut && !s.wait.shut
    && s.work.getAsleep == {} && s.work.putAsleep == {} && s.wait.putAsleep == {} && s.wait.getAsleep == {}
    && s.listeners == [Accepting] && s.poolCap == s.work.cap && s.leaked == []
    && (forall fd :: fd in s.open ==> fd < s.nextId)
  }

  /** What the run moves about. */
  datatype Scene = Scene(calm: bool, cap: nat, work: seq<Conn>, wait: seq<Conn>, workers: seq<Worker>, room: Room,
                         pool: seq<Conn>, armed: set<Key>)

  ghost function SceneOf(s: State): Scene {
    Scene(Calm(s), s.work.cap, s.work.items, s.wait.items, s.workers, s.room, s.pool, s.armed)
  }

  lemma ListenerReaches(s: State, s': State, act: ListenerAct)
    requires Reachable(s) && ListenerNext(s, s', 0, act)
    ensures Reachable(s')
  {
    Reach(s, s', ListenerStep(0, act));
  }

  lemma WorkerReaches(s: State, s': State, w: nat, act: WorkerAct)
    requires Reachable(s) && WorkerNext(s, s', w, act)
    ensures Reachable(s')
  {
    Reach(s, s', WorkerStep(w, act));
  }

  lemma RoomReaches(s: State, s': State, act: RoomAct)
    requires Reachable(s) && RoomNext(s, s', act)
    ensures Reachable(s')
  {
    Reach(s, s', RoomStep(act));
  }

  function Client(id: nat): Conn {
    NewConn(id, id, false)
  }

  lemma Accepts(s: State) returns (s': State)
    requires Calm(s)
    ensures Reachable(s') && s' == s.(nextId := s.nextId + 1, listeners := [Pushing(Client(s.nextId))],
                                      open := s.open[s.nextId := s.nextId],
                                      admitted := s.admitted + {KeyOf(Client(s.nextId))})
  {
    s' := s.(nextId := s.nextId + 1, listeners := [Pushing(Client(s.nextId))],
             open := s.open[s.nextId := s.nextId], admitted := s.admitted + {KeyOf(Client(s.nextId))});
    ListenerReaches(s, s', ListenerAct.Accepts(s.nextId, false));
  }

  /** A client connects and its connection is queued. */
  lemma Arrives(s: State) returns (s': State)
    requires Calm(s) && |s.work.items| < s.work.cap
    ensures SceneOf(s') == SceneOf(s).(work := s.work.items + [Client(s.nextId)])
  {
    var c := Client(s.nextId);
    var a := Accepts(s);
    PutIsStep(a.work, ListenerTid(0), c);
    s' := a.(work := AfterPut(a.work, ListenerTid(0), c), listeners := [Accepting]);
    assert a.listeners[0 := Accepting] == [Accepting];
    ListenerReaches(a, s', PushesWork(Put(c)));
  }

  /** Worker `w` answers the queued client and wants to park the connection. */
  lemma Answers(s: State, w: nat, c: Conn) returns (s': State)
    requires Calm(s) && w < |s.workers| && s.workers[w].Popping? && s.work.items == [c] && c.protocol == ProtoUnknown
    ensures SceneOf(s') == SceneOf(s).(work := [], workers := s.workers[w := Parking(Kept(c))])
  {
    GetIsStep(s.work, WorkerTid(w));
    var a := s.(work := AfterGet(s.work, WorkerTid(w)), workers := s.workers[w := Serving(c)]);
    WorkerReaches(s, a, w, Pops(Get(c)));
    KeepIsKept(c);
    var r := Serve(c, KEEP, 0);
    s' := AfterServe(a, w, r);
    WorkerReaches(a, s', w, Serves(KEEP, 0, r));
    assert a.workers[w := Parking(Kept(c))] == s.workers[w := Parking(Kept(c))];
  }

  /** A client connects and worker `w` answers it. */
  lemma ServesOne(s: State, w: nat) returns (s': State)
    requires Calm(s) && w < |s.workers| && s.workers[w].Popping? && s.work.items == []
    ensures SceneOf(s') == SceneOf(s).(workers := s.workers[w := Parking(Kept(Client(s.nextId)))])
  {
    var a := Arrives(s);
    s' := Answers(a, w, Client(s.nextId));
  }

  lemma ParksIt(s: State, w: nat) returns (s': State)
    requires Calm(s) && w < |s.workers| && s.workers[w].Parking? && |s.wait.items| < s.wait.cap
    ensures SceneOf(s') == SceneOf(s).(wait := s.wait.items + [s.workers[w].conn], workers := s.workers[w := Popping])
  {
    var c := s.workers[w].conn;
    PutIsStep(s.wait, WorkerTid(w), c);
    s' := s.(wait := AfterPut(s.wait, WorkerTid(w), c), workers := s.workers[w := Popping]);
    WorkerReaches(s, s', w, Parks(Put(c)));
  }

  // ---- Once through the pool

  lemma EntersLoop(s: State) returns (s': State)
    requires Calm(s) && s.room.Top?
    ensures SceneOf(s') == SceneOf(s).(room := Draining)
  {
    s' := s.(room := Draining);
    RoomReaches(s, s', Loops);
  }

  lemma TakesOne(s: State, c: Conn) returns (s': State)
    requires Calm(s) && s.room.Draining? && s.wait.items == [c]
    ensures SceneOf(s') == SceneOf(s).(room := Pooling(c), wait := [])
  {
    GetIsStep(s.wait, RoomTid);
    s' := s.(wait := AfterGet(s.wait, RoomTid), room := Pooling(c), last := c);
    RoomReaches(s, s', Takes(Get(c)));
  }

  lemma PoolsIt(s: State, c: Conn) returns (s': State)
    requires Calm(s) && s.room == Pooling(c) && s.pool == [] && s.armed == {}
    ensures SceneOf(s') == SceneOf(s).(room := Draining, pool := [c], armed := {KeyOf(c)})
  {
    s' := AfterPool(s, c, true);
    RoomReaches(s, s', Pools(true));
  }

  lemma LooksForEvents(s: State) returns (s': State)
    requires Calm(s) && s.room.Draining? && s.wait.items == []
    ensures SceneOf(s') == SceneOf(s).(room := Polling(WaitMs(s.pool, s.now)))
  {
    s' := s.(room := Polling(WaitMs(s.pool, s.now)));
    RoomReaches(s, s', FindsEmpty);
  }

  lemma Fires(s: State, k: Key) returns (s': State)
    requires Calm(s) && s.room.Polling? && s.armed == {k}
    ensures SceneOf(s') == SceneOf(s).(room := Handling([Event(k, false)]), armed := {})
  {
    var events := [Event(k, false)];
    s' := s.(room := Handling(events), armed := Unfired(s.armed, events));
    assert events[0].key == k;
    RoomReaches(s, s', Polls(events));
  }

  lemma TakesOut(s: State, c: Conn) returns (s': State)
    requires Calm(s) && s.room == Handling([Event(KeyOf(c), false)]) && s.pool == [c]
    ensures SceneOf(s') == SceneOf(s).(room := Returning(c, []), pool := [])
  {
    s' := AfterEvent(s, s.room.events);
    assert IndexOfFd([c], c.fd) == 0 && SwapRemove([c], 0) == [];
    assert s.room.events[1..] == [];
    RoomReaches(s, s', Handles);
  }

  /** A parked connection is pooled, fires, and is about to be returned. */
  lemma ComesBack(s: State, c: Conn) returns (s': State)
    requires Calm(s) && s.room.Top? && s.wait.items == [c] && s.pool == [] && s.armed == {}
    ensures SceneOf(s') == SceneOf(s).(room := Returning(c, []), wait := [])
  {
    s' := EntersLoop(s);
    s' := TakesOne(s', c);
    s' := PoolsIt(s', c);
    s' := LooksForEvents(s');
    s' := Fires(s', KeyOf(c));
    s' := TakesOut(s', c);
  }

  function Idle(workers: nat): seq<Worker> {
    seq(workers, _ => Popping)
  }

  lemma Starts(workers: nat, capacity: nat) returns (s: State)
    requires capacity >= 1
    ensures SceneOf(s) == Scene(true, capacity, [], [], Idle(workers), Top, [], {})
  {
    s := State(0, Running, Empty(capacity), Empty(capacity), Idle(workers), [Accepting], Top, Client(0), capacity, [],
               {}, map[], 0, {}, [], [], [], multiset{}, []);
    var none: seq<Step> := [];
    assert Run([s], none) && [s][|none|] == s;
  }

  lemma FirstClientReturns(workers: nat, capacity: nat) returns (s: State)
    requires workers >= 1 && capacity >= 1
    ensures s.room.Returning? && SceneOf(s) == Scene(true, capacity, [], [], Idle(workers), s.room, [], {})
  {
    s := Starts(workers, capacity);
    s := ServesOne(s, 0);
    var c := s.workers[0].conn;
    s := ParksIt(s, 0);
    s := ComesBack(s, c);
    assert s.workers == Idle(workers);
  }

  // ---- Filling up

  lemma {:induction false} FillsWait(s: State) returns (s': State)
    requires Calm(s) && |s.workers| >= 1 && s.workers[0].Popping? && s.work.items == [] && |s.wait.items| <= s.wait.cap
    ensures |s'.wait.items| == s'.work.cap && SceneOf(s') == SceneOf(s).(wait := s'.wait.items)
    decreases s.wait.cap - |s.wait.items|
  {
    s' := s;
    if |s.wait.items| < s.wait.cap {
      s' := ServesOne(s, 0);
      s' := ParksIt(s', 0);
      assert s'.workers == s.workers;
      s' := FillsWait(s');
    }
  }

  /** The workers from `w` on get a client each. */
  lemma {:induction false} FillsHands(s: State, w: nat) returns (s': State)
    requires Calm(s) && w <= |s.workers| && s.work.items == []
    requires forall v :: 0 <= v < |s.workers| ==> if v < w then s.workers[v].Parking? else s.workers[v].Popping?
    ensures SceneOf(s') == SceneOf(s).(workers := s'.workers) && |s'.workers| == |s.workers|
    ensures forall v :: 0 <= v < |s'.workers| ==> s'.workers[v].Parking?
    decreases |s.workers| - w
  {
    s' := s;
    if w < |s.workers| {
      s' := ServesOne(s, w);
      s' := FillsHands(s', w + 1);
    }
  }

  lemma {:induction false} FillsWork(s: State) returns (s': State)
    requires Calm(s) && |s.work.items| <= s.work.cap
    ensures |s'.work.items| == s'.work.cap && SceneOf(s') == SceneOf(s).(work := s'.work.items)
    decreases s.work.cap - |s.work.items|
  {
    s' := s;
    if |s.work.items| < s.work.cap {
      s' := Arrives(s);
      s' := FillsWork(s');
    }
  }

  // ---- Falling asleep

  /** Jammed, the wait room and the workers below `w` asleep, the other workers about to find the queue full. */
  ghost predicate Dozing(s: State, w: nat) {
    && Reachable(s) && s.phase.Running? && Jammed(s) && RoomTid in s.work.putAsleep && s.listeners == [Accepting]
    && s.poolCap == s.work.cap && s.leaked == [] && s.wait.getAsleep == {}
    && (forall v: nat :: WorkerTid(v) in s.wait.putAsleep <==> v < w)
  }

  /** What is left of the scene when the threads fall asleep one by one. */
  datatype Dozers = Dozers(dozing: bool, work: seq<Conn>, wait: seq<Conn>, caps: (nat, nat), workers: seq<Worker>,
                           pool: seq<Conn>)

  ghost function DozersOf(s: State, w: nat): Dozers {
    Dozers(Dozing(s, w), s.work.items, s.wait.items, (s.work.cap, s.wait.cap), s.workers, s.pool)
  }

  lemma RoomSleeps(s: State) returns (s': State)
    requires Calm(s) && Jammed(s)
    ensures DozersOf(s', 0) == DozersOf(s, 0).(dozing := true)
  {
    var c := s.room.conn;
    PutIsStep(s.work, RoomTid, c);
    s' := s.(work := AfterPut(s.work, RoomTid, c));
    RoomReaches(s, s', Returns(PutSleeps));
  }

  lemma WorkerSleeps(s: State, w: nat) returns (s': State)
    requires Dozing(s, w) && w < |s.workers|
    ensures DozersOf(s', w + 1) == DozersOf(s, w)
  {
    var c := s.workers[w].conn;
    PutIsStep(s.wait, WorkerTid(w), c);
    s' := s.(wait := AfterPut(s.wait, WorkerTid(w), c));
    WorkerReaches(s, s', w, Parks(PutSleeps));
  }

  lemma {:induction false} WorkersSleep(s: State, w: nat) returns (s': State)
    requires Dozing(s, w) && w <= |s.workers|
    ensures DozersOf(s', |s.workers|) == DozersOf(s, w)
    decreases |s.workers| - w
  {
    s' := s;
    if w < |s.workers| {
      s' := WorkerSleeps(s, w);
      s' := WorkersSleep(s', w + 1);
    }
  }

  lemma JamHoldsExactly(s: State)
    requires Jammed(s) && s.wait.cap == s.work.cap && s.listeners == [Accepting] && s.pool == [] && s.leaked == []
    ensures Held(s, Any) == 2 * s.work.cap + |s.workers| + 1
  {
    AllParking(s.workers);
    CountAny(s.work.items);
    CountAny(s.wait.items);
    assert InListeners(s.listeners, Any) == InListeners(s.listeners[..0], Any) + InListener(s.listeners[0], Any);
    assert s.listeners[..0] == [];
  }

  /** For every number of workers and every capacity there is a run into the deadlock, with no more than
      2 * capacity + workers + 1 live connections: the bound of StuckIff is tight. */
  lemma JamIsReachable(workers: nat, capacity: nat) returns (s: State)
    requires workers >= 1 && capacity >= 1
    ensures Reachable(s) && (s.phase, |s.workers|) == (Running, workers)
    ensures (s.work.cap, s.wait.cap, s.poolCap) == (capacity, capacity, capacity)
    ensures Stuck(s) && Held(s, Any) == 2 * capacity + workers + 1
  {
    s := FirstClientReturns(workers, capacity);
    s := FillsWait(s);
    s := FillsHands(s, 0);
    s := FillsWork(s);
    s := RoomSleeps(s);
    s := WorkersSleep(s, 0);
    var states, steps :| Run(states, steps) && states[|steps|] == s;
    SoundAlways(states, steps, |steps|);
    JammedIsStuck(s);
    JamHoldsExactly(s);
  }

  // ---- A poll that sleeps past a deadline

  lemma PollsLate(s: State, late: int) returns (s': State)
    requires Calm(s) && s.room.Draining? && s.wait.items == [] && late >= 0
    ensures Reachable(s') && s' == s.(now := late, room := Polling(WaitMs(s.pool, late)))
  {
    var a := s.(now := late);
    Reach(s, a, ServerStep(Ticks));
    s' := a.(room := Polling(WaitMs(s.pool, late)));
    RoomReaches(a, s', FindsEmpty);
  }

  /** A kept connection is pooled, and 2^32 - 1 seconds after its deadline the wait room asks the kernel to wait
      for 200 ms more. */
  lemma RoomOversleeps() returns (s: State)
    ensures Reachable(s) && (s.phase, s.room, s.now) == (Running, Polling(200), 0xFFFF_FFFF)
    ensures |s.pool| == 1 && s.pool[0].deadline == 0 && Oversleeps(s.pool, s.now)
  {
    s := Starts(1, 1);
    s := ServesOne(s, 0);
    var c := s.workers[0].conn;
    s := ParksIt(s, 0);
    s := EntersLoop(s);
    s := TakesOne(s, c);
    s := PoolsIt(s, c);
    s := PollsLate(s, 0xFFFF_FFFF);
    OversleepsAfterWrapping(c);
  }
}
