/**
  The connection machine: listeners, workers, the wait room and the shutdown thread as one transition
  system over the two bounded queues, the pool and the kernel's tables.

  A step of a thread is one stretch under a queue's mutex, or work that touches only what the thread owns
  and the kernel. Connections a thread holds in a local variable are part of its program counter.
 */
module Machine {
  import opened Exchange
  import opened ConnPool
  import opened QueueMonitor

  const MAX_WAIT_EVENTS := 64

  /** An accepted socket: its identity and the descriptor it was given. */
  datatype Key = Key(id: nat, fd: int)

  datatype Worker =
    | Popping
    | Serving(conn: Conn)
    | Parking(conn: Conn)       // in queue_push on the wait queue
    | WorkerGone(drained: bool) // drained: queue_pop returned -1; otherwise left by break

  datatype Listener =
    | Accepting
    | Pushing(conn: Conn)       // in queue_push on the work queue
    | ListenerGone

  /** `key` is the registration that fired; the code sees only its descriptor. */
  datatype Event = Event(key: Key, isError: bool)

  datatype Room =
    | Top
    | Draining
    | Pooling(conn: Conn)                        // popped, about to be pooled and armed
    | Polling(ms: int)
    | Handling(events: seq<Event>)
    | Returning(conn: Conn, events: seq<Event>)  // in queue_push on the work queue
    | RoomGone

  datatype Phase = Running | Flagged | WaitShut | WorkShut | Freed

  /** A response: `closes` if it or the request it answers said `Connection: close`. */
  datatype Answer = Answer(id: nat, status: int, closes: bool)

  datatype State = State(
    now: int,
    phase: Phase,
    work: Monitor<Conn>,
    wait: Monitor<Conn>,
    workers: seq<Worker>,
    listeners: seq<Listener>,
    room: Room,
    last: Conn,             // the wait room's local `conn`
    poolCap: nat,
    pool: seq<Conn>,
    armed: set<Key>,        // one-shot registrations that have not fired
    open: map<int, nat>,    // the process's descriptors for accepted sockets, and whose they are
    nextId: nat,
    // history
    admitted: set<Key>,
    closed: seq<Conn>,      // handed to close_connection, in order
    leaked: seq<Conn>,      // in the pool when the wait room freed it
    phantom: seq<Conn>,     // pooled again because queue_trypop returned -1
    demuxes: multiset<nat>,
    answers: seq<Answer>)

  function KeyOf(c: Conn): Key { Key(c.id, c.fd) }

  predicate Stopping(s: State) { s.phase != Running }

  // ---- Where connections are

  /** What to count: every connection, or the ones accepted as `key`. */
  datatype Probe = Any | Only(key: Key)

  function Is(c: Conn, q: Probe): nat {
    if q.Any? || KeyOf(c) == q.key then 1 else 0
  }

  function Count(s: seq<Conn>, q: Probe): nat {
    if s == [] then 0 else Count(s[..|s| - 1], q) + Is(s[|s| - 1], q)
  }

  function InWorker(w: Worker, q: Probe): nat {
    if w.Serving? || w.Parking? then Is(w.conn, q) else 0
  }

  function InListener(l: Listener, q: Probe): nat {
    if l.Pushing? then Is(l.conn, q) else 0
  }

  function InRoom(r: Room, q: Probe): nat {
    if r.Pooling? || r.Returning? then Is(r.conn, q) else 0
  }

  function InWorkers(ws: seq<Worker>, q: Probe): nat {
    if ws == [] then 0 else InWorkers(ws[..|ws| - 1], q) + InWorker(ws[|ws| - 1], q)
  }

  function InListeners(ls: seq<Listener>, q: Probe): nat {
    if ls == [] then 0 else InListeners(ls[..|ls| - 1], q) + InListener(ls[|ls| - 1], q)
  }

  /** How many matching connections the places hold that an open admitted connection can be in. */
  function Held(s: State, q: Probe): nat {
    Count(s.work.items, q) + Count(s.wait.items, q) + InWorkers(s.workers, q) + InListeners(s.listeners, q)
    + InRoom(s.room, q) + Count(s.pool, q) + Count(s.leaked, q)
  }

  // ---- Steps

  datatype ListenerAct =
    | Accepts(fd: int, tls: bool)
    | AcceptLeaves(fd: int)      // accept_connection fails after accept(): socket left open
    | AcceptFails
    | PushesWork(act: Action<Conn>)

  datatype WorkerAct =
    | Pops(act: Action<Conn>)
    | Serves(env: Env, timeout: nat, result: Served)
    | Parks(act: Action<Conn>)

  datatype RoomAct =
    | Loops                      // the test at the top of the loop
    | Takes(act: Action<Conn>)   // queue_trypop returned 0
    | FindsEmpty                 // queue_trypop returned 1
    | FindsShut                  // queue_trypop returned -1
    | Pools(registered: bool)
    | Polls(events: seq<Event>)
    | Handles
    | Returns(act: Action<Conn>)
    | Sweeps

  /** The clock, spurious wakeups, and the thread that runs server_shutdown. */
  datatype ServerAct =
    | Ticks
    | WakesWork(t: Tid, act: Action<Conn>)
    | WakesWait(t: Tid, act: Action<Conn>)
    | SetsFlag
    | ShutsWait
    | ShutsWork
    | FreesQueues

  datatype Step =
    | ListenerStep(l: nat, la: ListenerAct)
    | WorkerStep(w: nat, wa: WorkerAct)
    | RoomStep(ra: RoomAct)
    | ServerStep(sa: ServerAct)

  /** close(fd): the descriptor is free again and the kernel forgets its registration. */
  function Close(s: State, c: Conn): State {
    s.(closed := s.closed + [c],
       open := s.open - {c.fd},
       armed := set k | k in s.armed && k.fd != c.fd)
  }

  ghost function CloseAll(s: State, cs: seq<Conn>): State {
    s.(closed := s.closed + cs,
       open := s.open - (set c | c in cs :: c.fd),
       armed := set k | k in s.armed && forall c :: c in cs ==> k.fd != c.fd)
  }

  /** What a worker leaves behind after the exchange `r` on its connection. */
  function AfterServe(s: State, w: nat, r: Served): State
    requires w < |s.workers|
  {
    var s1 := s.(demuxes := if r.demuxed then s.demuxes + multiset{r.conn.id} else s.demuxes,
                 answers := if r.status != 0
                            then s.answers + [Answer(r.conn.id, r.status, SaidClose(r))] else s.answers);
    if r.keep then s1.(workers := s.workers[w := Parking(r.conn)])
    else
      var next := if r.answered && Stopping(s) then WorkerGone(false) else Popping;
      Close(s1.(workers := s.workers[w := next]), r.conn)
  }

  /** pool_add, then arming; on failure the connection is taken out again by descriptor and closed. */
  function AfterPool(s: State, c: Conn, registered: bool): State {
    var s1 := s.(room := Draining);
    if |s.pool| >= s.poolCap then Close(s1, c)
    else
      var pool := s.pool + [c];
      if registered then s1.(pool := pool, armed := s.armed + {KeyOf(c)})
      else
        var i := IndexOfFd(pool, c.fd);
        Close(s1.(pool := if i >= 0 then SwapRemove(pool, i) else pool), c)
  }

  function AfterEvent(s: State, events: seq<Event>): State
    requires events != []
  {
    var e, rest := events[0], events[1..];
    var i := IndexOfFd(s.pool, e.key.fd);
    if i < 0 then s.(room := Handling(rest))
    else
      var c := s.pool[i];
      var s1 := s.(pool := SwapRemove(s.pool, i));
      if e.isError then Close(s1.(room := Handling(rest)), c)
      else s1.(room := Returning(c, rest))
  }

  /** One-shot registrations are disarmed as they are reported. */
  function Unfired(armed: set<Key>, events: seq<Event>): set<Key> {
    set k | k in armed && forall i :: 0 <= i < |events| ==> events[i].key != k
  }

  predicate EventsFrom(armed: set<Key>, events: seq<Event>) {
    && |events| <= MAX_WAIT_EVENTS
    && (forall i :: 0 <= i < |events| ==> events[i].key in armed)
    && (forall i, j :: 0 <= i < j < |events| ==> events[i].key != events[j].key)
  }

  // -- listener_thread

  /** What accept_connection fills in. */
  function NewConn(id: nat, fd: int, tls: bool): Conn {
    Conn(id, fd, tls, ProtoUnknown, 0)
  }

  ghost predicate Accepted(s: State, s': State, l: nat, fd: int, tls: bool) {
    && l < |s.listeners| && s.listeners[l].Accepting? && fd !in s.open
    && var c := NewConn(s.nextId, fd, tls);
    var s1 := s.(nextId := s.nextId + 1);
    s' == if Stopping(s)
          then s1.(listeners := s.listeners[l := ListenerGone],
                   open := if fd > 0 then s.open else s.open[fd := s.nextId])
          else s1.(listeners := s.listeners[l := Pushing(c)], open := s.open[fd := s.nextId],
                   admitted := s.admitted + {KeyOf(c)})
  }

  ghost predicate AcceptLeft(s: State, s': State, l: nat, fd: int) {
    && l < |s.listeners| && s.listeners[l].Accepting? && fd !in s.open && !Stopping(s)
    && s' == s.(open := s.open[fd := s.nextId], nextId := s.nextId + 1)
  }

  ghost predicate AcceptFailed(s: State, s': State, l: nat) {
    && l < |s.listeners| && s.listeners[l].Accepting?
    && s' == if Stopping(s) then s.(listeners := s.listeners[l := ListenerGone]) else s
  }

  ghost predicate ListenerPushed(s: State, s': State, l: nat, a: Action<Conn>) {
    && l < |s.listeners| && s.listeners[l].Pushing?
    && (a == Put(s.listeners[l].conn) || a == PutSleeps)
    && MonitorStep(s.work, s'.work, ListenerTid(l), a)
    && s' == s.(work := s'.work, listeners := if a.Put? then s.listeners[l := Accepting] else s.listeners)
  }

  // -- worker_thread

  ghost predicate WorkerPopped(s: State, s': State, w: nat, a: Action<Conn>) {
    && w < |s.workers| && s.workers[w].Popping?
    && (a.Get? || a.GetSleeps? || a.GetShut?)
    && MonitorStep(s.work, s'.work, WorkerTid(w), a)
    && s' == s.(work := s'.work,
                workers := if a.Get? then s.workers[w := Serving(a.got)]
                           else if a.GetShut? then s.workers[w := WorkerGone(true)]
                           else s.workers)
  }

  ghost predicate WorkerServed(s: State, s': State, w: nat, env: Env, timeout: nat, r: Served) {
    && w < |s.workers| && s.workers[w].Serving? && timeout <= 0xFFFF
    && r == Serve(s.workers[w].conn, env, s.now + timeout)
    && s' == AfterServe(s, w, r)
  }

  ghost predicate WorkerPushed(s: State, s': State, w: nat, a: Action<Conn>) {
    && w < |s.workers| && s.workers[w].Parking?
    && (a == Put(s.workers[w].conn) || a == PutSleeps)
    && MonitorStep(s.wait, s'.wait, WorkerTid(w), a)
    && s' == s.(wait := s'.wait, workers := if a.Put? then s.workers[w := Popping] else s.workers)
  }

  // -- wait_room_thread

  ghost predicate RoomLooped(s: State, s': State) {
    && s.room.Top?
    && s' == if Stopping(s)
             then s.(room := RoomGone, pool := [], leaked := s.leaked + s.pool, armed := {})
             else s.(room := Draining, last := s'.last)  // `conn` is declared anew, without a value
  }

  ghost predicate RoomTook(s: State, s': State, a: Action<Conn>) {
    && s.room.Draining? && a.Get?
    && MonitorStep(s.wait, s'.wait, RoomTid, a)
    && s' == s.(wait := s'.wait, room := Pooling(a.got), last := a.got)
  }

  ghost predicate RoomFoundEmpty(s: State, s': State) {
    && s.room.Draining? && s.wait.items == [] && !s.wait.shut
    && s' == s.(room := Polling(WaitMs(s.pool, s.now)))
  }

  ghost predicate RoomFoundShut(s: State, s': State) {
    && s.room.Draining? && s.wait.items == [] && s.wait.shut
    && s' == s.(room := Pooling(s.last), phantom := s.phantom + [s.last])
  }

  ghost predicate RoomPooled(s: State, s': State, registered: bool) {
    && s.room.Pooling?
    && s' == AfterPool(s, s.room.conn, registered)
  }

  ghost predicate RoomPolled(s: State, s': State, events: seq<Event>) {
    && s.room.Polling? && EventsFrom(s.armed, events)
    && s' == s.(room := Handling(events), armed := Unfired(s.armed, events))
  }

  ghost predicate RoomHandled(s: State, s': State) {
    && s.room.Handling? && s.room.events != []
    && s' == AfterEvent(s, s.room.events)
  }

  ghost predicate RoomPushed(s: State, s': State, a: Action<Conn>) {
    && s.room.Returning?
    && (a == Put(s.room.conn) || a == PutSleeps)
    && MonitorStep(s.work, s'.work, RoomTid, a)
    && s' == s.(work := s'.work, room := if a.Put? then Handling(s.room.events) else s.room)
  }

  ghost predicate RoomSwept(s: State, s': State) {
    && s.room.Handling? && s.room.events == []
    && var r := Sweep(s.pool, s.now, 0);
    s' == CloseAll(s.(room := Top, pool := r.kept), r.gone)
  }

  // -- spurious wakeups

  ghost predicate WokeInWork(s: State, s': State, t: Tid, a: Action<Conn>) {
    && (a.WakesGet? || a.WakesPut?)
    && MonitorStep(s.work, s'.work, t, a) && s' == s.(work := s'.work)
  }

  ghost predicate WokeInWait(s: State, s': State, t: Tid, a: Action<Conn>) {
    && (a.WakesGet? || a.WakesPut?)
    && MonitorStep(s.wait, s'.wait, t, a) && s' == s.(wait := s'.wait)
  }

  // -- server_shutdown, run by the signal thread; joins are guards

  ghost predicate ShutWait(s: State, s': State) {
    && s.phase.Flagged? && (forall l :: 0 <= l < |s.listeners| ==> s.listeners[l].ListenerGone?)
    && MonitorStep(s.wait, s'.wait, RoomTid, ShutSignal)
    && s' == s.(phase := WaitShut, wait := s'.wait)
  }

  ghost predicate ShutWork(s: State, s': State) {
    && s.phase.WaitShut? && s.room.RoomGone?
    && MonitorStep(s.work, s'.work, RoomTid, ShutBroadcast)
    && s' == s.(phase := WorkShut, work := s'.work)
  }

  ghost predicate FreedQueues(s: State, s': State) {
    && s.phase.WorkShut? && (forall w :: 0 <= w < |s.workers| ==> s.workers[w].WorkerGone?)
    && s' == s.(phase := Freed)
  }

  ghost predicate ListenerNext(s: State, s': State, l: nat, act: ListenerAct) {
    match act
    case Accepts(fd, tls) => Accepted(s, s', l, fd, tls)
    case AcceptLeaves(fd) => AcceptLeft(s, s', l, fd)
    case AcceptFails => AcceptFailed(s, s', l)
    case PushesWork(a) => ListenerPushed(s, s', l, a)
  }

  ghost predicate WorkerNext(s: State, s': State, w: nat, act: WorkerAct) {
    match act
    case Pops(a) => WorkerPopped(s, s', w, a)
    case Serves(env, timeout, r) => WorkerServed(s, s', w, env, timeout, r)
    case Parks(a) => WorkerPushed(s, s', w, a)
  }

  ghost predicate RoomNext(s: State, s': State, act: RoomAct) {
    match act
    case Loops => RoomLooped(s, s')
    case Takes(a) => RoomTook(s, s', a)
    case FindsEmpty => RoomFoundEmpty(s, s')
    case FindsShut => RoomFoundShut(s, s')
    case Pools(registered) => RoomPooled(s, s', registered)
    case Polls(events) => RoomPolled(s, s', events)
    case Handles => RoomHandled(s, s')
    case Returns(a) => RoomPushed(s, s', a)
    case Sweeps => RoomSwept(s, s')
  }

  ghost predicate ServerNext(s: State, s': State, act: ServerAct) {
    match act
    case Ticks => s'.now >= s.now && s' == s.(now := s'.now)
    case WakesWork(t, a) => WokeInWork(s, s', t, a)
    case WakesWait(t, a) => WokeInWait(s, s', t, a)
    case SetsFlag => s.phase.Running? && s' == s.(phase := Flagged)
    case ShutsWait => ShutWait(s, s')
    case ShutsWork => ShutWork(s, s')
    case FreesQueues => FreedQueues(s, s')
  }

  ghost predicate Next(s: State, s': State, step: Step) {
    match step
    case ListenerStep(l, act) => ListenerNext(s, s', l, act)
    case WorkerStep(w, act) => WorkerNext(s, s', w, act)
    case RoomStep(act) => RoomNext(s, s', act)
    case ServerStep(act) => ServerNext(s, s', act)
  }

  ghost predicate Init(s: State) {
    && s.phase.Running?
    && s.work == Empty(s.work.cap) && s.wait == Empty(s.work.cap)
    && (forall w :: 0 <= w < |s.workers| ==> s.workers[w].Popping?)
    && (forall l :: 0 <= l < |s.listeners| ==> s.listeners[l].Accepting?)
    && s.room.Top? && s.pool == [] && s.armed == {} && s.open == map[]
    && s.admitted == {} && s.closed == [] && s.leaked == [] && s.phantom == []
    && s.demuxes == multiset{} && s.answers == []
  }

  ghost predicate StepAt(states: seq<State>, steps: seq<Step>, k: nat)
    requires |states| == |steps| + 1 && k < |steps|
  {
    Next(states[k], states[k + 1], steps[k])
  }

  /** A run of the server from its start. */
  ghost predicate Run(states: seq<State>, steps: seq<Step>) {
    && |states| == |steps| + 1 && Init(states[0])
    && forall k: nat :: k < |steps| ==> StepAt(states, steps, k)
  }

  // ---- Building runs step by step

  lemma Extend(states: seq<State>, steps: seq<Step>, s': State, step: Step)
    requires Run(states, steps) && Next(states[|steps|], s', step)
    ensures Run(states + [s'], steps + [step])
  {
    var states', steps' := states + [s'], steps + [step];
    forall k: nat | k < |steps'| ensures StepAt(states', steps', k) {
      if k < |steps| {
        assert StepAt(states, steps, k);
      }
    }
  }

  /** The end state of some run. */
  ghost predicate Reachable(s: State) {
    exists states, steps :: Run(states, steps) && states[|steps|] == s
  }

  lemma Reach(s: State, s': State, step: Step)
    requires Reachable(s) && Next(s, s', step)
    ensures Reachable(s')
  {
    var states, steps :| Run(states, steps) && states[|steps|] == s;
    Extend(states, steps, s', step);
    assert (states + [s'])[|steps + [step]|] == s';
  }
}
