/**
  The ledger of connections: who holds which accepted socket, what was closed, what was admitted. Every
  step of the machine is one entry of this book-keeping; conservation is an invariant of the book.
 */
module Ledger {
  import opened Exchange
  import opened ConnPool
  import opened QueueMonitor
  import opened Machine
  import opened Frames

  datatype Entry =
    | Moves                     // a connection changes hands, or nothing happens
    | Admits(conn: Conn)
    | Closes(gone: seq<Conn>)
    | Conjures                  // a stale copy of a connection is put into play
    | Scrambles(conn: Conn)     // the wrong connection goes: possible with stale copies around only

  /** The histories that the books are about. */
  function Books(s: State): (set<Key>, seq<Conn>, seq<Conn>) {
    (s.admitted, s.phantom, s.closed)
  }

  ghost predicate KeepsOpen(s: State, s': State, fd: int) {
    fd in s.open ==> fd in s'.open && s'.open[fd] == s.open[fd]
  }

  ghost predicate Entered(s: State, s': State, e: Entry) {
    match e
    case Moves =>
      && s'.nextId >= s.nextId && Books(s') == Books(s)
      && (forall q :: Held(s', q) == Held(s, q))
      && (forall fd :: KeepsOpen(s, s', fd))
    case Admits(c) =>
      && c.id == s.nextId < s'.nextId && c.fd !in s.open && s'.open == s.open[c.fd := c.id]
      && Books(s') == (s.admitted + {KeyOf(c)}, s.phantom, s.closed)
      && (forall q :: Held(s', q) == Held(s, q) + Is(c, q))
    case Closes(gone) =>
      && s'.nextId >= s.nextId && Books(s') == (s.admitted, s.phantom, s.closed + gone)
      && (forall q :: Held(s, q) == Held(s', q) + Count(gone, q))
      && (forall fd :: (forall c :: c in gone ==> c.fd != fd) ==> KeepsOpen(s, s', fd))
    case Conjures =>
      && s'.nextId == s.nextId && Books(s') == (s.admitted, s.phantom + [s.last], s.closed)
      && Held(s', Any) == Held(s, Any) + 1
    case Scrambles(c) =>
      && s'.nextId >= s.nextId && s.phantom != [] && Books(s') == (s.admitted, s.phantom, s.closed + [c])
      && Held(s, Any) == Held(s', Any) + 1
  }

  /** A step of the machine that the books know. */
  ghost predicate IsEntry(s: State, s': State) {
    exists e :: Entered(s, s', e)
  }

  /** Every admitted connection is in one place, or closed once and in no place. */
  ghost predicate Conserved(s: State) {
    forall k :: Held(s, Only(k)) + Count(s.closed, Only(k)) == if k in s.admitted then 1 else 0
  }

  /** The kernel's descriptor of a held connection is open and names it. */
  ghost predicate NamesHeld(s: State) {
    forall k :: Held(s, Only(k)) > 0 ==> k.fd in s.open && s.open[k.fd] == k.id
  }

  ghost predicate Identified(s: State) {
    && (forall k :: k in s.admitted ==> k.id < s.nextId)
    && (forall j, k :: j in s.admitted && k in s.admitted && j.id == k.id ==> j == k)
  }

  /** What is found in order. */
  datatype Audit = Audit(identified: bool, balanced: bool, accounted: bool)

  ghost predicate BooksKept(s: State) {
    Audit(Identified(s), Held(s, Any) + |s.closed| == |s.admitted| + |s.phantom|,
          s.phantom == [] ==> Conserved(s) && NamesHeld(s)) == Audit(true, true, true)
  }

  /** Two holdings that share an identity or a descriptor are one. */
  lemma HoldingsDiffer(s: State, j: Key, k: Key)
    requires BooksKept(s) && s.phantom == []
    ensures Held(s, Only(k)) <= 1
    ensures Held(s, Only(j)) > 0 && Held(s, Only(k)) > 0 && (j.id == k.id || j.fd == k.fd) ==> j == k
  {
    assert Held(s, Only(j)) + Count(s.closed, Only(j)) == if j in s.admitted then 1 else 0;
    assert Held(s, Only(k)) + Count(s.closed, Only(k)) == if k in s.admitted then 1 else 0;
  }

  lemma AdmissionBalances(s: State, s': State, c: Conn)
    requires BooksKept(s) && Entered(s, s', Admits(c))
    ensures BooksKept(s')
  {
    assert KeyOf(c) !in s.admitted;
    assert Held(s', Any) == Held(s, Any) + 1;
    if s.phantom == [] {
      forall k ensures Held(s', Only(k)) + Count(s'.closed, Only(k)) == if k in s'.admitted then 1 else 0 {
        assert Held(s', Only(k)) == Held(s, Only(k)) + Is(c, Only(k));
        assert Held(s, Only(k)) + Count(s.closed, Only(k)) == if k in s.admitted then 1 else 0;
      }
      assert Conserved(s');
      forall k | Held(s', Only(k)) > 0 ensures k.fd in s'.open && s'.open[k.fd] == k.id {
        assert Held(s', Only(k)) == Held(s, Only(k)) + Is(c, Only(k));
      }
      assert NamesHeld(s');
    }
  }

  lemma ClosingBalances(s: State, s': State, gone: seq<Conn>)
    requires BooksKept(s) && Entered(s, s', Closes(gone))
    ensures BooksKept(s')
  {
    CountConcat(s.closed, gone, Any);
    CountAny(gone);
    if s.phantom == [] {
      forall k ensures Held(s', Only(k)) + Count(s'.closed, Only(k)) == if k in s'.admitted then 1 else 0 {
        CountConcat(s.closed, gone, Only(k));
      }
      forall k | Held(s', Only(k)) > 0 ensures k.fd in s'.open && s'.open[k.fd] == k.id {
        assert Held(s, Only(k)) > 0;
        forall c | c in gone ensures c.fd != k.fd {
          CountMember(gone, c);
          HoldingsDiffer(s, KeyOf(c), k);
        }
        assert KeepsOpen(s, s', k.fd);
      }
    }
  }

  lemma EntryKeepsBooks(s: State, s': State, e: Entry)
    requires BooksKept(s) && Entered(s, s', e)
    ensures BooksKept(s')
  {
    match e
    case Moves =>
      assert Held(s', Any) == Held(s, Any);
      forall k | s.phantom == [] && Held(s', Only(k)) > 0 ensures k.fd in s'.open && s'.open[k.fd] == k.id {
        assert KeepsOpen(s, s', k.fd);
      }
    case Admits(c) => AdmissionBalances(s, s', c);
    case Closes(gone) => ClosingBalances(s, s', gone);
    case _ =>
  }

  // ---- Counting

  lemma CountPush(s: seq<Conn>, c: Conn, q: Probe)
    ensures Count(s + [c], q) == Count(s, q) + Is(c, q)
  {
    assert (s + [c])[..|s|] == s;
  }

  lemma {:induction false} CountConcat(s: seq<Conn>, t: seq<Conn>, q: Probe)
    ensures Count(s + t, q) == Count(s, q) + Count(t, q)
  {
    if t == [] {
      assert s + t == s;
    } else {
      var n := |t| - 1;
      CountConcat(s, t[..n], q);
      assert (s + t)[..|s + t| - 1] == s + t[..n];
    }
  }

  lemma CountPop(s: seq<Conn>, q: Probe)
    requires s != []
    ensures Count(s, q) == Is(s[0], q) + Count(s[1..], q)
  {
    assert s == [s[0]] + s[1..];
    CountConcat([s[0]], s[1..], q);
  }

  lemma {:induction false} CountUpdate(s: seq<Conn>, i: nat, c: Conn, q: Probe)
    requires i < |s|
    ensures Count(s[i := c], q) + Is(s[i], q) == Count(s, q) + Is(c, q)
  {
    var n := |s| - 1;
    if i < n {
      CountUpdate(s[..n], i, c, q);
      assert s[i := c][..n] == s[..n][i := c];
    } else {
      assert s[i := c][..n] == s[..n];
    }
  }

  lemma CountSwapRemove(s: seq<Conn>, i: nat, q: Probe)
    requires i < |s|
    ensures Count(s, q) == Count(SwapRemove(s, i), q) + Is(s[i], q)
  {
    CountUpdate(s, i, s[|s| - 1], q);
  }

  lemma {:induction false} CountAny(s: seq<Conn>)
    ensures Count(s, Any) == |s|
  {
    if s != [] {
      CountAny(s[..|s| - 1]);
    }
  }

  lemma {:induction false} CountMember(s: seq<Conn>, c: Conn)
    requires c in s
    ensures Count(s, Only(KeyOf(c))) > 0
  {
    var n := |s| - 1;
    if c != s[n] {
      CountMember(s[..n], c);
    }
  }

  lemma TwiceCounts(s: seq<Conn>, i: nat, j: nat)
    requires i < j < |s| && KeyOf(s[i]) == KeyOf(s[j])
    ensures Count(s, Only(KeyOf(s[i]))) >= 2
  {
    assert s == s[..j] + s[j..];
    assert s[..j][i] == s[i] && s[j..][0] == s[j];
    CountMember(s[..j], s[i]);
    CountMember(s[j..], s[j]);
    CountConcat(s[..j], s[j..], Only(KeyOf(s[i])));
  }

  lemma {:induction false} CountFinds(s: seq<Conn>, k: Key) returns (i: nat)
    requires Count(s, Only(k)) > 0
    ensures i < |s| && KeyOf(s[i]) == k
  {
    i := |s| - 1;
    if KeyOf(s[i]) != k {
      i := CountFinds(s[..i], k);
    }
  }

  lemma {:induction false} CountSweep(s: seq<Conn>, now: int, i: nat, q: Probe)
    requires i <= |s|
    ensures Count(Sweep(s, now, i).kept, q) + Count(Sweep(s, now, i).gone, q) == Count(s, q)
    decreases |s| - i
  {
    if i < |s| {
      if s[i].deadline <= now {
        var rest := Sweep(SwapRemove(s, i), now, i);
        CountSwapRemove(s, i, q);
        CountSweep(SwapRemove(s, i), now, i, q);
        CountConcat([s[i]], rest.gone, q);
      } else {
        CountSweep(s, now, i + 1, q);
      }
    }
  }

  lemma {:induction false} WorkerUpdate(ws: seq<Worker>, i: nat, w: Worker, q: Probe)
    requires i < |ws|
    ensures InWorkers(ws[i := w], q) + InWorker(ws[i], q) == InWorkers(ws, q) + InWorker(w, q)
  {
    var n := |ws| - 1;
    if i < n {
      WorkerUpdate(ws[..n], i, w, q);
      assert ws[i := w][..n] == ws[..n][i := w];
    } else {
      assert ws[i := w][..n] == ws[..n];
    }
  }

  lemma {:induction false} ListenerUpdate(ls: seq<Listener>, i: nat, l: Listener, q: Probe)
    requires i < |ls|
    ensures InListeners(ls[i := l], q) + InListener(ls[i], q) == InListeners(ls, q) + InListener(l, q)
  {
    var n := |ls| - 1;
    if i < n {
      ListenerUpdate(ls[..n], i, l, q);
      assert ls[i := l][..n] == ls[..n][i := l];
    } else {
      assert ls[i := l][..n] == ls[..n];
    }
  }

  // ---- Every step of the machine is an entry

  lemma ServeMovesOrCloses(s: State, w: nat, r: Served, q: Probe)
    requires w < |s.workers| && s.workers[w].Serving? && KeyOf(r.conn) == KeyOf(s.workers[w].conn)
    ensures Held(s, q) == Held(AfterServe(s, w, r), q) + (if r.keep then 0 else Count([r.conn], q))
  {
    WorkerUpdate(s.workers, w, AfterServe(s, w, r).workers[w], q);
    CountPush([], r.conn, q);
  }

  lemma ParkedMoves(s: State, s': State, w: nat, c: Conn, q: Probe)
    requires w < |s.workers| && s.workers[w] == Parking(c) && s'.wait.items == s.wait.items + [c]
    requires s' == s.(wait := s'.wait, workers := s.workers[w := Popping])
    ensures Held(s', q) == Held(s, q)
  {
    WorkerUpdate(s.workers, w, Popping, q);
    CountPush(s.wait.items, c, q);
  }

  lemma ParkMoves(s: State, s': State, w: nat, a: Action<Conn>, q: Probe)
    requires WorkerPushed(s, s', w, a)
    ensures Held(s', q) == Held(s, q)
  {
    PutAppends(s.wait, s'.wait, WorkerTid(w), a);
    if a.Put? {
      ParkedMoves(s, s', w, a.put, q);
    }
  }

  lemma QueuedMoves(s: State, s': State, l: nat, c: Conn, q: Probe)
    requires l < |s.listeners| && s.listeners[l] == Pushing(c) && s'.work.items == s.work.items + [c]
    requires s' == s.(work := s'.work, listeners := s.listeners[l := Accepting])
    ensures Held(s', q) == Held(s, q)
  {
    ListenerUpdate(s.listeners, l, Accepting, q);
    CountPush(s.work.items, c, q);
  }

  lemma ListenerPushMoves(s: State, s': State, l: nat, a: Action<Conn>, q: Probe)
    requires ListenerPushed(s, s', l, a)
    ensures Held(s', q) == Held(s, q)
  {
    PutAppends(s.work, s'.work, ListenerTid(l), a);
    if a.Put? {
      QueuedMoves(s, s', l, a.put, q);
    }
  }

  /** When arming fails, the connection taken out of the pool again is the one just added. */
  lemma TakesBackLast(s: State)
    requires BooksKept(s) && s.phantom == [] && s.room.Pooling?
    ensures IndexOfFd(s.pool + [s.room.conn], s.room.conn.fd) == |s.pool|
  {
    var c := s.room.conn;
    var i := IndexOfFd(s.pool + [c], c.fd);
    assert (s.pool + [c])[|s.pool|] == c;
    if 0 <= i < |s.pool| {
      CountMember(s.pool, s.pool[i]);
      HoldingsDiffer(s, KeyOf(s.pool[i]), KeyOf(c));
    }
  }

  /** The pool after adding `c` and, if arming failed, taking out what its descriptor finds. */
  lemma PoolCounts(pool: seq<Conn>, c: Conn, q: Probe)
    ensures Count(pool + [c], q) == Count(pool, q) + Is(c, q) && Count([c], q) == Is(c, q)
    ensures var i := IndexOfFd(pool + [c], c.fd);
            i >= 0 && Count(pool + [c], q) == Count(SwapRemove(pool + [c], i), q) + Is((pool + [c])[i], q)
  {
    var i := IndexOfFd(pool + [c], c.fd);
    assert (pool + [c])[|pool|] == c;
    CountPush(pool, c, q);
    CountPush([], c, q);
    assert [] + [c] == [c];
    CountSwapRemove(pool + [c], i, q);
  }

  /** The room closes the connection in its hand. */
  lemma RejectIsEntry(s: State)
    requires s.room.Pooling?
    ensures IsEntry(s, Close(s.(room := Draining), s.room.conn))
  {
    forall q { CountPush([], s.room.conn, q); }
    assert [] + [s.room.conn] == [s.room.conn];
    assert Entered(s, Close(s.(room := Draining), s.room.conn), Closes([s.room.conn]));
  }

  lemma UnarmedIsReject(s: State)
    requires BooksKept(s) && s.room.Pooling? && |s.pool| < s.poolCap && s.phantom == []
    ensures AfterPool(s, s.room.conn, false) == Close(s.(room := Draining), s.room.conn)
  {
    TakesBackLast(s);
    assert SwapRemove(s.pool + [s.room.conn], |s.pool|) == s.pool;
  }

  lemma ScrambleIsEntry(s: State, s': State)
    requires RoomPooled(s, s', false) && |s.pool| < s.poolCap && s.phantom != []
    ensures IsEntry(s, s')
  {
    PoolCounts(s.pool, s.room.conn, Any);
    assert Entered(s, s', Scrambles(s.room.conn));
  }

  lemma PoolIsEntry(s: State, s': State, registered: bool)
    requires BooksKept(s) && RoomPooled(s, s', registered)
    ensures IsEntry(s, s')
  {
    if |s.pool| < s.poolCap && registered {
      forall q { CountPush(s.pool, s.room.conn, q); }
      assert Entered(s, s', Moves);
    } else if |s.pool| >= s.poolCap || s.phantom == [] {
      RejectIsEntry(s);
      if |s.pool| < s.poolCap { UnarmedIsReject(s); }
    } else {
      ScrambleIsEntry(s, s');
    }
  }

  lemma EventMovesOrCloses(s: State, s': State, q: Probe)
    requires RoomHandled(s, s')
    ensures var i := IndexOfFd(s.pool, s.room.events[0].key.fd);
            Held(s, q) == Held(s', q) + (if i >= 0 && s.room.events[0].isError then Is(s.pool[i], q) else 0)
  {
    var i := IndexOfFd(s.pool, s.room.events[0].key.fd);
    if i >= 0 {
      CountSwapRemove(s.pool, i, q);
    }
  }

  lemma ServeKeepsSocket(c: Conn, env: Env, deadline: int)
    ensures KeyOf(Serve(c, env, deadline).conn) == KeyOf(c)
  {
  }

  lemma ServeIsEntry(s: State, w: nat, r: Served)
    requires w < |s.workers| && s.workers[w].Serving? && KeyOf(r.conn) == KeyOf(s.workers[w].conn)
    ensures IsEntry(s, AfterServe(s, w, r))
  {
    forall q { ServeMovesOrCloses(s, w, r, q); }
    assert Entered(s, AfterServe(s, w, r), if r.keep then Moves else Closes([r.conn]));
  }

  lemma AcceptIsEntry(s: State, s': State, l: nat, fd: int, tls: bool)
    requires Accepted(s, s', l, fd, tls)
    ensures IsEntry(s, s')
  {
    var e := if Stopping(s) then Moves else Admits(NewConn(s.nextId, fd, tls));
    forall q ensures Held(s', q) == Held(s, q) + (if Stopping(s) then 0 else Is(NewConn(s.nextId, fd, tls), q)) {
      ListenerUpdate(s.listeners, l, s'.listeners[l], q);
    }
    assert Entered(s, s', e);
  }

  lemma EventIsEntry(s: State, s': State)
    requires RoomHandled(s, s')
    ensures IsEntry(s, s')
  {
    var i := IndexOfFd(s.pool, s.room.events[0].key.fd);
    var e := if i >= 0 && s.room.events[0].isError then Closes([s.pool[i]]) else Moves;
    forall q ensures Held(s, q) == Held(s', q) + (if e.Moves? then 0 else Count([s.pool[i]], q)) {
      EventMovesOrCloses(s, s', q);
      if i >= 0 { CountPush([], s.pool[i], q); }
    }
    assert Entered(s, s', e);
  }

  lemma SweepIsEntry(s: State, s': State)
    requires RoomSwept(s, s')
    ensures IsEntry(s, s')
  {
    forall q { CountSweep(s.pool, s.now, 0, q); }
    assert Entered(s, s', Closes(Sweep(s.pool, s.now, 0).gone));
  }

  lemma QuietIsEntry(s: State, s': State)
    requires Books(s') == Books(s) && s'.nextId >= s.nextId && s'.open == s.open
    requires PlacesKept(s, s')
    ensures IsEntry(s, s')
  {
    assert Entered(s, s', Moves);
  }

  ghost predicate PlacesKept(s: State, s': State) {
    && s'.work.items == s.work.items && s'.wait.items == s.wait.items
    && s'.workers == s.workers && s'.listeners == s.listeners && s'.pool == s.pool && s'.leaked == s.leaked
    && (forall q :: InRoom(s'.room, q) == InRoom(s.room, q))
  }

  lemma LeftIsEntry(s: State, s': State, l: nat, fd: int)
    requires AcceptLeft(s, s', l, fd)
    ensures IsEntry(s, s')
  {
    assert Entered(s, s', Moves);
  }

  lemma FailIsEntry(s: State, s': State, l: nat)
    requires AcceptFailed(s, s', l)
    ensures IsEntry(s, s')
  {
    forall q { ListenerUpdate(s.listeners, l, ListenerGone, q); }
    assert Entered(s, s', Moves);
  }

  lemma ListenerPushIsEntry(s: State, s': State, l: nat, a: Action<Conn>)
    requires ListenerPushed(s, s', l, a)
    ensures IsEntry(s, s')
  {
    forall q { ListenerPushMoves(s, s', l, a, q); }
    assert Entered(s, s', Moves);
  }

  lemma PopIsEntry(s: State, s': State, w: nat, a: Action<Conn>)
    requires WorkerPopped(s, s', w, a)
    ensures IsEntry(s, s')
  {
    forall q ensures Held(s', q) == Held(s, q) {
      if !a.GetSleeps? { WorkerUpdate(s.workers, w, s'.workers[w], q); }
      if a.Get? { CountPop(s.work.items, q); }
    }
    assert Entered(s, s', Moves);
  }

  lemma ServedIsEntry(s: State, s': State, w: nat, env: Env, timeout: nat, r: Served)
    requires WorkerServed(s, s', w, env, timeout, r)
    ensures IsEntry(s, s')
  {
    ServeKeepsSocket(s.workers[w].conn, env, s.now + timeout);
    ServeIsEntry(s, w, r);
  }

  lemma ParkIsEntry(s: State, s': State, w: nat, a: Action<Conn>)
    requires WorkerPushed(s, s', w, a)
    ensures IsEntry(s, s')
  {
    forall q { ParkMoves(s, s', w, a, q); }
    assert Entered(s, s', Moves);
  }

  lemma LoopIsEntry(s: State, s': State)
    requires RoomLooped(s, s')
    ensures IsEntry(s, s')
  {
    forall q ensures Held(s', q) == Held(s, q) {
      CountConcat(s.leaked, s.pool, q);
    }
    assert Entered(s, s', Moves);
  }

  lemma TakeIsEntry(s: State, s': State, a: Action<Conn>)
    requires RoomTook(s, s', a)
    ensures IsEntry(s, s')
  {
    forall q ensures Held(s', q) == Held(s, q) {
      CountPop(s.wait.items, q);
    }
    assert Entered(s, s', Moves);
  }

  lemma StaleIsEntry(s: State, s': State)
    requires RoomFoundShut(s, s')
    ensures IsEntry(s, s')
  {
    assert Entered(s, s', Conjures);
  }

  lemma PollIsEntry(s: State, s': State, events: seq<Event>)
    requires RoomFoundEmpty(s, s') || RoomPolled(s, s', events)
    ensures IsEntry(s, s')
  {
    QuietIsEntry(s, s');
  }

  lemma ReturnIsEntry(s: State, s': State, a: Action<Conn>)
    requires RoomPushed(s, s', a)
    ensures IsEntry(s, s')
  {
    PutAppends(s.work, s'.work, RoomTid, a);
    forall q ensures Held(s', q) == Held(s, q) {
      if a.Put? { CountPush(s.work.items, a.put, q); }
    }
    assert Entered(s, s', Moves);
  }

  lemma ListenerIsEntry(s: State, s': State, l: nat, act: ListenerAct)
    requires ListenerNext(s, s', l, act)
    ensures IsEntry(s, s')
  {
    match act
    case Accepts(fd, tls) => AcceptIsEntry(s, s', l, fd, tls);
    case AcceptLeaves(fd) => LeftIsEntry(s, s', l, fd);
    case AcceptFails => FailIsEntry(s, s', l);
    case PushesWork(a) => ListenerPushIsEntry(s, s', l, a);
  }

  lemma WorkerIsEntry(s: State, s': State, w: nat, act: WorkerAct)
    requires WorkerNext(s, s', w, act)
    ensures IsEntry(s, s')
  {
    match act
    case Pops(a) => PopIsEntry(s, s', w, a);
    case Serves(env, timeout, r) => ServedIsEntry(s, s', w, env, timeout, r);
    case Parks(a) => ParkIsEntry(s, s', w, a);
  }

  lemma RoomIsEntry(s: State, s': State, act: RoomAct)
    requires BooksKept(s) && RoomNext(s, s', act)
    ensures IsEntry(s, s')
  {
    match act
    case Loops => LoopIsEntry(s, s');
    case Takes(a) => TakeIsEntry(s, s', a);
    case FindsEmpty => PollIsEntry(s, s', []);
    case FindsShut => StaleIsEntry(s, s');
    case Pools(registered) => PoolIsEntry(s, s', registered);
    case Polls(events) => PollIsEntry(s, s', events);
    case Handles => EventIsEntry(s, s');
    case Returns(a) => ReturnIsEntry(s, s', a);
    case Sweeps => SweepIsEntry(s, s');
  }

  lemma ServerIsEntry(s: State, s': State, act: ServerAct)
    requires ServerNext(s, s', act)
    ensures IsEntry(s, s')
  {
    QuietIsEntry(s, s');
  }

  lemma StepIsEntry(s: State, s': State, step: Step)
    requires BooksKept(s) && Next(s, s', step)
    ensures IsEntry(s, s')
  {
    match step
    case ListenerStep(l, act) => ListenerIsEntry(s, s', l, act);
    case WorkerStep(w, act) => WorkerIsEntry(s, s', w, act);
    case RoomStep(act) => RoomIsEntry(s, s', act);
    case ServerStep(act) => ServerIsEntry(s, s', act);
  }

  lemma StepKeepsBooks(s: State, s': State, step: Step)
    requires BooksKept(s) && Next(s, s', step)
    ensures BooksKept(s')
  {
    StepIsEntry(s, s', step);
    var e :| Entered(s, s', e);
    EntryKeepsBooks(s, s', e);
  }

  lemma {:induction false} NothingHeld(ws: seq<Worker>, ls: seq<Listener>, q: Probe)
    requires forall i :: 0 <= i < |ws| ==> ws[i].Popping?
    requires forall i :: 0 <= i < |ls| ==> ls[i].Accepting?
    ensures InWorkers(ws, q) == 0 && InListeners(ls, q) == 0
  {
    if ws != [] {
      NothingHeld(ws[..|ws| - 1], ls, q);
    } else if ls != [] {
      NothingHeld(ws, ls[..|ls| - 1], q);
    }
  }

  lemma InitialBooks(s: State)
    requires Init(s)
    ensures BooksKept(s)
  {
    forall q { NothingHeld(s.workers, s.listeners, q); }
  }

  lemma BooksKeptOn(states: seq<State>, steps: seq<Step>, k: nat)
    requires Run(states, steps) && k < |steps| && BooksKept(states[k])
    ensures BooksKept(states[k + 1])
  {
    assert StepAt(states, steps, k);
    StepKeepsBooks(states[k], states[k + 1], steps[k]);
  }

  lemma {:induction false} BooksKeptAlways(states: seq<State>, steps: seq<Step>, k: nat)
    requires Run(states, steps) && k < |states|
    ensures BooksKept(states[k])
  {
    if k == 0 {
      InitialBooks(states[0]);
    } else {
      BooksKeptAlways(states, steps, k - 1);
      BooksKeptOn(states, steps, k - 1);
    }
  }

  // ---- Main results

  /** The connections of all places and the closed log, in one sequence. */
  ghost function Everything(s: State): seq<Conn> {
    s.work.items + s.wait.items + WorkerConns(s.workers) + ListenerConns(s.listeners)
    + (if s.room.Pooling? || s.room.Returning? then [s.room.conn] else []) + s.pool + s.leaked + s.closed
  }

  ghost function WorkerConns(ws: seq<Worker>): seq<Conn> {
    if ws == [] then []
    else var w := ws[|ws| - 1]; WorkerConns(ws[..|ws| - 1]) + (if w.Serving? || w.Parking? then [w.conn] else [])
  }

  ghost function ListenerConns(ls: seq<Listener>): seq<Conn> {
    if ls == [] then []
    else var l := ls[|ls| - 1]; ListenerConns(ls[..|ls| - 1]) + (if l.Pushing? then [l.conn] else [])
  }

  lemma {:induction false} CountThreads(ws: seq<Worker>, ls: seq<Listener>, q: Probe)
    ensures Count(WorkerConns(ws), q) == InWorkers(ws, q)
    ensures Count(ListenerConns(ls), q) == InListeners(ls, q)
  {
    if ws != [] {
      CountThreads(ws[..|ws| - 1], ls, q);
      var w := ws[|ws| - 1];
      if w.Serving? || w.Parking? {
        CountPush(WorkerConns(ws[..|ws| - 1]), w.conn, q);
      } else {
        assert WorkerConns(ws) == WorkerConns(ws[..|ws| - 1]);
      }
    } else if ls != [] {
      CountThreads(ws, ls[..|ls| - 1], q);
      if ls[|ls| - 1].Pushing? {
        CountPush(ListenerConns(ls[..|ls| - 1]), ls[|ls| - 1].conn, q);
      } else {
        assert ListenerConns(ls) == ListenerConns(ls[..|ls| - 1]);
      }
    }
  }

  lemma CountEverything(s: State, q: Probe)
    ensures Count(Everything(s), q) == Held(s, q) + Count(s.closed, q)
  {
    var room := if s.room.Pooling? || s.room.Returning? then [s.room.conn] else [];
    var a := s.work.items + s.wait.items;
    var b := a + WorkerConns(s.workers);
    var c := b + ListenerConns(s.listeners);
    var d := c + room;
    var e := d + s.pool;
    CountThreads(s.workers, s.listeners, q);
    CountConcat(s.work.items, s.wait.items, q);
    CountConcat(a, WorkerConns(s.workers), q);
    CountConcat(b, ListenerConns(s.listeners), q);
    CountConcat(c, room, q);
    CountConcat(d, s.pool, q);
    CountConcat(e, s.leaked, q);
    CountConcat(e + s.leaked, s.closed, q);
  }

  lemma {:induction false} OnceEachCounts(t: seq<Conn>, keys: set<Key>)
    requires forall k :: Count(t, Only(k)) == if k in keys then 1 else 0
    ensures |t| == |keys|
  {
    if t == [] {
      assert forall k :: k in keys ==> Count(t, Only(k)) == 1;
    } else {
      var n := |t| - 1;
      var last := KeyOf(t[n]);
      assert Count(t, Only(last)) == 1;
      forall k ensures Count(t[..n], Only(k)) == if k in keys - {last} then 1 else 0 {
        assert Count(t, Only(k)) == if k in keys then 1 else 0;
      }
      OnceEachCounts(t[..n], keys - {last});
    }
  }

  /** queue_trypop returned -1 to the drain loop. */
  const STALE := RoomStep(FindsShut)

  lemma PhantomStep(s: State, s': State, step: Step)
    requires Next(s, s', step)
    ensures s'.phantom == if step == STALE then s.phantom + [s.last] else s.phantom
  {
  }

  lemma PhantomGrows(states: seq<State>, steps: seq<Step>, k: nat)
    requires Run(states, steps) && k < |steps|
    ensures |states[k + 1].phantom| == |states[k].phantom| + (if steps[k] == STALE then 1 else 0)
  {
    assert StepAt(states, steps, k);
    PhantomStep(states[k], states[k + 1], steps[k]);
  }

  lemma {:induction false} PhantomIffStale(states: seq<State>, steps: seq<Step>, k: nat)
    requires Run(states, steps) && k < |states|
    ensures states[k].phantom == [] <==> forall j :: 0 <= j < k ==> steps[j] != STALE
  {
    if k > 0 {
      PhantomIffStale(states, steps, k - 1);
      PhantomGrows(states, steps, k - 1);
    }
  }

  function Stales(steps: seq<Step>): nat {
    if steps == [] then 0
    else Stales(steps[..|steps| - 1]) + (if steps[|steps| - 1] == STALE then 1 else 0)
  }

  lemma {:induction false} PhantomsAreStales(states: seq<State>, steps: seq<Step>, k: nat)
    requires Run(states, steps) && k < |states|
    ensures |states[k].phantom| == Stales(steps[..k])
  {
    if k > 0 {
      PhantomsAreStales(states, steps, k - 1);
      PhantomGrows(states, steps, k - 1);
      assert steps[..k][..k - 1] == steps[..k - 1];
    }
  }

  /** In every run, shutdown included, all places and the closed log together hold what was admitted and one
      connection more for each -1 that queue_trypop has returned to the drain loop. */
  lemma EachStalePopAddsOne(states: seq<State>, steps: seq<Step>, k: nat)
    requires Run(states, steps) && k < |states|
    ensures Held(states[k], Any) + |states[k].closed| == |states[k].admitted| + Stales(steps[..k])
  {
    BooksKeptAlways(states, steps, k);
    PhantomsAreStales(states, steps, k);
  }

  /** In every run, for any number of threads, any capacity and any interleaving: every admitted connection
      is in exactly one place or closed exactly once if and only if queue_trypop has not returned -1 to the
      wait room's drain loop so far. */
  lemma ConservationIff(states: seq<State>, steps: seq<Step>, k: nat)
    requires Run(states, steps) && k < |states|
    ensures Conserved(states[k]) <==> forall j :: 0 <= j < k ==> steps[j] != STALE
  {
    BooksKeptAlways(states, steps, k);
    PhantomIffStale(states, steps, k);
    var s := states[k];
    if Conserved(s) {
      forall q { CountEverything(s, q); }
      OnceEachCounts(Everything(s), s.admitted);
      CountAny(Everything(s));
      CountAny(s.closed);
    }
  }

  lemma ShutStep(s: State, s': State, step: Step)
    requires Next(s, s', step)
    ensures s.wait.shut ==> s'.wait.shut
    ensures step == STALE ==> s.wait.shut
  {
    match step
    case ListenerStep(l, act) => ListenerFrame(s, s', l, act);
    case WorkerStep(w, act) => WorkerFrame(s, s', w, act);
    case RoomStep(act) => RoomFrame(s, s', act);
    case ServerStep(act) => ServerFrame(s, s', act);
  }

  lemma FlagStays(states: seq<State>, steps: seq<Step>, k: nat)
    requires Run(states, steps) && k < |steps|
    ensures states[k].wait.shut ==> states[k + 1].wait.shut
    ensures steps[k] == STALE ==> states[k].wait.shut
  {
    assert StepAt(states, steps, k);
    ShutStep(states[k], states[k + 1], steps[k]);
  }

  lemma {:induction false} NoStaleBeforeShutdown(states: seq<State>, steps: seq<Step>, k: nat)
    requires Run(states, steps) && k < |states| && !states[k].wait.shut
    ensures forall j :: 0 <= j < k ==> steps[j] != STALE
  {
    if k > 0 {
      FlagStays(states, steps, k - 1);
      NoStaleBeforeShutdown(states, steps, k - 1);
    }
  }

  /** Conservation as the design promises it: in every state with the wait queue's flag still 0, an admitted
      connection is in exactly one place, or was closed exactly once and is in none; and the descriptor of a
      held connection is open and its own. */
  lemma ConservedBeforeShutdown(states: seq<State>, steps: seq<Step>, k: nat, key: Key)
    requires Run(states, steps) && k < |states| && !states[k].wait.shut
    ensures var s := states[k]; var q := Only(key);
            Count(s.work.items, q) + Count(s.wait.items, q) + InWorkers(s.workers, q) + InListeners(s.listeners, q)
            + InRoom(s.room, q) + Count(s.pool, q) + Count(s.leaked, q) + Count(s.closed, q)
            == if key in s.admitted then 1 else 0
    ensures Held(states[k], Only(key)) > 0 ==> key.fd in states[k].open && states[k].open[key.fd] == key.id
  {
    NoStaleBeforeShutdown(states, steps, k);
    BooksKeptAlways(states, steps, k);
    PhantomIffStale(states, steps, k);
    var s := states[k];
    assert Held(s, Only(key)) + Count(s.closed, Only(key)) == if key in s.admitted then 1 else 0;
  }

  lemma DrainsAtStart(garbage: Conn) returns (s: State)
    ensures Reachable(s) && (s.phase, s.room, s.last, s.listeners) == (Running, Draining, garbage, [Accepting])
    ensures (s.wait, s.admitted, Held(s, Any)) == (Empty(1), {}, 0)
  {
    s := State(0, Running, Empty(1), Empty(1), [Popping], [Accepting], Top, garbage, 1, [], {}, map[], 0,
               {}, [], [], [], multiset{}, []);
    var none: seq<Step> := [];
    assert Run([s], none) && [s][|none|] == s;
    var s1 := s.(room := Draining);
    Reach(s, s1, RoomStep(Loops));
    s := s1;
  }

  lemma ListenersLeave(s: State) returns (s': State)
    requires Reachable(s) && s.phase.Running? && s.listeners == [Accepting]
    ensures Reachable(s') && s' == s.(phase := Flagged, listeners := [ListenerGone])
  {
    var s1 := s.(phase := Flagged);
    Reach(s, s1, ServerStep(SetsFlag));
    s' := s1.(listeners := [ListenerGone]);
    assert s1.listeners[0 := ListenerGone] == [ListenerGone];
    Reach(s1, s', ListenerStep(0, AcceptFails));
  }

  /** The failing family is real: the flag is set while the wait room is in its drain loop, and the room
      pools whatever its local variable holds - here a connection that no listener ever admitted. */
  lemma ConservationCanFail(garbage: Conn) returns (s: State)
    ensures Reachable(s) && (s.wait.shut, s.room, s.admitted, Conserved(s)) == (true, Pooling(garbage), {}, false)
  {
    s := DrainsAtStart(garbage);
    s := ListenersLeave(s);
    var s4 := s.(phase := WaitShut, wait := s.wait.(shut := true));
    Reach(s, s4, ServerStep(ShutsWait));
    s := s4.(room := Pooling(garbage), phantom := s4.phantom + [garbage]);
    Reach(s4, s, STALE);
    assert InRoom(s.room, Only(KeyOf(garbage))) == 1;
  }
}
