/**
  The pool and the kernel's table of armed registrations, kept in step through pooling, failed arming,
  one-shot firing, errors and expiry.
 */
module Kernel {
  import opened Exchange
  import opened ConnPool
  import opened Machine
  import opened Frames
  import opened Ledger
  import opened Drain

  // ---- Holdings in different places are different connections

  lemma {:induction false} TwoWorkers(ws: seq<Worker>, v: nat, w: nat, q: Probe)
    requires v < w < |ws|
    ensures InWorkers(ws, q) >= InWorker(ws[v], q) + InWorker(ws[w], q)
    ensures InWorkers(ws, q) >= InWorker(ws[v], q)
  {
    var n := |ws| - 1;
    if w < n {
      TwoWorkers(ws[..n], v, w, q);
    } else {
      OneWorker(ws[..n], v, q);
    }
  }

  lemma {:induction false} OneWorker(ws: seq<Worker>, w: nat, q: Probe)
    requires w < |ws|
    ensures InWorkers(ws, q) >= InWorker(ws[w], q)
  {
    var n := |ws| - 1;
    if w < n {
      OneWorker(ws[..n], w, q);
    }
  }

  lemma {:induction false} OneListener(ls: seq<Listener>, l: nat, q: Probe)
    requires l < |ls|
    ensures InListeners(ls, q) >= InListener(ls[l], q)
  {
    var n := |ls| - 1;
    if l < n {
      OneListener(ls[..n], l, q);
    }
  }

  predicate Apart(a: Conn, b: Conn) {
    a.id != b.id && a.fd != b.fd
  }

  ghost predicate Holds(w: Worker) { w.Serving? || w.Parking? }

  /** What a worker serves is nowhere else. */
  lemma ServedIsApart(s: State, w: nat)
    requires BooksKept(s) && s.phantom == [] && w < |s.workers| && s.workers[w].Serving?
    ensures var c := s.workers[w].conn;
            && (forall d :: d in s.work.items || d in s.wait.items || d in s.pool ==> Apart(c, d))
            && (forall v :: 0 <= v < |s.workers| && v != w && Holds(s.workers[v]) ==> Apart(c, s.workers[v].conn))
            && (forall l :: 0 <= l < |s.listeners| && s.listeners[l].Pushing? ==> Apart(c, s.listeners[l].conn))
            && (s.room.Pooling? || s.room.Returning? ==> Apart(c, s.room.conn))
  {
    var c := s.workers[w].conn;
    OneWorker(s.workers, w, Only(KeyOf(c)));
    forall d | d in s.work.items || d in s.wait.items || d in s.pool ensures Apart(c, d) {
      if d in s.work.items { CountMember(s.work.items, d); }
      if d in s.wait.items { CountMember(s.wait.items, d); }
      if d in s.pool { CountMember(s.pool, d); }
      HoldingsDiffer(s, KeyOf(c), KeyOf(d));
    }
    forall v | 0 <= v < |s.workers| && v != w && Holds(s.workers[v]) ensures Apart(c, s.workers[v].conn) {
      var d := s.workers[v].conn;
      OneWorker(s.workers, v, Only(KeyOf(d)));
      TwoWorkers(s.workers, if v < w then v else w, if v < w then w else v, Only(KeyOf(d)));
      HoldingsDiffer(s, KeyOf(c), KeyOf(d));
    }
    forall l | 0 <= l < |s.listeners| && s.listeners[l].Pushing? ensures Apart(c, s.listeners[l].conn) {
      OneListener(s.listeners, l, Only(KeyOf(s.listeners[l].conn)));
      HoldingsDiffer(s, KeyOf(c), KeyOf(s.listeners[l].conn));
    }
    if s.room.Pooling? || s.room.Returning? {
      HoldingsDiffer(s, KeyOf(c), KeyOf(s.room.conn));
    }
  }

  // ---- Agreement

  predicate Reported(events: seq<Event>, k: Key) {
    events != [] && (events[0].key == k || Reported(events[1..], k))
  }

  predicate NoneTwice(events: seq<Event>) {
    events != [] ==> !Reported(events[1..], events[0].key) && NoneTwice(events[1..])
  }

  /** The pool is made of the armed registrations and those reported but not yet handled. */
  ghost predicate Agree(pool: seq<Conn>, armed: set<Key>, events: seq<Event>) {
    (NoneTwice(events), SameKeys(pool, armed, events), Unreported(armed, events)) == (true, true, true)
  }

  ghost predicate SameKeys(pool: seq<Conn>, armed: set<Key>, events: seq<Event>) {
    forall k :: Count(pool, Only(k)) > 0 <==> k in armed || Reported(events, k)
  }

  ghost predicate Unreported(armed: set<Key>, events: seq<Event>) {
    forall k :: k in armed ==> !Reported(events, k)
  }

  /** A descriptor identifies a pooled connection, and none is pooled twice. */
  ghost predicate FdsDiffer(pool: seq<Conn>) {
    && (forall k :: Count(pool, Only(k)) <= 1)
    && (forall j, k :: Count(pool, Only(j)) > 0 && Count(pool, Only(k)) > 0 && j.fd == k.fd ==> j == k)
  }

  lemma {:induction false} ReportedAt(events: seq<Event>, k: Key)
    ensures Reported(events, k) <==> exists i :: 0 <= i < |events| && events[i].key == k
  {
    if events != [] {
      ReportedAt(events[1..], k);
      if Reported(events[1..], k) {
        var i :| 0 <= i < |events| - 1 && events[1..][i].key == k;
        assert events[i + 1].key == k;
      }
      if i :| 0 <= i < |events| && events[i].key == k && i != 0 {
        assert events[1..][i - 1].key == k;
      }
    }
  }

  lemma {:induction false} DistinctEvents(events: seq<Event>)
    requires forall i, j :: 0 <= i < j < |events| ==> events[i].key != events[j].key
    ensures NoneTwice(events)
  {
    if events != [] {
      DistinctEvents(events[1..]);
      ReportedAt(events[1..], events[0].key);
    }
  }

  lemma PoolingAgrees(pool: seq<Conn>, armed: set<Key>, c: Conn)
    requires Agree(pool, armed, [])
    ensures Agree(pool + [c], armed + {KeyOf(c)}, [])
  {
    forall k ensures Count(pool + [c], Only(k)) > 0 <==> k in armed + {KeyOf(c)} {
      CountPush(pool, c, Only(k));
      assert !Reported([], k);
    }
  }

  lemma FiringAgrees(pool: seq<Conn>, armed: set<Key>, events: seq<Event>)
    requires Agree(pool, armed, []) && EventsFrom(armed, events)
    ensures Agree(pool, Unfired(armed, events), events)
  {
    DistinctEvents(events);
    forall k ensures Count(pool, Only(k)) > 0 <==> k in Unfired(armed, events) || Reported(events, k)
    {
      ReportedAt(events, k);
      assert !Reported([], k);
    }
    forall k | k in Unfired(armed, events) ensures !Reported(events, k) {
      ReportedAt(events, k);
    }
  }

  /** The first reported event finds the connection whose registration fired. */
  lemma EventFindsItsConnection(pool: seq<Conn>, armed: set<Key>, events: seq<Event>)
    requires Agree(pool, armed, events) && FdsDiffer(pool) && events != []
    ensures var i := IndexOfFd(pool, events[0].key.fd);
            i >= 0 && KeyOf(pool[i]) == events[0].key
  {
    var k := events[0].key;
    var i := IndexOfFd(pool, k.fd);
    assert Count(pool, Only(k)) > 0;
    var j := CountFinds(pool, k);
    CountMember(pool, pool[i]);
  }

  lemma HandlingAgrees(pool: seq<Conn>, armed: set<Key>, events: seq<Event>)
    requires Agree(pool, armed, events) && FdsDiffer(pool) && events != []
    requires IndexOfFd(pool, events[0].key.fd) >= 0
    ensures Agree(SwapRemove(pool, IndexOfFd(pool, events[0].key.fd)), armed, events[1..])
    ensures forall k :: k in armed ==> k.fd != events[0].key.fd
  {
    EventFindsItsConnection(pool, armed, events);
    var key := events[0].key;
    var i := IndexOfFd(pool, key.fd);
    forall k ensures Count(SwapRemove(pool, i), Only(k)) > 0 <==> k in armed || Reported(events[1..], k) {
      CountSwapRemove(pool, i, Only(k));
      assert Count(pool, Only(k)) > 0 <==> k in armed || Reported(events, k);
    }
    forall k | k in armed ensures k.fd != key.fd {
      assert Count(pool, Only(k)) > 0 && Count(pool, Only(key)) > 0;
      assert !Reported(events, k);
    }
  }

  ghost function Spared(armed: set<Key>, gone: seq<Conn>): set<Key> {
    set k | k in armed && forall c :: c in gone ==> k.fd != c.fd
  }

  lemma SweepingAgrees(pool: seq<Conn>, armed: set<Key>, now: int)
    requires Agree(pool, armed, []) && FdsDiffer(pool)
    ensures Agree(Sweep(pool, now, 0).kept, Spared(armed, Sweep(pool, now, 0).gone), [])
  {
    var gone := Sweep(pool, now, 0).gone;
    forall k ensures Count(Sweep(pool, now, 0).kept, Only(k)) > 0 <==> k in Spared(armed, gone) {
      CountSweep(pool, now, 0, Only(k));
      assert !Reported([], k);
      if Count(gone, Only(k)) > 0 {
        var i := CountFinds(gone, k);
        assert gone[i] in gone;
      } else if k in armed {
        forall c | c in gone ensures c.fd != k.fd {
          CountMember(gone, c);
          CountSweep(pool, now, 0, Only(KeyOf(c)));
        }
      }
    }
  }

  lemma ClosingElsewhereAgrees(pool: seq<Conn>, armed: set<Key>, events: seq<Event>, c: Conn)
    requires Agree(pool, armed, events)
    requires forall d :: d in pool ==> d.fd != c.fd
    ensures (set k | k in armed && k.fd != c.fd) == armed
  {
    forall k | k in armed ensures k.fd != c.fd {
      assert Count(pool, Only(k)) > 0;
      var i := CountFinds(pool, k);
      assert pool[i] in pool;
    }
  }

  // ---- Every step of the machine keeps the agreement

  function Pending(r: Room): seq<Event> {
    if r.Handling? || r.Returning? then r.events else []
  }

  ghost predicate Agrees(s: State) {
    Agree(s.pool, s.armed, Pending(s.room))
  }

  lemma PoolFdsDiffer(s: State)
    requires BooksKept(s) && s.phantom == []
    ensures FdsDiffer(s.pool)
  {
    forall j, k ensures Count(s.pool, Only(k)) <= 1
                     && (Count(s.pool, Only(j)) > 0 && Count(s.pool, Only(k)) > 0 && j.fd == k.fd ==> j == k)
    {
      HoldingsDiffer(s, j, k);
    }
  }

  lemma ServeKeepsAgreement(s: State, w: nat, r: Served)
    requires BooksKept(s) && s.phantom == [] && Agrees(s)
    requires w < |s.workers| && s.workers[w].Serving? && KeyOf(r.conn) == KeyOf(s.workers[w].conn)
    ensures Agrees(AfterServe(s, w, r))
  {
    ServedIsApart(s, w);
    ClosingElsewhereAgrees(s.pool, s.armed, Pending(s.room), r.conn);
  }

  lemma PoolingIsApart(s: State)
    requires BooksKept(s) && s.phantom == [] && s.room.Pooling?
    ensures forall d :: d in s.pool ==> Apart(s.room.conn, d)
  {
    forall d | d in s.pool ensures Apart(s.room.conn, d) {
      CountMember(s.pool, d);
      HoldingsDiffer(s, KeyOf(s.room.conn), KeyOf(d));
    }
  }

  lemma PoolsKeepsAgreement(s: State, s': State, registered: bool)
    requires BooksKept(s) && s.phantom == [] && Agrees(s) && RoomPooled(s, s', registered)
    ensures Agrees(s')
  {
    var c := s.room.conn;
    PoolingIsApart(s);
    if |s.pool| < s.poolCap && registered {
      PoolingAgrees(s.pool, s.armed, c);
    } else {
      ClosingElsewhereAgrees(s.pool, s.armed, [], c);
      TakesBackLast(s);
      assert SwapRemove(s.pool + [c], |s.pool|) == s.pool;
    }
  }

  lemma HandlesKeepsAgreement(s: State, s': State)
    requires BooksKept(s) && s.phantom == [] && Agrees(s) && RoomHandled(s, s')
    ensures Agrees(s')
  {
    PoolFdsDiffer(s);
    var events := s.room.events;
    EventFindsItsConnection(s.pool, s.armed, events);
    HandlingAgrees(s.pool, s.armed, events);
    assert s'.armed == s.armed;
  }

  lemma SweepsKeepsAgreement(s: State, s': State)
    requires BooksKept(s) && s.phantom == [] && Agrees(s) && RoomSwept(s, s')
    ensures Agrees(s')
  {
    PoolFdsDiffer(s);
    SweepingAgrees(s.pool, s.armed, s.now);
    assert s'.armed == Spared(s.armed, Sweep(s.pool, s.now, 0).gone);
  }

  lemma LoopsKeepsAgreement(s: State, s': State)
    requires Agrees(s) && RoomLooped(s, s')
    ensures Agrees(s')
  {
  }

  lemma RoomKeepsAgreement(s: State, s': State, act: RoomAct)
    requires BooksKept(s) && s.phantom == [] && Agrees(s) && RoomNext(s, s', act)
    ensures Agrees(s')
  {
    match act
    case Pools(registered) => PoolsKeepsAgreement(s, s', registered);
    case Polls(events) => FiringAgrees(s.pool, s.armed, events);
    case Handles => HandlesKeepsAgreement(s, s');
    case Sweeps => SweepsKeepsAgreement(s, s');
    case Loops => LoopsKeepsAgreement(s, s');
    case _ => assert s'.pool == s.pool && s'.armed == s.armed && Pending(s'.room) == Pending(s.room);
  }

  lemma ServedKeepsAgreement(s: State, s': State, w: nat, env: Env, timeout: nat, r: Served)
    requires BooksKept(s) && s.phantom == [] && Agrees(s) && WorkerServed(s, s', w, env, timeout, r)
    ensures Agrees(s')
  {
    ServeKeepsSocket(s.workers[w].conn, env, s.now + timeout);
    ServeKeepsAgreement(s, w, r);
  }

  lemma WorkerKeepsAgreement(s: State, s': State, w: nat, act: WorkerAct)
    requires BooksKept(s) && s.phantom == [] && Agrees(s) && WorkerNext(s, s', w, act)
    ensures Agrees(s')
  {
    match act
    case Serves(env, timeout, r) => ServedKeepsAgreement(s, s', w, env, timeout, r);
    case _ => WorkerFrame(s, s', w, act);
  }

  lemma StepKeepsAgreement(s: State, s': State, step: Step)
    requires BooksKept(s) && s.phantom == [] && Agrees(s) && Next(s, s', step)
    ensures Agrees(s')
  {
    match step
    case ListenerStep(l, act) => ListenerFrame(s, s', l, act);
    case WorkerStep(w, act) => WorkerKeepsAgreement(s, s', w, act);
    case RoomStep(act) => RoomKeepsAgreement(s, s', act);
    case ServerStep(act) => ServerFrame(s, s', act);
  }

  lemma AgreesOn(states: seq<State>, steps: seq<Step>, k: nat)
    requires Run(states, steps) && k < |steps| && states[k].phantom == [] && Agrees(states[k])
    ensures Agrees(states[k + 1])
  {
    BooksKeptAlways(states, steps, k);
    assert StepAt(states, steps, k);
    StepKeepsAgreement(states[k], states[k + 1], steps[k]);
  }

  lemma {:induction false} AgreesAlways(states: seq<State>, steps: seq<Step>, k: nat)
    requires Run(states, steps) && k < |states| && states[k].phantom == []
    ensures Agrees(states[k])
  {
    if k > 0 {
      PhantomGrows(states, steps, k - 1);
      AgreesAlways(states, steps, k - 1);
      AgreesOn(states, steps, k - 1);
    }
  }

  lemma NoCopies(states: seq<State>, steps: seq<Step>, k: nat)
    requires Run(states, steps) && k < |states| && (InDrainLoop(states[k].room) ==> NoneStale(steps, k))
    ensures states[k].phantom == []
  {
    PhantomIffStale(states, steps, k);
    if states[k].phantom != [] {
      CopiesMeanDraining(states, steps, k);
    }
  }

  lemma AgreementInFds(pool: seq<Conn>, armed: set<Key>)
    requires Agree(pool, armed, []) && FdsDiffer(pool)
    ensures forall i, j :: 0 <= i < j < |pool| ==> pool[i].fd != pool[j].fd
    ensures (set c | c in pool :: KeyOf(c)) == armed
  {
    forall i, j | 0 <= i < j < |pool| ensures pool[i].fd != pool[j].fd {
      CountMember(pool, pool[i]);
      CountMember(pool, pool[j]);
      if KeyOf(pool[i]) == KeyOf(pool[j]) { TwiceCounts(pool, i, j); }
    }
    forall k ensures k in (set c | c in pool :: KeyOf(c)) <==> k in armed {
      assert !Reported([], k);
      if k in armed {
        var i := CountFinds(pool, k);
        assert pool[i] in pool;
      }
      if c :| c in pool && KeyOf(c) == k {
        CountMember(pool, c);
      }
    }
  }

  /** Whenever the wait room is at the top of its loop or about to wait for events, the pool's descriptors are
      pairwise distinct and are exactly the armed ones, each armed for the connection that is in the pool. In
      the drain loop between the two this holds as long as queue_trypop has not returned -1. */
  lemma PoolAndKernelAgree(states: seq<State>, steps: seq<Step>, k: nat)
    requires Run(states, steps) && k < |states|
    requires var r := states[k].room; r.Top? || r.Polling? || (InDrainLoop(r) && NoneStale(steps, k))
    ensures var s := states[k];
            && (forall i, j :: 0 <= i < j < |s.pool| ==> s.pool[i].fd != s.pool[j].fd)
            && (set c | c in s.pool :: KeyOf(c)) == s.armed
  {
    NoCopies(states, steps, k);
    AgreesAlways(states, steps, k);
    BooksKeptAlways(states, steps, k);
    PoolFdsDiffer(states[k]);
    AgreementInFds(states[k].pool, states[k].armed);
  }

  /** In every run, every descriptor the kernel reports finds the very connection that registered it. */
  lemma EveryEventFindsItsConnection(states: seq<State>, steps: seq<Step>, k: nat)
    requires Run(states, steps) && k < |states|
    requires states[k].room.Handling? && states[k].room.events != []
    ensures var key := states[k].room.events[0].key;
            var i := IndexOfFd(states[k].pool, key.fd);
            i >= 0 && KeyOf(states[k].pool[i]) == key
  {
    var s := states[k];
    NoCopies(states, steps, k);
    AgreesAlways(states, steps, k);
    BooksKeptAlways(states, steps, k);
    PoolFdsDiffer(s);
    EventFindsItsConnection(s.pool, s.armed, s.room.events);
  }
}
