/**
  Deadlock of the connection machine: exactly when no thread can go on, and that the server never leaves such
  a state.
 */
module Jam {
  import opened Exchange
  import opened ConnPool
  import opened QueueMonitor
  import opened Machine
  import opened Threads
  import opened Ledger

  // ---- What a thread can do next

  /** The thread that takes a step, if it is one of the server's own. */
  predicate TakenBy(step: Step, t: Tid) {
    match step
    case ListenerStep(l, act) => t == ListenerTid(l)
    case WorkerStep(w, act) => t == WorkerTid(w)
    case RoomStep(act) => t == RoomTid
    case ServerStep(act) => false
  }

  /** Thread `t` is alive, not asleep, and (a listener) not waiting for the network. */
  predicate CanRun(s: State, t: Tid) {
    match t
    case WorkerTid(w) =>
      w < |s.workers| && !s.workers[w].WorkerGone? && t !in s.work.getAsleep && t !in s.wait.putAsleep
    case ListenerTid(l) =>
      l < |s.listeners| && s.listeners[l].Pushing? && t !in s.work.putAsleep
    case RoomTid =>
      !s.room.RoomGone? && t !in s.work.putAsleep
  }

  /** After a signal that wakes every sleeper on not_empty, or on not_full. */
  function WakeGetters(m: Monitor<Conn>): Monitor<Conn> {
    m.(getAsleep := {}, getWoken := m.getWoken + m.getAsleep)
  }

  function WakePutters(m: Monitor<Conn>): Monitor<Conn> {
    m.(putAsleep := {}, putWoken := m.putWoken + m.putAsleep)
  }

  function PutAct(m: Monitor<Conn>, c: Conn): Action<Conn> {
    if |m.items| == m.cap then PutSleeps else Put(c)
  }

  function AfterPut(m: Monitor<Conn>, t: Tid, c: Conn): Monitor<Conn> {
    if |m.items| == m.cap then m.(putAsleep := m.putAsleep + {t}, putWoken := m.putWoken - {t})
    else WakeGetters(m).(items := m.items + [c], putWoken := m.putWoken - {t})
  }

  function AfterGet(m: Monitor<Conn>, t: Tid): Monitor<Conn>
    requires m.items != []
  {
    WakePutters(m).(items := m.items[1..], getWoken := m.getWoken - {t})
  }

  lemma PutIsStep(m: Monitor<Conn>, t: Tid, c: Conn)
    requires Awake(m, t)
    ensures MonitorStep(m, AfterPut(m, t, c), t, PutAct(m, c))
  {
    var m' := AfterPut(m, t, c);
    if |m.items| != m.cap {
      assert m.getAsleep - m'.getAsleep == m.getAsleep;
    }
  }

  lemma GetIsStep(m: Monitor<Conn>, t: Tid)
    requires Awake(m, t) && m.items != []
    ensures MonitorStep(m, AfterGet(m, t), t, Get(m.items[0]))
  {
    assert m.putAsleep - AfterGet(m, t).putAsleep == m.putAsleep;
  }

  /** Thread `t` has a step, a listener's accept apart. */
  ghost predicate HasStep(s: State, t: Tid) {
    exists s', step :: Next(s, s', step) && TakenBy(step, t) && (step.ListenerStep? ==> step.la.PushesWork?)
  }

  lemma WorkerHasStep(s: State, w: nat)
    requires Roles(s) && CanRun(s, WorkerTid(w))
    ensures HasStep(s, WorkerTid(w))
  {
    var t := WorkerTid(w);
    var s', act;
    match s.workers[w] {
      case Popping =>
        assert Awake(s.work, t) by {
          assert t in s.work.putAsleep ==> t in Putters(s.work);
        }
        if s.work.items != [] {
          GetIsStep(s.work, t);
          act := Pops(Get(s.work.items[0]));
          s' := s.(work := AfterGet(s.work, t), workers := s.workers[w := Serving(s.work.items[0])]);
        } else if s.work.shut {
          act := Pops(GetShut);
          s' := s.(work := s.work.(getWoken := s.work.getWoken - {t}), workers := s.workers[w := WorkerGone(true)]);
        } else {
          act := Pops(GetSleeps);
          s' := s.(work := s.work.(getAsleep := s.work.getAsleep + {t}, getWoken := s.work.getWoken - {t}));
        }
      case Serving(c) =>
        var env :| true;
        var r := Serve(c, env, s.now);
        act := Serves(env, 0, r);
        s' := AfterServe(s, w, r);
      case Parking(c) =>
        assert Awake(s.wait, t) by {
          assert t in s.wait.getAsleep ==> t in Getters(s.wait);
        }
        PutIsStep(s.wait, t, c);
        act := Parks(PutAct(s.wait, c));
        s' := s.(wait := AfterPut(s.wait, t, c),
                 workers := if PutAct(s.wait, c).Put? then s.workers[w := Popping] else s.workers);
    }
    assert Next(s, s', WorkerStep(w, act));
  }

  lemma ListenerHasStep(s: State, l: nat)
    requires Roles(s) && CanRun(s, ListenerTid(l))
    ensures HasStep(s, ListenerTid(l))
  {
    var t, c := ListenerTid(l), s.listeners[l].conn;
    assert Awake(s.work, t) by {
      assert t in s.work.getAsleep ==> t in Getters(s.work);
    }
    PutIsStep(s.work, t, c);
    var act := PushesWork(PutAct(s.work, c));
    var s' := s.(work := AfterPut(s.work, t, c),
                 listeners := if PutAct(s.work, c).Put? then s.listeners[l := Accepting] else s.listeners);
    assert Next(s, s', ListenerStep(l, act));
  }

  lemma RoomHasStep(s: State)
    requires Roles(s) && CanRun(s, RoomTid)
    ensures HasStep(s, RoomTid)
  {
    var s', act;
    assert Awake(s.work, RoomTid) && Awake(s.wait, RoomTid) by {
      assert RoomTid in s.work.getAsleep ==> RoomTid in Getters(s.work);
      assert RoomTid in s.wait.getAsleep ==> RoomTid in Getters(s.wait);
      assert RoomTid in s.wait.putAsleep ==> RoomTid in Putters(s.wait);
    }
    match s.room {
      case Top =>
        act := Loops;
        s' := if Stopping(s) then s.(room := RoomGone, pool := [], leaked := s.leaked + s.pool, armed := {})
              else s.(room := Draining);
      case Draining =>
        if s.wait.items != [] {
          GetIsStep(s.wait, RoomTid);
          var c := s.wait.items[0];
          act := Takes(Get(c));
          s' := s.(wait := AfterGet(s.wait, RoomTid), room := Pooling(c), last := c);
        } else if s.wait.shut {
          act := FindsShut;
          s' := s.(room := Pooling(s.last), phantom := s.phantom + [s.last]);
        } else {
          act := FindsEmpty;
          s' := s.(room := Polling(WaitMs(s.pool, s.now)));
        }
      case Pooling(c) =>
        act := Pools(true);
        s' := AfterPool(s, c, true);
      case Polling(_) =>
        act := Polls([]);
        s' := s.(room := Handling([]), armed := Unfired(s.armed, []));
      case Handling(events) =>
        if events != [] {
          act := Handles;
          s' := AfterEvent(s, events);
        } else {
          act := Sweeps;
          var r := Sweep(s.pool, s.now, 0);
          s' := CloseAll(s.(room := Top, pool := r.kept), r.gone);
        }
      case Returning(c, events) =>
        PutIsStep(s.work, RoomTid, c);
        act := Returns(PutAct(s.work, c));
        s' := s.(work := AfterPut(s.work, RoomTid, c),
                 room := if PutAct(s.work, c).Put? then Handling(events) else s.room);
    }
    assert Next(s, s', RoomStep(act));
  }

  /** `CanRun` is not a definition of convenience: it holds exactly when the thread has a step. */
  lemma CanRunIff(s: State, t: Tid)
    requires Roles(s)
    ensures CanRun(s, t) <==> HasStep(s, t)
  {
    if CanRun(s, t) {
      match t
      case WorkerTid(w) => WorkerHasStep(s, w);
      case ListenerTid(l) => ListenerHasStep(s, l);
      case RoomTid => RoomHasStep(s);
    }
    if HasStep(s, t) {
      var s', step :| Next(s, s', step) && TakenBy(step, t) && (step.ListenerStep? ==> step.la.PushesWork?);
      StepTouches(s, s', step);
      assert t in s.work.getAsleep ==> t in Getters(s.work);
      assert t in s.work.putAsleep ==> t in Putters(s.work);
      assert t in s.wait.putAsleep ==> t in Putters(s.wait);
    }
  }

  // ---- Exactly when nobody can go on

  ghost predicate Stuck(s: State) {
    forall t :: !CanRun(s, t)
  }

  /** Both queues full, every worker pushing to the wait queue, the wait room pushing to the work queue. */
  ghost predicate Jammed(s: State) {
    (|s.work.items|, |s.wait.items|, s.room.Returning?, forall w :: 0 <= w < |s.workers| ==> s.workers[w].Parking?)
    == (s.work.cap, s.wait.cap, true, true)
  }

  ghost predicate PushersAsleep(s: State) {
    && RoomTid in s.work.putAsleep
    && (forall w :: 0 <= w < |s.workers| ==> WorkerTid(w) in s.wait.putAsleep)
    && (forall l :: 0 <= l < |s.listeners| && s.listeners[l].Pushing? ==> ListenerTid(l) in s.work.putAsleep)
  }

  lemma WokenCanRun(s: State)
    requires Wakeups(s) && Roles(s) && Orderly(s) && s.phase.Running?
    ensures forall t :: t in s.work.getWoken || t in s.work.putWoken || t in s.wait.putWoken ==> CanRun(s, t)
  {
    forall t | t in s.work.getWoken || t in s.work.putWoken || t in s.wait.putWoken ensures CanRun(s, t) {
      assert t in s.work.getWoken || t in s.work.getAsleep ==> t in Getters(s.work);
      assert t in s.work.putWoken || t in s.work.putAsleep ==> t in Putters(s.work);
      assert t in s.wait.putWoken || t in s.wait.putAsleep ==> t in Putters(s.wait);
    }
  }

  lemma StuckIsJammed(s: State)
    requires Wakeups(s) && Roles(s) && Orderly(s) && s.phase.Running?
    requires |s.workers| >= 1 && s.work.cap >= 1 && Stuck(s)
    ensures Jammed(s) && PushersAsleep(s)
  {
    WokenCanRun(s);
    assert s.work.putWoken == {} && s.work.getWoken == {} && s.wait.putWoken == {};
    assert !CanRun(s, RoomTid);
    assert RoomTid in Putters(s.work);
    forall w | 0 <= w < |s.workers| ensures WorkerTid(w) in s.wait.putAsleep {
      assert !CanRun(s, WorkerTid(w));
    }
    forall w | 0 <= w < |s.workers| ensures s.workers[w].Parking? {
      assert WorkerTid(w) in Putters(s.wait);
    }
    assert WorkerTid(0) in s.wait.putAsleep;
    forall l | 0 <= l < |s.listeners| && s.listeners[l].Pushing? ensures ListenerTid(l) in s.work.putAsleep {
      assert !CanRun(s, ListenerTid(l));
    }
  }

  lemma JammedIsStuck(s: State)
    requires Roles(s) && Orderly(s) && s.phase.Running?
    requires Jammed(s) && PushersAsleep(s)
    ensures Stuck(s)
  {
    forall t ensures !CanRun(s, t) {
    }
  }

  lemma {:induction false} AllParking(ws: seq<Worker>)
    requires forall w :: 0 <= w < |ws| ==> ws[w].Parking?
    ensures InWorkers(ws, Any) == |ws|
  {
    if ws != [] {
      AllParking(ws[..|ws| - 1]);
    }
  }

  lemma JamHolds(s: State)
    requires Jammed(s) && s.wait.cap == s.work.cap
    ensures Held(s, Any) >= 2 * s.work.cap + |s.workers| + 1
  {
    AllParking(s.workers);
    CountAny(s.work.items);
    CountAny(s.wait.items);
  }

  /** Before shutdown, with at least one worker and one slot: no worker, no wait room and no pushing listener
      can take a step if and only if both queues are full and every worker, the wait room and every pushing
      listener sleep in queue_push. So while fewer than 2 * capacity + workers + 1 connections are live,
      some thread can go on. */
  lemma StuckIff(states: seq<State>, steps: seq<Step>, k: nat)
    requires Run(states, steps) && k < |states| && states[k].phase.Running?
    requires |states[k].workers| >= 1 && states[k].work.cap >= 1
    ensures Stuck(states[k]) <==> Jammed(states[k]) && PushersAsleep(states[k])
    ensures Held(states[k], Any) < 2 * states[k].work.cap + |states[k].workers| + 1 ==> exists t :: CanRun(states[k], t)
  {
    var s := states[k];
    SoundAlways(states, steps, k);
    if Stuck(s) {
      StuckIsJammed(s);
      JamHolds(s);
    }
    if Jammed(s) && PushersAsleep(s) {
      JammedIsStuck(s);
    }
  }

  // ---- A jam is for ever

  /** What a jam freezes. */
  datatype Frozen = Frozen(work: seq<Conn>, wait: seq<Conn>, caps: (nat, nat), workers: seq<Worker>, room: Room,
                           answers: seq<Answer>, closed: seq<Conn>)

  function FrozenIn(s: State): Frozen {
    Frozen(s.work.items, s.wait.items, (s.work.cap, s.wait.cap), s.workers, s.room, s.answers, s.closed)
  }

  ghost predicate StillJammed(s: State, s': State) {
    FrozenIn(s') == FrozenIn(s)
  }

  lemma WorkerStaysJammed(s: State, s': State, w: nat, act: WorkerAct)
    requires Jammed(s) && WorkerNext(s, s', w, act)
    ensures StillJammed(s, s')
  {
  }

  lemma ListenerStaysJammed(s: State, s': State, l: nat, act: ListenerAct)
    requires Jammed(s) && ListenerNext(s, s', l, act)
    ensures StillJammed(s, s')
  {
  }

  lemma RoomStaysJammed(s: State, s': State, act: RoomAct)
    requires Jammed(s) && RoomNext(s, s', act)
    ensures StillJammed(s, s')
  {
  }

  lemma ServerStaysJammed(s: State, s': State, act: ServerAct)
    requires Jammed(s) && ServerNext(s, s', act)
    ensures StillJammed(s, s')
  {
  }

  lemma JamStep(s: State, s': State, step: Step)
    requires Jammed(s) && Next(s, s', step)
    ensures StillJammed(s, s')
  {
    match step
    case ListenerStep(l, act) => ListenerStaysJammed(s, s', l, act);
    case WorkerStep(w, act) => WorkerStaysJammed(s, s', w, act);
    case RoomStep(act) => RoomStaysJammed(s, s', act);
    case ServerStep(act) => ServerStaysJammed(s, s', act);
  }

  lemma JamOn(states: seq<State>, steps: seq<Step>, k: nat)
    requires Run(states, steps) && k < |steps| && Jammed(states[k])
    ensures StillJammed(states[k], states[k + 1])
  {
    assert StepAt(states, steps, k);
    JamStep(states[k], states[k + 1], steps[k]);
  }

  lemma {:induction false} JamStays(states: seq<State>, steps: seq<Step>, j: nat, k: nat)
    requires Run(states, steps) && j <= k < |states| && Jammed(states[j])
    ensures StillJammed(states[j], states[k])
  {
    if j < k {
      JamStays(states, steps, j, k - 1);
      JamOn(states, steps, k - 1);
    }
  }

  lemma RoomIsNotJoined(s: State)
    requires Orderly(s) && Jammed(s)
    ensures !AtLeast(s.phase, WorkShut)
  {
  }

  /** From a jammed state on, whatever wakes up, arrives or shuts down: the queues, the workers and the wait
      room hold what they held, nothing is answered, nothing is closed, and the shutdown thread never gets
      past joining the wait room. */
  lemma JamNeverEnds(states: seq<State>, steps: seq<Step>, j: nat, k: nat)
    requires Run(states, steps) && j <= k < |states| && Jammed(states[j])
    ensures var s, s' := states[j], states[k];
            && (s'.workers, s'.room, s'.work.items, s'.wait.items) == (s.workers, s.room, s.work.items, s.wait.items)
            && (s'.answers, s'.closed) == (s.answers, s.closed)
    ensures Jammed(states[k]) && !AtLeast(states[k].phase, WorkShut)
  {
    JamStays(states, steps, j, k);
    SoundAlways(states, steps, k);
    RoomIsNotJoined(states[k]);
  }
}
