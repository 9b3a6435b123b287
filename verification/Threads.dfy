/**
  Sleeping threads and the order of shutdown: which thread sleeps on which condition variable, and what the
  joins and flags of server_shutdown guarantee.
 */
module Threads {
  import opened Exchange
  import opened QueueMonitor
  import opened Machine
  import opened Frames

  // ---- Who sleeps where

  function Getters<T>(m: Monitor<T>): set<Tid> { m.getAsleep + m.getWoken }
  function Putters<T>(m: Monitor<T>): set<Tid> { m.putAsleep + m.putWoken }

  predicate IsPopping(s: State, t: Tid) {
    t.WorkerTid? && t.index < |s.workers| && s.workers[t.index].Popping?
  }

  predicate IsPushingWork(s: State, t: Tid) {
    match t
    case ListenerTid(l) => l < |s.listeners| && s.listeners[l].Pushing?
    case RoomTid => s.room.Returning?
    case WorkerTid(_) => false
  }

  predicate IsPushingWait(s: State, t: Tid) {
    t.WorkerTid? && t.index < |s.workers| && s.workers[t.index].Parking?
  }

  /** What a machine step does to the two queues: at most one thread's stretch on one of them. */
  datatype Touch = Neither | OnWork(t: Tid, act: Action<Conn>) | OnWait(t: Tid, act: Action<Conn>)

  function TouchOf(step: Step): Touch {
    match step
    case ListenerStep(l, PushesWork(a)) => OnWork(ListenerTid(l), a)
    case WorkerStep(w, Pops(a)) => OnWork(WorkerTid(w), a)
    case WorkerStep(w, Parks(a)) => OnWait(WorkerTid(w), a)
    case RoomStep(Takes(a)) => OnWait(RoomTid, a)
    case RoomStep(Returns(a)) => OnWork(RoomTid, a)
    case ServerStep(WakesWork(t, a)) => OnWork(t, a)
    case ServerStep(WakesWait(t, a)) => OnWait(t, a)
    case ServerStep(ShutsWait) => OnWait(RoomTid, ShutSignal)
    case ServerStep(ShutsWork) => OnWork(RoomTid, ShutBroadcast)
    case _ => Neither
  }

  predicate Touched(s: State, s': State, x: Touch) {
    match x
    case Neither => s'.work == s.work && s'.wait == s.wait
    case OnWork(t, a) => MonitorStep(s.work, s'.work, t, a) && s'.wait == s.wait
    case OnWait(t, a) => MonitorStep(s.wait, s'.wait, t, a) && s'.work == s.work
  }

  /** Every step of the machine is a step of the two queue monitors, or leaves them alone. */
  lemma StepTouches(s: State, s': State, step: Step)
    requires Next(s, s', step)
    ensures Touched(s, s', TouchOf(step))
  {
  }

  ghost predicate Wakeups(s: State) {
    NoLostWakeup(s.work) && NoLostWakeup(s.wait) && s.wait.cap == s.work.cap
  }

  lemma TouchKeepsWakeups(s: State, s': State, x: Touch)
    requires Wakeups(s) && Touched(s, s', x)
    ensures Wakeups(s')
  {
    match x
    case Neither =>
    case OnWork(t, a) => StepKeepsWakeups(s.work, s'.work, t, a);
    case OnWait(t, a) => StepKeepsWakeups(s.wait, s'.wait, t, a);
  }

  ghost predicate Roles(s: State) {
    forall t ::
      && (t in Getters(s.work) ==> IsPopping(s, t))
      && (t in Putters(s.work) ==> IsPushingWork(s, t))
      && t !in Getters(s.wait)
      && (t in Putters(s.wait) ==> IsPushingWait(s, t))
  }

  lemma StepThreads<T>(m: Monitor<T>, m': Monitor<T>, t: Tid, a: Action<T>)
    requires MonitorStep(m, m', t, a)
    ensures Getters(m') <= Getters(m) + (if a.GetSleeps? then {t} else {})
    ensures Putters(m') <= Putters(m) + (if a.PutSleeps? then {t} else {})
    ensures a.Get? || a.GetShut? ==> t !in Getters(m')
    ensures a.Put? ==> t !in Putters(m')
  {
  }

  /** `gets` and `puts`: the thread, if any, that may have gone to sleep in the step. */
  ghost predicate Grows(m: Monitor<Conn>, m': Monitor<Conn>, gets: set<Tid>, puts: set<Tid>) {
    Getters(m') <= Getters(m) + gets && Putters(m') <= Putters(m) + puts
  }

  lemma RolesFrame(s: State, s': State, gets: set<Tid>, puts: set<Tid>, parks: set<Tid>)
    requires Roles(s) && Grows(s.work, s'.work, gets, puts) && Grows(s.wait, s'.wait, {}, parks)
    requires forall t :: (t in gets || IsPopping(s, t)) && t in Getters(s'.work) ==> IsPopping(s', t)
    requires forall t :: (t in puts || IsPushingWork(s, t)) && t in Putters(s'.work) ==> IsPushingWork(s', t)
    requires forall t :: (t in parks || IsPushingWait(s, t)) && t in Putters(s'.wait) ==> IsPushingWait(s', t)
    ensures Roles(s')
  {
  }

  lemma PopKeepsRoles(s: State, s': State, w: nat, a: Action<Conn>)
    requires Roles(s) && WorkerPopped(s, s', w, a)
    ensures Roles(s')
  {
    StepThreads(s.work, s'.work, WorkerTid(w), a);
    RolesFrame(s, s', if a.GetSleeps? then {WorkerTid(w)} else {}, {}, {});
  }

  lemma ParkKeepsRoles(s: State, s': State, w: nat, a: Action<Conn>)
    requires Roles(s) && WorkerPushed(s, s', w, a)
    ensures Roles(s')
  {
    StepThreads(s.wait, s'.wait, WorkerTid(w), a);
    RolesFrame(s, s', {}, {}, if a.PutSleeps? then {WorkerTid(w)} else {});
  }

  lemma ServeKeepsRoles(s: State, w: nat, r: Served)
    requires Roles(s) && w < |s.workers| && s.workers[w].Serving?
    ensures Roles(AfterServe(s, w, r))
  {
    RolesFrame(s, AfterServe(s, w, r), {}, {}, {});
  }

  lemma ListenerPushKeepsRoles(s: State, s': State, l: nat, a: Action<Conn>)
    requires Roles(s) && ListenerPushed(s, s', l, a)
    ensures Roles(s')
  {
    StepThreads(s.work, s'.work, ListenerTid(l), a);
    RolesFrame(s, s', {}, if a.PutSleeps? then {ListenerTid(l)} else {}, {});
  }

  lemma RoomPushKeepsRoles(s: State, s': State, a: Action<Conn>)
    requires Roles(s) && RoomPushed(s, s', a)
    ensures Roles(s')
  {
    StepThreads(s.work, s'.work, RoomTid, a);
    RolesFrame(s, s', {}, if a.PutSleeps? then {RoomTid} else {}, {});
  }

  lemma RoomTakeKeepsRoles(s: State, s': State, a: Action<Conn>)
    requires Roles(s) && RoomTook(s, s', a)
    ensures Roles(s')
  {
    StepThreads(s.wait, s'.wait, RoomTid, a);
    RolesFrame(s, s', {}, {}, {});
  }

  /** A step that changes no thread's role, or only lets threads in or out of `accept`. */
  lemma QuietKeepsRoles(s: State, s': State)
    requires Roles(s) && s'.workers == s.workers
    requires Grows(s.work, s'.work, {}, {}) && Grows(s.wait, s'.wait, {}, {})
    requires |s'.listeners| == |s.listeners|
    requires forall l :: 0 <= l < |s.listeners| && s.listeners[l].Pushing? ==> s'.listeners[l].Pushing?
    requires s.room.Returning? ==> s'.room.Returning?
    ensures Roles(s')
  {
    RolesFrame(s, s', {}, {}, {});
  }

  lemma ListenerKeepsRoles(s: State, s': State, l: nat, act: ListenerAct)
    requires Roles(s) && ListenerNext(s, s', l, act)
    ensures Roles(s')
  {
    match act
    case PushesWork(a) => ListenerPushKeepsRoles(s, s', l, a);
    case _ => QuietKeepsRoles(s, s');
  }

  lemma WorkerKeepsRoles(s: State, s': State, w: nat, act: WorkerAct)
    requires Roles(s) && WorkerNext(s, s', w, act)
    ensures Roles(s')
  {
    match act
    case Pops(a) => PopKeepsRoles(s, s', w, a);
    case Serves(_, _, r) => ServeKeepsRoles(s, w, r);
    case Parks(a) => ParkKeepsRoles(s, s', w, a);
  }

  lemma RoomKeepsRoles(s: State, s': State, act: RoomAct)
    requires Roles(s) && RoomNext(s, s', act)
    ensures Roles(s')
  {
    match act
    case Takes(a) => RoomTakeKeepsRoles(s, s', a);
    case Returns(a) => RoomPushKeepsRoles(s, s', a);
    case _ => QuietKeepsRoles(s, s');
  }

  lemma ServerKeepsRoles(s: State, s': State, act: ServerAct)
    requires Roles(s) && ServerNext(s, s', act)
    ensures Roles(s')
  {
    match act
    case WakesWork(t, a) =>
      StepThreads(s.work, s'.work, t, a);
      QuietKeepsRoles(s, s');
    case WakesWait(t, a) =>
      StepThreads(s.wait, s'.wait, t, a);
      QuietKeepsRoles(s, s');
    case ShutsWait =>
      StepThreads(s.wait, s'.wait, RoomTid, ShutSignal);
      QuietKeepsRoles(s, s');
    case ShutsWork =>
      StepThreads(s.work, s'.work, RoomTid, ShutBroadcast);
      QuietKeepsRoles(s, s');
    case _ => QuietKeepsRoles(s, s');
  }

  lemma StepKeepsRoles(s: State, s': State, step: Step)
    requires Roles(s) && Next(s, s', step)
    ensures Roles(s')
  {
    match step
    case ListenerStep(l, act) => ListenerKeepsRoles(s, s', l, act);
    case WorkerStep(w, act) => WorkerKeepsRoles(s, s', w, act);
    case RoomStep(act) => RoomKeepsRoles(s, s', act);
    case ServerStep(act) => ServerKeepsRoles(s, s', act);
  }

  // ---- The order of shutdown

  predicate AtLeast(p: Phase, q: Phase) {
    match q
    case Running => true
    case Flagged => !p.Running?
    case WaitShut => p.WaitShut? || p.WorkShut? || p.Freed?
    case WorkShut => p.WorkShut? || p.Freed?
    case Freed => p.Freed?
  }

  /** The flags follow the phase. */
  ghost predicate FlagsInOrder(s: State) {
    (s.wait.shut, s.work.shut) == (AtLeast(s.phase, WaitShut), AtLeast(s.phase, WorkShut))
  }

  /** The threads leave in the order of the joins. */
  ghost predicate LeftInOrder(s: State) {
    && (forall l :: 0 <= l < |s.listeners| && AtLeast(s.phase, WaitShut) ==> s.listeners[l].ListenerGone?)
    && (AtLeast(s.phase, WorkShut) ==> s.room.RoomGone?)
    && (forall w :: 0 <= w < |s.workers| && s.phase.Freed? ==> s.workers[w].WorkerGone?)
    && (s.phase.Running? ==> !s.room.RoomGone? && forall w :: 0 <= w < |s.workers| ==> !s.workers[w].WorkerGone?)
  }

  ghost predicate DrainedInOrder(s: State) {
    && (s.work.shut ==> s.work.getAsleep == {})
    && (forall w :: 0 <= w < |s.workers| && s.workers[w] == WorkerGone(true) ==> s.work.shut && s.work.items == [])
  }

  /** What is found in order. */
  datatype Finding = Finding(flags: bool, left: bool, drained: bool)

  ghost predicate Orderly(s: State) {
    Finding(FlagsInOrder(s), LeftInOrder(s), DrainedInOrder(s)) == Finding(true, true, true)
  }

  lemma ServeKeepsOrder(s: State, w: nat, r: Served)
    requires Orderly(s) && w < |s.workers| && s.workers[w].Serving?
    ensures Orderly(AfterServe(s, w, r))
  {
  }

  lemma PopKeepsOrder(s: State, s': State, w: nat, a: Action<Conn>)
    requires Orderly(s) && WorkerPopped(s, s', w, a)
    ensures Orderly(s')
  {
  }

  lemma ParkKeepsOrder(s: State, s': State, w: nat, a: Action<Conn>)
    requires Orderly(s) && WorkerPushed(s, s', w, a)
    ensures Orderly(s')
  {
  }

  lemma WorkerKeepsOrder(s: State, s': State, w: nat, act: WorkerAct)
    requires Orderly(s) && WorkerNext(s, s', w, act)
    ensures Orderly(s')
  {
    match act
    case Pops(a) => PopKeepsOrder(s, s', w, a);
    case Serves(_, _, r) => ServeKeepsOrder(s, w, r);
    case Parks(a) => ParkKeepsOrder(s, s', w, a);
  }

  lemma ListenerKeepsOrder(s: State, s': State, l: nat, act: ListenerAct)
    requires Orderly(s) && ListenerNext(s, s', l, act)
    ensures Orderly(s')
  {
  }

  lemma RoomOnlyKeepsOrder(s: State, s': State)
    requires Orderly(s) && !s.room.RoomGone? && s'.phase == s.phase
    requires s'.work.shut == s.work.shut && s'.wait.shut == s.wait.shut
    requires s'.workers == s.workers && s'.listeners == s.listeners
    requires s'.room.RoomGone? ==> Stopping(s)
    ensures Orderly(s')
  {
  }

  lemma RoomKeepsOrder(s: State, s': State, act: RoomAct)
    requires Orderly(s) && RoomNext(s, s', act)
    ensures Orderly(s')
  {
    RoomOnlyKeepsOrder(s, s');
  }

  lemma ServerKeepsOrder(s: State, s': State, act: ServerAct)
    requires Orderly(s) && ServerNext(s, s', act)
    ensures Orderly(s')
  {
  }

  lemma StepKeepsOrder(s: State, s': State, step: Step)
    requires Orderly(s) && Next(s, s', step)
    ensures Orderly(s')
  {
    match step
    case ListenerStep(l, act) => ListenerKeepsOrder(s, s', l, act);
    case WorkerStep(w, act) => WorkerKeepsOrder(s, s', w, act);
    case RoomStep(act) => RoomKeepsOrder(s, s', act);
    case ServerStep(act) => ServerKeepsOrder(s, s', act);
  }

  ghost predicate Sound(s: State) {
    (Wakeups(s), Roles(s), Orderly(s)) == (true, true, true)
  }

  lemma StepKeepsSound(s: State, s': State, step: Step)
    requires Sound(s) && Next(s, s', step)
    ensures Sound(s')
  {
    StepTouches(s, s', step);
    TouchKeepsWakeups(s, s', TouchOf(step));
    StepKeepsRoles(s, s', step);
    StepKeepsOrder(s, s', step);
  }

  lemma SoundOn(states: seq<State>, steps: seq<Step>, k: nat)
    requires Run(states, steps) && k < |steps| && Sound(states[k])
    ensures Sound(states[k + 1])
  {
    assert StepAt(states, steps, k);
    StepKeepsSound(states[k], states[k + 1], steps[k]);
  }

  lemma InitialSound(s: State)
    requires Init(s)
    ensures Sound(s)
  {
  }

  lemma {:induction false} SoundAlways(states: seq<State>, steps: seq<Step>, k: nat)
    requires Run(states, steps) && k < |states|
    ensures Sound(states[k])
  {
    if k == 0 {
      InitialSound(states[0]);
    } else {
      SoundAlways(states, steps, k - 1);
      SoundOn(states, steps, k - 1);
    }
  }

  // ---- Main results on shutdown

  lemma WorkerStepKeepsGone(s: State, s': State, v: nat, act: WorkerAct, w: nat)
    requires WorkerNext(s, s', v, act) && w < |s.workers| && s.workers[w].WorkerGone?
    ensures w < |s'.workers| && s'.workers[w] == s.workers[w]
  {
  }

  lemma WorkerStaysGone(s: State, s': State, step: Step, w: nat)
    requires Next(s, s', step) && w < |s.workers| && s.workers[w].WorkerGone?
    ensures w < |s'.workers| && s'.workers[w] == s.workers[w]
  {
    match step
    case WorkerStep(v, act) => WorkerStepKeepsGone(s, s', v, act, w);
    case ListenerStep(l, act) => ListenerFrame(s, s', l, act);
    case RoomStep(act) => RoomFrame(s, s', act);
    case ServerStep(act) => ServerFrame(s, s', act);
  }

  lemma GoneOn(states: seq<State>, steps: seq<Step>, k: nat, w: nat)
    requires Run(states, steps) && k < |steps| && w < |states[k].workers| && states[k].workers[w].WorkerGone?
    ensures w < |states[k + 1].workers| && states[k + 1].workers[w] == states[k].workers[w]
  {
    assert StepAt(states, steps, k);
    WorkerStaysGone(states[k], states[k + 1], steps[k], w);
  }

  lemma {:induction false} GoneForEver(states: seq<State>, steps: seq<Step>, j: nat, k: nat, w: nat)
    requires Run(states, steps) && j <= k < |states|
    requires w < |states[j].workers| && states[j].workers[w] == WorkerGone(true)
    ensures w < |states[k].workers| && states[k].workers[w] == WorkerGone(true)
  {
    if j < k {
      GoneForEver(states, steps, j, k - 1, w);
      GoneOn(states, steps, k - 1, w);
    }
  }

  lemma MinusOneMeansDone(s: State, w: nat)
    requires Orderly(s) && w < |s.workers| && s.workers[w] == WorkerGone(true)
    ensures s.work.items == [] && s.work.shut
    ensures s.room.RoomGone? && forall l :: 0 <= l < |s.listeners| ==> s.listeners[l].ListenerGone?
  {
  }

  /** Once queue_pop has returned -1 to any worker, the work queue is empty for the rest of the run: both
      kinds of producer had been joined before its flag was set. */
  lemma EmptyAfterMinusOne(states: seq<State>, steps: seq<Step>, j: nat, k: nat, w: nat)
    requires Run(states, steps) && j <= k < |states|
    requires w < |states[j].workers| && states[j].workers[w] == WorkerGone(true)
    ensures states[k].work.items == [] && states[k].work.shut
    ensures states[k].room.RoomGone?
    ensures forall l :: 0 <= l < |states[k].listeners| ==> states[k].listeners[l].ListenerGone?
  {
    GoneForEver(states, steps, j, k, w);
    SoundAlways(states, steps, k);
    MinusOneMeansDone(states[k], w);
  }

  /** From the broadcast on no worker is ever asleep on not_empty, and when the queues are freed every thread
      that used them is gone. */
  lemma NobodyLeftBehind(states: seq<State>, steps: seq<Step>, k: nat)
    requires Run(states, steps) && k < |states|
    ensures states[k].work.shut ==> states[k].work.getAsleep == {}
    ensures states[k].phase.Freed? ==>
              && states[k].room.RoomGone?
              && (forall w :: 0 <= w < |states[k].workers| ==> states[k].workers[w].WorkerGone?)
              && (forall l :: 0 <= l < |states[k].listeners| ==> states[k].listeners[l].ListenerGone?)
  {
    SoundAlways(states, steps, k);
  }
}
