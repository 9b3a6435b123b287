/**
  What holds of every connection that is kept alive, over whole runs: its protocol, its past responses, how
  often its protocol was sniffed, and its deadline.
 */
module KeepAlive {
  import opened Exchange
  import opened ConnPool
  import opened QueueMonitor
  import opened Machine
  import opened Frames
  import opened Ledger
  import opened Drain
  import opened Kernel
  import Threads

  predicate IsOk(a: Answer) {
    a.status == 200 && !a.closes
  }

  /** Connection `id` was answered, and only with 200s over which nobody said `Connection: close`. */
  ghost predicate AllOk(answers: seq<Answer>, id: nat) {
    && (exists i :: 0 <= i < |answers| && answers[i].id == id)
    && (forall i :: 0 <= i < |answers| && answers[i].id == id ==> IsOk(answers[i]))
  }

  /** Accepted, never served. */
  ghost predicate Fresh(s: State, c: Conn) {
    && c.protocol == ProtoUnknown && s.demuxes[c.id] == 0
    && (forall i :: 0 <= i < |s.answers| ==> s.answers[i].id != c.id)
  }

  /** Served over HTTP/1.1 with nothing but such 200s, and its deadline is at most a 16-bit timeout ahead. */
  ghost predicate Settled(s: State, c: Conn) {
    c.protocol == Http11 && AllOk(s.answers, c.id) && c.deadline <= s.now + 0xFFFF
  }

  ghost predicate Servable(s: State, c: Conn) {
    Fresh(s, c) || Settled(s, c)
  }

  ghost predicate LogsSound(s: State) {
    && (forall id :: s.demuxes[id] <= 1)
    && (forall id :: s.demuxes[id] > 0 ==> id < s.nextId)
    && (forall i :: 0 <= i < |s.answers| ==> s.answers[i].id < s.nextId)
    && (forall i, j :: 0 <= i < j < |s.answers| && s.answers[i].id == s.answers[j].id ==> IsOk(s.answers[i]))
  }

  ghost predicate QueuesSound(s: State) {
    && (forall c :: c in s.work.items ==> Servable(s, c))
    && (forall c :: c in s.wait.items ==> Settled(s, c))
    && (forall c :: c in s.pool ==> Settled(s, c))
  }

  ghost predicate HandsSound(s: State) {
    && (forall w :: 0 <= w < |s.workers| && s.workers[w].Serving? ==>
          Servable(s, s.workers[w].conn) && s.workers[w].conn.id < s.nextId)
    && (forall w :: 0 <= w < |s.workers| && s.workers[w].Parking? ==> Settled(s, s.workers[w].conn))
    && (forall l :: 0 <= l < |s.listeners| && s.listeners[l].Pushing? ==> Fresh(s, s.listeners[l].conn))
    && (s.room.Pooling? || s.room.Returning? ==> Settled(s, s.room.conn))
  }

  /** What is found in order. */
  datatype Finding = Finding(logs: bool, queues: bool, hands: bool)

  ghost predicate Sound(s: State) {
    Finding(LogsSound(s), QueuesSound(s), HandsSound(s)) == Finding(true, true, true)
  }

  // ---- One exchange

  /** What the request chain contributes. */
  ghost predicate Decent(c: Conn, r: Served, deadline: int) {
    && KeyOf(r.conn) == KeyOf(c) && (r.demuxed <==> c.protocol == ProtoUnknown)
    && (r.keep ==> r.status == 200 && !SaidClose(r) && r.conn.protocol == Http11 && r.conn.deadline == deadline)
  }

  lemma ServeIsDecent(c: Conn, env: Env, deadline: int)
    ensures Decent(c, Serve(c, env, deadline), deadline)
  {
    KeptIff(c, env, deadline);
  }

  lemma OthersStay(s: State, w: nat, r: Served, d: Conn)
    requires w < |s.workers| && s.workers[w].Serving? && r.conn.id != d.id
    ensures Fresh(s, d) ==> Fresh(AfterServe(s, w, r), d)
    ensures Settled(s, d) ==> Settled(AfterServe(s, w, r), d)
  {
    var answers := AfterServe(s, w, r).answers;
    assert s.answers <= answers;
    if Settled(s, d) {
      var i :| 0 <= i < |s.answers| && s.answers[i].id == d.id;
      assert answers[i].id == d.id;
    }
  }

  lemma ServeKeepsLogs(s: State, w: nat, r: Served, deadline: int)
    requires LogsSound(s) && w < |s.workers| && s.workers[w].Serving?
    requires Servable(s, s.workers[w].conn) && s.workers[w].conn.id < s.nextId
    requires Decent(s.workers[w].conn, r, deadline)
    ensures LogsSound(AfterServe(s, w, r))
  {
    var c := s.workers[w].conn;
    var s' := AfterServe(s, w, r);
    assert Servable(s, c);
    forall id ensures s'.demuxes[id] <= 1 && (s'.demuxes[id] > 0 ==> id < s'.nextId) {
    }
  }

  lemma ServeSettles(s: State, w: nat, r: Served, deadline: int)
    requires HandsSound(s) && w < |s.workers| && s.workers[w].Serving? && deadline <= s.now + 0xFFFF
    requires Decent(s.workers[w].conn, r, deadline) && r.keep
    ensures Settled(AfterServe(s, w, r), r.conn)
  {
    var answers := AfterServe(s, w, r).answers;
    assert answers[|s.answers|].id == r.conn.id;
    assert Servable(s, s.workers[w].conn);
  }

  lemma ServeKeepsQueues(s: State, w: nat, r: Served)
    requires QueuesSound(s) && w < |s.workers| && s.workers[w].Serving?
    requires forall d :: d in s.work.items || d in s.wait.items || d in s.pool ==> d.id != r.conn.id
    ensures QueuesSound(AfterServe(s, w, r))
  {
    forall d: Conn | d in s.work.items || d in s.wait.items || d in s.pool
      ensures (Fresh(s, d) ==> Fresh(AfterServe(s, w, r), d)) && (Settled(s, d) ==> Settled(AfterServe(s, w, r), d))
    {
      OthersStay(s, w, r, d);
    }
  }

  lemma ServeKeepsHands(s: State, w: nat, r: Served)
    requires HandsSound(s) && w < |s.workers| && s.workers[w].Serving?
    requires forall v :: 0 <= v < |s.workers| && v != w && Holds(s.workers[v]) ==> s.workers[v].conn.id != r.conn.id
    requires forall l :: 0 <= l < |s.listeners| && s.listeners[l].Pushing? ==> s.listeners[l].conn.id != r.conn.id
    requires s.room.Pooling? || s.room.Returning? ==> s.room.conn.id != r.conn.id
    requires r.keep ==> Settled(AfterServe(s, w, r), r.conn)
    ensures HandsSound(AfterServe(s, w, r))
  {
    var s' := AfterServe(s, w, r);
    forall d: Conn | d.id != r.conn.id
      ensures (Fresh(s, d) ==> Fresh(s', d)) && (Settled(s, d) ==> Settled(s', d))
    {
      OthersStay(s, w, r, d);
    }
    forall v | 0 <= v < |s'.workers| && v != w ensures s'.workers[v] == s.workers[v] {
    }
  }

  lemma ServeKeepsSound(s: State, w: nat, r: Served, deadline: int)
    requires BooksKept(s) && s.phantom == [] && Sound(s)
    requires w < |s.workers| && s.workers[w].Serving? && deadline <= s.now + 0xFFFF
    requires Decent(s.workers[w].conn, r, deadline)
    ensures Sound(AfterServe(s, w, r))
  {
    ServeKeepsLogs(s, w, r, deadline);
    ServedIsApart(s, w);
    ServeKeepsQueues(s, w, r);
    if r.keep { ServeSettles(s, w, r, deadline); }
    ServeKeepsHands(s, w, r);
  }

  // ---- The other steps

  lemma TimeKeepsSound(s: State, s': State)
    requires Sound(s) && s'.now >= s.now && s' == s.(now := s'.now)
    ensures Sound(s')
  {
  }

  /** A step that moves connections between places, keeps the logs and loses no soundness on the way. */
  lemma MoveKeepsSound(s: State, s': State)
    requires Sound(s) && s'.now == s.now && s'.demuxes == s.demuxes && s'.answers == s.answers && s'.nextId >= s.nextId
    requires forall c :: c in s'.work.items && c !in s.work.items ==> Servable(s, c)
    requires forall c :: c in s'.wait.items && c !in s.wait.items ==> Settled(s, c)
    requires forall c :: c in s'.pool && c !in s.pool ==> Settled(s, c)
    requires |s'.workers| == |s.workers| && |s'.listeners| == |s.listeners|
    requires forall w :: 0 <= w < |s.workers| && s'.workers[w] != s.workers[w] ==>
               && (s'.workers[w].Serving? ==> Servable(s, s'.workers[w].conn) && s'.workers[w].conn.id < s'.nextId)
               && !s'.workers[w].Parking?
    requires forall l :: 0 <= l < |s.listeners| && s'.listeners[l].Pushing? && s'.listeners[l] != s.listeners[l] ==>
               Fresh(s, s'.listeners[l].conn)
    requires s'.room.Pooling? || s'.room.Returning? ==>
               Settled(s, s'.room.conn) || ((s.room.Pooling? || s.room.Returning?) && s'.room.conn == s.room.conn)
    ensures Sound(s')
  {
    forall c | Servable(s, c) ensures Servable(s', c) {
    }
    forall c | Settled(s, c) ensures Settled(s', c) {
    }
    forall c | Fresh(s, c) ensures Fresh(s', c) {
    }
    forall w | 0 <= w < |s'.workers| && s'.workers[w].Serving?
      ensures Servable(s', s'.workers[w].conn) && s'.workers[w].conn.id < s'.nextId
    {
      if s'.workers[w] == s.workers[w] {
        assert Servable(s, s.workers[w].conn);
      }
    }
  }

  lemma HeldIdIsOld(s: State, c: Conn)
    requires BooksKept(s) && s.phantom == [] && c in s.work.items
    ensures c.id < s.nextId
  {
    CountMember(s.work.items, c);
    assert Held(s, Only(KeyOf(c))) > 0;
    assert Held(s, Only(KeyOf(c))) + Count(s.closed, Only(KeyOf(c))) == if KeyOf(c) in s.admitted then 1 else 0;
  }

  lemma PopKeepsSound(s: State, s': State, w: nat, a: Action<Conn>)
    requires BooksKept(s) && s.phantom == [] && Sound(s) && WorkerPopped(s, s', w, a)
    ensures Sound(s')
  {
    if a.Get? { HeldIdIsOld(s, a.got); }
    MoveKeepsSound(s, s');
  }

  lemma ParkKeepsSound(s: State, s': State, w: nat, a: Action<Conn>)
    requires Sound(s) && WorkerPushed(s, s', w, a)
    ensures Sound(s')
  {
    PutAppends(s.wait, s'.wait, WorkerTid(w), a);
    MoveKeepsSound(s, s');
  }

  lemma WorkerKeepsSound(s: State, s': State, w: nat, act: WorkerAct)
    requires BooksKept(s) && s.phantom == [] && Sound(s) && WorkerNext(s, s', w, act) && !act.Serves?
    ensures Sound(s')
  {
    match act
    case Pops(a) => PopKeepsSound(s, s', w, a);
    case Parks(a) => ParkKeepsSound(s, s', w, a);
  }

  lemma ServedIsDecent(s: State, s': State, w: nat, env: Env, timeout: nat, r: Served)
    requires WorkerServed(s, s', w, env, timeout, r)
    ensures w < |s.workers| && s.workers[w].Serving? && timeout <= 0xFFFF && s' == AfterServe(s, w, r)
    ensures Decent(s.workers[w].conn, r, s.now + timeout)
  {
    ServeIsDecent(s.workers[w].conn, env, s.now + timeout);
  }

  lemma ServedKeepsSound(s: State, s': State, w: nat, env: Env, timeout: nat, r: Served)
    requires BooksKept(s) && s.phantom == [] && Sound(s) && WorkerServed(s, s', w, env, timeout, r)
    ensures Sound(s')
  {
    ServedIsDecent(s, s', w, env, timeout, r);
    ServeKeepsSound(s, w, r, s.now + timeout);
  }

  lemma ListenerKeepsSound(s: State, s': State, l: nat, act: ListenerAct)
    requires Sound(s) && ListenerNext(s, s', l, act)
    ensures Sound(s')
  {
    MoveKeepsSound(s, s');
  }

  lemma {:induction false} SwapRemoveKeeps(s: seq<Conn>, i: nat)
    requires i < |s|
    ensures forall c :: c in SwapRemove(s, i) ==> c in s
  {
  }

  lemma {:induction false} SweepKeeps(s: seq<Conn>, now: int)
    ensures forall c :: c in Sweep(s, now, 0).kept ==> c in s
  {
    SweepKeepsAll(s, now, 0);
    var r := Sweep(s, now, 0);
    forall c | c in r.kept ensures c in s {
      assert c in multiset(r.kept) && c in multiset(s);
    }
  }

  lemma PoolsKeepsSound(s: State, s': State, registered: bool)
    requires BooksKept(s) && s.phantom == [] && Sound(s) && RoomPooled(s, s', registered)
    ensures Sound(s')
  {
    TakesBackLast(s);
    assert SwapRemove(s.pool + [s.room.conn], |s.pool|) == s.pool;
    MoveKeepsSound(s, s');
  }

  lemma HandlesKeepsSound(s: State, s': State)
    requires Sound(s) && RoomHandled(s, s')
    ensures Sound(s')
  {
    var i := IndexOfFd(s.pool, s.room.events[0].key.fd);
    if i >= 0 {
      SwapRemoveKeeps(s.pool, i);
      assert s.pool[i] in s.pool;
    }
    MoveKeepsSound(s, s');
  }

  lemma SweepsKeepsSound(s: State, s': State)
    requires Sound(s) && RoomSwept(s, s')
    ensures Sound(s')
  {
    SweepKeeps(s.pool, s.now);
    MoveKeepsSound(s, s');
  }

  /** Taking from the wait queue, or pushing to the work queue. */
  lemma RoomQueueKeepsSound(s: State, s': State, a: Action<Conn>)
    requires Sound(s) && (RoomTook(s, s', a) || RoomPushed(s, s', a))
    ensures Sound(s')
  {
    MoveKeepsSound(s, s');
  }

  lemma RoomKeepsSound(s: State, s': State, act: RoomAct)
    requires BooksKept(s) && s.phantom == [] && Sound(s) && RoomNext(s, s', act) && act != FindsShut
    ensures Sound(s')
  {
    match act
    case Pools(registered) => PoolsKeepsSound(s, s', registered);
    case Handles => HandlesKeepsSound(s, s');
    case Sweeps => SweepsKeepsSound(s, s');
    case Takes(a) => RoomQueueKeepsSound(s, s', a);
    case Returns(a) => RoomQueueKeepsSound(s, s', a);
    case _ => MoveKeepsSound(s, s');
  }

  lemma ServerKeepsSound(s: State, s': State, act: ServerAct)
    requires Sound(s) && ServerNext(s, s', act)
    ensures Sound(s')
  {
    match act
    case Ticks => TimeKeepsSound(s, s');
    case _ => MoveKeepsSound(s, s');
  }

  lemma StepKeepsSound(s: State, s': State, step: Step)
    requires BooksKept(s) && s.phantom == [] && Sound(s) && Next(s, s', step) && step != STALE
    ensures Sound(s')
  {
    match step
    case ListenerStep(l, act) => ListenerKeepsSound(s, s', l, act);
    case WorkerStep(w, Serves(env, timeout, r)) => ServedKeepsSound(s, s', w, env, timeout, r);
    case WorkerStep(w, act) => WorkerKeepsSound(s, s', w, act);
    case RoomStep(act) => RoomKeepsSound(s, s', act);
    case ServerStep(act) => ServerKeepsSound(s, s', act);
  }

  lemma SoundOn(states: seq<State>, steps: seq<Step>, k: nat)
    requires Run(states, steps) && k < |steps| && states[k + 1].phantom == [] && Sound(states[k])
    ensures Sound(states[k + 1])
  {
    PhantomGrows(states, steps, k);
    BooksKeptAlways(states, steps, k);
    assert StepAt(states, steps, k);
    StepKeepsSound(states[k], states[k + 1], steps[k]);
  }

  lemma {:induction false} SoundWhileConserved(states: seq<State>, steps: seq<Step>, k: nat)
    requires Run(states, steps) && k < |states| && states[k].phantom == []
    ensures Sound(states[k])
  {
    if k > 0 {
      PhantomGrows(states, steps, k - 1);
      SoundWhileConserved(states, steps, k - 1);
      SoundOn(states, steps, k - 1);
    }
  }

  // ---- After a stale pop

  /** No connection is queued or served twice. */
  ghost predicate Differ(s: State) {
    && (forall i, j :: 0 <= i < j < |s.work.items| ==> s.work.items[i].id != s.work.items[j].id)
    && (forall w, i :: 0 <= w < |s.workers| && s.workers[w].Serving? && 0 <= i < |s.work.items| ==>
          s.workers[w].conn.id != s.work.items[i].id)
    && (forall v, w :: 0 <= v < w < |s.workers| && s.workers[v].Serving? && s.workers[w].Serving? ==>
          s.workers[v].conn.id != s.workers[w].conn.id)
  }

  ghost predicate ToServe(s: State, c: Conn) {
    Servable(s, c) && c.id < s.nextId
  }

  ghost predicate AllToServe(s: State) {
    && (forall i :: 0 <= i < |s.work.items| ==> ToServe(s, s.work.items[i]))
    && (forall w :: 0 <= w < |s.workers| && s.workers[w].Serving? ==> ToServe(s, s.workers[w].conn))
  }

  /** What the workers still need: nothing is pushed to their queue any more, so stale copies do not get there. */
  ghost predicate StillSound(s: State) {
    Finding(LogsSound(s), Differ(s), AllToServe(s)) == Finding(true, true, true)
  }

  lemma WorkDiffers(s: State, i: nat, j: nat)
    requires BooksKept(s) && s.phantom == [] && i < j < |s.work.items|
    ensures s.work.items[i].id != s.work.items[j].id
  {
    var a, b := s.work.items[i], s.work.items[j];
    CountMember(s.work.items, a);
    CountMember(s.work.items, b);
    HoldingsDiffer(s, KeyOf(a), KeyOf(b));
    if KeyOf(a) == KeyOf(b) { TwiceCounts(s.work.items, i, j); }
  }

  lemma SoundMeansDiffer(s: State)
    requires BooksKept(s) && s.phantom == []
    ensures Differ(s)
  {
    forall i, j | 0 <= i < j < |s.work.items| ensures s.work.items[i].id != s.work.items[j].id {
      WorkDiffers(s, i, j);
    }
    forall w, i | 0 <= w < |s.workers| && s.workers[w].Serving? && 0 <= i < |s.work.items|
      ensures s.workers[w].conn.id != s.work.items[i].id
    {
      ServedIsApart(s, w);
      assert s.work.items[i] in s.work.items;
    }
    forall v, w | 0 <= v < w < |s.workers| && s.workers[v].Serving? && s.workers[w].Serving?
      ensures s.workers[v].conn.id != s.workers[w].conn.id
    {
      ServedIsApart(s, w);
    }
  }

  lemma SoundIsStillSound(s: State)
    requires BooksKept(s) && s.phantom == [] && Sound(s)
    ensures StillSound(s)
  {
    SoundMeansDiffer(s);
    forall i | 0 <= i < |s.work.items| ensures ToServe(s, s.work.items[i]) {
      HeldIdIsOld(s, s.work.items[i]);
    }
  }

  /** The step serves nothing and leaves the work queue's contents alone. */
  predicate Quiet(s: State, s': State) {
    && s'.work.items == s.work.items && |s'.workers| == |s.workers|
    && s'.demuxes == s.demuxes && s'.answers == s.answers && s'.nextId >= s.nextId && s'.now >= s.now
    && forall w :: 0 <= w < |s.workers| && s'.workers[w].Serving? ==> s'.workers[w] == s.workers[w]
  }

  lemma QuietKeepsStill(s: State, s': State)
    requires StillSound(s) && Quiet(s, s')
    ensures StillSound(s')
  {
    forall c | ToServe(s, c) ensures ToServe(s', c) {
    }
  }

  lemma DrainingIsQuiet(s: State, s': State, step: Step)
    requires Threads.Orderly(s) && s.wait.shut && InDrainLoop(s.room) && Next(s, s', step)
    requires !(step.WorkerStep? && (step.wa.Serves? || step.wa.Pops?))
    ensures Quiet(s, s')
  {
    match step
    case ListenerStep(l, act) => ListenerFrame(s, s', l, act);
    case WorkerStep(w, act) => WorkerFrame(s, s', w, act);
    case RoomStep(act) => RoomFrame(s, s', act);
    case ServerStep(act) => ServerFrame(s, s', act);
  }

  lemma PopKeepsStill(s: State, s': State, w: nat, a: Action<Conn>)
    requires StillSound(s) && WorkerPopped(s, s', w, a)
    ensures StillSound(s')
  {
    if a.Get? {
      forall c | ToServe(s, c) ensures ToServe(s', c) {
      }
      forall i | 0 <= i < |s'.work.items| ensures s'.work.items[i] == s.work.items[i + 1] {
      }
    } else {
      QuietKeepsStill(s, s');
    }
  }

  lemma ServeKeepsStill(s: State, w: nat, r: Served, deadline: int)
    requires StillSound(s) && w < |s.workers| && s.workers[w].Serving? && Decent(s.workers[w].conn, r, deadline)
    ensures StillSound(AfterServe(s, w, r))
  {
    var s' := AfterServe(s, w, r);
    ServeKeepsLogs(s, w, r, deadline);
    forall d: Conn | d.id != r.conn.id && ToServe(s, d) ensures ToServe(s', d) {
      OthersStay(s, w, r, d);
    }
    forall v | 0 <= v < |s'.workers| && s'.workers[v].Serving? ensures v != w && s'.workers[v] == s.workers[v] {
    }
  }

  lemma DrainStepKeepsStill(s: State, s': State, step: Step)
    requires StillSound(s) && Threads.Orderly(s) && s.wait.shut && InDrainLoop(s.room) && Next(s, s', step)
    ensures StillSound(s')
  {
    match step
    case WorkerStep(w, Serves(env, timeout, r)) =>
      ServedIsDecent(s, s', w, env, timeout, r);
      ServeKeepsStill(s, w, r, s.now + timeout);
    case WorkerStep(w, Pops(a)) => PopKeepsStill(s, s', w, a);
    case _ =>
      DrainingIsQuiet(s, s', step);
      QuietKeepsStill(s, s');
  }

  lemma StillSoundOn(states: seq<State>, steps: seq<Step>, k: nat)
    requires Run(states, steps) && k < |steps| && states[k + 1].phantom != []
    requires states[k].phantom != [] ==> StillSound(states[k])
    ensures StillSound(states[k + 1])
  {
    Threads.SoundAlways(states, steps, k);
    PhantomGrows(states, steps, k);
    if states[k].phantom != [] {
      CopiesMeanDraining(states, steps, k);
    } else {
      FlagStays(states, steps, k);
      BooksKeptAlways(states, steps, k);
      SoundWhileConserved(states, steps, k);
      SoundIsStillSound(states[k]);
    }
    assert StepAt(states, steps, k);
    DrainStepKeepsStill(states[k], states[k + 1], steps[k]);
  }

  lemma {:induction false} StillSoundAlways(states: seq<State>, steps: seq<Step>, k: nat)
    requires Run(states, steps) && k < |states| && states[k].phantom != []
    ensures StillSound(states[k])
  {
    if k > 0 {
      if states[k - 1].phantom != [] { StillSoundAlways(states, steps, k - 1); }
      StillSoundOn(states, steps, k - 1);
    }
  }

  // ---- Bad answers close their connection

  ghost predicate BadClosed(s: State) {
    forall i :: 0 <= i < |s.answers| && !IsOk(s.answers[i]) ==> exists c :: c in s.closed && c.id == s.answers[i].id
  }

  ghost predicate OnlyCloses(s: State, s': State) {
    s.closed <= s'.closed && s'.answers == s.answers
  }

  lemma ClosingKeepsBadClosed(s: State, s': State)
    requires BadClosed(s) && OnlyCloses(s, s')
    ensures BadClosed(s')
  {
    assert forall c :: c in s.closed ==> c in s'.closed;
  }

  lemma ServeClosesBad(s: State, w: nat, r: Served, deadline: int)
    requires BadClosed(s) && w < |s.workers| && s.workers[w].Serving? && Decent(s.workers[w].conn, r, deadline)
    ensures BadClosed(AfterServe(s, w, r))
  {
    var s' := AfterServe(s, w, r);
    assert forall c :: c in s.closed ==> c in s'.closed;
    assert !r.keep ==> r.conn in s'.closed;
  }

  lemma StepKeepsBadClosed(s: State, s': State, step: Step)
    requires BadClosed(s) && Next(s, s', step)
    ensures BadClosed(s')
  {
    match step
    case WorkerStep(w, Serves(env, timeout, r)) =>
      ServedIsDecent(s, s', w, env, timeout, r);
      ServeClosesBad(s, w, r, s.now + timeout);
    case WorkerStep(w, act) =>
      WorkerFrame(s, s', w, act);
      ClosingKeepsBadClosed(s, s');
    case ListenerStep(l, act) =>
      ListenerFrame(s, s', l, act);
      ClosingKeepsBadClosed(s, s');
    case RoomStep(act) =>
      RoomFrame(s, s', act);
      ClosingKeepsBadClosed(s, s');
    case ServerStep(act) =>
      ServerFrame(s, s', act);
      ClosingKeepsBadClosed(s, s');
  }

  lemma BadClosedOn(states: seq<State>, steps: seq<Step>, k: nat)
    requires Run(states, steps) && k < |steps| && BadClosed(states[k])
    ensures BadClosed(states[k + 1])
  {
    assert StepAt(states, steps, k);
    StepKeepsBadClosed(states[k], states[k + 1], steps[k]);
  }

  lemma {:induction false} BadClosedAlways(states: seq<State>, steps: seq<Step>, k: nat)
    requires Run(states, steps) && k < |states|
    ensures BadClosed(states[k])
  {
    if k > 0 {
      BadClosedAlways(states, steps, k - 1);
      BadClosedOn(states, steps, k - 1);
    }
  }

  // ---- Main results

  /** Answer `i` is the last one on connection `id`. */
  ghost predicate IsLast(answers: seq<Answer>, id: nat, i: nat) {
    i < |answers| && answers[i].id == id && forall j :: i < j < |answers| ==> answers[j].id != id
  }

  lemma {:induction false} HasLast(answers: seq<Answer>, id: nat) returns (i: nat)
    requires exists j :: 0 <= j < |answers| && answers[j].id == id
    ensures IsLast(answers, id, i)
  {
    i := |answers| - 1;
    if answers[i].id != id {
      i := HasLast(answers[..i], id);
    }
  }

  /** While queue_trypop has not returned -1 to the drain loop, every connection in the wait queue or the pool
      speaks HTTP/1.1 and was answered; its last response had status 200 and neither that response nor the
      request it answers said `Connection: close` - nor did any before. */
  lemma KeptConnectionsAreClean(states: seq<State>, steps: seq<Step>, k: nat, c: Conn) returns (last: nat)
    requires Run(states, steps) && k < |states| && NoneStale(steps, k)
    requires c in states[k].wait.items || c in states[k].pool
    ensures IsLast(states[k].answers, c.id, last)
    ensures states[k].answers[last].status == 200 && !states[k].answers[last].closes
    ensures c.protocol == Http11 && AllOk(states[k].answers, c.id)
    ensures c.deadline <= states[k].now + 0xFFFF
  {
    PhantomIffStale(states, steps, k);
    SoundWhileConserved(states, steps, k);
    last := HasLast(states[k].answers, c.id);
  }

  /** In every run, shutdown included: demux_protocol runs at most once per connection. A response other than
      200 is the last one on its connection - in particular every error response - and so is one that comes
      with `Connection: close` on either side. */
  lemma BadAnswersAreLast(states: seq<State>, steps: seq<Step>, k: nat)
    requires Run(states, steps) && k < |states|
    ensures forall id :: states[k].demuxes[id] <= 1
    ensures forall i, j :: 0 <= i < j < |states[k].answers| ==>
              states[k].answers[i].status != 200 || states[k].answers[i].closes ==>
                states[k].answers[j].id != states[k].answers[i].id
  {
    if states[k].phantom == [] {
      SoundWhileConserved(states, steps, k);
    } else {
      StillSoundAlways(states, steps, k);
    }
  }

  /** In every run, shutdown included: a connection on which anything but a 200 was sent, or on which either
      side said `Connection: close`, is closed. */
  lemma BadAnswersClose(states: seq<State>, steps: seq<Step>, k: nat)
    requires Run(states, steps) && k < |states|
    ensures forall i :: 0 <= i < |states[k].answers| ==>
              states[k].answers[i].status != 200 || states[k].answers[i].closes ==>
                exists c :: c in states[k].closed && c.id == states[k].answers[i].id
  {
    BadClosedAlways(states, steps, k);
  }

  lemma PoolDeadlines(states: seq<State>, steps: seq<Step>, k: nat)
    requires Run(states, steps) && k < |states| && states[k].phantom == []
    ensures forall c :: c in states[k].pool ==> c.deadline <= states[k].now + 0xFFFF
  {
    SoundWhileConserved(states, steps, k);
  }

  lemma PollsFor(states: seq<State>, steps: seq<Step>, k: nat)
    requires Run(states, steps) && k < |steps| && steps[k] == RoomStep(FindsEmpty)
    ensures !states[k].wait.shut && states[k + 1].room == Polling(WaitMs(states[k].pool, states[k].now))
  {
    assert StepAt(states, steps, k);
  }

  /** In every run the wait that the room hands to the kernel is at most 200 ms. It is not negative and does
      not sleep past the nearest deadline if and only if that deadline's cast does not look ahead, which takes
      a pooled connection that is more than 2^31 seconds overdue. */
  lemma KernelWaitIsBounded(states: seq<State>, steps: seq<Step>, k: nat)
    requires Run(states, steps) && k < |steps| && steps[k] == RoomStep(FindsEmpty)
    ensures states[k + 1].room == Polling(WaitMs(states[k].pool, states[k].now))
    ensures ExactlyBounded(states[k].pool, states[k].now)
  {
    PollsFor(states, steps, k);
    NoStaleBeforeShutdown(states, steps, k);
    PhantomIffStale(states, steps, k);
    PoolDeadlines(states, steps, k);
    WaitIsBounded(states[k].pool, states[k].now);
  }
}
