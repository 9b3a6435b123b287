/**
  The bounded queue as a monitor: one mutex, the condition variables `not_empty` and `not_full`,
  and the threads that sleep on them.

  A lock holder runs from taking the mutex to releasing it (or to the wait that releases it) with no
  other lock holder in between, so each such stretch is one `MonitorStep`. A signal wakes at least one sleeper;
  a woken thread has to take the mutex again, and any other thread may be faster (barging); a sleeper
  may also wake for no reason at all.
 */
module QueueMonitor {
  datatype Tid = WorkerTid(index: nat) | ListenerTid(index: nat) | RoomTid

  datatype Monitor<T> = Monitor(
    cap: nat,
    items: seq<T>,
    shut: bool,
    getAsleep: set<Tid>,  // sleeping on not_empty
    getWoken: set<Tid>,   // woken from not_empty, mutex not yet retaken
    putAsleep: set<Tid>,  // sleeping on not_full
    putWoken: set<Tid>)   // woken from not_full, mutex not yet retaken

  datatype Action<T> =
    | Put(put: T)         // queue_push stores
    | PutSleeps           // queue_push finds the queue full and waits
    | Get(got: T)         // queue_pop or queue_trypop takes
    | GetSleeps           // queue_pop finds the queue empty and waits
    | GetShut             // queue_pop returns -1
    | WakesGet            // spurious wakeup from not_empty
    | WakesPut            // spurious wakeup from not_full
    | ShutSignal          // the shutdown flag is set and not_empty signalled
    | ShutBroadcast       // the shutdown flag is set and not_empty broadcast

  predicate Signals(asleep: set<Tid>, woken: set<Tid>, asleep': set<Tid>, woken': set<Tid>) {
    && asleep' <= asleep
    && (asleep != {} ==> asleep' != asleep)
    && woken' == woken + (asleep - asleep')
  }

  function Empty<T>(cap: nat): Monitor<T> {
    Monitor(cap, [], false, {}, {}, {}, {})
  }

  /** Thread `t` is not asleep in this monitor. */
  predicate Awake<T>(m: Monitor<T>, t: Tid) {
    t !in m.getAsleep && t !in m.putAsleep
  }

  /** One stretch of thread `t` under the mutex. */
  predicate MonitorStep<T(==)>(m: Monitor<T>, m': Monitor<T>, t: Tid, a: Action<T>) {
    match a
    case Put(x) =>
      && Awake(m, t) && |m.items| != m.cap
      && Signals(m.getAsleep, m.getWoken, m'.getAsleep, m'.getWoken)
      && m' == m.(items := m.items + [x], putWoken := m.putWoken - {t},
                  getAsleep := m'.getAsleep, getWoken := m'.getWoken)
    case PutSleeps =>
      && Awake(m, t) && |m.items| == m.cap
      && m' == m.(putAsleep := m.putAsleep + {t}, putWoken := m.putWoken - {t})
    case Get(x) =>
      && Awake(m, t) && m.items != [] && x == m.items[0]
      && Signals(m.putAsleep, m.putWoken, m'.putAsleep, m'.putWoken)
      && m' == m.(items := m.items[1..], getWoken := m.getWoken - {t},
                  putAsleep := m'.putAsleep, putWoken := m'.putWoken)
    case GetSleeps =>
      && Awake(m, t) && m.items == [] && !m.shut
      && m' == m.(getAsleep := m.getAsleep + {t}, getWoken := m.getWoken - {t})
    case GetShut =>
      && Awake(m, t) && m.items == [] && m.shut
      && m' == m.(getWoken := m.getWoken - {t})
    case WakesGet =>
      && t in m.getAsleep
      && m' == m.(getAsleep := m.getAsleep - {t}, getWoken := m.getWoken + {t})
    case WakesPut =>
      && t in m.putAsleep
      && m' == m.(putAsleep := m.putAsleep - {t}, putWoken := m.putWoken + {t})
    case ShutSignal =>
      && Signals(m.getAsleep, m.getWoken, m'.getAsleep, m'.getWoken)
      && m' == m.(shut := true, getAsleep := m'.getAsleep, getWoken := m'.getWoken)
    case ShutBroadcast =>
      m' == m.(shut := true, getAsleep := {}, getWoken := m.getWoken + m.getAsleep)
  }

  /** While some consumer sleeps, every stored item has a woken consumer on its way;
      while some producer sleeps, every free slot has a woken producer on its way. */
  predicate NoLostWakeup<T>(m: Monitor<T>) {
    && |m.items| <= m.cap
    && m.getAsleep !! m.getWoken
    && m.putAsleep !! m.putWoken
    && (m.getAsleep != {} ==> |m.items| <= |m.getWoken|)
    && (m.putAsleep != {} ==> m.cap - |m.items| <= |m.putWoken|)
  }

  lemma SignalWakesOne(asleep: set<Tid>, woken: set<Tid>, asleep': set<Tid>, woken': set<Tid>)
    requires asleep !! woken && Signals(asleep, woken, asleep', woken')
    ensures asleep' !! woken'
    ensures asleep != {} ==> |woken'| >= |woken| + 1
  {
    if asleep != {} {
      var t :| t in asleep - asleep';
      assert woken + {t} <= woken';
      SubsetSize(woken + {t}, woken');
    }
  }

  lemma {:induction false} SubsetSize(a: set<Tid>, b: set<Tid>)
    requires a <= b
    ensures |a| <= |b|
  {
    if a != {} {
      var t :| t in a;
      SubsetSize(a - {t}, b - {t});
    }
  }

  lemma PutKeepsWakeups<T>(m: Monitor<T>, m': Monitor<T>, t: Tid, a: Action<T>)
    requires NoLostWakeup(m) && a.Put? && MonitorStep(m, m', t, a)
    ensures NoLostWakeup(m')
  {
    SignalWakesOne(m.getAsleep, m.getWoken, m'.getAsleep, m'.getWoken);
  }

  lemma GetKeepsWakeups<T>(m: Monitor<T>, m': Monitor<T>, t: Tid, a: Action<T>)
    requires NoLostWakeup(m) && a.Get? && MonitorStep(m, m', t, a)
    ensures NoLostWakeup(m')
  {
    SignalWakesOne(m.putAsleep, m.putWoken, m'.putAsleep, m'.putWoken);
  }

  /** One stretch under the mutex, by any thread, keeps every sleeper's wakeup on its way. */
  lemma StepKeepsWakeups<T>(m: Monitor<T>, m': Monitor<T>, t: Tid, a: Action<T>)
    requires NoLostWakeup(m) && MonitorStep(m, m', t, a)
    ensures NoLostWakeup(m')
  {
    match a
    case Put(_) => PutKeepsWakeups(m, m', t, a);
    case Get(_) => GetKeepsWakeups(m, m', t, a);
    case ShutSignal => SignalWakesOne(m.getAsleep, m.getWoken, m'.getAsleep, m'.getWoken);
    case _ =>
  }

  /** A run: `acts[k]` by thread `who[k]` leads from `ms[k]` to `ms[k+1]`. */
  predicate MonitorRun<T(==)>(ms: seq<Monitor<T>>, who: seq<Tid>, acts: seq<Action<T>>) {
    && |ms| == |acts| + 1 && |who| == |acts|
    && forall k: nat :: k < |acts| ==> StretchAt(ms, who, acts, k)
  }

  predicate StretchAt<T(==)>(ms: seq<Monitor<T>>, who: seq<Tid>, acts: seq<Action<T>>, k: nat)
    requires |ms| == |acts| + 1 && |who| == |acts| && k < |acts|
  {
    MonitorStep(ms[k], ms[k + 1], who[k], acts[k])
  }

  function Stored<T>(acts: seq<Action<T>>): seq<T> {
    if acts == [] then []
    else Stored(acts[..|acts| - 1]) + Puts(acts[|acts| - 1])
  }

  function Taken<T>(acts: seq<Action<T>>): seq<T> {
    if acts == [] then []
    else Taken(acts[..|acts| - 1]) + Gets(acts[|acts| - 1])
  }

  /** In every run of the queue, for any threads and any interleaving: no wakeup is lost, so a non-empty
      queue never has only sleeping consumers, nor a queue with room only sleeping producers. */
  lemma {:induction false} WakeupsNeverLost<T>(ms: seq<Monitor<T>>, who: seq<Tid>, acts: seq<Action<T>>, k: nat)
    requires MonitorRun(ms, who, acts) && ms[0] == Empty(ms[0].cap) && k < |ms|
    ensures NoLostWakeup(ms[k])
    ensures ms[k].items != [] && ms[k].getAsleep != {} ==> ms[k].getWoken != {}
    ensures |ms[k].items| < ms[k].cap && ms[k].putAsleep != {} ==> ms[k].putWoken != {}
  {
    if k > 0 {
      WakeupsNeverLost(ms, who, acts, k - 1);
      assert StretchAt(ms, who, acts, k - 1);
      StepKeepsWakeups(ms[k - 1], ms[k], who[k - 1], acts[k - 1]);
    }
  }

  /** What one stretch stores or takes. */
  function Puts<T>(a: Action<T>): seq<T> { if a.Put? then [a.put] else [] }
  function Gets<T>(a: Action<T>): seq<T> { if a.Get? then [a.got] else [] }

  lemma StepIsFifo<T>(m: Monitor<T>, m': Monitor<T>, t: Tid, a: Action<T>)
    requires MonitorStep(m, m', t, a)
    ensures Gets(a) + m'.items == m.items + Puts(a)
  {
  }

  lemma PutAppends<T>(m: Monitor<T>, m': Monitor<T>, t: Tid, a: Action<T>)
    requires MonitorStep(m, m', t, a) && (a.Put? || a.PutSleeps?)
    ensures m'.items == if a.Put? then m.items + [a.put] else m.items
  {
  }

  lemma Chain<T>(taken: seq<T>, gets: seq<T>, now: seq<T>, before: seq<T>, puts: seq<T>, first: seq<T>, stored: seq<T>)
    requires gets + now == before + puts && taken + before == first + stored
    ensures taken + gets + now == first + (stored + puts)
  {
    assert taken + gets + now == taken + (before + puts) == (first + stored) + puts;
  }

  /** In every run, at every point, what came out followed by what is inside is what went in, in order. */
  lemma {:induction false} FifoOverRuns<T>(ms: seq<Monitor<T>>, who: seq<Tid>, acts: seq<Action<T>>, k: nat)
    requires MonitorRun(ms, who, acts) && k < |ms|
    ensures Taken(acts[..k]) + ms[k].items == ms[0].items + Stored(acts[..k])
  {
    if k > 0 {
      var n := k - 1;
      FifoOverRuns(ms, who, acts, n);
      assert StretchAt(ms, who, acts, n);
      StepIsFifo(ms[n], ms[k], who[n], acts[n]);
      assert acts[..k][..n] == acts[..n];
      Chain(Taken(acts[..n]), Gets(acts[n]), ms[k].items, ms[n].items, Puts(acts[n]), ms[0].items, Stored(acts[..n]));
    }
  }

  lemma FlagKeepsAwake<T>(m: Monitor<T>, m': Monitor<T>, t: Tid, a: Action<T>)
    requires MonitorStep(m, m', t, a) && (a == ShutBroadcast || (m.shut && m.getAsleep == {}))
    ensures m'.shut && m'.getAsleep == {}
  {
  }

  /** Once the shutdown flag's broadcast is done, nobody is ever asleep on not_empty again. */
  lemma {:induction false} NobodySleepsAfterBroadcast<T>(ms: seq<Monitor<T>>, who: seq<Tid>, acts: seq<Action<T>>,
                                                         b: nat, k: nat)
    requires MonitorRun(ms, who, acts) && b < k < |ms| && acts[b] == ShutBroadcast
    ensures ms[k].shut && ms[k].getAsleep == {}
  {
    if b < k - 1 {
      NobodySleepsAfterBroadcast(ms, who, acts, b, k - 1);
    }
    assert StretchAt(ms, who, acts, k - 1);
    FlagKeepsAwake(ms[k - 1], ms[k], who[k - 1], acts[k - 1]);
  }
}
