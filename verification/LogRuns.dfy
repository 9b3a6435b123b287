/**
  Runs of the logging subsystem: any number of producers, the logger thread and the shutdown, one stretch
  under the ring's mutex (or one pair of writev calls) per step. A producer's `next`, computed before it
  waits, is its own local.
 */
module LogRuns {
  import opened PowerOfTwo
  import opened LogRing

  datatype Producer = Idle | Waiting(entry: Entry, next: nat)

  datatype Consumer = Collecting | Writing(batch: seq<Entry>) | Gone

  datatype LogState = LogState(
    ring: LogRing.Ring,
    shutdown: bool,
    producers: seq<Producer>,
    consumer: Consumer,
    accepted: seq<Entry>,   // stored, in order
    refused: seq<Entry>,    // dropped or bailed out
    consumed: seq<Entry>,   // taken by the logger thread, in order
    access: seq<Entry>,     // written to the access log
    event: seq<Entry>)      // written to the event log

  datatype LogStep =
    | Writes(p: nat, entry: Entry)
    | Resumes(p: nat)
    | Collects(batch: seq<Entry>)
    | Exits
    | WritesOut(accessOk: bool, eventOk: bool)
    | ShutsDown

  /** The bookkeeping of an outcome for producer `p` and its entry. */
  ghost predicate Settles(s: LogState, s': LogState, p: nat, e: Entry, o: Outcome, next: nat)
    requires p < |s.producers| && s.ring.size > 0 && s.ring.tail < |s.ring.slots|
  {
    s' == match o
          case Stored =>
            s.(ring := Store(s.ring, e, next), accepted := s.accepted + [e], producers := s.producers[p := Idle])
          case Blocks(n) => s.(producers := s.producers[p := Waiting(e, n)])
          case _ => s.(refused := s.refused + [e], producers := s.producers[p := Idle])
  }

  ghost predicate LogNext(s: LogState, s': LogState, step: LogStep)
    requires IsRing(s.ring)
  {
    match step
    case Writes(p, e) =>
      && p < |s.producers| && s.producers[p].Idle?
      && Settles(s, s', p, e, Offered(s.ring, e.target, s.shutdown), After(s.ring.tail, s.ring.size))
    case Resumes(p) =>
      && p < |s.producers| && s.producers[p].Waiting?
      && var w := s.producers[p];
      Settles(s, s', p, w.entry, Resumed(s.ring, w.next, s.shutdown), w.next)
    case Collects(batch) =>
      && s.consumer.Collecting? && Contents(s.ring) != []
      && TakesFront(s.ring, s'.ring, batch)
      && s' == s.(ring := s'.ring, consumer := Writing(batch), consumed := s.consumed + batch)
    case Exits =>
      && s.consumer.Collecting? && Contents(s.ring) == [] && s.shutdown
      && s' == s.(consumer := Gone)
    case WritesOut(accessOk, eventOk) =>
      && s.consumer.Writing?
      && var a, v := Only(s.consumer.batch, Access), Only(s.consumer.batch, Event);
      s' == if a != [] && !accessOk then s.(consumer := Collecting)
            else s.(consumer := Collecting, access := s.access + a, event := if eventOk then s.event + v else s.event)
    case ShutsDown => s' == s.(shutdown := true)
  }

  /** The store of a waiting producer after another one moved the tail. */
  predicate IsStale(s: LogState, step: LogStep)
    requires s.ring.size > 0
  {
    && step.Resumes? && step.p < |s.producers| && s.producers[step.p].Waiting?
    && Resumed(s.ring, s.producers[step.p].next, s.shutdown).Stored?
    && s.producers[step.p].next != After(s.ring.tail, s.ring.size)
  }

  ghost predicate LogOk(s: LogState) {
    && IsRing(s.ring)
    && (forall p :: 0 <= p < |s.producers| && s.producers[p].Waiting? ==>
          s.producers[p].next < s.ring.size && s.producers[p].entry.target == Event)
    && (forall i :: 0 <= i < |s.refused| && !s.shutdown ==> s.refused[i].target == Access)
  }

  ghost predicate LogInit(s: LogState) {
    && IsRing(s.ring) && s.ring.head == s.ring.tail == 0 && !s.shutdown && s.consumer == Collecting
    && (forall p :: 0 <= p < |s.producers| ==> s.producers[p] == Idle)
    && s.accepted == s.refused == s.consumed == s.access == s.event == []
  }

  ghost predicate LogStepAt(states: seq<LogState>, steps: seq<LogStep>, k: nat)
    requires |states| == |steps| + 1 && k < |steps|
  {
    IsRing(states[k].ring) && LogNext(states[k], states[k + 1], steps[k])
  }

  ghost predicate LogRun(states: seq<LogState>, steps: seq<LogStep>) {
    && |states| == |steps| + 1 && LogInit(states[0])
    && forall k: nat :: k < |steps| ==> LogStepAt(states, steps, k)
  }

  /** Nothing accepted is lost, duplicated or reordered. */
  ghost predicate Lossless(s: LogState)
    requires IsRing(s.ring)
  {
    s.consumed + Contents(s.ring) == s.accepted
  }

  // ---- One step

  lemma StepKeepsOk(s: LogState, s': LogState, step: LogStep)
    requires LogOk(s) && LogNext(s, s', step)
    ensures LogOk(s')
  {
    AfterIs(s.ring, s.ring.tail);
  }

  lemma StoreLosslessIff(s: LogState, e: Entry, next: nat)
    requires IsRing(s.ring) && Lossless(s) && next < s.ring.size && next != s.ring.head
    ensures s.consumed + Contents(Store(s.ring, e, next)) == s.accepted + [e]
            <==> next == After(s.ring.tail, s.ring.size)
  {
    StoreAppendsIff(s.ring, e, next);
    var now, then' := Contents(s.ring), Contents(Store(s.ring, e, next));
    assert s.accepted + [e] == s.consumed + (now + [e]);
    if s.consumed + then' == s.consumed + (now + [e]) {
      assert then' == (s.consumed + then')[|s.consumed|..];
      assert now + [e] == (s.consumed + (now + [e]))[|s.consumed|..];
    }
  }

  lemma StepLosslessIff(s: LogState, s': LogState, step: LogStep)
    requires LogOk(s) && Lossless(s) && LogNext(s, s', step)
    ensures IsRing(s'.ring) && (Lossless(s') <==> !IsStale(s, step))
  {
    StepKeepsOk(s, s', step);
    match step
    case Writes(p, e) =>
      var next := After(s.ring.tail, s.ring.size);
      AfterIs(s.ring, s.ring.tail);
      if next != s.ring.head { StoreLosslessIff(s, e, next); }
    case Resumes(p) =>
      var w := s.producers[p];
      if Resumed(s.ring, w.next, s.shutdown).Stored? { StoreLosslessIff(s, w.entry, w.next); }
    case Collects(batch) =>
      assert s.consumed + (batch + Contents(s'.ring)) == (s.consumed + batch) + Contents(s'.ring);
    case _ =>
  }

  // ---- Runs

  lemma OkOn(states: seq<LogState>, steps: seq<LogStep>, k: nat)
    requires LogRun(states, steps) && k < |steps| && LogOk(states[k])
    ensures LogOk(states[k + 1])
  {
    assert LogStepAt(states, steps, k);
    StepKeepsOk(states[k], states[k + 1], steps[k]);
  }

  lemma {:induction false} OkAlways(states: seq<LogState>, steps: seq<LogStep>, k: nat)
    requires LogRun(states, steps) && k < |states|
    ensures LogOk(states[k])
  {
    if k > 0 {
      OkAlways(states, steps, k - 1);
      OkOn(states, steps, k - 1);
    }
  }

  /** Step `k` of the run is a stale store. */
  ghost predicate IsStaleAt(states: seq<LogState>, steps: seq<LogStep>, k: nat)
    requires LogRun(states, steps) && k < |steps|
  {
    assert LogStepAt(states, steps, k);
    IsStale(states[k], steps[k])
  }

  lemma LosslessOnIff(states: seq<LogState>, steps: seq<LogStep>, k: nat)
    requires LogRun(states, steps) && k < |steps| && LogOk(states[k]) && Lossless(states[k])
    ensures IsRing(states[k + 1].ring) && (Lossless(states[k + 1]) <==> !IsStaleAt(states, steps, k))
  {
    assert LogStepAt(states, steps, k);
    StepLosslessIff(states[k], states[k + 1], steps[k]);
  }

  /** In every run without a stale store, what was consumed followed by what is in the ring is what was
      accepted, in order; and the first stale store of a run breaks this. */
  lemma {:induction false} LosslessUntilStale(states: seq<LogState>, steps: seq<LogStep>, k: nat)
    requires LogRun(states, steps) && k < |states|
    requires forall j :: 0 <= j < k - 1 ==> !IsStaleAt(states, steps, j)
    ensures IsRing(states[k].ring)
    ensures Lossless(states[k]) <==> k == 0 || !IsStaleAt(states, steps, k - 1)
  {
    if k > 0 {
      OkAlways(states, steps, k - 1);
      LosslessUntilStale(states, steps, k - 1);
      LosslessOnIff(states, steps, k - 1);
    }
  }

  lemma NoStaleIsLossless(states: seq<LogState>, steps: seq<LogStep>, k: nat)
    requires LogRun(states, steps) && k < |states|
    requires forall j :: 0 <= j < k ==> !IsStaleAt(states, steps, j)
    ensures IsRing(states[k].ring) && Lossless(states[k])
    ensures |states[k].consumed| + |Contents(states[k].ring)| == |states[k].accepted|
  {
    LosslessUntilStale(states, steps, k);
    assert |states[k].consumed + Contents(states[k].ring)| == |states[k].accepted|;
  }

  /** While no store was stale, at most size - 1 accepted entries are waiting to be consumed. And before shutdown
      only access entries are refused, stale stores or not. */
  lemma RefusesOnlyAccess(states: seq<LogState>, steps: seq<LogStep>, k: nat)
    requires LogRun(states, steps) && k < |states|
    ensures (forall j :: 0 <= j < k ==> !IsStaleAt(states, steps, j)) ==>
              |states[k].accepted| - |states[k].consumed| <= states[k].ring.size - 1
    ensures !states[k].shutdown ==> forall i :: 0 <= i < |states[k].refused| ==> states[k].refused[i].target == Access
  {
    OkAlways(states, steps, k);
    if forall j :: 0 <= j < k ==> !IsStaleAt(states, steps, j) {
      NoStaleIsLossless(states, steps, k);
    }
  }

  // ---- What the steps do

  /** Only event entries ever wait: in no state of any run is a producer asleep with an access entry. */
  lemma OnlyEventsWait(states: seq<LogState>, steps: seq<LogStep>, k: nat, p: nat)
    requires LogRun(states, steps) && k < |states| && p < |states[k].producers| && states[k].producers[p].Waiting?
    ensures states[k].producers[p].entry.target == Event
  {
    OkAlways(states, steps, k);
  }

  /** What has become of producer `p` and the entries that were offered. */
  function Fate(s: LogState, p: nat): (seq<Entry>, seq<Entry>, Producer)
    requires p < |s.producers|
  {
    (s.accepted, s.refused, s.producers[p])
  }

  /** What a write comes to, told by the ring alone: with a slot to spare the entry is appended; on a full ring
      an access entry, and in shutdown any entry, is refused at once, and any other one waits. */
  lemma WriteDecides(states: seq<LogState>, steps: seq<LogStep>, k: nat, p: nat, e: Entry)
    requires LogRun(states, steps) && k < |steps| && steps[k] == Writes(p, e)
    ensures IsRing(states[k].ring) && IsRing(states[k + 1].ring)
    ensures p < |states[k].producers| == |states[k + 1].producers|
    ensures var s, s' := states[k], states[k + 1];
            var full := |Contents(s.ring)| == s.ring.size - 1;
            && Contents(s'.ring) == Contents(s.ring) + (if full then [] else [e])
            && Fate(s', p) == if !full then (s.accepted + [e], s.refused, Idle)
                              else if e.target == Access || s.shutdown then (s.accepted, s.refused + [e], Idle)
                              else (s.accepted, s.refused, Waiting(e, After(s.ring.tail, s.ring.size)))
  {
    assert LogStepAt(states, steps, k);
    var ring := states[k].ring;
    AfterIs(ring, ring.tail);
    FullIff(ring);
    var next := After(ring.tail, ring.size);
    if next != ring.head {
      StoreAppendsIff(ring, e, next);
    } else {
      assert Contents(ring) + [] == Contents(ring);
    }
  }

  /** What a producer comes to that wakes up: refused in shutdown, back to sleep while its place is still the
      oldest entry's, otherwise stored at the tail, which moves to the index computed before the wait. */
  lemma ResumeDecides(states: seq<LogState>, steps: seq<LogStep>, k: nat, p: nat)
    requires LogRun(states, steps) && k < |steps| && steps[k] == Resumes(p)
    ensures IsRing(states[k].ring) && p < |states[k].producers| == |states[k + 1].producers|
    ensures states[k].producers[p].Waiting?
    ensures var s, s' := states[k], states[k + 1];
            var w := s.producers[p];
            (Fate(s', p), s'.ring) ==
            if s.shutdown then ((s.accepted, s.refused + [w.entry], Idle), s.ring)
            else if w.next == s.ring.head then (Fate(s, p), s.ring)
            else ((s.accepted + [w.entry], s.refused, Idle),
                  s.ring.(slots := s.ring.slots[s.ring.tail := w.entry], tail := w.next))
  {
    assert LogStepAt(states, steps, k);
  }

  /** What the logger thread takes: the oldest entries in order, 32 of them or all there are. */
  lemma CollectDecides(states: seq<LogState>, steps: seq<LogStep>, k: nat, batch: seq<Entry>)
    requires LogRun(states, steps) && k < |steps| && steps[k] == Collects(batch)
    ensures IsRing(states[k].ring) && IsRing(states[k + 1].ring)
    ensures var s, s' := states[k], states[k + 1];
            && Contents(s.ring) == batch + Contents(s'.ring)
            && (|batch| == 32 || (0 < |batch| < 32 && Contents(s'.ring) == []))
            && (s'.consumer, s'.consumed) == (Writing(batch), s.consumed + batch)
  {
    assert LogStepAt(states, steps, k);
  }

  /** What a batch leaves in the logs: its access entries, then its event entries - but none of them when the
      access log could not be written, and no event entries when the event log could not. */
  lemma WriteOutDecides(states: seq<LogState>, steps: seq<LogStep>, k: nat, accessOk: bool, eventOk: bool)
    requires LogRun(states, steps) && k < |steps| && steps[k] == WritesOut(accessOk, eventOk)
    ensures states[k].consumer.Writing?
    ensures var s, s' := states[k], states[k + 1];
            var batch := s.consumer.batch;
            var cut := !accessOk && exists e :: e in batch && e.target == Access;
            (s'.access, s'.event, s'.consumer) ==
            (if cut then s.access else s.access + Only(batch, Access),
             if cut || !eventOk then s.event else s.event + Only(batch, Event), Collecting)
  {
    assert LogStepAt(states, steps, k);
    OnlyIsEmptyIff(states[k].consumer.batch, Access);
  }

  predicate TakenByLogger(step: LogStep) {
    step.Collects? || step.WritesOut? || step.Exits?
  }

  /** The logger thread can go on exactly when it has a batch in hand, or finds the ring not empty or the server
      shutting down. */
  lemma LoggerCanStepIff(s: LogState)
    requires IsRing(s.ring)
    ensures (exists s', step :: TakenByLogger(step) && LogNext(s, s', step)) <==>
              s.consumer.Writing? || (s.consumer.Collecting? && (Contents(s.ring) != [] || s.shutdown))
  {
    if s.consumer.Writing? {
      var a := Only(s.consumer.batch, Access);
      var s' := s.(consumer := Collecting, access := if a == [] then s.access + a else s.access);
      assert TakenByLogger(WritesOut(false, false)) && LogNext(s, s', WritesOut(false, false));
    } else if s.consumer.Collecting? && Contents(s.ring) != [] {
      var n := if BATCH_SIZE <= Used(s.ring) then BATCH_SIZE else Used(s.ring);
      var batch := Contents(s.ring)[..n];
      var ring := FrontCanBeTaken(s.ring, n);
      assert TakesFront(s.ring, ring, batch);
      var s' := s.(ring := ring, consumer := Writing(batch), consumed := s.consumed + batch);
      assert TakenByLogger(Collects(batch)) && LogNext(s, s', Collects(batch));
    } else if s.consumer.Collecting? && s.shutdown {
      assert TakenByLogger(LogStep.Exits) && LogNext(s, s.(consumer := Gone), LogStep.Exits);
    }
  }

  lemma ExitsEmpty(states: seq<LogState>, steps: seq<LogStep>, k: nat)
    requires LogRun(states, steps) && k < |steps| && steps[k] == LogStep.Exits
    ensures IsRing(states[k].ring)
    ensures (Contents(states[k].ring), states[k].shutdown, states[k + 1]) == ([], true, states[k].(consumer := Gone))
  {
    assert LogStepAt(states, steps, k);
  }

  /** When the logger thread leaves, in shutdown, the ring is empty, stale stores or not; without one it has
      consumed all that was accepted. */
  lemma DrainedAtExit(states: seq<LogState>, steps: seq<LogStep>, k: nat)
    requires LogRun(states, steps) && k < |steps| && steps[k] == LogStep.Exits
    ensures IsRing(states[k + 1].ring) && (Contents(states[k + 1].ring), states[k + 1].shutdown) == ([], true)
    ensures (forall j :: 0 <= j < k ==> !IsStaleAt(states, steps, j)) ==>
              states[k + 1].consumed == states[k + 1].accepted
  {
    ExitsEmpty(states, steps, k);
    if forall j :: 0 <= j < k ==> !IsStaleAt(states, steps, j) {
      NoStaleIsLossless(states, steps, k);
    }
  }

  function Pending(c: Consumer): seq<Entry> {
    if c.Writing? then c.batch else []
  }

  /** The two logs, with the batch in hand, are the consumed entries split by target, in order. */
  ghost predicate StableSplit(s: LogState) {
    && s.access + Only(Pending(s.consumer), Access) == Only(s.consumed, Access)
    && s.event + Only(Pending(s.consumer), Event) == Only(s.consumed, Event)
  }

  lemma CollectKeepsSplit(s: LogState, s': LogState, batch: seq<Entry>)
    requires StableSplit(s) && s.consumer.Collecting? && s'.consumer == Writing(batch)
    requires s'.consumed == s.consumed + batch && s'.access == s.access && s'.event == s.event
    ensures StableSplit(s')
  {
    OnlyConcat(s.consumed, batch, Access);
    OnlyConcat(s.consumed, batch, Event);
  }

  lemma WriteKeepsSplit(s: LogState, s': LogState)
    requires StableSplit(s) && s.consumer.Writing? && s'.consumer == Collecting && s'.consumed == s.consumed
    requires s'.access == s.access + Only(s.consumer.batch, Access)
    requires s'.event == s.event + Only(s.consumer.batch, Event)
    ensures StableSplit(s')
  {
  }

  /** Every other step leaves the logger thread's part alone. */
  lemma OthersKeepSplit(s: LogState, s': LogState, step: LogStep)
    requires IsRing(s.ring) && LogNext(s, s', step) && !step.Collects? && !step.WritesOut?
    ensures Pending(s'.consumer) == Pending(s.consumer)
    ensures s'.consumed == s.consumed && s'.access == s.access && s'.event == s.event
  {
  }

  lemma StepKeepsSplit(s: LogState, s': LogState, step: LogStep)
    requires IsRing(s.ring) && LogNext(s, s', step) && StableSplit(s)
    requires step.WritesOut? ==> step.accessOk && step.eventOk
    ensures StableSplit(s')
  {
    match step
    case Collects(batch) => CollectKeepsSplit(s, s', batch);
    case WritesOut(_, _) => WriteKeepsSplit(s, s');
    case _ => OthersKeepSplit(s, s', step);
  }

  lemma SplitOn(states: seq<LogState>, steps: seq<LogStep>, k: nat)
    requires LogRun(states, steps) && k < |steps| && StableSplit(states[k])
    requires steps[k].WritesOut? ==> steps[k].accessOk && steps[k].eventOk
    ensures StableSplit(states[k + 1])
  {
    assert LogStepAt(states, steps, k);
    StepKeepsSplit(states[k], states[k + 1], steps[k]);
  }

  /** With every writev complete, both logs are exactly the order-preserving selections by target of what was
      consumed, over all batches. */
  lemma {:induction false} LogsAreStableSplit(states: seq<LogState>, steps: seq<LogStep>, k: nat)
    requires LogRun(states, steps) && k < |states|
    requires forall j :: 0 <= j < k && steps[j].WritesOut? ==> steps[j].accessOk && steps[j].eventOk
    ensures StableSplit(states[k])
  {
    if k > 0 {
      LogsAreStableSplit(states, steps, k - 1);
      SplitOn(states, steps, k - 1);
    }
  }

  // ---- Two waiting producers lose an entry

  /** The end state of some run. */
  ghost predicate LogReachable(s: LogState) {
    exists states, steps :: LogRun(states, steps) && states[|steps|] == s
  }

  lemma LogReach(s: LogState, s': LogState, step: LogStep)
    requires LogReachable(s) && IsRing(s.ring) && LogNext(s, s', step)
    ensures LogReachable(s')
  {
    var states, steps :| LogRun(states, steps) && states[|steps|] == s;
    var states', steps' := states + [s'], steps + [step];
    forall k: nat | k < |steps'| ensures LogStepAt(states', steps', k) {
      if k < |steps| {
        assert LogStepAt(states, steps, k);
      }
    }
    assert states'[|steps'|] == s';
  }

  /** A ring of two slots with one entry in it. */
  lemma OneEntryIsStored(e0: Entry, producers: seq<Producer>) returns (s: LogState)
    requires producers != [] && forall p :: 0 <= p < |producers| ==> producers[p] == Idle
    ensures LogReachable(s) && IsRing(s.ring)
    ensures s == LogState(LogRing.Ring(2, [e0, e0], 0, 1), false, producers, Collecting, [e0], [], [], [], [])
  {
    assert Pow2(1) == 2;
    var r0 := LogRing.Ring(2, [e0, e0], 0, 0);
    var s0 := LogState(r0, false, producers, Collecting, [], [], [], [], []);
    var none: seq<LogStep> := [];
    assert LogRun([s0], none) && [s0][|none|] == s0;
    AfterIs(r0, 0);
    s := s0.(ring := Store(r0, e0, 1), accepted := [e0]);
    assert producers[0 := Idle] == producers;
    LogReach(s0, s, Writes(0, e0));
  }

  /** Its full ring makes a producer wait for slot 0. */
  lemma ProducerWaits(s: LogState, p: nat, e: Entry) returns (s': LogState)
    requires LogReachable(s) && IsRing(s.ring) && !s.shutdown
    requires s.ring.size == 2 && s.ring.head == 0 && s.ring.tail == 1
    requires p < |s.producers| && s.producers[p].Idle? && e.target == Event
    ensures LogReachable(s') && s' == s.(producers := s.producers[p := Waiting(e, 0)])
  {
    AfterIs(s.ring, 1);
    s' := s.(producers := s.producers[p := Waiting(e, 0)]);
    LogReach(s, s', Writes(p, e));
  }

  lemma LoggerMakesRoom(s: LogState, e0: Entry) returns (s': LogState)
    requires LogReachable(s) && s.ring == LogRing.Ring(2, [e0, e0], 0, 1) && IsRing(s.ring)
    requires s.consumer == Collecting && s.consumed == []
    ensures LogReachable(s') && IsRing(s'.ring)
    ensures s' == s.(ring := s.ring.(head := 1), consumer := Writing([e0]), consumed := [e0])
  {
    s' := s.(ring := s.ring.(head := 1), consumer := Writing([e0]), consumed := [e0]);
    assert Contents(s.ring) == [e0] && Contents(s'.ring) == [];
    LogReach(s, s', Collects([e0]));
  }

  lemma ProducerResumes(s: LogState, p: nat, e: Entry) returns (s': LogState)
    requires LogReachable(s) && IsRing(s.ring) && s.ring.head != 0 && !s.shutdown
    requires p < |s.producers| && s.producers[p] == Waiting(e, 0)
    ensures LogReachable(s')
    ensures s' == s.(ring := Store(s.ring, e, 0), accepted := s.accepted + [e], producers := s.producers[p := Idle])
  {
    s' := s.(ring := Store(s.ring, e, 0), accepted := s.accepted + [e], producers := s.producers[p := Idle]);
    LogReach(s, s', Resumes(p));
  }

  /** With any number of producers from two on: two of them wait, the logger makes room, and both store at the
      place computed before their wait. The second entry is accepted, but it is neither consumed nor in the
      ring. */
  lemma TwoWaitersLoseOne(n: nat, e0: Entry, e1: Entry, e2: Entry) returns (s: LogState)
    requires n >= 2 && e1.target == Event && e2.target == Event
    ensures LogReachable(s) && IsRing(s.ring) && |s.producers| == n
    ensures s.accepted == [e0, e1, e2] && s.consumed == [e0] && Contents(s.ring) == [e1]
  {
    s := OneEntryIsStored(e0, seq(n, _ => Idle));
    s := ProducerWaits(s, 0, e1);
    s := ProducerWaits(s, 1, e2);
    s := LoggerMakesRoom(s, e0);
    s := ProducerResumes(s, 0, e1);
    s := ProducerResumes(s, 1, e2);
    assert Contents(s.ring) == [e1];
  }

  // ---- One producer loses nothing

  /** There is at most one producer, and if it waits, its index is still the one behind the tail. */
  ghost predicate Undisturbed(s: LogState)
    requires IsRing(s.ring)
  {
    |s.producers| <= 1
    && forall p :: 0 <= p < |s.producers| && s.producers[p].Waiting? ==>
         s.producers[p].next == After(s.ring.tail, s.ring.size)
  }

  lemma StepKeepsUndisturbed(s: LogState, s': LogState, step: LogStep)
    requires LogOk(s) && Undisturbed(s) && LogNext(s, s', step)
    ensures IsRing(s'.ring) && Undisturbed(s') && !IsStale(s, step)
  {
    StepKeepsOk(s, s', step);
  }

  lemma {:induction false} UndisturbedAlways(states: seq<LogState>, steps: seq<LogStep>, k: nat)
    requires LogRun(states, steps) && k < |states| && |states[0].producers| <= 1
    ensures IsRing(states[k].ring) && Undisturbed(states[k])
    ensures forall j :: 0 <= j < k ==> !IsStaleAt(states, steps, j)
  {
    if k > 0 {
      UndisturbedAlways(states, steps, k - 1);
      OkAlways(states, steps, k - 1);
      assert LogStepAt(states, steps, k - 1);
      StepKeepsUndisturbed(states[k - 1], states[k], steps[k - 1]);
    }
  }

  /** With at most one producer no run ever loses, duplicates or reorders an accepted entry; with two or more
      some run does, as TwoWaitersLoseOne shows. */
  lemma OneProducerLosesNothing(states: seq<LogState>, steps: seq<LogStep>, k: nat)
    requires LogRun(states, steps) && k < |states| && |states[0].producers| <= 1
    ensures IsRing(states[k].ring) && Lossless(states[k])
  {
    UndisturbedAlways(states, steps, k);
    NoStaleIsLossless(states, steps, k);
  }
}
