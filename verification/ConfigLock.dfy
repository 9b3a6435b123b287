/**
  The configuration behind its reader/writer lock: the server's threads that read it field by field, the one
  thread that reloads it, joins the others and finally frees it, and the heap the configurations live on.
 */
module ConfigLock {
  datatype Field = DocRoot | ServerToken | QueueSize | KeepaliveTimeout

  /** The fields that are read under the lock. */
  datatype Config = Config(docRoot: string, serverToken: string, queueSize: string, keepaliveTimeout: string)

  function Get(c: Config, f: Field): string {
    match f
    case DocRoot => c.docRoot
    case ServerToken => c.serverToken
    case QueueSize => c.queueSize
    case KeepaliveTimeout => c.keepaliveTimeout
  }

  datatype Pointer = Null | To(address: nat)

  /** What a pointer leads to: nothing when it is null or its configuration was freed. */
  datatype Target = Nothing | Found(config: Config)

  datatype Role = ListenerRole | RoomRole | WorkerRole

  /** Inside: holding the read lock. `seen` is what conf_data led to when it was taken, `got` what was read
      since, and `astray` says that conf_data led nowhere when it was read. */
  datatype Reader =
    | Outside
    | Inside(seen: Target, got: map<Field, string>, astray: bool)
    | Gone

  /** The signal thread: reload_configuration line by line; the joins of server_shutdown and cleanup_config. */
  datatype Manager =
    | Ready
    | Built(made: nat)          // new configuration parsed, lock not taken
    | Holding(made: nat)        // write lock taken
    | Swapped(former: Pointer)  // conf_data replaced, lock still held
    | Freeing(former: Pointer)  // lock released
    | ListenersJoined
    | RoomJoined
    | WorkersJoined
    | Finished

  datatype State = State(heap: map<nat, Config>, confData: Pointer, roles: seq<Role>, readers: seq<Reader>,
                         manager: Manager)

  datatype Step =
    | Locks(r: nat)
    | Reads(r: nat, f: Field)
    | Unlocks(r: nat)
    | Leaves(r: nat)
    | Builds(address: nat, config: Config)
    | TakesWriteLock
    | Swaps
    | ReleasesWriteLock
    | Frees
    | JoinsListeners
    | JoinsRoom
    | JoinsWorkers
    | CleansUp

  predicate WriteLocked(m: Manager) {
    m.Holding? || m.Swapped?
  }

  function Deref(s: State): Target {
    if s.confData.To? && s.confData.address in s.heap then Found(s.heap[s.confData.address]) else Nothing
  }

  function Free(heap: map<nat, Config>, p: Pointer): map<nat, Config> {
    if p.To? then heap - {p.address} else heap
  }

  predicate AllGone(s: State, role: Role) {
    |s.roles| == |s.readers| && forall r :: 0 <= r < |s.readers| && s.roles[r] == role ==> s.readers[r].Gone?
  }

  function AfterReading(reader: Reader, f: Field, t: Target): Reader
    requires reader.Inside?
  {
    if t.Found? then reader.(got := reader.got[f := Get(t.config, f)]) else reader.(astray := true)
  }

  predicate ReaderNext(s: State, s': State, step: Step) {
    match step
    case Locks(r) =>
      && r < |s.readers| && s.readers[r].Outside? && !WriteLocked(s.manager)
      && s' == s.(readers := s.readers[r := Inside(Deref(s), map[], false)])
    case Reads(r, f) =>
      && r < |s.readers| && s.readers[r].Inside?
      && s' == s.(readers := s.readers[r := AfterReading(s.readers[r], f, Deref(s))])
    case Unlocks(r) =>
      r < |s.readers| && s.readers[r].Inside? && s' == s.(readers := s.readers[r := Outside])
    case Leaves(r) =>
      r < |s.readers| && s.readers[r].Outside? && s' == s.(readers := s.readers[r := Gone])
    case _ => false
  }

  predicate ManagerNext(s: State, s': State, step: Step) {
    match step
    case Builds(a, config) =>
      && s.manager.Ready? && a !in s.heap
      && s' == s.(heap := s.heap[a := config], manager := Built(a))
    case TakesWriteLock =>
      && s.manager.Built? && (forall r :: 0 <= r < |s.readers| ==> !s.readers[r].Inside?)
      && s' == s.(manager := Holding(s.manager.made))
    case Swaps =>
      s.manager.Holding? && s' == s.(confData := To(s.manager.made), manager := Swapped(s.confData))
    case ReleasesWriteLock =>
      s.manager.Swapped? && s' == s.(manager := Freeing(s.manager.former))
    case Frees =>
      s.manager.Freeing? && s' == s.(heap := Free(s.heap, s.manager.former), manager := Ready)
    case JoinsListeners =>
      s.manager.Ready? && AllGone(s, ListenerRole) && s' == s.(manager := ListenersJoined)
    case JoinsRoom =>
      s.manager.ListenersJoined? && AllGone(s, RoomRole) && s' == s.(manager := RoomJoined)
    case JoinsWorkers =>
      s.manager.RoomJoined? && AllGone(s, WorkerRole) && s' == s.(manager := WorkersJoined)
    case CleansUp =>
      s.manager.WorkersJoined? && s' == s.(heap := Free(s.heap, s.confData), confData := Null, manager := Finished)
    case _ => false
  }

  predicate Next(s: State, s': State, step: Step) {
    ReaderNext(s, s', step) || ManagerNext(s, s', step)
  }

  predicate Init(s: State) {
    && s.confData.To? && s.heap.Keys == {s.confData.address} && s.manager.Ready? && |s.roles| == |s.readers|
    && (forall r :: 0 <= r < |s.readers| ==> s.readers[r].Outside?)
  }

  ghost predicate StepAt(states: seq<State>, steps: seq<Step>, k: nat)
    requires |states| == |steps| + 1 && k < |steps|
  {
    Next(states[k], states[k + 1], steps[k])
  }

  ghost predicate Run(states: seq<State>, steps: seq<Step>) {
    && |states| == |steps| + 1 && Init(states[0])
    && forall k: nat :: k < |steps| ==> StepAt(states, steps, k)
  }

  // ---- The lock

  /** Readers share the lock and the manager has it alone; nothing else keeps either from taking it. */
  lemma LockExcludes(s: State, r: nat)
    ensures (exists s' :: Next(s, s', Locks(r))) <==>
              r < |s.readers| && s.readers[r].Outside? && !s.manager.Holding? && !s.manager.Swapped?
    ensures (exists s' :: Next(s, s', TakesWriteLock)) <==>
              s.manager.Built? && forall i :: 0 <= i < |s.readers| ==> !s.readers[i].Inside?
  {
    if r < |s.readers| && s.readers[r].Outside? && !WriteLocked(s.manager) {
      assert Next(s, s.(readers := s.readers[r := Inside(Deref(s), map[], false)]), Locks(r));
    }
    if s.manager.Built? && forall i :: 0 <= i < |s.readers| ==> !s.readers[i].Inside? {
      assert Next(s, s.(manager := Holding(s.manager.made)), TakesWriteLock);
    }
  }

  // ---- The heap

  function Addresses(p: Pointer): set<nat> {
    if p.To? then {p.address} else {}
  }

  /** The addresses the manager's locals hold besides conf_data. */
  function InHand(m: Manager): set<nat> {
    match m
    case Built(a) => {a}
    case Holding(a) => {a}
    case Swapped(p) => Addresses(p)
    case Freeing(p) => Addresses(p)
    case _ => {}
  }

  predicate HeapSafe(s: State) {
    && (s.confData.Null? <==> s.manager.Finished?)
    && s.heap.Keys == InHand(s.manager) + Addresses(s.confData)
    && Addresses(s.confData) !! InHand(s.manager)
    && (s.manager.Swapped? || s.manager.Freeing? ==> s.manager.former.To?)
  }

  /** What a reader in its section has seen is still there, and all it read comes from it. */
  predicate Undisturbed(s: State, reader: Reader) {
    reader.Inside? ==>
      && reader.seen.Found? && Deref(s) == reader.seen && !reader.astray
      && forall f :: f in reader.got ==> reader.got[f] == Get(reader.seen.config, f)
  }

  predicate ReadersSafe(s: State) {
    && |s.roles| == |s.readers|
    && (forall r :: 0 <= r < |s.readers| ==> Undisturbed(s, s.readers[r]))
    && (WriteLocked(s.manager) ==> forall r :: 0 <= r < |s.readers| ==> !s.readers[r].Inside?)
  }

  predicate AtLeastJoined(m: Manager, role: Role) {
    match role
    case ListenerRole => m.ListenersJoined? || m.RoomJoined? || m.WorkersJoined? || m.Finished?
    case RoomRole => m.RoomJoined? || m.WorkersJoined? || m.Finished?
    case WorkerRole => m.WorkersJoined? || m.Finished?
  }

  predicate JoinsKept(s: State) {
    forall role :: AtLeastJoined(s.manager, role) ==> AllGone(s, role)
  }

  /** What is found in order. */
  datatype Finding = Finding(heap: bool, readers: bool, joins: bool)

  predicate Safe(s: State) {
    Finding(HeapSafe(s), ReadersSafe(s), JoinsKept(s)) == Finding(true, true, true)
  }

  lemma AllGoneMeansNobodyInside(s: State)
    requires AllGone(s, ListenerRole) && AllGone(s, RoomRole) && AllGone(s, WorkerRole)
    ensures forall r :: 0 <= r < |s.readers| ==> s.readers[r].Gone?
  {
    forall r | 0 <= r < |s.readers| ensures s.readers[r].Gone? {
      match s.roles[r]
      case ListenerRole =>
      case RoomRole =>
      case WorkerRole =>
    }
  }

  lemma ReaderKeepsSafe(s: State, s': State, step: Step)
    requires Safe(s) && ReaderNext(s, s', step)
    ensures Safe(s')
  {
    var r := step.r;
    if s.manager.Finished? {
      AllGoneMeansNobodyInside(s);
    }
    assert Undisturbed(s', s'.readers[r]);
  }

  lemma ManagerKeepsHeap(s: State, s': State, step: Step)
    requires HeapSafe(s) && ManagerNext(s, s', step)
    ensures HeapSafe(s')
  {
    match step
    case Builds(a, config) =>
      assert s'.heap.Keys == s.heap.Keys + {a};
    case Frees =>
      assert s'.heap.Keys == s.heap.Keys - Addresses(s.manager.former);
    case CleansUp =>
      assert s'.heap.Keys == s.heap.Keys - Addresses(s.confData);
    case _ =>
  }

  lemma ManagerKeepsReaders(s: State, s': State, step: Step)
    requires Safe(s) && ManagerNext(s, s', step)
    ensures ReadersSafe(s')
  {
    if step.CleansUp? {
      AllGoneMeansNobodyInside(s);
    }
  }

  lemma ManagerKeepsJoins(s: State, s': State, step: Step)
    requires JoinsKept(s) && ManagerNext(s, s', step)
    ensures JoinsKept(s')
  {
    forall role | AtLeastJoined(s'.manager, role) ensures AllGone(s', role) {
      assert AtLeastJoined(s.manager, role) || AllGone(s, role);
    }
  }

  lemma StepKeepsSafe(s: State, s': State, step: Step)
    requires Safe(s) && Next(s, s', step)
    ensures Safe(s')
  {
    if ReaderNext(s, s', step) {
      ReaderKeepsSafe(s, s', step);
    } else {
      ManagerKeepsHeap(s, s', step);
      ManagerKeepsReaders(s, s', step);
      ManagerKeepsJoins(s, s', step);
    }
  }

  lemma {:induction false} SafeAlways(states: seq<State>, steps: seq<Step>, k: nat)
    requires Run(states, steps) && k < |states|
    ensures Safe(states[k])
  {
    if k > 0 {
      SafeAlways(states, steps, k - 1);
      assert StepAt(states, steps, k - 1);
      StepKeepsSafe(states[k - 1], states[k], steps[k - 1]);
    }
  }

  /** Reader `r` holds the lock at `k` without having let go of it. */
  ghost predicate InSection(states: seq<State>, r: nat, k: nat)
    requires k < |states|
  {
    r < |states[k].readers| && states[k].readers[r].Inside?
  }

  lemma SectionGoesOn(states: seq<State>, steps: seq<Step>, k: nat, r: nat)
    requires Run(states, steps) && k < |steps| && InSection(states, r, k) && InSection(states, r, k + 1)
    ensures states[k + 1].readers[r].seen == states[k].readers[r].seen
  {
    assert StepAt(states, steps, k);
  }

  lemma {:induction false} SectionIsConstant(states: seq<State>, steps: seq<Step>, j: nat, k: nat, r: nat)
    requires Run(states, steps) && j <= k < |states|
    requires forall i: nat :: j <= i <= k ==> InSection(states, r, i)
    ensures InSection(states, r, j) && InSection(states, r, k)
    ensures states[k].readers[r].seen == states[j].readers[r].seen
  {
    assert InSection(states, r, j) && InSection(states, r, k);
    if j < k {
      SectionIsConstant(states, steps, j, k - 1, r);
      SectionGoesOn(states, steps, k - 1, r);
    }
  }

  /** In every interleaving of readers, reloads and the shutdown, from a lock to its unlock: conf_data leads to
      one and the same live configuration, no read goes astray, and whatever fields were read, in any order and
      at any time, are that configuration's. */
  lemma LockedReadersAreSafe(states: seq<State>, steps: seq<Step>, j: nat, k: nat, r: nat)
    requires Run(states, steps) && j <= k < |states|
    requires forall i: nat :: j <= i <= k ==> InSection(states, r, i)
    ensures InSection(states, r, k) && !states[k].readers[r].astray
    ensures Deref(states[k]).Found? && Deref(states[k]) == Deref(states[j])
    ensures forall f :: f in states[k].readers[r].got ==>
              states[k].readers[r].got[f] == Get(Deref(states[j]).config, f)
  {
    SectionIsConstant(states, steps, j, k, r);
    SafeAlways(states, steps, j);
    SafeAlways(states, steps, k);
    assert Undisturbed(states[j], states[j].readers[r]) && Undisturbed(states[k], states[k].readers[r]);
  }

  // ---- Which configuration it is

  /** The configuration given to the last reload, or the first one if there was none. */
  function LastBuilt(first: Config, steps: seq<Step>): Config {
    if steps == [] then first
    else
      var last := steps[|steps| - 1];
      if last.Builds? then last.config else LastBuilt(first, steps[..|steps| - 1])
  }

  /** The configuration that the last swap put in place, or the first one if there was none. */
  function Installed(first: Config, steps: seq<Step>): Config {
    if steps == [] then first
    else
      var before := steps[..|steps| - 1];
      if steps[|steps| - 1].Swaps? then LastBuilt(first, before) else Installed(first, before)
  }

  /** A configuration has been parsed and is not yet in place. */
  predicate Pending(m: Manager) {
    m.Built? || m.Holding?
  }

  function First(states: seq<State>): Config
    requires states != [] && Init(states[0])
  {
    states[0].heap[states[0].confData.address]
  }

  /** conf_data leads to the configuration in place; a pending one is the last that was built, and otherwise
      the last that was built is in place. */
  predicate UpToDate(s: State, first: Config, steps: seq<Step>) {
    (s.manager.Finished? || Deref(s) == Found(Installed(first, steps)),
     if Pending(s.manager)
     then s.manager.made in s.heap && s.heap[s.manager.made] == LastBuilt(first, steps)
     else Installed(first, steps) == LastBuilt(first, steps)) == (true, true)
  }

  lemma StepKeepsUpToDate(s: State, s': State, first: Config, before: seq<Step>, step: Step)
    requires Safe(s) && UpToDate(s, first, before) && Next(s, s', step)
    ensures UpToDate(s', first, before + [step])
  {
    assert (before + [step])[..|before|] == before;
    assert !step.Builds? ==> LastBuilt(first, before + [step]) == LastBuilt(first, before);
    assert !step.Swaps? ==> Installed(first, before + [step]) == Installed(first, before);
  }

  lemma {:induction false} UpToDateAlways(states: seq<State>, steps: seq<Step>, k: nat)
    requires Run(states, steps) && k < |states|
    ensures UpToDate(states[k], First(states), steps[..k])
  {
    if k > 0 {
      UpToDateAlways(states, steps, k - 1);
      SafeAlways(states, steps, k - 1);
      assert StepAt(states, steps, k - 1);
      assert steps[..k] == steps[..k - 1] + [steps[k - 1]];
      StepKeepsUpToDate(states[k - 1], states[k], First(states), steps[..k - 1], steps[k - 1]);
    }
  }

  /** A reload takes effect: in every run, up to the cleanup, conf_data leads to the configuration that the last
      swap put in place; and but for the time from the parsing of a new configuration to its swap, that is the
      one given to the last reload, or the first one before any reload. */
  lemma ReloadsTakeEffect(states: seq<State>, steps: seq<Step>, k: nat)
    requires Run(states, steps) && k < |states| && !states[k].manager.Finished?
    ensures Deref(states[k]) == Found(Installed(First(states), steps[..k]))
    ensures !Pending(states[k].manager) ==> Deref(states[k]) == Found(LastBuilt(First(states), steps[..k]))
  {
    UpToDateAlways(states, steps, k);
  }

  lemma SectionReads(states: seq<State>, steps: seq<Step>, k: nat, r: nat, f: Field)
    requires Run(states, steps) && k < |steps| && InSection(states, r, k) && InSection(states, r, k + 1)
    ensures f in states[k + 1].readers[r].got <==> f in states[k].readers[r].got || steps[k] == Reads(r, f)
  {
    SafeAlways(states, steps, k);
    assert Undisturbed(states[k], states[k].readers[r]);
    assert StepAt(states, steps, k);
  }

  /** From the lock at step `j` on, a reader has got exactly the fields that it read. */
  lemma {:induction false} GotIsWhatWasRead(states: seq<State>, steps: seq<Step>, j: nat, k: nat, r: nat, f: Field)
    requires Run(states, steps) && j < k < |states| && steps[j] == Locks(r)
    requires forall i: nat :: j < i <= k ==> InSection(states, r, i)
    ensures InSection(states, r, k)
    ensures f in states[k].readers[r].got <==> exists i :: j < i < k && steps[i] == Reads(r, f)
  {
    assert InSection(states, r, k);
    if j + 1 < k {
      GotIsWhatWasRead(states, steps, j, k - 1, r, f);
      SectionReads(states, steps, k - 1, r, f);
    } else {
      assert StepAt(states, steps, j);
    }
  }

  /** A section reads the configuration that was in place when it locked: after a reload that is the one given
      to the last reload. Its fields are what it gets, each under its own name, and it gets each one it reads. */
  lemma SectionsReadTheReloaded(states: seq<State>, steps: seq<Step>, j: nat, k: nat, r: nat)
    requires Run(states, steps) && j < k < |states| && steps[j] == Locks(r)
    requires forall i: nat :: j < i <= k ==> InSection(states, r, i)
    ensures InSection(states, r, k)
    ensures var got, c := states[k].readers[r].got, Installed(First(states), steps[..j]);
            forall f :: (f in got <==> exists i :: j < i < k && steps[i] == Reads(r, f))
                     && (f in got ==> got[f] == match f
                                                case DocRoot => c.docRoot
                                                case ServerToken => c.serverToken
                                                case QueueSize => c.queueSize
                                                case KeepaliveTimeout => c.keepaliveTimeout)
    ensures !Pending(states[j].manager) ==> Installed(First(states), steps[..j]) == LastBuilt(First(states), steps[..j])
  {
    forall f { GotIsWhatWasRead(states, steps, j, k, r, f); }
    LockedReadersAreSafe(states, steps, j + 1, k, r);
    UpToDateAlways(states, steps, j);
    SafeAlways(states, steps, j);
    SafeAlways(states, steps, j + 1);
    assert StepAt(states, steps, j);
  }

  /** No configuration is leaked or freed twice: what is on the heap is conf_data's and the manager's one
      other configuration. After the cleanup nothing is left, and every thread that could have read it is
      gone - which follows from the joins that came before. */
  lemma HeapIsAccountedFor(states: seq<State>, steps: seq<Step>, k: nat)
    requires Run(states, steps) && k < |states|
    ensures var s := states[k];
            && |s.heap.Keys| <= 2
            && (s.manager.Ready? ==> s.confData.To? && s.heap.Keys == {s.confData.address})
            && (s.manager.Freeing? ==>
                  s.manager.former.To? && s.manager.former.address in s.heap && s.confData != s.manager.former)
            && (s.manager.Finished? ==> s.heap == map[] && forall r :: 0 <= r < |s.readers| ==> s.readers[r].Gone?)
  {
    SafeAlways(states, steps, k);
    if states[k].manager.Finished? {
      AllGoneMeansNobodyInside(states[k]);
    }
  }
}
