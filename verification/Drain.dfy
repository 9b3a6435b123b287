/**
  The wait room's drain loop in shutdown: what queue_trypop's -1 does to it, and what that means for the
  conservation of connections, told by where the wait room stands when the wait queue's flag is set.
 */
module Drain {
  import opened QueueMonitor
  import opened Machine
  import opened Frames
  import opened Ledger
  import opened Threads
  import opened Jam

  predicate InDrainLoop(r: Room) {
    r.Draining? || r.Pooling?
  }

  ghost predicate StillDraining(s: State, s': State) {
    (s'.wait.shut, InDrainLoop(s'.room), s'.phase) == (true, true, s.phase)
  }

  lemma RoomStepDrains(s: State, s': State, act: RoomAct)
    requires RoomNext(s, s', act) && s.wait.shut && InDrainLoop(s.room)
    ensures StillDraining(s, s')
  {
  }

  lemma ServerStepDrains(s: State, s': State, act: ServerAct)
    requires Orderly(s) && ServerNext(s, s', act) && s.wait.shut && InDrainLoop(s.room)
    ensures StillDraining(s, s')
  {
  }

  lemma DrainStep(s: State, s': State, step: Step)
    requires Orderly(s) && Next(s, s', step) && s.wait.shut && InDrainLoop(s.room)
    ensures StillDraining(s, s')
  {
    match step
    case ListenerStep(l, act) => ListenerFrame(s, s', l, act);
    case WorkerStep(w, act) => WorkerFrame(s, s', w, act);
    case RoomStep(act) => RoomStepDrains(s, s', act);
    case ServerStep(act) => ServerStepDrains(s, s', act);
  }

  lemma DrainsOn(states: seq<State>, steps: seq<Step>, k: nat)
    requires Run(states, steps) && k < |steps| && states[k].wait.shut && InDrainLoop(states[k].room)
    ensures StillDraining(states[k], states[k + 1])
  {
    SoundAlways(states, steps, k);
    assert StepAt(states, steps, k);
    DrainStep(states[k], states[k + 1], steps[k]);
  }

  lemma {:induction false} DrainGoesOn(states: seq<State>, steps: seq<Step>, j: nat, k: nat)
    requires Run(states, steps) && j <= k < |states| && states[j].wait.shut && InDrainLoop(states[j].room)
    ensures states[k].wait.shut && InDrainLoop(states[k].room)
  {
    if j < k {
      DrainGoesOn(states, steps, j, k - 1);
      DrainsOn(states, steps, k - 1);
    }
  }

  lemma DrainsInWaitShut(s: State)
    requires Orderly(s) && s.wait.shut && InDrainLoop(s.room)
    ensures s.phase == WaitShut
  {
  }

  /** A wait room that is in its drain loop when the wait queue's flag is set never leaves the loop, so the
      shutdown thread waits for it forever. */
  lemma DrainNeverEnds(states: seq<State>, steps: seq<Step>, j: nat, k: nat)
    requires Run(states, steps) && j <= k < |states|
    requires states[j].wait.shut && InDrainLoop(states[j].room)
    ensures (states[k].wait.shut, InDrainLoop(states[k].room), states[k].phase) == (true, true, WaitShut)
  {
    DrainGoesOn(states, steps, j, k);
    SoundAlways(states, steps, k);
    DrainsInWaitShut(states[k]);
  }

  /** No -1 has come to the drain loop in the first `k` steps. */
  predicate NoneStale(steps: seq<Step>, k: nat) {
    forall j :: 0 <= j < k && j < |steps| ==> steps[j] != STALE
  }

  /** Copies are about only while the wait room is in its loop for ever. */
  lemma CopiesMeanDraining(states: seq<State>, steps: seq<Step>, k: nat)
    requires Run(states, steps) && k < |states| && states[k].phantom != []
    ensures states[k].wait.shut && InDrainLoop(states[k].room)
  {
    PhantomIffStale(states, steps, k);
    var j :| 0 <= j < k && steps[j] == STALE;
    FlagStays(states, steps, j);
    assert StepAt(states, steps, j);
    DrainNeverEnds(states, steps, j, k);
  }

  // ---- A wait room outside the loop never enters it again

  ghost predicate Outside(s: State) {
    s.wait.shut && !InDrainLoop(s.room)
  }

  lemma RoomStaysOutside(s: State, s': State, act: RoomAct)
    requires Orderly(s) && Outside(s) && RoomNext(s, s', act)
    ensures !InDrainLoop(s'.room) && !act.FindsShut?
  {
  }

  lemma StepStaysOutside(s: State, s': State, step: Step)
    requires Orderly(s) && Outside(s) && Next(s, s', step)
    ensures Outside(s') && step != STALE
  {
    ShutStep(s, s', step);
    match step
    case RoomStep(act) => RoomStaysOutside(s, s', act);
    case ListenerStep(l, act) => ListenerFrame(s, s', l, act);
    case WorkerStep(w, act) => WorkerFrame(s, s', w, act);
    case ServerStep(act) => ServerFrame(s, s', act);
  }

  lemma OutsideOn(states: seq<State>, steps: seq<Step>, k: nat)
    requires Run(states, steps) && k < |steps| && Outside(states[k])
    ensures Outside(states[k + 1]) && steps[k] != STALE
  {
    SoundAlways(states, steps, k);
    assert StepAt(states, steps, k);
    StepStaysOutside(states[k], states[k + 1], steps[k]);
  }

  lemma {:induction false} OutsideForEver(states: seq<State>, steps: seq<Step>, j: nat, k: nat)
    requires Run(states, steps) && j <= k < |states| && Outside(states[j])
    ensures Outside(states[k]) && forall i :: j <= i < k ==> steps[i] != STALE
  {
    if j < k {
      OutsideForEver(states, steps, j, k - 1);
      OutsideOn(states, steps, k - 1);
    }
  }

  /** If the flag is set while the wait room is outside its drain loop, every connection stays accounted for
      to the end of the run. */
  lemma ConservedIfFlaggedOutside(states: seq<State>, steps: seq<Step>, j: nat, k: nat)
    requires Run(states, steps) && j < k < |states| && !states[j].wait.shut && Outside(states[j + 1])
    ensures Conserved(states[k])
  {
    NoStaleBeforeShutdown(states, steps, j);
    FlagStays(states, steps, j);
    OutsideForEver(states, steps, j + 1, k);
    ConservationIff(states, steps, k);
  }

  // ---- A wait room inside the loop can always break the books

  /** The longer run begins with the shorter one. */
  ghost predicate Continues(states: seq<State>, steps: seq<Step>, states': seq<State>, steps': seq<Step>) {
    Run(states', steps') && states <= states' && steps <= steps'
  }

  /** How many steps the room takes to the next -1 if nobody else moves. */
  function ToMinusOne(s: State): nat {
    2 * |s.wait.items| + (if s.room.Pooling? then 1 else 0)
  }

  lemma RoomComesCloser(s: State, s': State, act: RoomAct)
    requires s.wait.shut && InDrainLoop(s.room) && RoomNext(s, s', act)
    ensures act.FindsShut? || (s'.wait.shut && InDrainLoop(s'.room) && ToMinusOne(s') < ToMinusOne(s))
  {
  }

  lemma {:induction false} DrainBreaksBooks(states: seq<State>, steps: seq<Step>)
    returns (states': seq<State>, steps': seq<Step>)
    requires Run(states, steps) && states[|steps|].wait.shut && InDrainLoop(states[|steps|].room)
    ensures Continues(states, steps, states', steps') && !Conserved(states'[|steps'|])
    decreases ToMinusOne(states[|steps|])
  {
    var s := states[|steps|];
    SoundAlways(states, steps, |steps|);
    assert RoomTid in s.work.putAsleep ==> RoomTid in Putters(s.work);
    RoomHasStep(s);
    var s', step :| Next(s, s', step) && TakenBy(step, RoomTid);
    var act := step.ra;
    states', steps' := states + [s'], steps + [RoomStep(act)];
    Extend(states, steps, s', RoomStep(act));
    RoomComesCloser(s, s', act);
    if act.FindsShut? {
      assert steps'[|steps|] == STALE;
      ConservationIff(states', steps', |steps'|);
    } else {
      states', steps' := DrainBreaksBooks(states', steps');
    }
  }

  /** Where the wait room stands when the wait queue's flag is set decides: every continuation of the run
      conserves connections if and only if the room is then outside its drain loop. */
  lemma FlagDecides(states: seq<State>, steps: seq<Step>)
    requires Run(states, steps) && steps != []
    requires !states[|steps| - 1].wait.shut && states[|steps|].wait.shut
    ensures (forall states', steps' :: Continues(states, steps, states', steps') ==> Conserved(states'[|steps'|]))
            <==> !InDrainLoop(states[|steps|].room)
  {
    if InDrainLoop(states[|steps|].room) {
      var states', steps' := DrainBreaksBooks(states, steps);
    } else {
      forall states', steps' | Continues(states, steps, states', steps') ensures Conserved(states'[|steps'|]) {
        ConservedIfFlaggedOutside(states', steps', |steps| - 1, |steps'|);
      }
    }
  }
}
