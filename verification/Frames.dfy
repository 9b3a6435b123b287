/**
  What a step of each thread leaves alone.
 */
module Frames {
  import opened Machine

  lemma ListenerFrame(s: State, s': State, l: nat, act: ListenerAct)
    requires ListenerNext(s, s', l, act)
    ensures s' == s.(listeners := s'.listeners, work := s'.work, open := s'.open, nextId := s'.nextId,
                     admitted := s'.admitted)
  {
  }

  /** Outside an exchange, a worker touches its own place and the queues. */
  lemma WorkerFrame(s: State, s': State, w: nat, act: WorkerAct)
    requires WorkerNext(s, s', w, act)
    ensures s' == s.(workers := s'.workers, work := s'.work, wait := s'.wait, open := s'.open, armed := s'.armed,
                     closed := s'.closed, demuxes := s'.demuxes, answers := s'.answers)
    ensures !act.Serves? ==> s' == s.(workers := s'.workers, work := s'.work, wait := s'.wait)
    ensures s'.wait.shut == s.wait.shut
  {
  }

  lemma RoomFrame(s: State, s': State, act: RoomAct)
    requires RoomNext(s, s', act)
    ensures s' == s.(room := s'.room, last := s'.last, pool := s'.pool, leaked := s'.leaked, armed := s'.armed,
                     closed := s'.closed, open := s'.open, work := s'.work, wait := s'.wait, phantom := s'.phantom)
    ensures s.closed <= s'.closed && s'.wait.shut == s.wait.shut && (act.FindsShut? ==> s.wait.shut)
  {
  }

  lemma ServerFrame(s: State, s': State, act: ServerAct)
    requires ServerNext(s, s', act)
    ensures s' == s.(now := s'.now, work := s'.work, wait := s'.wait, phase := s'.phase)
    ensures s.wait.shut ==> s'.wait.shut
  {
  }
}
