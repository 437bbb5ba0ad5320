/** Moving threads between rings, and what every move keeps. */
module SchedulerRings {
  import opened PriorityOrder
  import opened Rings
  import opened SchedulerState
  import opened Wrappers

  function RemoveWait(s: State, t: Tid): State
  {
    s.(rings := map q | q in s.rings :: Without(s.rings[q], t))
  }

  function InsertWait(s: State, t: Tid, q: QId): State
  {
    s.(rings := s.rings[q := Enqueued(Ring(s, q), t, s.prio, BY_PRIORITY)])
  }

  function RemoveSleep(s: State, t: Tid): State
  {
    s.(sleep := Without(s.sleep, t))
  }

  function InsertSleep(s: State, t: Tid): State
  {
    s.(sleep := Enqueued(s.sleep, t, s.timeout, BY_TIMEOUT))
  }

  /** Off its rings and onto those of the new continuation. */
  function Move(s: State, t: Tid, pc: Pc): State
  {
    var off := RemoveSleep(RemoveWait(s, t), t).(pc := s.pc[t := pc]);
    var on := if Home(pc).Some? then InsertWait(off, t, Home(pc).value) else off;
    if Timed(pc) then InsertSleep(on, t) else on
  }

  /** Ring q holds exactly the threads whose continuation belongs there, each
      once, highest priority first. */
  ghost predicate RingOk(s: State, q: QId)
  {
    && Distinct(Ring(s, q))
    && (forall t :: t in Ring(s, q) <==> t in s.pc && Home(s.pc[t]) == Some(q))
    && Sorted(KeysBy(Ring(s, q), s.prio), BY_PRIORITY)
  }

  ghost predicate RingsOk(s: State) { forall q :: RingOk(s, q) }

  /** The sleep ring holds exactly the threads with a pending timeout, each once,
      earliest first. */
  ghost predicate SleepOk(s: State)
  {
    && Distinct(s.sleep)
    && (forall t :: t in s.sleep <==> t in s.pc && Timed(s.pc[t]))
    && Sorted(KeysBy(s.sleep, s.timeout), BY_TIMEOUT)
  }

  ghost predicate CurrentOk(s: State)
  {
    !s.halted ==> s.current in s.pc && Home(s.pc[s.current]) == Some(Ready)
  }

  ghost predicate QueuesOk(s: State) { RingsOk(s) && SleepOk(s) && CurrentOk(s) }

  /** Each live thread is on exactly one wait ring, or on none and only asleep;
      on no ring is it twice; it sleeps exactly when a timeout is pending. */
  lemma ExactlyOneRing(s: State, t: Tid)
    requires QueuesOk(s) && t in s.pc
    ensures Home(s.pc[t]).Some? ==> t in Ring(s, Home(s.pc[t]).value)
    ensures Home(s.pc[t]).None? ==> t in s.sleep
    ensures forall q, q' :: t in Ring(s, q) && t in Ring(s, q') ==> q == q'
    ensures t in s.sleep <==> Timed(s.pc[t])
    ensures forall q, i, j :: 0 <= i < |Ring(s, q)| && 0 <= j < |Ring(s, q)| ==>
      Ring(s, q)[i] == t == Ring(s, q)[j] ==> i == j
  {
    assert forall q :: RingOk(s, q);
    if Home(s.pc[t]).Some? { assert RingOk(s, Home(s.pc[t]).value); }
    forall q, q' | t in Ring(s, q) && t in Ring(s, q') ensures q == q' { assert RingOk(s, q) && RingOk(s, q'); }
    forall q, i, j | 0 <= i < |Ring(s, q)| && 0 <= j < |Ring(s, q)| && Ring(s, q)[i] == t == Ring(s, q)[j]
      ensures i == j
    {
      assert RingOk(s, q);
    }
  }

  lemma RemovedRing(s: State, t: Tid, q: QId)
    ensures Ring(RemoveWait(s, t), q) == Without(Ring(s, q), t)
  {}

  lemma MovedRing(s: State, t: Tid, pc: Pc, q: QId)
    ensures Ring(Move(s, t, pc), q) ==
      if Home(pc) == Some(q) then Enqueued(Without(Ring(s, q), t), t, s.prio, BY_PRIORITY) else Without(Ring(s, q), t)
  {
    hide Enqueued, Without;
    RemovedRing(s, t, q);
  }

  lemma MovedSleep(s: State, t: Tid, pc: Pc)
    ensures Move(s, t, pc).sleep ==
      if Timed(pc) then Enqueued(Without(s.sleep, t), t, s.timeout, BY_TIMEOUT) else Without(s.sleep, t)
  {
    hide Enqueued, Without, Ring;
  }

  /** A move changes the rings and one continuation, nothing else. */
  lemma MovedFields(s: State, t: Tid, pc: Pc)
    ensures Move(s, t, pc) == s.(pc := s.pc[t := pc], rings := Move(s, t, pc).rings, sleep := Move(s, t, pc).sleep)
  {
    hide Enqueued, Without, Ring;
  }

  lemma MoveKeepsRing(s: State, t: Tid, pc: Pc, q: QId)
    requires RingOk(s, q)
    ensures RingOk(Move(s, t, pc), q)
  {
    var ring, off, s' := Ring(s, q), Without(Ring(s, q), t), Move(s, t, pc);
    hide Move, Enqueued, Without, Sorted, StrictWeak;
    MovedRing(s, t, pc, q);
    MovedFields(s, t, pc);
    WithoutMembers(ring, t);
    WithoutSorted(ring, t, s.prio, BY_PRIORITY);
    if Home(pc) == Some(q) {
      KernelOrdersAreStrictWeak();
      EnqueuedMembers(off, t, s.prio, BY_PRIORITY);
      EnqueuedSorted(off, t, s.prio, BY_PRIORITY);
    }
  }

  lemma MoveKeepsSleep(s: State, t: Tid, pc: Pc)
    requires SleepOk(s)
    ensures SleepOk(Move(s, t, pc))
  {
    hide Move, Enqueued, Without, Sorted, StrictWeak;
    var off := Without(s.sleep, t);
    MovedSleep(s, t, pc);
    MovedFields(s, t, pc);
    WithoutMembers(s.sleep, t);
    WithoutSorted(s.sleep, t, s.timeout, BY_TIMEOUT);
    KernelOrdersAreStrictWeak();
    EnqueuedMembers(off, t, s.timeout, BY_TIMEOUT);
    EnqueuedSorted(off, t, s.timeout, BY_TIMEOUT);
  }

  lemma MoveKeeps(s: State, t: Tid, pc: Pc)
    requires RingsOk(s) && SleepOk(s)
    ensures RingsOk(Move(s, t, pc)) && SleepOk(Move(s, t, pc))
    ensures CurrentOk(s) && (t == s.current ==> Home(pc) == Some(Ready)) ==> CurrentOk(Move(s, t, pc))
  {
    forall q ensures RingOk(Move(s, t, pc), q) { MoveKeepsRing(s, t, pc, q); }
    MoveKeepsSleep(s, t, pc);
  }
}
