/** The kernel calls of thread.cpp as atomic steps, and the ring invariant over
    every interleaving of them. */
module Scheduler {
  import opened PriorityOrder
  import opened Rings
  import opened SchedulerState
  import opened SchedulerRings
  import opened Wrappers

  // -------------------------------------------------- scheduler internals

  /** _sched_resume_next_thread */
  function ResumeNext(s: State): State
  {
    if Ring(s, Ready) == [] then s.(halted := true) else s.(current := Ring(s, Ready)[0])
  }

  /** _sched_suspend_on_wait_queue and _sched_suspend_on_sleep_queue */
  function Suspend(s: State, pc: Pc): State { ResumeNext(Move(s, s.current, pc)) }

  /** _sched_switch_to_next_thread: the current thread goes behind its equals. */
  function SwitchToNext(s: State): State { Suspend(s, Run) }

  /** _sched_yield_if_necessary */
  function YieldIfNecessary(s: State): State
  {
    if Ring(s, Ready) != [] && Ring(s, Ready)[0] == s.current then s else SwitchToNext(s)
  }

  function PcOf(s: State, t: Tid): Pc { if t in s.pc then s.pc[t] else Run }

  /** sleep_queue_remove, sleep_queue_detach, _sched_reschedule_thread */
  function Wake(s: State, t: Tid): State { Move(s, t, Woken(PcOf(s, t))) }

  lemma WakeShortens(s: State, q: QId)
    requires q != Ready && Ring(s, q) != []
    ensures |Ring(Wake(s, Ring(s, q)[0]), q)| < |Ring(s, q)|
  {
    MovedRing(s, Ring(s, q)[0], Woken(PcOf(s, Ring(s, q)[0])), q);
  }

  /** The loop that empties a wait queue. */
  function WakeAll(s: State, q: QId): State
    requires q != Ready
    decreases |Ring(s, q)|
  {
    if Ring(s, q) == [] then s else
      WakeShortens(s, q);
      WakeAll(Wake(s, Ring(s, q)[0]), q)
  }

  function TimeOut(s: State, t: Tid): State { Wake(s.(timedOut := s.timedOut + {t}), t) }

  lemma TimeOutShortens(s: State)
    requires s.sleep != []
    ensures |TimeOut(s, s.sleep[0]).sleep| < |s.sleep|
  {
    var s1, t := s.(timedOut := s.timedOut + {s.sleep[0]}), s.sleep[0];
    MovedSleep(s1, t, Woken(PcOf(s1, t)));
  }

  /** The loop of _sched_timer_elapsed. */
  function ExpireSleepers(s: State, now: int): State
    decreases |s.sleep|
  {
    if s.sleep == [] || now < KeyOf(s.sleep[0], s.timeout) then s else
      TimeOutShortens(s);
      ExpireSleepers(TimeOut(s, s.sleep[0]), now)
  }

  // -------------------------------------------------- the calls

  function MutexLock(s: State, m: nat): State
  {
    if m in s.locks.locked then Suspend(s, LockWait(m)) else s.(locks := Acquired(s.locks, s.current, m))
  }

  function Acquired(l: Locks, t: Tid, m: nat): Locks { l.(locked := l.locked + {m}, owns := l.owns + {(t, m)}) }

  function Freed(l: Locks, t: Tid, m: nat): Locks { l.(locked := l.locked - {m}, owns := l.owns - {(t, m)}) }

  function HandedOver(l: Locks, t: Tid, m: nat, next: Tid): Locks { l.(owns := l.owns - {(t, m)} + {(next, m)}) }

  /** The lock is released, or handed to the first waiter without ever being
      free. */
  function Release(s: State, m: nat): State
  {
    var waiters := Ring(s, MutexQ(m));
    if waiters == [] then s.(locks := Freed(s.locks, s.current, m))
    else Wake(s.(locks := HandedOver(s.locks, s.current, m, waiters[0])), waiters[0])
  }

  function MutexUnlock(s: State, m: nat): State
  {
    if Ring(s, MutexQ(m)) == [] then Release(s, m) else YieldIfNecessary(Release(s, m))
  }

  /** condvar_wait: the condition variable itself plays no part. */
  function CondvarWait(s: State, m: nat): State { MutexLock(Release(s, m), m) }

  function CondvarSignal(s: State, c: nat): State
  {
    var waiters := Ring(s, CondQ(c));
    if waiters == [] then s else YieldIfNecessary(Wake(s, waiters[0]))
  }

  function CondvarBroadcast(s: State, c: nat): State { YieldIfNecessary(WakeAll(s, CondQ(c))) }

  function Increased(counts: map<nat, nat>, r: nat): map<nat, nat>
  {
    counts[r := if r in counts then counts[r] + 1 else 1]
  }

  function Decreased(counts: map<nat, nat>, r: nat): map<nat, nat>
  {
    counts[r := if r in counts && counts[r] > 0 then counts[r] - 1 else 0]
  }

  function ReadTaken(l: Locks, t: Tid, r: nat): Locks
  {
    l.(readers := Increased(l.readers, r), reading := l.reading[r := Reading(l, r) + multiset{t}])
  }

  function ReadGiven(l: Locks, t: Tid, r: nat): Locks
  {
    l.(readers := Decreased(l.readers, r), reading := l.reading[r := Reading(l, r) - multiset{t}])
  }

  function WriteTaken(l: Locks, t: Tid, r: nat): Locks
  {
    l.(rwLocked := l.rwLocked + {r}, writing := l.writing + {(t, r)})
  }

  function WriteGiven(l: Locks, t: Tid, r: nat): Locks
  {
    l.(rwLocked := l.rwLocked - {r}, writing := l.writing - {(t, r)})
  }

  function NowRunning(s: State): State { s.(pc := s.pc[s.current := Run]) }

  function ReadLock(s: State, r: nat): State
  {
    if r in s.locks.rwLocked || Writerq(s.locks, r) > 0 then Suspend(s, ReadQueued(r))
    else NowRunning(s).(locks := ReadTaken(s.locks, s.current, r))
  }

  predicate Busy(l: Locks, r: nat) { r in l.rwLocked || Readers(l, r) > 0 }

  function WriteLock(s: State, r: nat): State
  {
    if Busy(s.locks, r) then
      Suspend(s.(locks := s.locks.(writerq := Increased(s.locks.writerq, r))), WriteQueued(r))
    else s.(locks := WriteTaken(s.locks, s.current, r))
  }

  function ReadUnlock(s: State, r: nat): State
  {
    YieldIfNecessary(WakeAll(s.(locks := ReadGiven(s.locks, s.current, r)), RwQ(r)))
  }

  function WriteUnlock(s: State, r: nat): State
  {
    YieldIfNecessary(WakeAll(s.(locks := WriteGiven(s.locks, s.current, r)), RwQ(r)))
  }

  function SetTimeout(s: State, until: int): State
  {
    s.(timeout := s.timeout[s.current := until], timedOut := s.timedOut - {s.current})
  }

  /** thread_sleep and thread_sleep_seconds, which do not reset the flag. */
  function SleepUntil(s: State, until: int): State
  {
    Suspend(s.(timeout := s.timeout[s.current := until]), Asleep)
  }

  function TimedLock(s: State, m: nat, until: int, now: int): State
  {
    if m !in s.locks.locked then s.(locks := Acquired(s.locks, s.current, m))
    else if until == 0 || now >= until then s
    else Suspend(SetTimeout(s, until), TimedLockWait(m))
  }

  function TimedWait(s: State, c: nat, m: nat, until: int, now: int): State
  {
    var s1 := Release(s, m);
    if now >= until then s1 else Suspend(SetTimeout(s1, until), TimedCondWait(c))
  }

  function Start(s: State, t: Tid, p: int): State
  {
    YieldIfNecessary(Move(s.(prio := s.prio[t := p]), t, Run))
  }

  function Exit(s: State): State
  {
    ResumeNext(RemoveWait(s, s.current).(pc := s.pc - {s.current}))
  }

  function TimerElapsed(s: State, now: int, quantumOver: bool): State
  {
    var s1 := ExpireSleepers(s, now);
    if quantumOver then SwitchToNext(s1) else s1
  }

  /** What a resumed thread does before interrupts are enabled again. */
  function Resume(s: State): State
  {
    match PcOf(s, s.current)
    case ReadWoken(r) => ReadLock(s, r)
    case WriteWoken(r) =>
      if Busy(s.locks, r) then Suspend(s, WriteQueued(r))
      else NowRunning(s).(locks := WriteTaken(s.locks.(writerq := Decreased(s.locks.writerq, r)), s.current, r))
    case TimedLockWoken(m) =>
      NowRunning(s).(locks := Attempted(s.locks, m, s.current in s.timedOut))
    case _ => s
  }

  /** The assignment to _locked when a timed attempt resumes, late or in time. */
  function Attempted(l: Locks, m: nat, late: bool): Locks
  {
    l.(locked := if late then l.locked - {m} else l.locked + {m},
       spoiled := if late && m in l.locked then l.spoiled + {m} else l.spoiled)
  }

  /** The next step of the current thread is such an assignment, which is late and
      finds the mutex locked. */
  predicate LateResume(s: State, a: Action, m: nat)
  {
    a.DoResume? && PcOf(s, s.current) == TimedLockWoken(m) && s.current in s.timedOut && m in s.locks.locked
  }

  datatype Action =
    | DoMutexLock(m: nat)
    | DoMutexUnlock(m: nat)
    | DoCondvarWait(m: nat)
    | DoCondvarSignal(c: nat)
    | DoCondvarBroadcast(c: nat)
    | DoMutexlessWait(c: nat)
    | DoReadLock(r: nat)
    | DoWriteLock(r: nat)
    | DoReadUnlock(r: nat)
    | DoWriteUnlock(r: nat)
    | DoYield
    | DoSleep(until: int)
    | DoTimedLock(m: nat, until: int, now: int)
    | DoTimedWait(c: nat, m: nat, until: int, now: int)
    | DoStart(t: Tid, p: int)
    | DoExit
    | DoTimer(now: int, quantumOver: bool)
    | DoResume

  function Do(s: State, a: Action): State
  {
    match a
    case DoMutexLock(m) => MutexLock(s, m)
    case DoMutexUnlock(m) => MutexUnlock(s, m)
    case DoCondvarWait(m) => CondvarWait(s, m)
    case DoCondvarSignal(c) => CondvarSignal(s, c)
    case DoCondvarBroadcast(c) => CondvarBroadcast(s, c)
    case DoMutexlessWait(c) => Suspend(s, CondWait(c))
    case DoReadLock(r) => ReadLock(s, r)
    case DoWriteLock(r) => WriteLock(s, r)
    case DoReadUnlock(r) => ReadUnlock(s, r)
    case DoWriteUnlock(r) => WriteUnlock(s, r)
    case DoYield => SwitchToNext(s)
    case DoSleep(until) => SleepUntil(s, until)
    case DoTimedLock(m, until, now) => TimedLock(s, m, until, now)
    case DoTimedWait(c, m, until, now) => TimedWait(s, c, m, until, now)
    case DoStart(t, p) => Start(s, t, p)
    case DoExit => Exit(s)
    case DoTimer(now, quantumOver) => TimerElapsed(s, now, quantumOver)
    case DoResume => Resume(s)
  }

  /** The caller holds the mutex, as far as that can still be said. */
  predicate MayRelease(s: State, m: nat) { (s.current, m) in s.locks.owns || m in s.locks.spoiled }

  /** A resumed call runs on before anything else happens; otherwise the current
      thread may make any call, releasing only what it holds, and the timer may
      go off. */
  predicate Enabled(s: State, a: Action)
  {
    && !s.halted
    && (a.DoResume? <==> PcOf(s, s.current) != Run)
    && match a
       case DoMutexUnlock(m) => MayRelease(s, m)
       case DoCondvarWait(m) => MayRelease(s, m)
       case DoTimedWait(_, m, _, _) => MayRelease(s, m)
       case DoReadUnlock(r) => s.current in Reading(s.locks, r)
       case DoWriteUnlock(r) => (s.current, r) in s.locks.writing
       case DoStart(t, _) => t !in s.pc
       case _ => true
  }

  /** sched_setup: the primordial thread alone, running. */
  function Initial(t: Tid, p: int): State
  {
    State(t, false, map[t := Run], map[Ready := [t]], [], map[t := p], map[], {},
          Locks({}, {}, {}, {}, map[], map[], {}, map[]))
  }

  predicate LegalRun(s: State, actions: seq<Action>)
    decreases |actions|
  {
    actions == [] || (Enabled(s, actions[0]) && LegalRun(Do(s, actions[0]), actions[1..]))
  }

  function RunOf(s: State, actions: seq<Action>): State
    decreases |actions|
  {
    if actions == [] then s else RunOf(Do(s, actions[0]), actions[1..])
  }

  // -------------------------------------------------- the ring invariant

  /** Fields no ring depends on. */
  lemma SameQueues(s: State, s': State)
    requires s'.rings == s.rings && s'.sleep == s.sleep && s'.pc == s.pc && s'.prio == s.prio && s'.timeout == s.timeout
    ensures RingsOk(s) ==> RingsOk(s')
    ensures SleepOk(s) ==> SleepOk(s')
  {
    if RingsOk(s) {
      forall q ensures RingOk(s', q) { assert RingOk(s, q); }
    }
  }

  lemma HeadIsHome(s: State, q: QId)
    requires RingsOk(s) && Ring(s, q) != []
    ensures Ring(s, q)[0] in s.pc && Home(s.pc[Ring(s, q)[0]]) == Some(q)
  {
    assert RingOk(s, q);
  }

  lemma ResumeNextKeeps(s: State)
    requires RingsOk(s) && SleepOk(s)
    ensures QueuesOk(ResumeNext(s))
  {
    hide RingsOk, SleepOk;
    SameQueues(s, ResumeNext(s));
    if Ring(s, Ready) != [] { HeadIsHome(s, Ready); }
  }

  lemma SuspendKeeps(s: State, pc: Pc)
    requires RingsOk(s) && SleepOk(s)
    ensures QueuesOk(Suspend(s, pc))
  {
    MoveKeeps(s, s.current, pc);
    ResumeNextKeeps(Move(s, s.current, pc));
  }

  lemma YieldKeeps(s: State)
    requires RingsOk(s) && SleepOk(s)
    ensures QueuesOk(YieldIfNecessary(s))
  {
    if Ring(s, Ready) != [] && Ring(s, Ready)[0] == s.current {
      assert RingOk(s, Ready);
    } else {
      SuspendKeeps(s, Run);
    }
  }

  lemma WakeKeeps(s: State, t: Tid)
    requires RingsOk(s) && SleepOk(s)
    ensures RingsOk(Wake(s, t)) && SleepOk(Wake(s, t))
    ensures CurrentOk(s) ==> CurrentOk(Wake(s, t))
  {
    MoveKeeps(s, t, Woken(PcOf(s, t)));
  }

  lemma {:induction false} WakeAllKeeps(s: State, q: QId)
    requires RingsOk(s) && SleepOk(s) && q != Ready
    ensures RingsOk(WakeAll(s, q)) && SleepOk(WakeAll(s, q))
    decreases |Ring(s, q)|
  {
    if Ring(s, q) != [] {
      WakeShortens(s, q);
      WakeKeeps(s, Ring(s, q)[0]);
      WakeAllKeeps(Wake(s, Ring(s, q)[0]), q);
    }
  }

  lemma SetTimeoutKeeps(s: State, until: int)
    requires QueuesOk(s) && !s.halted
    ensures RingsOk(s.(timeout := s.timeout[s.current := until]))
    ensures SleepOk(s.(timeout := s.timeout[s.current := until]))
  {
    var s' := s.(timeout := s.timeout[s.current := until]);
    forall q ensures RingOk(s', q) { assert RingOk(s, q); }
    assert KeysBy(s'.sleep, s'.timeout) == KeysBy(s.sleep, s.timeout);
  }

  lemma SetPrioKeeps(s: State, t: Tid, p: int)
    requires QueuesOk(s) && t !in s.pc
    ensures QueuesOk(s.(prio := s.prio[t := p]))
  {
    var s' := s.(prio := s.prio[t := p]);
    forall q ensures RingOk(s', q) {
      assert RingOk(s, q);
      assert KeysBy(Ring(s', q), s'.prio) == KeysBy(Ring(s, q), s.prio);
    }
  }

  lemma RunKeeps(s: State)
    requires QueuesOk(s) && !s.halted
    ensures QueuesOk(s.(pc := s.pc[s.current := Run]))
  {
    var s' := s.(pc := s.pc[s.current := Run]);
    forall q ensures RingOk(s', q) { assert RingOk(s, q); }
  }

  lemma ExitKeeps(s: State)
    requires QueuesOk(s) && !s.halted
    ensures QueuesOk(Exit(s))
  {
    var t, s' := s.current, RemoveWait(s, s.current).(pc := s.pc - {s.current});
    forall q ensures RingOk(s', q) {
      assert RingOk(s, q);
      RemovedRing(s, t, q);
      WithoutMembers(Ring(s, q), t);
      WithoutSorted(Ring(s, q), t, s.prio, BY_PRIORITY);
    }
    assert SleepOk(s');
    ResumeNextKeeps(s');
  }

  lemma {:induction false} ExpireKeeps(s: State, now: int)
    requires QueuesOk(s)
    ensures QueuesOk(ExpireSleepers(s, now))
    decreases |s.sleep|
  {
    if !(s.sleep == [] || now < KeyOf(s.sleep[0], s.timeout)) {
      var s1 := s.(timedOut := s.timedOut + {s.sleep[0]});
      SameQueues(s, s1);
      WakeKeeps(s1, s.sleep[0]);
      TimeOutShortens(s);
      ExpireKeeps(TimeOut(s, s.sleep[0]), now);
    }
  }

  lemma ReleaseKeeps(s: State, m: nat)
    requires QueuesOk(s)
    ensures QueuesOk(Release(s, m))
  {
    hide RingsOk, SleepOk, Move;
    var waiters := Ring(s, MutexQ(m));
    SameQueues(s, s.(locks := Release(s, m).locks));
    if waiters != [] {
      var s1 := s.(locks := HandedOver(s.locks, s.current, m, waiters[0]));
      SameQueues(s, s1);
      WakeKeeps(s1, waiters[0]);
    }
  }

  lemma WakeCurrent(s: State, t: Tid)
    ensures Wake(s, t).current == s.current && Wake(s, t).halted == s.halted
  {
    hide Move;
    MovedFields(s, t, Woken(PcOf(s, t)));
  }

  lemma CallKeeps(s: State, a: Action)
    requires QueuesOk(s) && Enabled(s, a)
    requires a.DoMutexLock? || a.DoMutexUnlock? || a.DoCondvarWait? || a.DoCondvarSignal? || a.DoCondvarBroadcast?
      || a.DoMutexlessWait? || a.DoYield? || a.DoStart? || a.DoExit? || a.DoTimer?
    ensures QueuesOk(Do(s, a))
  {
    hide RingsOk, SleepOk, Move, ResumeNext, Release, WakeAll, ExpireSleepers, Wake;
    match a
    case DoMutexLock(m) => MutexLockKeeps(s, m);
    case DoMutexUnlock(m) =>
      ReleaseKeeps(s, m);
      YieldKeeps(Release(s, m));
    case DoCondvarWait(m) =>
      ReleaseKeeps(s, m);
      MutexLockKeeps(Release(s, m), m);
    case DoCondvarSignal(c) =>
      if Ring(s, CondQ(c)) != [] {
        WakeKeeps(s, Ring(s, CondQ(c))[0]);
        YieldKeeps(Wake(s, Ring(s, CondQ(c))[0]));
      }
    case DoCondvarBroadcast(c) =>
      WakeAllKeeps(s, CondQ(c));
      YieldKeeps(WakeAll(s, CondQ(c)));
    case DoMutexlessWait(c) => SuspendKeeps(s, CondWait(c));
    case DoYield => SuspendKeeps(s, Run);
    case DoStart(t, p) =>
      SetPrioKeeps(s, t, p);
      MoveKeeps(s.(prio := s.prio[t := p]), t, Run);
      YieldKeeps(Move(s.(prio := s.prio[t := p]), t, Run));
    case DoExit => ExitKeeps(s);
    case DoTimer(now, over) =>
      ExpireKeeps(s, now);
      if over { SuspendKeeps(ExpireSleepers(s, now), Run); }
  }

  lemma MutexLockKeeps(s: State, m: nat)
    requires QueuesOk(s)
    ensures QueuesOk(MutexLock(s, m))
  {
    hide RingsOk, SleepOk, Move, ResumeNext;
    if m in s.locks.locked {
      SuspendKeeps(s, LockWait(m));
    } else {
      SameQueues(s, MutexLock(s, m));
    }
  }

  lemma TakenKeeps(s: State, l: Locks)
    requires QueuesOk(s) && !s.halted
    ensures QueuesOk(NowRunning(s).(locks := l)) && QueuesOk(s.(locks := l))
  {
    hide RingsOk, SleepOk;
    RunKeeps(s);
    SameQueues(NowRunning(s), NowRunning(s).(locks := l));
    SameQueues(s, s.(locks := l));
  }

  lemma ReadLockKeeps(s: State, r: nat)
    requires QueuesOk(s) && !s.halted
    ensures QueuesOk(ReadLock(s, r))
  {
    hide RingsOk, SleepOk, Move, ResumeNext;
    SuspendKeeps(s, ReadQueued(r));
    TakenKeeps(s, ReadTaken(s.locks, s.current, r));
  }

  lemma WakeAllAndYieldKeeps(s: State, l: Locks, q: QId)
    requires QueuesOk(s) && q != Ready
    ensures QueuesOk(YieldIfNecessary(WakeAll(s.(locks := l), q)))
  {
    SameQueues(s, s.(locks := l));
    WakeAllKeeps(s.(locks := l), q);
    YieldKeeps(WakeAll(s.(locks := l), q));
  }

  lemma WriteLockKeeps(s: State, r: nat)
    requires QueuesOk(s) && !s.halted
    ensures QueuesOk(WriteLock(s, r))
  {
    hide RingsOk, SleepOk, Move, ResumeNext;
    var l := s.locks.(writerq := Increased(s.locks.writerq, r));
    TakenKeeps(s, l);
    SuspendKeeps(s.(locks := l), WriteQueued(r));
    TakenKeeps(s, WriteTaken(s.locks, s.current, r));
  }

  lemma ResumeKeeps(s: State)
    requires QueuesOk(s) && !s.halted
    ensures QueuesOk(Resume(s))
  {
    hide RingsOk, SleepOk, Move, ResumeNext, ReadLock;
    match PcOf(s, s.current)
    case ReadWoken(r) => ReadLockKeeps(s, r);
    case WriteWoken(r) =>
      SuspendKeeps(s, WriteQueued(r));
      TakenKeeps(s, Resume(s).locks);
    case TimedLockWoken(m) => TakenKeeps(s, Resume(s).locks);
    case _ =>
  }

  lemma RwCallKeeps(s: State, a: Action)
    requires QueuesOk(s) && Enabled(s, a)
    requires a.DoReadLock? || a.DoWriteLock? || a.DoReadUnlock? || a.DoWriteUnlock? || a.DoResume?
    ensures QueuesOk(Do(s, a))
  {
    hide RingsOk, SleepOk, ReadLock, WriteLock, Resume, WakeAll, YieldIfNecessary;
    match a
    case DoReadLock(r) => ReadLockKeeps(s, r);
    case DoWriteLock(r) => WriteLockKeeps(s, r);
    case DoReadUnlock(r) => WakeAllAndYieldKeeps(s, ReadGiven(s.locks, s.current, r), RwQ(r));
    case DoWriteUnlock(r) => WakeAllAndYieldKeeps(s, WriteGiven(s.locks, s.current, r), RwQ(r));
    case DoResume => ResumeKeeps(s);
  }

  lemma TimedSuspendKeeps(s: State, until: int, pc: Pc)
    requires QueuesOk(s) && !s.halted
    ensures QueuesOk(Suspend(SetTimeout(s, until), pc))
  {
    hide RingsOk, SleepOk, Move, ResumeNext;
    SetTimeoutKeeps(s, until);
    SameQueues(s.(timeout := s.timeout[s.current := until]), SetTimeout(s, until));
    SuspendKeeps(SetTimeout(s, until), pc);
  }

  lemma TimedCallKeeps(s: State, a: Action)
    requires QueuesOk(s) && Enabled(s, a) && (a.DoSleep? || a.DoTimedLock? || a.DoTimedWait?)
    ensures QueuesOk(Do(s, a))
  {
    hide RingsOk, SleepOk, Move, ResumeNext, Release, Suspend;
    match a
    case DoSleep(until) =>
      SetTimeoutKeeps(s, until);
      SuspendKeeps(s.(timeout := s.timeout[s.current := until]), Asleep);
    case DoTimedLock(m, until, now) =>
      TimedSuspendKeeps(s, until, TimedLockWait(m));
      SameQueues(s, s.(locks := Acquired(s.locks, s.current, m)));
    case DoTimedWait(c, m, until, now) =>
      ReleaseKeeps(s, m);
      ReleaseHalted(s, m);
      TimedSuspendKeeps(Release(s, m), until, TimedCondWait(c));
  }

  lemma ReleaseHalted(s: State, m: nat)
    ensures Release(s, m).halted == s.halted && Release(s, m).current == s.current
  {
    hide Move;
    var waiters := Ring(s, MutexQ(m));
    if waiters != [] {
      WakeCurrent(s.(locks := HandedOver(s.locks, s.current, m, waiters[0])), waiters[0]);
    }
  }

  lemma StepKeepsQueues(s: State, a: Action)
    requires QueuesOk(s) && Enabled(s, a)
    ensures QueuesOk(Do(s, a))
  {
    hide QueuesOk, Do;
    match a
    case DoReadLock(_) => RwCallKeeps(s, a);
    case DoWriteLock(_) => RwCallKeeps(s, a);
    case DoReadUnlock(_) => RwCallKeeps(s, a);
    case DoWriteUnlock(_) => RwCallKeeps(s, a);
    case DoResume => RwCallKeeps(s, a);
    case DoSleep(_) => TimedCallKeeps(s, a);
    case DoTimedLock(_, _, _) => TimedCallKeeps(s, a);
    case DoTimedWait(_, _, _, _) => TimedCallKeeps(s, a);
    case _ => CallKeeps(s, a);
  }

  /** Every interleaving of kernel calls and timer interrupts, from any state
      with the ring invariant and so from boot. */
  lemma {:induction false} RunKeepsQueues(s: State, actions: seq<Action>)
    requires QueuesOk(s) && LegalRun(s, actions)
    ensures QueuesOk(RunOf(s, actions))
    decreases |actions|
  {
    if actions != [] {
      StepKeepsQueues(s, actions[0]);
      RunKeepsQueues(Do(s, actions[0]), actions[1..]);
    }
  }

  lemma InitialQueues(t: Tid, p: int)
    ensures QueuesOk(Initial(t, p))
  {
    var s := Initial(t, p);
    forall q ensures RingOk(s, q) { assert q == Ready || Ring(s, q) == []; }
  }

  /** Being woken takes a thread off both its rings and puts it once on the ready
      queue, whichever of unlock, signal and timer does it. */
  lemma WakingMovesToReady(s: State, t: Tid)
    requires QueuesOk(s) && t in s.pc
    ensures var s' := Wake(s, t);
      && t in Ring(s', Ready) && t !in s'.sleep
      && (forall q :: q != Ready ==> t !in Ring(s', q))
      && (forall i, j :: 0 <= i < j < |Ring(s', Ready)| ==> Ring(s', Ready)[i] != Ring(s', Ready)[j])
  {
    var s' := Wake(s, t);
    WakeKeeps(s, t);
    assert RingOk(s', Ready);
    forall q | q != Ready ensures t !in Ring(s', q) { assert RingOk(s', q); }
  }

  // -------------------------------------------------- who runs

  /** No ready thread has a higher priority than the current one. */
  ghost predicate RunsHighest(s: State)
  {
    s.current in Ring(s, Ready) && forall u :: u in Ring(s, Ready) ==> KeyOf(u, s.prio) <= KeyOf(s.current, s.prio)
  }

  lemma HeadIsHighest(s: State, u: Tid)
    requires RingOk(s, Ready) && u in Ring(s, Ready)
    ensures KeyOf(u, s.prio) <= KeyOf(Ring(s, Ready)[0], s.prio)
  {
    var ring := Ring(s, Ready);
    var i := IndexOf(ring, u);
    assert KeysBy(ring, s.prio)[i] == KeyOf(u, s.prio) && KeysBy(ring, s.prio)[0] == KeyOf(ring[0], s.prio);
  }

  /** The thread resumed is a ready one of the highest priority; the kernel stops
      exactly when no live thread is ready. */
  lemma ResumeNextRunsHighest(s: State)
    requires RingsOk(s) && SleepOk(s) && !s.halted
    ensures var s' := ResumeNext(s);
      && (s'.halted <==> forall t :: t in s.pc ==> Home(s.pc[t]) != Some(Ready))
      && (!s'.halted ==> RunsHighest(s'))
  {
    assert RingOk(s, Ready);
    if Ring(s, Ready) != [] {
      assert Ring(s, Ready)[0] in Ring(s, Ready);
      forall u | u in Ring(s, Ready)
        ensures KeyOf(u, s.prio) <= KeyOf(Ring(s, Ready)[0], s.prio)
      {
        HeadIsHighest(s, u);
      }
    } else {
      forall t | t in s.pc ensures Home(s.pc[t]) != Some(Ready) { assert t !in Ring(s, Ready); }
    }
  }

  /** A yield that is only made if necessary never leaves a thread running while one
      of higher priority is ready. */
  lemma YieldRunsHighest(s: State)
    requires QueuesOk(s) && !s.halted
    ensures !YieldIfNecessary(s).halted && RunsHighest(YieldIfNecessary(s))
  {
    var ring := Ring(s, Ready);
    if ring != [] && ring[0] == s.current {
      ResumeNextRunsHighest(s);
    } else {
      hide RingsOk, SleepOk, Move;
      MoveKeeps(s, s.current, Run);
      var s1 := Move(s, s.current, Run);
      MovedFields(s, s.current, Run);
      ResumeNextRunsHighest(s1);
      assert s.current in s1.pc && Home(s1.pc[s.current]) == Some(Ready);
    }
  }

  /** An ended thread is on no queue; the others stand as before. */
  lemma ExitLeavesNoTrace(s: State)
    requires QueuesOk(s) && !s.halted
    ensures var t, s' := s.current, Exit(s);
      && t !in s'.pc && t !in s'.sleep && (forall q :: t !in Ring(s', q))
      && (forall u :: u in s.pc && u != t ==> u in s'.pc && s'.pc[u] == s.pc[u])
      && (forall q :: Ring(s', q) == Without(Ring(s, q), t)) && s'.sleep == s.sleep
      && (s'.halted <==> forall u :: u in s'.pc ==> Home(s'.pc[u]) != Some(Ready))
      && (!s'.halted ==> RunsHighest(s'))
  {
    var t, s1 := s.current, RemoveWait(s, s.current).(pc := s.pc - {s.current});
    forall q ensures Ring(Exit(s), q) == Without(Ring(s, q), t) && t !in Ring(Exit(s), q) {
      assert RingOk(s, q);
      RemovedRing(s, t, q);
      WithoutMembers(Ring(s, q), t);
    }
    ExitKeeps(s);
    hide RingsOk, SleepOk;
    SameQueues(Exit(s), s1);
    ResumeNextRunsHighest(s1);
  }
}
