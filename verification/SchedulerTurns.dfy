/** Over any run, a thread in k-th place runs after at most k yields or expired
    quanta, unless a thread of higher priority becomes ready. */
module SchedulerTurns {
  import opened PriorityOrder
  import opened Rings
  import opened SchedulerState
  import opened SchedulerRings
  import opened Scheduler
  import opened SchedulerLocks
  import opened SchedulerFairness
  import opened SchedulerTimer
  import opened Wrappers

  /** From s to s' thread t stays in line and nobody gets in front of it. */
  ghost predicate KeepsPlace(s: State, s': State, t: Tid)
    requires t in Ring(s, Ready)
  {
    InLine(s', t) && Ahead(s', t) <= Ahead(s, t)
  }

  // -------------------------------------------------- who is woken

  lemma LoopPriorities(s: State, a: Action)
    requires a.DoCondvarBroadcast? || a.DoReadUnlock? || a.DoWriteUnlock? || a.DoTimer?
    ensures Do(s, a).prio == s.prio
  {
    hide WakeAll, ExpireSleepers, YieldIfNecessary, Suspend;
    forall s1: State ensures YieldIfNecessary(s1).prio == s1.prio { YieldPrio(s1); }
    match a
    case DoCondvarBroadcast(c) => WakeAllPrio(s, CondQ(c));
    case DoReadUnlock(r) => WakeAllPrio(s.(locks := ReadGiven(s.locks, s.current, r)), RwQ(r));
    case DoWriteUnlock(r) => WakeAllPrio(s.(locks := WriteGiven(s.locks, s.current, r)), RwQ(r));
    case DoTimer(now, over) =>
      ExpirePrio(s, now);
      SuspendPrio(ExpireSleepers(s, now), Run);
  }

  lemma WakingPriorities(s: State, a: Action)
    requires a.DoMutexUnlock? || a.DoCondvarWait? || a.DoTimedWait? || a.DoCondvarSignal?
    ensures Do(s, a).prio == s.prio
  {
    hide Release, YieldIfNecessary, Wake, Suspend;
    match a
    case DoMutexUnlock(m) =>
      ReleasePrio(s, m);
      YieldPrio(Release(s, m));
    case DoCondvarWait(m) =>
      ReleasePrio(s, m);
      SuspendPrio(Release(s, m), LockWait(m));
    case DoTimedWait(c, m, until, now) =>
      ReleasePrio(s, m);
      SuspendPrio(SetTimeout(Release(s, m), until), TimedCondWait(c));
    case DoCondvarSignal(c) =>
      if Ring(s, CondQ(c)) != [] {
        WakePrio(s, Ring(s, CondQ(c))[0]);
        YieldPrio(Wake(s, Ring(s, CondQ(c))[0]));
      }
  }

  lemma ReleasePrio(s: State, m: nat)
    ensures Release(s, m).prio == s.prio
  {
    hide Wake;
    if Ring(s, MutexQ(m)) != [] {
      var u := Ring(s, MutexQ(m))[0];
      WakePrio(s.(locks := HandedOver(s.locks, s.current, m, u)), u);
    }
  }

  lemma StartPrio(s: State, t: Tid, p: int)
    ensures Start(s, t, p).prio == s.prio[t := p]
  {
    hide Move, YieldIfNecessary;
    MovedFields(s.(prio := s.prio[t := p]), t, Run);
    YieldPrio(Move(s.(prio := s.prio[t := p]), t, Run));
  }

  lemma ResumePrio(s: State)
    ensures Resume(s).prio == s.prio
  {
    hide Suspend;
    match PcOf(s, s.current)
    case ReadWoken(r) => SuspendPrio(s, ReadQueued(r));
    case WriteWoken(r) => SuspendPrio(s, WriteQueued(r));
    case _ =>
  }

  lemma SuspendPriorities(s: State, a: Action)
    requires a.DoMutexLock? || a.DoMutexlessWait? || a.DoReadLock? || a.DoWriteLock? || a.DoYield? || a.DoSleep?
      || a.DoTimedLock?
    ensures Do(s, a).prio == s.prio
  {
    hide Suspend;
    forall s1: State, pc: Pc ensures Suspend(s1, pc).prio == s1.prio { SuspendPrio(s1, pc); }
  }

  /** No call changes a priority, except for the thread it starts. */
  lemma Priorities(s: State, a: Action)
    ensures Do(s, a).prio == if a.DoStart? then s.prio[a.t := a.p] else s.prio
  {
    if a.DoCondvarBroadcast? || a.DoReadUnlock? || a.DoWriteUnlock? || a.DoTimer? {
      LoopPriorities(s, a);
    } else if a.DoMutexUnlock? || a.DoCondvarWait? || a.DoTimedWait? || a.DoCondvarSignal? {
      WakingPriorities(s, a);
    } else if a.DoStart? {
      StartPrio(s, a.t, a.p);
    } else if a.DoResume? {
      ResumePrio(s);
    } else if !a.DoExit? {
      SuspendPriorities(s, a);
    }
  }

  lemma SuspendPrio(s: State, pc: Pc)
    ensures Suspend(s, pc).prio == s.prio
  {
    hide Move;
    MovedFields(s, s.current, pc);
  }

  lemma YieldPrio(s: State)
    ensures YieldIfNecessary(s).prio == s.prio
  {
    hide Suspend;
    SuspendPrio(s, Run);
  }

  lemma WakePrio(s: State, u: Tid)
    ensures Wake(s, u).prio == s.prio
  {
    hide Move;
    MovedFields(s, u, Woken(PcOf(s, u)));
  }

  lemma {:induction false} WakeAllPrio(s: State, q: QId)
    requires q != Ready
    ensures WakeAll(s, q).prio == s.prio
    decreases |Ring(s, q)|
  {
    hide Wake;
    if Ring(s, q) != [] {
      WakeShortens(s, q);
      WakePrio(s, Ring(s, q)[0]);
      WakeAllPrio(Wake(s, Ring(s, q)[0]), q);
    }
  }

  lemma {:induction false} ExpirePrio(s: State, now: int)
    ensures ExpireSleepers(s, now).prio == s.prio
    decreases |s.sleep|
  {
    hide Wake;
    if s.sleep != [] && KeyOf(s.sleep[0], s.timeout) <= now {
      TimeOutShortens(s);
      WakePrio(s.(timedOut := s.timedOut + {s.sleep[0]}), s.sleep[0]);
      ExpirePrio(TimeOut(s, s.sleep[0]), now);
    }
  }

  /** A thread that a call leaves ready has no higher priority than t. */
  lemma NotHigher(s: State, a: Action, u: Tid, t: Tid)
    requires QueuesOk(s) && Enabled(s, a) && NoHigher(Do(s, a), t) && !a.DoStart?
    requires u in Do(s, a).pc && Home(Do(s, a).pc[u]) == Some(Ready)
    ensures KeyOf(u, s.prio) <= KeyOf(t, s.prio)
  {
    hide Do, Enabled, Sorted, Distinct;
    StepKeepsQueues(s, a);
    Priorities(s, a);
    assert RingOk(Do(s, a), Ready);
  }

  // -------------------------------------------------- the calls

  lemma ReleaseInLine(s: State, m: nat, t: Tid)
    requires InLine(s, t)
    requires Ring(s, MutexQ(m)) != [] ==> KeyOf(Ring(s, MutexQ(m))[0], s.prio) <= KeyOf(t, s.prio)
    ensures KeepsPlace(s, Release(s, m), t)
  {
    hide InLine, Wake, FrontOf;
    var waiters := Ring(s, MutexQ(m));
    InLineFacts(s, t);
    ReleaseQueues(s, m);
    if waiters == [] {
      SameReady(s, Release(s, m), t);
    } else {
      var s1 := s.(locks := HandedOver(s.locks, s.current, m, waiters[0]));
      Elsewhere(s, MutexQ(m), t);
      SameReady(s, s1, t);
      WakeInLine(s1, waiters[0], t);
    }
  }

  lemma ReleaseQueues(s: State, m: nat)
    requires QueuesOk(s)
    ensures QueuesOk(Release(s, m))
    ensures forall l :: QueuesOk(s.(locks := l))
  {
    hide RingsOk, SleepOk, Wake;
    ReleaseKeeps(s, m);
    forall l ensures QueuesOk(s.(locks := l)) { SameQueues(s, s.(locks := l)); }
  }

  lemma TimeoutInLine(s: State, s1: State, until: int, t: Tid)
    requires InLine(s, t)
    requires s1.rings == s.rings && s1.sleep == s.sleep && s1.pc == s.pc && s1.prio == s.prio
    requires s1.current == s.current && s1.halted == s.halted
    requires s1.timeout == s.timeout || s1.timeout == s.timeout[s.current := until]
    ensures InLine(s1, t) && Ahead(s1, t) == Ahead(s, t)
  {
    InLineFacts(s, t);
    hide RingsOk, SleepOk, FrontOf;
    if s1.timeout == s.timeout {
      SameQueues(s, s1);
    } else {
      SetTimeoutKeeps(s, until);
      SameQueues(s.(timeout := s.timeout[s.current := until]), s1);
    }
    SameReady(s, s1, t);
  }

  lemma ReadLockInLine(s: State, r: nat, t: Tid)
    requires InLine(s, t) && s.current != t
    ensures KeepsPlace(s, ReadLock(s, r), t)
  {
    InLineFacts(s, t);
    ReadLockKeeps(s, r);
    hide QueuesOk, Suspend, FrontOf, InLine;
    if r in s.locks.rwLocked || Writerq(s.locks, r) > 0 { SuspendInLine(s, ReadQueued(r), t); }
    else { SameReady(s, ReadLock(s, r), t); }
  }

  lemma ResumeInLine(s: State, t: Tid)
    requires InLine(s, t) && s.current != t
    ensures KeepsPlace(s, Resume(s), t)
  {
    hide QueuesOk, RingsOk, SleepOk, Suspend, FrontOf, InLine, ReadLock;
    InLineFacts(s, t);
    ResumeKeeps(s);
    match PcOf(s, s.current)
    case ReadWoken(r) => ReadLockInLine(s, r, t);
    case WriteWoken(r) =>
      if Busy(s.locks, r) { SuspendInLine(s, WriteQueued(r), t); } else { SameReady(s, Resume(s), t); }
    case TimedLockWoken(m) => SameReady(s, Resume(s), t);
    case _ =>
  }

  lemma WriteLockInLine(s: State, r: nat, t: Tid)
    requires InLine(s, t) && s.current != t
    ensures KeepsPlace(s, WriteLock(s, r), t)
  {
    hide Suspend, FrontOf, InLine;
    var s1 := s.(locks := s.locks.(writerq := Increased(s.locks.writerq, r)));
    TimeoutInLine(s, s1, 0, t);
    TimeoutInLine(s, s.(locks := WriteTaken(s.locks, s.current, r)), 0, t);
    SuspendInLine(s1, WriteQueued(r), t);
  }

  lemma TimedLockInLine(s: State, m: nat, until: int, now: int, t: Tid)
    requires InLine(s, t) && s.current != t
    ensures KeepsPlace(s, TimedLock(s, m, until, now), t)
  {
    hide Suspend, FrontOf, InLine;
    TimeoutInLine(s, s.(locks := Acquired(s.locks, s.current, m)), 0, t);
    TimeoutInLine(s, SetTimeout(s, until), until, t);
    SuspendInLine(SetTimeout(s, until), TimedLockWait(m), t);
  }

  /** Calls that only suspend the caller or change no ring. */
  lemma SuspendCalls(s: State, a: Action, t: Tid)
    requires InLine(s, t) && s.current != t
    requires a.DoMutexLock? || a.DoMutexlessWait? || a.DoReadLock? || a.DoWriteLock? || a.DoYield? || a.DoSleep?
      || a.DoTimedLock? || a.DoResume?
    ensures KeepsPlace(s, Do(s, a), t)
    ensures a.DoYield? ==> Ahead(Do(s, a), t) == Ahead(s, t) - {s.current}
  {
    hide Suspend, FrontOf, InLine, WriteLock, ReadLock, TimedLock, Resume;
    match a
    case DoMutexLock(m) =>
      SuspendInLine(s, LockWait(m), t);
      TimeoutInLine(s, s.(locks := Acquired(s.locks, s.current, m)), 0, t);
    case DoMutexlessWait(c) => SuspendInLine(s, CondWait(c), t);
    case DoReadLock(r) => ReadLockInLine(s, r, t);
    case DoWriteLock(r) => WriteLockInLine(s, r, t);
    case DoYield => SuspendInLine(s, Run, t);
    case DoSleep(until) =>
      TimeoutInLine(s, s.(timeout := s.timeout[s.current := until]), until, t);
      SuspendInLine(s.(timeout := s.timeout[s.current := until]), Asleep, t);
    case DoTimedLock(m, until, now) => TimedLockInLine(s, m, until, now, t);
    case DoResume => ResumeInLine(s, t);
  }

  /** The head waiter of mutex m is ready after the call. */
  lemma ReleasedIsNotHigher(s: State, a: Action, t: Tid)
    requires InLine(s, t) && Enabled(s, a) && NoHigher(Do(s, a), t)
    requires a.DoMutexUnlock? || a.DoCondvarWait? || a.DoTimedWait?
    requires Ring(s, MutexQ(a.m)) != []
    ensures KeyOf(Ring(s, MutexQ(a.m))[0], s.prio) <= KeyOf(t, s.prio)
  {
    var u := Ring(s, MutexQ(a.m))[0];
    InLineFacts(s, t);
    HeadIsHome(s, MutexQ(a.m));
    assert Do(s, a).pc[u] == Woken(s.pc[u]) && u in Do(s, a).pc by { ReleasedPc(s, a); }
    NotHigher(s, a, u, t);
  }

  lemma ReleasedPc(s: State, a: Action)
    requires QueuesOk(s) && Enabled(s, a)
    requires a.DoMutexUnlock? || a.DoCondvarWait? || a.DoTimedWait?
    requires Ring(s, MutexQ(a.m)) != []
    ensures var u := Ring(s, MutexQ(a.m))[0]; u in Do(s, a).pc && u in s.pc && Do(s, a).pc[u] == Woken(s.pc[u])
  {
    WaiterIsNotCurrent(s, a);
    hide QueuesOk, MutexUnlock, CondvarWait, TimedWait, Enabled;
    match a
    case DoMutexUnlock(m) => UnlockPc(s, m);
    case DoCondvarWait(m) => CondvarWaitPc(s, m);
    case DoTimedWait(c, m, until, now) => TimedWaitPc(s, c, m, until, now);
  }

  lemma WaiterIsNotCurrent(s: State, a: Action)
    requires QueuesOk(s) && Enabled(s, a)
    requires a.DoMutexUnlock? || a.DoCondvarWait? || a.DoTimedWait?
    ensures s.current in s.pc && s.pc[s.current] == Run && !s.halted && RingsOk(s)
  {
    hide RingsOk, SleepOk;
  }

  lemma UnlockPc(s: State, m: nat)
    requires RingsOk(s) && Ring(s, MutexQ(m)) != [] && s.current in s.pc && s.pc[s.current] == Run
    ensures var u, s' := Ring(s, MutexQ(m))[0], MutexUnlock(s, m); u in s'.pc && u in s.pc && s'.pc[u] == Woken(s.pc[u])
  {
    ReleaseWakes(s, m);
    hide RingsOk, Release, YieldIfNecessary;
    YieldEffect(Release(s, m));
  }

  lemma CondvarWaitPc(s: State, m: nat)
    requires RingsOk(s) && Ring(s, MutexQ(m)) != [] && s.current in s.pc && s.pc[s.current] == Run
    ensures var u, s' := Ring(s, MutexQ(m))[0], CondvarWait(s, m); u in s'.pc && u in s.pc && s'.pc[u] == Woken(s.pc[u])
  {
    HeadIsHome(s, MutexQ(m));
    ReleaseWakes(s, m);
    hide RingsOk, Release, Suspend;
    SuspendEffect(Release(s, m), LockWait(m));
  }

  lemma TimedWaitPc(s: State, c: nat, m: nat, until: int, now: int)
    requires RingsOk(s) && Ring(s, MutexQ(m)) != [] && s.current in s.pc && s.pc[s.current] == Run
    ensures var u, s' := Ring(s, MutexQ(m))[0], TimedWait(s, c, m, until, now);
      u in s'.pc && u in s.pc && s'.pc[u] == Woken(s.pc[u])
  {
    HeadIsHome(s, MutexQ(m));
    hide RingsOk, Release, Suspend;
    ReleaseWakes(s, m);
    SuspendEffect(SetTimeout(Release(s, m), until), TimedCondWait(c));
  }

  lemma ReleaseWakes(s: State, m: nat)
    requires RingsOk(s) && Ring(s, MutexQ(m)) != []
    ensures var u, s' := Ring(s, MutexQ(m))[0], Release(s, m);
      u in s.pc && s'.pc == s.pc[u := Woken(s.pc[u])] && s'.current == s.current
  {
    var u := Ring(s, MutexQ(m))[0];
    HeadIsHome(s, MutexQ(m));
    hide Wake;
    WakeEffect(s.(locks := HandedOver(s.locks, s.current, m, u)), u);
  }

  lemma UnlockInLine(s: State, m: nat, t: Tid)
    requires InLine(s, t) && s.current != t
    requires Ring(s, MutexQ(m)) != [] ==> KeyOf(Ring(s, MutexQ(m))[0], s.prio) <= KeyOf(t, s.prio)
    ensures KeepsPlace(s, MutexUnlock(s, m), t)
  {
    hide InLine, FrontOf, Release, YieldIfNecessary;
    ReleaseInLine(s, m, t);
    ReleaseHalted(s, m);
    YieldInLine(Release(s, m), t);
  }

  lemma CondvarWaitInLine(s: State, m: nat, t: Tid)
    requires InLine(s, t) && s.current != t
    requires Ring(s, MutexQ(m)) != [] ==> KeyOf(Ring(s, MutexQ(m))[0], s.prio) <= KeyOf(t, s.prio)
    ensures KeepsPlace(s, CondvarWait(s, m), t)
  {
    hide InLine, FrontOf, Release, MutexLock;
    ReleaseInLine(s, m, t);
    ReleaseHalted(s, m);
    SuspendCalls(Release(s, m), DoMutexLock(m), t);
    assert Do(Release(s, m), DoMutexLock(m)) == MutexLock(Release(s, m), m);
  }

  lemma TimedWaitInLine(s: State, c: nat, m: nat, until: int, now: int, t: Tid)
    requires InLine(s, t) && s.current != t
    requires Ring(s, MutexQ(m)) != [] ==> KeyOf(Ring(s, MutexQ(m))[0], s.prio) <= KeyOf(t, s.prio)
    ensures KeepsPlace(s, TimedWait(s, c, m, until, now), t)
  {
    hide InLine, FrontOf, Release, Suspend;
    ReleaseInLine(s, m, t);
    ReleaseHalted(s, m);
    TimeoutInLine(Release(s, m), SetTimeout(Release(s, m), until), until, t);
    SuspendInLine(SetTimeout(Release(s, m), until), TimedCondWait(c), t);
  }

  lemma ReleaseCalls(s: State, a: Action, t: Tid)
    requires InLine(s, t) && s.current != t && Enabled(s, a) && NoHigher(Do(s, a), t)
    requires a.DoMutexUnlock? || a.DoCondvarWait? || a.DoTimedWait?
    ensures KeepsPlace(s, Do(s, a), t)
  {
    hide KeepsPlace, InLine, MutexUnlock, CondvarWait, TimedWait, NoHigher, Enabled;
    if Ring(s, MutexQ(a.m)) != [] { ReleasedIsNotHigher(s, a, t); }
    match a
    case DoMutexUnlock(m) => UnlockInLine(s, m, t);
    case DoCondvarWait(m) => CondvarWaitInLine(s, m, t);
    case DoTimedWait(c, m, until, now) => TimedWaitInLine(s, c, m, until, now, t);
  }

  lemma WakeYieldInLine(s: State, l: Locks, q: QId, t: Tid)
    requires InLine(s, t) && s.current != t && q != Ready
    requires forall u :: u in Ring(s, q) ==> KeyOf(u, s.prio) <= KeyOf(t, s.prio)
    ensures KeepsPlace(s, YieldIfNecessary(WakeAll(s.(locks := l), q)), t)
  {
    hide InLine, FrontOf, WakeAll, YieldIfNecessary;
    TimeoutInLine(s, s.(locks := l), 0, t);
    WakeAllInLine(s.(locks := l), q, t);
    YieldInLine(WakeAll(s.(locks := l), q), t);
  }

  /** The threads on ring q are ready after the call. */
  lemma WokenAreNotHigher(s: State, a: Action, l: Locks, q: QId, t: Tid)
    requires InLine(s, t) && Enabled(s, a) && NoHigher(Do(s, a), t) && !a.DoStart? && q != Ready
    requires s.current in s.pc && s.pc[s.current] == Run
    requires Do(s, a) == YieldIfNecessary(WakeAll(s.(locks := l), q))
    ensures forall u :: u in Ring(s, q) ==> KeyOf(u, s.prio) <= KeyOf(t, s.prio)
  {
    InLineFacts(s, t);
    WokenAllPc(s, l, q);
    assert RingOk(s, q);
    hide Do, NoHigher, Enabled, InLine, RingsOk, SleepOk, YieldIfNecessary, WakeAll;
    forall u | u in Ring(s, q) ensures KeyOf(u, s.prio) <= KeyOf(t, s.prio) { NotHigher(s, a, u, t); }
  }

  lemma WokenAllPc(s: State, l: Locks, q: QId)
    requires QueuesOk(s) && s.current in s.pc && s.pc[s.current] == Run && q != Ready
    ensures YieldIfNecessary(WakeAll(s.(locks := l), q)).pc == WokenFrom(s.pc, q)
  {
    hide RingsOk, SleepOk, WakeAll, YieldIfNecessary;
    SameQueues(s, s.(locks := l));
    WakeAllEffect(s.(locks := l), q);
    YieldEffect(WakeAll(s.(locks := l), q));
  }

  lemma SignalInLine(s: State, c: nat, t: Tid)
    requires InLine(s, t) && s.current != t && Enabled(s, DoCondvarSignal(c)) && NoHigher(CondvarSignal(s, c), t)
    ensures KeepsPlace(s, CondvarSignal(s, c), t)
  {
    InLineFacts(s, t);
    if Ring(s, CondQ(c)) != [] {
      var u := Ring(s, CondQ(c))[0];
      Elsewhere(s, CondQ(c), t);
      hide InLine, FrontOf, Wake, YieldIfNecessary, QueuesOk, NoHigher;
      WakeEffect(s, u);
      YieldEffect(Wake(s, u));
      NotHigher(s, DoCondvarSignal(c), u, t);
      WakeInLine(s, u, t);
      YieldInLine(Wake(s, u), t);
    }
  }

  lemma CallerRuns(s: State, a: Action, t: Tid)
    requires InLine(s, t) && Enabled(s, a)
    requires a.DoCondvarSignal? || a.DoCondvarBroadcast? || a.DoReadUnlock? || a.DoWriteUnlock?
    ensures s.current in s.pc && s.pc[s.current] == Run
  {
    InLineFacts(s, t);
  }

  lemma WakeCalls(s: State, a: Action, t: Tid)
    requires InLine(s, t) && s.current != t && Enabled(s, a) && NoHigher(Do(s, a), t)
    requires a.DoCondvarSignal? || a.DoCondvarBroadcast? || a.DoReadUnlock? || a.DoWriteUnlock?
    ensures KeepsPlace(s, Do(s, a), t)
  {
    CallerRuns(s, a, t);
    hide QueuesOk, RingsOk, SleepOk, KeepsPlace, InLine, CondvarSignal, YieldIfNecessary, WakeAll, NoHigher, Enabled;
    InLineFacts(s, t);
    assert s.(locks := s.locks) == s;
    match a
    case DoCondvarSignal(c) => SignalInLine(s, c, t);
    case DoCondvarBroadcast(c) =>
      WokenAreNotHigher(s, a, s.locks, CondQ(c), t);
      WakeYieldInLine(s, s.locks, CondQ(c), t);
    case DoReadUnlock(r) =>
      WokenAreNotHigher(s, a, ReadGiven(s.locks, s.current, r), RwQ(r), t);
      WakeYieldInLine(s, ReadGiven(s.locks, s.current, r), RwQ(r), t);
    case DoWriteUnlock(r) =>
      WokenAreNotHigher(s, a, WriteGiven(s.locks, s.current, r), RwQ(r), t);
      WakeYieldInLine(s, WriteGiven(s.locks, s.current, r), RwQ(r), t);
  }

  /** A thread that becomes ready and is not of higher priority joins behind t. */
  lemma JoinInLine(s: State, u: Tid, t: Tid)
    requires QueuesOk(s) && !s.halted && t in Ring(s, Ready) && NoHigher(s, t) && s.current in Ahead(s, t)
    requires KeyOf(u, s.prio) <= KeyOf(t, s.prio) && u != t && u !in Ahead(s, t) && RingOk(s, Ready)
    ensures InLine(Move(s, u, Run), t) && Ahead(Move(s, u, Run), t) == Ahead(s, t)
    ensures Move(s, u, Run).current == s.current
  {
    hide RingsOk, SleepOk, Move, Ahead, Ring, RingOk;
    MoveAhead(s, u, Run, t);
    MoveKeeps(s, u, Run);
  }

  lemma StartInLine(s: State, u: Tid, p: int, t: Tid)
    requires InLine(s, t) && s.current != t && Enabled(s, DoStart(u, p)) && NoHigher(Start(s, u, p), t)
    ensures KeepsPlace(s, Start(s, u, p), t)
  {
    var s1 := s.(prio := s.prio[u := p]);
    InLineFacts(s, t);
    assert s.current in Ahead(s, t);
    StartedIsNotHigher(s, u, p, t);
    MayStart(s, u, p);
    hide QueuesOk, RingsOk, Move, YieldIfNecessary, Ahead, NoHigher, RingOk;
    SetPrioKeeps(s, u, p);
    Newcomer(s, u, p, t);
    JoinInLine(s1, u, t);
    hide InLine;
    YieldInLine(Move(s1, u, Run), t);
  }

  lemma Newcomer(s: State, u: Tid, p: int, t: Tid)
    requires InLine(s, t) && u !in s.pc
    ensures var s1 := s.(prio := s.prio[u := p]);
      NoHigher(s1, t) && RingOk(s1, Ready) && u !in Ring(s, Ready) && u !in Ahead(s, t) && Ahead(s1, t) == Ahead(s, t)
  {
    var ring := Ring(s, Ready);
    SetPrioKeeps(s, u, p);
    assert RingOk(s, Ready) && RingOk(s.(prio := s.prio[u := p]), Ready);
    assert forall v :: v in ring[..IndexOf(ring, t)] ==> v in ring;
  }

  lemma StartedIsNotHigher(s: State, u: Tid, p: int, t: Tid)
    requires InLine(s, t) && Enabled(s, DoStart(u, p)) && NoHigher(Start(s, u, p), t)
    ensures p <= KeyOf(t, s.prio) && t != u
  {
    StartFacts(s, u, p, t);
    hide *;
    StartPrio(s, u, p);
    StartPc(s, u, p);
    StartedIsReady(Start(s, u, p), u);
    HigherByPrio(Start(s, u, p), u, t, s.prio, p);
  }

  lemma StartFacts(s: State, u: Tid, p: int, t: Tid)
    requires InLine(s, t) && Enabled(s, DoStart(u, p))
    ensures s.current in s.pc && s.pc[s.current] == Run && t != u && QueuesOk(Start(s, u, p))
  {
    InLineFacts(s, t);
    hide *;
    StepKeepsQueues(s, DoStart(u, p));
    DoIs(s, DoStart(u, p));
    MayStart(s, u, p);
    LiveIfReady(s, t);
    LiveIfReady(s, s.current);
  }

  lemma MayStart(s: State, u: Tid, p: int)
    requires Enabled(s, DoStart(u, p))
    ensures PcOf(s, s.current) == Run && u !in s.pc && (s.current in s.pc ==> s.pc[s.current] == Run)
  {}

  lemma LiveIfReady(s: State, u: Tid)
    requires RingsOk(s) && u in Ring(s, Ready)
    ensures u in s.pc
  {
    assert RingOk(s, Ready);
  }

  lemma HigherByPrio(s: State, u: Tid, t: Tid, prio: map<Tid, int>, p: int)
    requires NoHigher(s, t) && u in Ring(s, Ready) && s.prio == prio[u := p] && t != u
    ensures p <= KeyOf(t, prio)
  {
    hide Ring;
  }

  lemma StartedIsReady(s: State, u: Tid)
    requires QueuesOk(s) && u in s.pc && s.pc[u] == Run
    ensures u in Ring(s, Ready)
  {
    assert RingOk(s, Ready);
  }

  lemma StartPc(s: State, u: Tid, p: int)
    requires s.current in s.pc && s.pc[s.current] == Run
    ensures Start(s, u, p).pc == s.pc[u := Run]
  {
    hide Move, YieldIfNecessary;
    var s1 := s.(prio := s.prio[u := p]);
    MovedFields(s1, u, Run);
    YieldEffect(Move(s1, u, Run));
  }

  lemma ExitInLine(s: State, t: Tid)
    requires InLine(s, t) && s.current != t
    ensures KeepsPlace(s, Exit(s), t)
  {
    hide QueuesOk, RingsOk, SleepOk, Without, FrontOf, IndexOf;
    InLineFacts(s, t);
    ExitKeeps(s);
    RemovedRing(s, s.current, Ready);
    WithoutAhead(Ring(s, Ready), s.current, t);
    WithoutMembers(Ring(s, Ready), s.current);
    var s1 := RemoveWait(s, s.current).(pc := s.pc - {s.current});
    assert Ring(s1, Ready) == Without(Ring(s, Ready), s.current);
    HeadIsAhead(Ring(s1, Ready), t);
  }

  lemma TimerInLine(s: State, now: int, over: bool, t: Tid)
    requires InLine(s, t) && s.current != t && Enabled(s, DoTimer(now, over)) && NoHigher(TimerElapsed(s, now, over), t)
    ensures KeepsPlace(s, TimerElapsed(s, now, over), t)
    ensures over ==> Ahead(TimerElapsed(s, now, over), t) == Ahead(s, t) - {s.current}
  {
    InLineFacts(s, t);
    DueAreNotHigher(s, now, over, t);
    hide InLine, FrontOf, ExpireSleepers, Suspend, NoHigher, QueuesOk;
    ExpireInLine(s, now, t);
    if over { SuspendInLine(ExpireSleepers(s, now), Run, t); }
  }

  lemma DueAreNotHigher(s: State, now: int, over: bool, t: Tid)
    requires InLine(s, t) && Enabled(s, DoTimer(now, over)) && NoHigher(TimerElapsed(s, now, over), t)
    ensures forall u :: u in s.sleep && KeyOf(u, s.timeout) <= now ==> KeyOf(u, s.prio) <= KeyOf(t, s.prio)
  {
    InLineFacts(s, t);
    assert s.current in s.pc && s.pc[s.current] == Run;
    hide QueuesOk, InLine, NoHigher, Enabled, Do;
    DoIs(s, DoTimer(now, over));
    hide TimerElapsed;
    forall u | u in s.sleep && KeyOf(u, s.timeout) <= now ensures KeyOf(u, s.prio) <= KeyOf(t, s.prio) {
      DueRuns(s, now, over, u);
      NotHigher(s, DoTimer(now, over), u, t);
    }
  }

  lemma DueRuns(s: State, now: int, over: bool, u: Tid)
    requires QueuesOk(s) && s.current in s.pc && s.pc[s.current] == Run
    requires u in s.sleep && KeyOf(u, s.timeout) <= now
    ensures var s' := TimerElapsed(s, now, over); u in s'.pc && Home(s'.pc[u]) == Some(Ready)
  {
    TimerWakesExactlyTheDue(s, now, u);
    ExpireKeeps(s, now);
    var s1 := ExpireSleepers(s, now);
    assert RingOk(s1, Ready);
    hide RingsOk, SleepOk, ExpireSleepers, Suspend;
    SuspendEffect(s1, Run);
  }

  // -------------------------------------------------- a step, and runs

  /** The step makes the running thread give way to its equals. */
  predicate GivesWay(a: Action) { a.DoYield? || (a.DoTimer? && a.quantumOver) }

  /** Nobody overtakes a thread in line; a yield or an expired quantum brings it
      one place forward. */
  lemma StepInLine(s: State, a: Action, t: Tid)
    requires InLine(s, t) && s.current != t && Enabled(s, a) && NoHigher(Do(s, a), t)
    ensures KeepsPlace(s, Do(s, a), t)
    ensures GivesWay(a) ==> Ahead(Do(s, a), t) == Ahead(s, t) - {s.current}
  {
    hide InLine, NoHigher, Ahead, KeepsPlace, Enabled, Do;
    match a
    case DoMutexUnlock(_) => ReleaseCalls(s, a, t);
    case DoCondvarWait(_) => ReleaseCalls(s, a, t);
    case DoTimedWait(_, _, _, _) => ReleaseCalls(s, a, t);
    case DoCondvarSignal(_) => WakeCalls(s, a, t);
    case DoCondvarBroadcast(_) => WakeCalls(s, a, t);
    case DoReadUnlock(_) => WakeCalls(s, a, t);
    case DoWriteUnlock(_) => WakeCalls(s, a, t);
    case DoStart(u, p) => DoIs(s, a); StartInLine(s, u, p, t);
    case DoExit => DoIs(s, a); ExitInLine(s, t);
    case DoTimer(now, over) => DoIs(s, a); TimerInLine(s, now, over, t);
    case _ => SuspendCalls(s, a, t);
  }

  lemma DoIs(s: State, a: Action)
    ensures a.DoStart? ==> Do(s, a) == Start(s, a.t, a.p)
    ensures a.DoExit? ==> Do(s, a) == Exit(s)
    ensures a.DoTimer? ==> Do(s, a) == TimerElapsed(s, a.now, a.quantumOver)
  {
    hide MutexLock, MutexUnlock, CondvarWait, CondvarSignal, CondvarBroadcast, Suspend, ReadLock, WriteLock, ReadUnlock;
    hide WriteUnlock, SwitchToNext, SleepUntil, TimedLock, TimedWait, Start, Exit, TimerElapsed, Resume;
  }

  function Turns(actions: seq<Action>): nat
  {
    if actions == [] then 0 else (if GivesWay(actions[0]) then 1 else 0) + Turns(actions[1..])
  }

  /** Until t runs, no thread of higher priority becomes ready. */
  ghost predicate Unbeaten(s: State, actions: seq<Action>, t: Tid)
    decreases |actions|
  {
    s.current == t || actions == [] ||
    (NoHigher(Do(s, actions[0]), t) && Unbeaten(Do(s, actions[0]), actions[1..], t))
  }

  ghost predicate Runs(s: State, actions: seq<Action>, t: Tid)
    decreases |actions|
  {
    s.current == t || (actions != [] && Runs(Do(s, actions[0]), actions[1..], t))
  }

  lemma {:induction false} InLineRuns(s: State, actions: seq<Action>, t: Tid)
    requires InLine(s, t) && LegalRun(s, actions) && Unbeaten(s, actions, t) && Turns(actions) >= |Ahead(s, t)|
    ensures Runs(s, actions, t)
    decreases |actions|
  {
    hide FrontOf, Do, Enabled, QueuesOk, NoHigher;
    if s.current != t {
      assert s.current in Ahead(s, t);
      StepInLine(s, actions[0], t);
      var s' := Do(s, actions[0]);
      Fewer(Ahead(s', t), Ahead(s, t), s.current);
      InLineRuns(s', actions[1..], t);
    }
  }

  lemma Fewer(a: set<Tid>, b: set<Tid>, u: Tid)
    requires a <= b && u in b
    ensures |a| <= |b|
    ensures a == b - {u} ==> |a| == |b| - 1
  {
    assert b == a + (b - a);
  }

  /** A thread in k-th place behind the running one, of the highest ready
      priority, runs within k yields or expired quanta, whatever else happens. */
  lemma RunsWithinItsTurns(s: State, t: Tid, k: nat, actions: seq<Action>)
    requires QueuesOk(s) && !s.halted && k < |Ring(s, Ready)|
    requires Ring(s, Ready)[k] == t && Ring(s, Ready)[0] == s.current
    requires NoHigher(s, t) && LegalRun(s, actions) && Unbeaten(s, actions, t) && Turns(actions) >= k
    ensures Runs(s, actions, t)
  {
    assert RingOk(s, Ready);
    AheadCount(Ring(s, Ready), t, k);
    HeadIsAhead(Ring(s, Ready), t);
    InLineRuns(s, actions, t);
  }

  lemma {:induction false} RunsMeansSomeStateRunsIt(s: State, actions: seq<Action>, t: Tid)
    ensures Runs(s, actions, t) <==> exists i :: 0 <= i <= |actions| && RunOf(s, actions[..i]).current == t
    decreases |actions|
  {
    assert actions[..0] == [];
    if actions != [] {
      RunsMeansSomeStateRunsIt(Do(s, actions[0]), actions[1..], t);
      forall i | 1 <= i <= |actions|
        ensures RunOf(s, actions[..i]) == RunOf(Do(s, actions[0]), actions[1..][..i - 1])
      {
        assert actions[..i][1..] == actions[1..][..i - 1];
      }
      if Runs(Do(s, actions[0]), actions[1..], t) {
        var j :| 0 <= j <= |actions| - 1 && RunOf(Do(s, actions[0]), actions[1..][..j]).current == t;
        assert RunOf(s, actions[..j + 1]).current == t;
      }
    }
  }
}
