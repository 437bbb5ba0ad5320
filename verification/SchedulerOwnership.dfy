/** Who owns a mutex when a blocked call returns, and a run that breaks the
    mutual exclusion of a mutex used with a timed call. */
module SchedulerOwnership {
  import opened PriorityOrder
  import opened Rings
  import opened SchedulerState
  import opened SchedulerRings
  import opened Scheduler
  import opened SchedulerLocks
  import opened SchedulerSafety
  import opened Wrappers

  /** Thread t is still waiting for m, or it runs and owns m. */
  ghost predicate WaitsOrOwns(s: State, t: Tid, m: nat)
  {
    t in s.pc && (s.pc[t] == LockWait(m) || (s.pc[t] == Run && (t, m) in s.locks.owns))
  }

  lemma ReleaseWaits(s: State, k: nat, t: Tid, m: nat)
    requires QueuesOk(s) && WaitsOrOwns(s, t, m) && t != s.current
    ensures WaitsOrOwns(Release(s, k), t, m)
  {
    var waiters := Ring(s, MutexQ(k));
    if waiters != [] {
      HeadIsHome(s, MutexQ(k));
      hide RingsOk, SleepOk, Wake;
      WakeEffect(s.(locks := HandedOver(s.locks, s.current, k, waiters[0])), waiters[0]);
    }
  }

  lemma SuspendWaits(s: State, p: Pc, t: Tid, m: nat)
    requires WaitsOrOwns(s, t, m) && t != s.current
    ensures WaitsOrOwns(Suspend(s, p), t, m)
  {
    hide Suspend;
    SuspendEffect(s, p);
  }

  lemma YieldWaits(s: State, t: Tid, m: nat)
    requires WaitsOrOwns(s, t, m) && t != s.current
    ensures WaitsOrOwns(YieldIfNecessary(s), t, m)
  {
    hide Suspend;
    SuspendWaits(s, Run, t, m);
  }

  lemma WakeAllWaits(s: State, l: Locks, q: QId, t: Tid, m: nat)
    requires QueuesOk(s) && WaitsOrOwns(s, t, m) && t != s.current && (q.CondQ? || q.RwQ?) && l.owns == s.locks.owns
    ensures WaitsOrOwns(YieldIfNecessary(WakeAll(s.(locks := l), q)), t, m)
  {
    hide RingsOk, SleepOk, WakeAll, YieldIfNecessary;
    SameQueues(s, s.(locks := l));
    WakeAllEffect(s.(locks := l), q);
    YieldWaits(WakeAll(s.(locks := l), q), t, m);
  }

  lemma MutexCallWaits(s: State, a: Action, t: Tid, m: nat)
    requires Inv(s) && Enabled(s, a) && WaitsOrOwns(s, t, m) && t != s.current
    requires a.DoMutexLock? || a.DoMutexUnlock? || a.DoCondvarWait? || a.DoTimedLock? || a.DoTimedWait?
    ensures WaitsOrOwns(Do(s, a), t, m)
  {
    hide LocksHold, RingsOk, SleepOk, Suspend, Release, YieldIfNecessary;
    match a
    case DoMutexLock(k) => SuspendWaits(s, LockWait(k), t, m);
    case DoMutexUnlock(k) =>
      ReleaseWaits(s, k, t, m);
      ReleaseHalted(s, k);
      YieldWaits(Release(s, k), t, m);
    case DoCondvarWait(k) =>
      ReleaseWaits(s, k, t, m);
      ReleaseHalted(s, k);
      SuspendWaits(Release(s, k), LockWait(k), t, m);
    case DoTimedLock(k, until, now) =>
      SuspendWaits(SetTimeout(s, until), TimedLockWait(k), t, m);
    case DoTimedWait(c, k, until, now) =>
      ReleaseWaits(s, k, t, m);
      ReleaseHalted(s, k);
      SuspendWaits(SetTimeout(Release(s, k), until), TimedCondWait(c), t, m);
  }

  lemma WakeCallWaits(s: State, a: Action, t: Tid, m: nat)
    requires Inv(s) && Enabled(s, a) && WaitsOrOwns(s, t, m) && t != s.current
    requires a.DoCondvarSignal? || a.DoCondvarBroadcast?
    ensures WaitsOrOwns(Do(s, a), t, m)
  {
    hide LocksHold, RingsOk, SleepOk, Suspend, Wake, WakeAll, ExpireSleepers, YieldIfNecessary, Move, Exit;
    match a
    case DoCondvarSignal(c) =>
      if Ring(s, CondQ(c)) != [] {
        var w := Ring(s, CondQ(c))[0];
        HeadIsHome(s, CondQ(c));
        WakeEffect(s, w);
        YieldWaits(Wake(s, w), t, m);
      }
    case DoCondvarBroadcast(c) =>
      WakeAllWaits(s, s.locks, CondQ(c), t, m);
      assert s.(locks := s.locks) == s;
  }

  lemma StopCallWaits(s: State, a: Action, t: Tid, m: nat)
    requires Inv(s) && Enabled(s, a) && WaitsOrOwns(s, t, m) && t != s.current
    requires a.DoMutexlessWait? || a.DoYield? || a.DoSleep? || a.DoStart? || a.DoExit? || a.DoTimer?
    ensures WaitsOrOwns(Do(s, a), t, m)
  {
    hide LocksHold, RingsOk, SleepOk, Suspend, Wake, WakeAll, ExpireSleepers, YieldIfNecessary, Move, Exit;
    match a
    case DoMutexlessWait(c) => SuspendWaits(s, CondWait(c), t, m);
    case DoYield => SuspendWaits(s, Run, t, m);
    case DoSleep(until) => SuspendWaits(s.(timeout := s.timeout[s.current := until]), Asleep, t, m);
    case DoStart(u, p) =>
      MovedFields(s.(prio := s.prio[u := p]), u, Run);
      YieldWaits(Move(s.(prio := s.prio[u := p]), u, Run), t, m);
    case DoExit => ExitEffect(s);
    case DoTimer(now, over) =>
      ExpireEffect(s, now);
      SuspendWaits(ExpireSleepers(s, now), Run, t, m);
  }

  lemma OtherCallWaits(s: State, a: Action, t: Tid, m: nat)
    requires Inv(s) && Enabled(s, a) && WaitsOrOwns(s, t, m) && t != s.current
    requires a.DoCondvarSignal? || a.DoCondvarBroadcast? || a.DoMutexlessWait? || a.DoYield? || a.DoSleep?
      || a.DoStart? || a.DoExit? || a.DoTimer?
    ensures WaitsOrOwns(Do(s, a), t, m)
  {
    hide Inv, Enabled, Do, WaitsOrOwns;
    if a.DoCondvarSignal? || a.DoCondvarBroadcast? { WakeCallWaits(s, a, t, m); } else { StopCallWaits(s, a, t, m); }
  }

  lemma RwCallWaits(s: State, a: Action, t: Tid, m: nat)
    requires Inv(s) && Enabled(s, a) && WaitsOrOwns(s, t, m) && t != s.current
    requires a.DoReadLock? || a.DoWriteLock? || a.DoReadUnlock? || a.DoWriteUnlock? || a.DoResume?
    ensures WaitsOrOwns(Do(s, a), t, m)
  {
    hide LocksHold, RingsOk, SleepOk, Suspend, WakeAll, YieldIfNecessary;
    match a
    case DoReadLock(r) => SuspendWaits(s, ReadQueued(r), t, m);
    case DoWriteLock(r) =>
      SuspendWaits(s.(locks := s.locks.(writerq := Increased(s.locks.writerq, r))), WriteQueued(r), t, m);
    case DoReadUnlock(r) => WakeAllWaits(s, ReadGiven(s.locks, s.current, r), RwQ(r), t, m);
    case DoWriteUnlock(r) => WakeAllWaits(s, WriteGiven(s.locks, s.current, r), RwQ(r), t, m);
    case DoResume =>
      match PcOf(s, s.current) {
        case ReadWoken(r) => SuspendWaits(s, ReadQueued(r), t, m);
        case WriteWoken(r) => SuspendWaits(s, WriteQueued(r), t, m);
        case _ =>
      }
  }

  /** Whatever the others do, a thread blocked in mutex_lock or condvar_wait goes on
      waiting or becomes the owner, and then stays it. */
  lemma OthersLeaveItsMutex(s: State, a: Action, t: Tid, m: nat)
    requires Inv(s) && Enabled(s, a) && WaitsOrOwns(s, t, m) && t != s.current
    ensures WaitsOrOwns(Do(s, a), t, m)
  {
    hide LocksHold, QueuesOk, Do, Enabled;
    match a
    case DoMutexLock(_) => MutexCallWaits(s, a, t, m);
    case DoMutexUnlock(_) => MutexCallWaits(s, a, t, m);
    case DoCondvarWait(_) => MutexCallWaits(s, a, t, m);
    case DoTimedLock(_, _, _) => MutexCallWaits(s, a, t, m);
    case DoTimedWait(_, _, _, _) => MutexCallWaits(s, a, t, m);
    case DoReadLock(_) => RwCallWaits(s, a, t, m);
    case DoWriteLock(_) => RwCallWaits(s, a, t, m);
    case DoReadUnlock(_) => RwCallWaits(s, a, t, m);
    case DoWriteUnlock(_) => RwCallWaits(s, a, t, m);
    case DoResume => RwCallWaits(s, a, t, m);
    case _ => OtherCallWaits(s, a, t, m);
  }

  /** The run ends as soon as t is the current thread, if it ever is. */
  predicate UntilItRuns(s: State, actions: seq<Action>, t: Tid)
    decreases |actions|
  {
    actions == [] || (s.current != t && UntilItRuns(Do(s, actions[0]), actions[1..], t))
  }

  /** A thread blocked in mutex_lock or condvar_wait returns as the owner: in every
      run until it runs again it waits or owns the mutex, and when it runs it owns
      it. */
  lemma {:induction false} WaiterReturnsAsOwner(s: State, actions: seq<Action>, t: Tid, m: nat)
    requires Inv(s) && LegalRun(s, actions) && UntilItRuns(s, actions, t) && WaitsOrOwns(s, t, m)
    ensures var s' := RunOf(s, actions);
      WaitsOrOwns(s', t, m) && (s'.current == t && !s'.halted ==> s'.pc[t] == Run && (t, m) in s'.locks.owns)
    decreases |actions|
  {
    if actions == [] {
      if s.current == t && !s.halted { assert Home(s.pc[t]) == Some(Ready); }
    } else {
      hide Inv, Do, Enabled, WaitsOrOwns;
      OthersLeaveItsMutex(s, actions[0], t, m);
      StepKeepsInv(s, actions[0]);
      WaiterReturnsAsOwner(Do(s, actions[0]), actions[1..], t, m);
    }
  }

  /** condvar_wait either returns at once with the caller still the owner, or
      leaves it waiting for the mutex (never for the condition variable). */
  lemma CondvarWaitOutcome(s: State, m: nat)
    requires Inv(s) && Enabled(s, DoCondvarWait(m)) && m in s.locks.locked
    ensures WaitsOrOwns(CondvarWait(s, m), s.current, m)
    ensures Ring(s, MutexQ(m)) == [] ==> CondvarWait(s, m).current == s.current
  {
    hide LocksOk, Suspend, Wake;
    var waiters := Ring(s, MutexQ(m));
    if waiters != [] {
      HeadIsHome(s, MutexQ(m));
      WakeEffect(s.(locks := HandedOver(s.locks, s.current, m, waiters[0])), waiters[0]);
      SuspendEffect(Release(s, m), LockWait(m));
    }
  }

  /** So neither signal nor broadcast reaches a thread in condvar_wait. */
  lemma SignalsMissCondvarWait(s: State, c: nat, t: Tid, m: nat)
    requires QueuesOk(s) && Enabled(s, DoCondvarSignal(c)) && t in s.pc && s.pc[t] == LockWait(m)
    ensures t !in Ring(s, CondQ(c))
    ensures PcOf(CondvarSignal(s, c), t) == PcOf(CondvarBroadcast(s, c), t) == LockWait(m)
  {
    assert RingOk(s, CondQ(c));
    hide Wake, YieldIfNecessary, WakeAll, RingsOk, SleepOk;
    GiveEffect(s, s.locks, CondQ(c));
    if Ring(s, CondQ(c)) != [] {
      var u := Ring(s, CondQ(c))[0];
      WakeEffect(s, u);
      YieldEffect(Wake(s, u));
    }
  }

  // -------------------------------------------------- two owners

  lemma EnqueuedInto(a: Tid, t: Tid, prio: map<Tid, int>)
    requires a in prio && t in prio && a != t
    ensures prio[t] > prio[a] ==> Enqueued([a], t, prio, BY_PRIORITY) == [t, a]
    ensures prio[t] < prio[a] ==> Enqueued([a], t, prio, BY_PRIORITY) == [a, t]
    ensures Without([a], t) == [a] && Without([a, t], t) == [a] && Without([t, a], t) == [a]
  {
    assert KeysBy([a], prio) == [prio[a]];
    assert IndexOf([a, t], t) == 1;
  }

  lemma MoveView(s: State, t: Tid, p: Pc)
    ensures var s' := Move(s, t, p);
      && s'.pc == s.pc[t := p] && s'.prio == s.prio && s'.timeout == s.timeout && s'.timedOut == s.timedOut
      && s'.locks == s.locks && s'.current == s.current && s'.halted == s.halted
      && s'.sleep == (if Timed(p) then Enqueued(Without(s.sleep, t), t, s.timeout, BY_TIMEOUT) else Without(s.sleep, t))
      && Ring(s', Ready) == (if Home(p) == Some(Ready) then Enqueued(Without(Ring(s, Ready), t), t, s.prio, BY_PRIORITY)
                             else Without(Ring(s, Ready), t))
  {
    hide Move, Enqueued, Without, Ring;
    MovedFields(s, t, p);
    MovedRing(s, t, p, Ready);
    MovedSleep(s, t, p);
  }

  lemma SuspendView(s: State, p: Pc)
    ensures var s', m := Suspend(s, p), Move(s, s.current, p);
      && s'.pc == m.pc && s'.prio == m.prio && s'.timeout == m.timeout && s'.timedOut == m.timedOut
      && s'.locks == m.locks && s'.sleep == m.sleep && Ring(s', Ready) == Ring(m, Ready)
      && (Ring(m, Ready) != [] ==> s'.current == Ring(m, Ready)[0] && s'.halted == m.halted)
  {
    hide Move;
  }

  lemma SwitchesToSecond(s: State)
    requires !s.halted && s.prio == map[0 := 200, 1 := 300]
    requires Ring(s, Ready) == [1, 0] && s.current == 0 && s.sleep == []
    requires 1 in s.pc && s.pc[0 := Run] == s.pc
    ensures var s' := SwitchToNext(s); Second(s') && s'.pc == s.pc && s'.timedOut == s.timedOut && s'.locks == s.locks
  {
    EnqueuedInto(1, 0, s.prio);
    hide Move, Enqueued, Suspend, Ring;
    MoveView(s, 0, Run);
    SuspendView(s, Run);
  }

  /** The first thread alone and running. */
  ghost predicate First(s: State)
  {
    !s.halted && Ring(s, Ready) == [0] && s.current == 0 && 0 in s.pc && s.pc[0] == Run
  }

  /** Both threads ready, the second one running. */
  ghost predicate Second(s: State)
  {
    !s.halted && s.prio == map[0 := 200, 1 := 300] && Ring(s, Ready) == [1, 0] && s.current == 1 && s.sleep == []
  }

  lemma SecondIsReady(s: State)
    requires First(s) && s.prio == map[0 := 200] && s.sleep == []
    ensures var m := Move(s.(prio := s.prio[1 := 300]), 1, Run);
      && !m.halted && m.prio == map[0 := 200, 1 := 300] && Ring(m, Ready) == [1, 0] && m.current == 0 && m.sleep == []
      && m.pc == s.pc[1 := Run] && m.locks == s.locks
  {
    hide Move, Enqueued;
    var s1 := s.(prio := s.prio[1 := 300]);
    assert s1.prio == map[0 := 200, 1 := 300] && Ring(s1, Ready) == [0];
    EnqueuedInto(0, 1, s1.prio);
    MoveView(s1, 1, Run);
  }

  lemma StartSecond(s: State)
    requires First(s) && s.prio == map[0 := 200] && s.sleep == []
    ensures Second(Start(s, 1, 300)) && Start(s, 1, 300).pc == s.pc[1 := Run] && Start(s, 1, 300).locks == s.locks
  {
    hide Move, Ring, Suspend;
    SecondIsReady(s);
    SwitchesToSecond(Move(s.(prio := s.prio[1 := 300]), 1, Run));
  }

  lemma SecondIsAsleep(s1: State, m: nat)
    requires Second(s1) && KeyOf(1, s1.timeout) == 5
    ensures var s2 := Move(s1, 1, TimedLockWait(m));
      && Ring(s2, Ready) == [0] && s2.sleep == [1] && s2.pc == s1.pc[1 := TimedLockWait(m)] && !s2.halted
      && s2.prio == s1.prio && s2.timeout == s1.timeout && s2.locks == s1.locks
  {
    hide Move, Ring;
    assert Enqueued([], 1, s1.timeout, BY_TIMEOUT) == [1];
    EnqueuedInto(0, 1, s1.prio);
    hide Enqueued;
    MoveView(s1, 1, TimedLockWait(m));
  }

  lemma SecondWaits(s: State, m: nat)
    requires Second(s) && m in s.locks.locked && 0 in s.pc && s.pc[0] == Run
    ensures var s' := TimedLock(s, m, 5, 1);
      && First(s') && s'.prio == s.prio && s'.sleep == [1] && s'.pc == s.pc[1 := TimedLockWait(m)]
      && KeyOf(1, s'.timeout) == 5 && s'.locks == s.locks
  {
    hide Move, Suspend;
    var s1 := SetTimeout(s, 5);
    assert Second(s1);
    hide Ring;
    SecondIsAsleep(s1, m);
    SuspendView(s1, TimedLockWait(m));
  }

  lemma SecondWoken(s: State, m: nat)
    requires First(s) && s.prio == map[0 := 200, 1 := 300] && s.sleep == [1]
    requires 1 in s.pc && s.pc[1] == TimedLockWait(m)
    ensures var s' := TimeOut(s, 1);
      && !s'.halted && s'.prio == s.prio && Ring(s', Ready) == [1, 0] && s'.current == 0 && s'.sleep == []
      && s'.pc == s.pc[1 := TimedLockWoken(m)] && 1 in s'.timedOut && s'.locks == s.locks
  {
    hide Move, Enqueued, Ring;
    var s1 := s.(timedOut := s.timedOut + {1});
    SameReady(s, s1);
    EnqueuedInto(0, 1, s.prio);
    assert Without([1], 1) == [];
    hide Without;
    MoveView(s1, 1, TimedLockWoken(m));
  }

  lemma SameReady(s: State, s1: State)
    requires s1.rings == s.rings
    ensures Ring(s1, Ready) == Ring(s, Ready)
  {}

  lemma OneExpires(s: State, now: int)
    requires s.sleep == [1] && KeyOf(1, s.timeout) <= now && TimeOut(s, 1).sleep == []
    ensures ExpireSleepers(s, now) == TimeOut(s, 1)
  {
    hide Move, Wake;
    assert ExpireSleepers(TimeOut(s, 1), now) == TimeOut(s, 1);
  }

  lemma SecondTimesOut(s: State, m: nat)
    requires First(s) && s.prio == map[0 := 200, 1 := 300] && s.sleep == [1] && KeyOf(1, s.timeout) == 5
    requires 1 in s.pc && s.pc[1] == TimedLockWait(m)
    ensures var s' := TimerElapsed(s, 6, true);
      Second(s') && s'.pc == s.pc[1 := TimedLockWoken(m)] && 1 in s'.timedOut && s'.locks == s.locks
  {
    hide ExpireSleepers, Suspend, Ring, TimeOut;
    SecondWoken(s, m);
    OneExpires(s, 6);
    SwitchesToSecond(TimeOut(s, 1));
  }

  /** A legal run at whose end threads 0 and 1 both own mutex 7. */
  ghost predicate MakesTwoOwners(s: State, actions: seq<Action>)
  {
    LegalRun(s, actions) && (0, 7) in RunOf(s, actions).locks.owns && (1, 7) in RunOf(s, actions).locks.owns
  }

  lemma StepBefore(s: State, a: Action, rest: seq<Action>)
    requires Enabled(s, a) && MakesTwoOwners(Do(s, a), rest)
    ensures MakesTwoOwners(s, [a] + rest)
  {
    hide Do, Enabled;
    assert ([a] + rest)[1..] == rest;
  }

  lemma EndsWithTwoOwners(s: State)
    requires Second(s) && 1 in s.pc && s.pc[1] == TimedLockWoken(7) && 1 in s.timedOut && (0, 7) in s.locks.owns
    ensures MakesTwoOwners(s, [DoResume] + [DoMutexLock(7)])
  {
    assert MakesTwoOwners(MutexLock(Resume(s), 7), []);
    hide MakesTwoOwners;
    StepBefore(Resume(s), DoMutexLock(7), []);
    assert [DoMutexLock(7)] + [] == [DoMutexLock(7)];
    StepBefore(s, DoResume, [DoMutexLock(7)]);
  }

  lemma TimesOut(s: State, rest: seq<Action>)
    requires First(s) && s.prio == map[0 := 200, 1 := 300] && s.sleep == [1] && KeyOf(1, s.timeout) == 5
    requires 1 in s.pc && s.pc[1] == TimedLockWait(7) && (0, 7) in s.locks.owns
    requires rest == [DoResume] + [DoMutexLock(7)]
    ensures MakesTwoOwners(s, [DoTimer(6, true)] + rest)
  {
    hide TimerElapsed, MakesTwoOwners;
    SecondTimesOut(s, 7);
    EndsWithTwoOwners(TimerElapsed(s, 6, true));
    StepBefore(s, DoTimer(6, true), rest);
  }

  lemma Tries(s: State, rest: seq<Action>)
    requires Second(s) && s.pc == map[0 := Run, 1 := Run] && 7 in s.locks.locked && (0, 7) in s.locks.owns
    requires rest == [DoTimer(6, true)] + ([DoResume] + [DoMutexLock(7)])
    ensures MakesTwoOwners(s, [DoTimedLock(7, 5, 1)] + rest)
  {
    hide TimedLock, MakesTwoOwners;
    SecondWaits(s, 7);
    TimesOut(TimedLock(s, 7, 5, 1), [DoResume] + [DoMutexLock(7)]);
    StepBefore(s, DoTimedLock(7, 5, 1), rest);
  }

  lemma Starts(s: State, rest: seq<Action>)
    requires First(s) && s.prio == map[0 := 200] && s.sleep == [] && s.pc == map[0 := Run]
    requires 7 in s.locks.locked && (0, 7) in s.locks.owns
    requires rest == [DoTimedLock(7, 5, 1)] + ([DoTimer(6, true)] + ([DoResume] + [DoMutexLock(7)]))
    ensures MakesTwoOwners(s, [DoStart(1, 300)] + rest)
  {
    hide Start, MakesTwoOwners;
    StartSecond(s);
    Tries(Start(s, 1, 300), [DoTimer(6, true)] + ([DoResume] + [DoMutexLock(7)]));
    StepBefore(s, DoStart(1, 300), rest);
  }

  lemma BootLocks(s: State)
    requires s == MutexLock(Initial(0, 200), 7)
    ensures First(s) && s.prio == map[0 := 200] && s.sleep == [] && s.pc == map[0 := Run]
    ensures 7 in s.locks.locked && (0, 7) in s.locks.owns
  {}

  /** From boot: thread 1, of higher priority, tries mutex 7 with a timeout while
      thread 0 owns it, times out, and then locks it as well. */
  lemma TimedLockMakesTwoOwners() returns (actions: seq<Action>)
    ensures MakesTwoOwners(Initial(0, 200), actions)
  {
    hide MakesTwoOwners;
    var rest := [DoTimedLock(7, 5, 1)] + ([DoTimer(6, true)] + ([DoResume] + [DoMutexLock(7)]));
    BootLocks(MutexLock(Initial(0, 200), 7));
    Starts(MutexLock(Initial(0, 200), 7), rest);
    StepBefore(Initial(0, 200), DoMutexLock(7), [DoStart(1, 300)] + rest);
    actions := [DoMutexLock(7)] + ([DoStart(1, 300)] + rest);
  }
}
