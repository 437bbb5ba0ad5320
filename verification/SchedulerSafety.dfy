/** Mutual exclusion, reader/writer exclusion and wake-ups over every interleaving. */
module SchedulerSafety {
  import opened PriorityOrder
  import opened Rings
  import opened SchedulerState
  import opened SchedulerRings
  import opened Scheduler
  import opened SchedulerLocks
  import opened Wrappers

  ghost predicate LocksHold(s: State) { LocksOk(s.pc, s.locks) && TimedOk(s.pc, s.timedOut, s.locks) }

  ghost predicate Inv(s: State) { QueuesOk(s) && LocksHold(s) }

  lemma ReleaseEffect(s: State, m: nat)
    requires Inv(s) && MayRelease(s, m) && PcOf(s, s.current) == Run
    ensures LocksHold(Release(s, m)) && Release(s, m).current == s.current
    ensures PcOf(s, s.current) == Run && s.current in s.pc ==>
      Release(s, m).current in Release(s, m).pc && PcOf(Release(s, m), s.current) == Run
  {
    hide LocksOk, SleepOk, Wake;
    var waiters := Ring(s, MutexQ(m));
    if waiters == [] {
      assert RingOk(s, MutexQ(m));
      FreeKeeps(s.pc, s.locks, s.current, m);
      TimedFrame(s.pc, s.timedOut, s.locks, s.pc, Freed(s.locks, s.current, m));
    } else {
      HeadIsHome(s, MutexQ(m));
      HandOverKeeps(s.pc, s.locks, s.current, m, waiters[0]);
      TimedHandOver(s.pc, s.timedOut, s.locks, s.current, m, waiters[0]);
      WakeEffect(s.(locks := HandedOver(s.locks, s.current, m, waiters[0])), waiters[0]);
    }
  }

  /** A thread woken with the mutex owns it, whether it waited with a timeout or
      not. */
  lemma TimedHandOver(pc: map<Tid, Pc>, late: set<Tid>, l: Locks, t: Tid, m: nat, next: Tid)
    requires TimedOk(pc, late, l) && (t in pc ==> pc[t] == Run)
    requires next in pc && Home(pc[next]) == Some(MutexQ(m))
    ensures TimedOk(pc[next := Woken(pc[next])], late, HandedOver(l, t, m, next))
  {}

  lemma MutexStep(s: State, a: Action)
    requires Inv(s) && Enabled(s, a) && (a.DoMutexLock? || a.DoMutexUnlock? || a.DoCondvarWait?)
    ensures LocksHold(Do(s, a))
  {
    hide LocksOk, TimedOk, RingsOk, SleepOk, Suspend, Release, YieldIfNecessary, MutexLock;
    match a
    case DoMutexLock(m) =>
      LockEffect(s, m);
    case DoMutexUnlock(m) =>
      ReleaseEffect(s, m);
      YieldEffect(Release(s, m));
    case DoCondvarWait(m) =>
      ReleaseEffect(s, m);
      LockEffect(Release(s, m), m);
  }

  lemma LockEffect(s: State, m: nat)
    requires LocksHold(s) && s.current in s.pc && s.pc[s.current] == Run
    ensures LocksHold(MutexLock(s, m))
  {
    hide LocksOk, Suspend, TimedOk;
    LockKeeps(s.pc, s.locks, s.current, m, LockWait(m));
    SuspendEffect(s, LockWait(m));
    TimedFrame(s.pc, s.timedOut, s.locks, s.pc[s.current := LockWait(m)], s.locks);
    TimedFrame(s.pc, s.timedOut, s.locks, s.pc, Acquired(s.locks, s.current, m));
  }

  lemma RwStep(s: State, a: Action)
    requires Inv(s) && Enabled(s, a)
    requires a.DoReadLock? || a.DoWriteLock? || a.DoReadUnlock? || a.DoWriteUnlock?
    ensures LocksHold(Do(s, a))
  {
    hide LocksOk, TimedOk, RingsOk, SleepOk, Suspend, WakeAll, YieldIfNecessary, Busy, WokenFrom;
    match a
    case DoReadLock(r) => ReadLockEffect(s, r);
    case DoWriteLock(r) =>
      if Busy(s.locks, r) {
        var l := s.locks.(writerq := Increased(s.locks.writerq, r));
        WriteJoinKeeps(s.pc, s.locks, s.current, r);
        SuspendEffect(s.(locks := l), WriteQueued(r));
        TimedUpdate(s.pc, s.timedOut, s.locks, s.current, WriteQueued(r), l);
      } else {
        WriteTakeKeeps(s.pc, s.locks, s.current, r);
        TimedFrame(s.pc, s.timedOut, s.locks, s.pc, WriteTaken(s.locks, s.current, r));
      }
    case DoReadUnlock(r) =>
      ReadGiveKeeps(s.pc, s.locks, s.current, r);
      GiveEffect(s, ReadGiven(s.locks, s.current, r), RwQ(r));
      TimedWokenFrom(s.pc, s.timedOut, s.locks, RwQ(r), ReadGiven(s.locks, s.current, r));
    case DoWriteUnlock(r) =>
      WriteGiveKeeps(s.pc, s.locks, s.current, r);
      GiveEffect(s, WriteGiven(s.locks, s.current, r), RwQ(r));
      TimedWokenFrom(s.pc, s.timedOut, s.locks, RwQ(r), WriteGiven(s.locks, s.current, r));
  }

  /** Thread t goes on where no mutex is concerned. */
  lemma TimedUpdate(pc: map<Tid, Pc>, late: set<Tid>, l: Locks, t: Tid, p: Pc, l': Locks)
    requires TimedOk(pc, late, l) && !OnTimed(p) && SameMutexes(l, l')
    ensures TimedOk(pc[t := p], late, l') && TimedOk(pc - {t}, late, l')
  {
    hide TimedOk;
    TimedFrame(pc, late, l, pc[t := p], l');
    TimedFrame(pc, late, l, pc - {t}, l');
  }

  lemma TimedWokenFrom(pc: map<Tid, Pc>, late: set<Tid>, l: Locks, q: QId, l': Locks)
    requires TimedOk(pc, late, l) && (q.RwQ? || q.CondQ?) && SameMutexes(l, l')
    ensures TimedOk(WokenFrom(pc, q), late, l')
  {
    hide TimedOk;
    TimedFrame(pc, late, l, WokenFrom(pc, q), l');
  }

  lemma ReadLockEffect(s: State, r: nat)
    requires Inv(s) && !s.halted && (PcOf(s, s.current) == Run || PcOf(s, s.current) == ReadWoken(r))
    ensures LocksHold(ReadLock(s, r))
  {
    hide LocksOk, TimedOk, RingsOk, SleepOk, Suspend;
    if r in s.locks.rwLocked || Writerq(s.locks, r) > 0 {
      ReadQueueKeeps(s.pc, s.locks, s.current, r);
      SuspendEffect(s, ReadQueued(r));
      TimedUpdate(s.pc, s.timedOut, s.locks, s.current, ReadQueued(r), s.locks);
    } else {
      ReadTakeKeeps(s.pc, s.locks, s.current, r);
      TimedUpdate(s.pc, s.timedOut, s.locks, s.current, Run, ReadTaken(s.locks, s.current, r));
    }
  }

  lemma GiveEffect(s: State, l: Locks, q: QId)
    requires QueuesOk(s) && !s.halted && PcOf(s, s.current) == Run && q != Ready
    ensures var s' := YieldIfNecessary(WakeAll(s.(locks := l), q));
      s'.pc == WokenFrom(s.pc, q) && s'.locks == l && s'.timedOut == s.timedOut
  {
    hide RingsOk, SleepOk, WakeAll, YieldIfNecessary;
    var s1 := s.(locks := l);
    SameQueues(s, s1);
    WakeAllEffect(s1, q);
    YieldEffect(WakeAll(s1, q));
  }

  lemma ResumeStep(s: State)
    requires Inv(s) && Enabled(s, DoResume)
    ensures LocksHold(Resume(s))
  {
    hide LocksOk, TimedOk, RingsOk, SleepOk, Suspend, Busy, Attempted;
    match PcOf(s, s.current)
    case ReadWoken(r) => ReadLockEffect(s, r);
    case WriteWoken(r) =>
      if Busy(s.locks, r) {
        WriteRejoinKeeps(s.pc, s.locks, s.current, r);
        SuspendEffect(s, WriteQueued(r));
        TimedUpdate(s.pc, s.timedOut, s.locks, s.current, WriteQueued(r), s.locks);
      } else {
        WriteWokenTakeKeeps(s.pc, s.locks, s.current, r);
        var l := WriteTaken(s.locks.(writerq := Decreased(s.locks.writerq, r)), s.current, r);
        TimedUpdate(s.pc, s.timedOut, s.locks, s.current, Run, l);
      }
    case TimedLockWoken(m) => AttemptKeeps(s.pc, s.timedOut, s.locks, s.current, m);
    case _ =>
  }

  /** The assignment of a resumed timed attempt. */
  lemma AttemptKeeps(pc: map<Tid, Pc>, late: set<Tid>, l: Locks, t: Tid, m: nat)
    requires LocksOk(pc, l) && TimedOk(pc, late, l) && t in pc && pc[t] == TimedLockWoken(m)
    ensures LocksOk(pc[t := Run], Attempted(l, m, t in late)) && TimedOk(pc[t := Run], late, Attempted(l, m, t in late))
  {
    var pc', l' := pc[t := Run], Attempted(l, m, t in late);
    AllRwFrame(pc, l, pc', l');
    TimedFrame(pc, late, l, pc', l');
    hide RwOk;
    forall k ensures MutexOk(pc', l', k) {
      assert MutexOk(pc, l, k);
      if k != m { MutexFrame(pc, l, pc', l', k); }
    }
  }

  lemma TimedStep(s: State, a: Action)
    requires Inv(s) && Enabled(s, a) && (a.DoTimedLock? || a.DoTimedWait?)
    ensures LocksHold(Do(s, a))
  {
    hide LocksOk, TimedOk, RingsOk, SleepOk, Suspend, Release;
    match a
    case DoTimedLock(m, until, now) => TimedLockEffect(s, m, until, now);
    case DoTimedWait(c, m, until, now) =>
      ReleaseEffect(s, m);
      SuspendLate(Release(s, m), until, TimedCondWait(c));
  }

  lemma TimedLockEffect(s: State, m: nat, until: int, now: int)
    requires LocksHold(s) && s.current in s.pc && s.pc[s.current] == Run
    ensures LocksHold(TimedLock(s, m, until, now))
  {
    hide LocksOk, Suspend, TimedOk;
    LockKeeps(s.pc, s.locks, s.current, m, TimedLockWait(m));
    if m in s.locks.locked {
      SuspendEffect(SetTimeout(s, until), TimedLockWait(m));
      WaitInTime(s.pc, s.timedOut, s.locks, s.current, TimedLockWait(m));
    } else {
      TimedFrame(s.pc, s.timedOut, s.locks, s.pc, Acquired(s.locks, s.current, m));
    }
  }

  lemma SuspendLate(s: State, until: int, p: Pc)
    requires LocksHold(s) && s.current in s.pc && s.pc[s.current] == Run && p.TimedCondWait?
    ensures LocksHold(Suspend(SetTimeout(s, until), p))
  {
    hide LocksOk, Suspend, TimedOk;
    SuspendEffect(SetTimeout(s, until), p);
    AsideUpdate(s.pc, s.locks, s.current, p);
    WaitInTime(s.pc, s.timedOut, s.locks, s.current, p);
  }

  /** A running thread starts to wait, and is not marked as late. */
  lemma WaitInTime(pc: map<Tid, Pc>, late: set<Tid>, l: Locks, t: Tid, p: Pc)
    requires TimedOk(pc, late, l) && t in pc && pc[t] == Run && !p.TimedLockWoken?
    ensures TimedOk(pc[t := p], late - {t}, l)
  {}

  /** A running or new thread goes where no lock is concerned. */
  lemma AsideUpdate(pc: map<Tid, Pc>, l: Locks, t: Tid, p: Pc)
    requires LocksOk(pc, l) && (t in pc ==> pc[t] == Run) && (p == Run || p.CondWait? || p.TimedCondWait? || p.Asleep?)
    ensures LocksOk(pc[t := p], l)
    ensures LocksOk(pc - {t}, l)
  {
    hide MutexOk, RwOk;
    AsideKeeps(pc, l, pc[t := p]);
    AsideKeeps(pc, l, pc - {t});
  }

  lemma SuspendAside(s: State, p: Pc)
    requires LocksHold(s) && PcOf(s, s.current) == Run && (p == Run || p.CondWait? || p.Asleep?)
    ensures LocksHold(Suspend(s, p))
  {
    hide Suspend, LocksOk, TimedOk;
    SuspendEffect(s, p);
    AsideUpdate(s.pc, s.locks, s.current, p);
    TimedUpdate(s.pc, s.timedOut, s.locks, s.current, p, s.locks);
  }

  lemma WakeAside(s: State, c: nat, pc': map<Tid, Pc>)
    requires LocksHold(s)
    requires pc' == WokenFrom(s.pc, CondQ(c)) ||
      (exists t :: t in s.pc && Home(s.pc[t]) == Some(CondQ(c)) && pc' == s.pc[t := Woken(s.pc[t])])
    ensures LocksOk(pc', s.locks) && TimedOk(pc', s.timedOut, s.locks)
  {
    hide MutexOk, RwOk, TimedOk;
    AsideKeeps(s.pc, s.locks, pc');
    TimedFrame(s.pc, s.timedOut, s.locks, pc', s.locks);
  }

  lemma CondStep(s: State, a: Action)
    requires Inv(s) && Enabled(s, a) && (a.DoCondvarSignal? || a.DoCondvarBroadcast?)
    ensures LocksHold(Do(s, a))
  {
    hide LocksOk, TimedOk, RingsOk, SleepOk, Suspend, Wake, WakeAll, YieldIfNecessary, WokenFrom;
    match a
    case DoCondvarSignal(c) =>
      if Ring(s, CondQ(c)) != [] {
        var t := Ring(s, CondQ(c))[0];
        HeadIsHome(s, CondQ(c));
        WakeEffect(s, t);
        YieldEffect(Wake(s, t));
        WakeAside(s, c, s.pc[t := Woken(s.pc[t])]);
      }
    case DoCondvarBroadcast(c) =>
      GiveEffect(s, s.locks, CondQ(c));
      assert s == s.(locks := s.locks);
      WakeAside(s, c, WokenFrom(s.pc, CondQ(c)));
  }

  lemma TimerStep(s: State, now: int, over: bool)
    requires Inv(s) && PcOf(s, s.current) == Run && s.current in s.pc
    ensures LocksHold(TimerElapsed(s, now, over))
  {
    hide RingsOk, SleepOk, Suspend, ExpireSleepers, MutexOk, RwOk, TimedOk;
    var s1 := ExpireSleepers(s, now);
    ExpireEffect(s, now);
    AsideKeeps(s.pc, s.locks, s1.pc);
    TimedExpire(s.pc, s.timedOut, s.locks, s1.pc, s1.timedOut);
    hide LocksOk, OnlyTimedWoken;
    if over { SuspendAside(s1, Run); }
  }

  lemma TimedExpire(pc: map<Tid, Pc>, late: set<Tid>, l: Locks, pc': map<Tid, Pc>, late': set<Tid>)
    requires TimedOk(pc, late, l) && OnlyTimedWoken(pc, late, pc', late')
    ensures TimedOk(pc', late', l)
  {
    forall t | t in pc' && pc'[t].TimedLockWoken? && t !in late' && pc'[t].m !in l.spoiled
      ensures (t, pc'[t].m) in l.owns
    {
      assert t in pc && pc'[t] == pc[t];
    }
    forall t | t in pc' && pc'[t].TimedLockWait? ensures t !in late' {
      assert t in pc && pc'[t] == pc[t];
    }
  }

  lemma OtherStep(s: State, a: Action)
    requires Inv(s) && Enabled(s, a)
    requires a.DoMutexlessWait? || a.DoYield? || a.DoSleep? || a.DoStart? || a.DoExit? || a.DoTimer?
    ensures LocksHold(Do(s, a))
  {
    hide RingsOk, SleepOk, Suspend, Move, TimerElapsed, YieldIfNecessary, Exit, LocksOk, TimedOk;
    match a
    case DoMutexlessWait(c) => SuspendAside(s, CondWait(c));
    case DoYield => SuspendAside(s, Run);
    case DoSleep(until) => SuspendAside(s.(timeout := s.timeout[s.current := until]), Asleep);
    case DoStart(t, p) =>
      MovedFields(s.(prio := s.prio[t := p]), t, Run);
      YieldEffect(Move(s.(prio := s.prio[t := p]), t, Run));
      AsideUpdate(s.pc, s.locks, t, Run);
      TimedUpdate(s.pc, s.timedOut, s.locks, t, Run, s.locks);
    case DoExit =>
      ExitEffect(s);
      AsideUpdate(s.pc, s.locks, s.current, Run);
      TimedUpdate(s.pc, s.timedOut, s.locks, s.current, Run, s.locks);
    case DoTimer(now, over) => TimerStep(s, now, over);
  }

  lemma ExitEffect(s: State)
    ensures Exit(s).pc == s.pc - {s.current} && Exit(s).locks == s.locks && Exit(s).timedOut == s.timedOut
  {}

  lemma StepKeepsInv(s: State, a: Action)
    requires Inv(s) && Enabled(s, a)
    ensures Inv(Do(s, a))
  {
    StepKeepsQueues(s, a);
    hide LocksHold, QueuesOk, Do, Enabled;
    match a
    case DoMutexLock(_) => MutexStep(s, a);
    case DoMutexUnlock(_) => MutexStep(s, a);
    case DoCondvarWait(_) => MutexStep(s, a);
    case DoReadLock(_) => RwStep(s, a);
    case DoWriteLock(_) => RwStep(s, a);
    case DoReadUnlock(_) => RwStep(s, a);
    case DoWriteUnlock(_) => RwStep(s, a);
    case DoCondvarSignal(_) => CondStep(s, a);
    case DoCondvarBroadcast(_) => CondStep(s, a);
    case DoTimedLock(_, _, _) => TimedStep(s, a);
    case DoTimedWait(_, _, _, _) => TimedStep(s, a);
    case DoResume => assert Do(s, a) == Resume(s) by { DoResumeIs(s); } ResumeStep(s);
    case _ => OtherStep(s, a);
  }

  lemma DoResumeIs(s: State)
    ensures Do(s, DoResume) == Resume(s)
  {}

  lemma InitialInv(t: Tid, p: int)
    ensures Inv(Initial(t, p))
  {
    InitialQueues(t, p);
    var s := Initial(t, p);
    forall r ensures RwOk(s.pc, s.locks, r) { assert Counted(s.pc, r) == {}; }
  }

  lemma {:induction false} RunKeepsInv(s: State, actions: seq<Action>)
    requires Inv(s) && LegalRun(s, actions)
    ensures Inv(RunOf(s, actions))
    decreases |actions|
  {
    hide Inv, Do, Enabled;
    if actions != [] {
      StepKeepsInv(s, actions[0]);
      RunKeepsInv(Do(s, actions[0]), actions[1..]);
    }
  }

  // -------------------------------------------------- late attempts

  lemma ReleaseSpoils(s: State, m: nat)
    ensures Release(s, m).locks.spoiled == s.locks.spoiled
  {
    hide Wake;
    var waiters := Ring(s, MutexQ(m));
    if waiters != [] { WakeEffect(s.(locks := HandedOver(s.locks, s.current, m, waiters[0])), waiters[0]); }
  }

  lemma MutexSpoils(s: State, a: Action)
    requires Inv(s) && Enabled(s, a)
    requires a.DoMutexLock? || a.DoMutexUnlock? || a.DoCondvarWait? || a.DoTimedLock? || a.DoTimedWait?
    ensures Do(s, a).locks.spoiled == s.locks.spoiled
  {
    hide LocksOk, TimedOk, RingsOk, SleepOk, Suspend, Release, YieldIfNecessary;
    match a
    case DoMutexLock(m) => SuspendEffect(s, LockWait(m));
    case DoMutexUnlock(m) =>
      ReleaseSpoils(s, m);
      ReleaseEffect(s, m);
      YieldEffect(Release(s, m));
    case DoCondvarWait(m) =>
      ReleaseSpoils(s, m);
      SuspendEffect(Release(s, m), LockWait(m));
    case DoTimedLock(m, until, now) => SuspendEffect(SetTimeout(s, until), TimedLockWait(m));
    case DoTimedWait(c, m, until, now) =>
      ReleaseSpoils(s, m);
      SuspendEffect(SetTimeout(Release(s, m), until), TimedCondWait(c));
  }

  lemma RwSpoils(s: State, a: Action)
    requires Inv(s) && Enabled(s, a)
    requires a.DoReadLock? || a.DoWriteLock? || a.DoReadUnlock? || a.DoWriteUnlock? || a.DoCondvarBroadcast?
    ensures Do(s, a).locks.spoiled == s.locks.spoiled
  {
    hide LocksHold, RingsOk, SleepOk, Suspend, WakeAll, YieldIfNecessary, WokenFrom;
    match a
    case DoReadLock(r) => SuspendEffect(s, ReadQueued(r));
    case DoWriteLock(r) =>
      SuspendEffect(s.(locks := s.locks.(writerq := Increased(s.locks.writerq, r))), WriteQueued(r));
    case DoReadUnlock(r) => GiveEffect(s, ReadGiven(s.locks, s.current, r), RwQ(r));
    case DoWriteUnlock(r) => GiveEffect(s, WriteGiven(s.locks, s.current, r), RwQ(r));
    case DoCondvarBroadcast(c) =>
      GiveEffect(s, s.locks, CondQ(c));
      assert s == s.(locks := s.locks);
  }

  lemma StopSpoils(s: State, a: Action)
    requires Inv(s) && Enabled(s, a)
    requires a.DoMutexlessWait? || a.DoYield? || a.DoSleep? || a.DoStart?
    ensures Do(s, a).locks.spoiled == s.locks.spoiled
  {
    hide LocksHold, RingsOk, SleepOk, Suspend, Move, ExpireSleepers, YieldIfNecessary, Exit, Wake;
    match a
    case DoMutexlessWait(c) => SuspendEffect(s, CondWait(c));
    case DoYield => SuspendEffect(s, Run);
    case DoSleep(until) => SuspendEffect(s.(timeout := s.timeout[s.current := until]), Asleep);
    case DoStart(t, p) =>
      MovedFields(s.(prio := s.prio[t := p]), t, Run);
      YieldEffect(Move(s.(prio := s.prio[t := p]), t, Run));
  }

  lemma LeaveSpoils(s: State, a: Action)
    requires Inv(s) && Enabled(s, a)
    requires a.DoExit? || a.DoTimer? || a.DoCondvarSignal?
    ensures Do(s, a).locks.spoiled == s.locks.spoiled
  {
    hide LocksHold, RingsOk, SleepOk, Suspend, Move, ExpireSleepers, YieldIfNecessary, Exit, Wake;
    match a
    case DoExit => ExitEffect(s);
    case DoTimer(now, over) =>
      ExpireEffect(s, now);
      SuspendEffect(ExpireSleepers(s, now), Run);
    case DoCondvarSignal(c) =>
      if Ring(s, CondQ(c)) != [] {
        var t := Ring(s, CondQ(c))[0];
        HeadIsHome(s, CondQ(c));
        WakeEffect(s, t);
        YieldEffect(Wake(s, t));
      }
  }

  lemma OtherSpoils(s: State, a: Action)
    requires Inv(s) && Enabled(s, a)
    requires a.DoMutexlessWait? || a.DoYield? || a.DoSleep? || a.DoStart? || a.DoExit? || a.DoTimer?
      || a.DoCondvarSignal?
    ensures Do(s, a).locks.spoiled == s.locks.spoiled
  {
    hide Inv, Enabled, Do;
    if a.DoExit? || a.DoTimer? || a.DoCondvarSignal? { LeaveSpoils(s, a); } else { StopSpoils(s, a); }
  }

  lemma ResumeSpoils(s: State, m: nat)
    ensures m in Resume(s).locks.spoiled <==> m in s.locks.spoiled || LateResume(s, DoResume, m)
  {
    hide Suspend;
    match PcOf(s, s.current)
    case ReadWoken(r) => SuspendEffect(s, ReadQueued(r));
    case WriteWoken(r) => SuspendEffect(s, WriteQueued(r));
    case _ =>
  }

  /** A mutex is spoiled by exactly one kind of step. */
  lemma SpoiledExactlyWhen(s: State, a: Action, m: nat)
    requires Inv(s) && Enabled(s, a)
    ensures m in Do(s, a).locks.spoiled <==> m in s.locks.spoiled || LateResume(s, a, m)
  {
    if a.DoResume? {
      hide Inv, Do, Enabled, Resume;
      DoResumeIs(s);
      ResumeSpoils(s, m);
    } else {
      hide Inv, Do, Enabled;
      match a
      case DoMutexLock(_) => MutexSpoils(s, a);
      case DoMutexUnlock(_) => MutexSpoils(s, a);
      case DoCondvarWait(_) => MutexSpoils(s, a);
      case DoTimedLock(_, _, _) => MutexSpoils(s, a);
      case DoTimedWait(_, _, _, _) => MutexSpoils(s, a);
      case DoReadLock(_) => RwSpoils(s, a);
      case DoWriteLock(_) => RwSpoils(s, a);
      case DoReadUnlock(_) => RwSpoils(s, a);
      case DoWriteUnlock(_) => RwSpoils(s, a);
      case DoCondvarBroadcast(_) => RwSpoils(s, a);
      case _ => OtherSpoils(s, a);
    }
  }

  /** That step breaks it: the mutex is unlocked under its owner, and whoever locks
      it next owns it as well. */
  lemma LateResumeBreaks(s: State, a: Action, m: nat)
    requires Inv(s) && Enabled(s, a) && LateResume(s, a, m) && m !in s.locks.spoiled
    ensures !Exclusive(Do(s, a), m) && m !in Do(s, a).locks.locked
    ensures var s' := MutexLock(Do(s, a), m);
      (s'.current, m) in s'.locks.owns && exists t :: (t, m) in s.locks.owns && (t, m) in s'.locks.owns
  {
    assert MutexOk(s.pc, s.locks, m);
    DoResumeIs(s);
    var t :| (t, m) in s.locks.owns;
    assert (t, m) in Do(s, a).locks.owns;
  }

  /** In the run no late attempt unlocks m while it is locked. */
  predicate Unspoiled(s: State, actions: seq<Action>, m: nat)
    decreases |actions|
  {
    actions == [] || (!LateResume(s, actions[0], m) && Unspoiled(Do(s, actions[0]), actions[1..], m))
  }

  /** At most one owner, locked exactly when there is one, waiters only while
      locked, and whoever a timed attempt granted the mutex in time owns it. */
  ghost predicate Exclusive(s: State, m: nat)
  {
    && (forall t, u :: (t, m) in s.locks.owns && (u, m) in s.locks.owns ==> t == u)
    && (m in s.locks.locked <==> exists t :: (t, m) in s.locks.owns)
    && (Ring(s, MutexQ(m)) != [] ==> m in s.locks.locked)
    && (forall t :: t in s.pc && s.pc[t] == TimedLockWoken(m) && t !in s.timedOut ==> (t, m) in s.locks.owns)
  }

  ghost predicate AlwaysExclusive(s: State, actions: seq<Action>, m: nat)
    decreases |actions|
  {
    Exclusive(s, m) && (actions == [] || AlwaysExclusive(Do(s, actions[0]), actions[1..], m))
  }

  lemma UnspoiledIsExclusive(s: State, m: nat)
    requires Inv(s) && m !in s.locks.spoiled
    ensures Exclusive(s, m)
  {
    assert MutexOk(s.pc, s.locks, m);
    if Ring(s, MutexQ(m)) != [] { HeadIsHome(s, MutexQ(m)); }
  }

  lemma {:induction false} ExclusiveExactlyWhen(s: State, actions: seq<Action>, m: nat)
    requires Inv(s) && LegalRun(s, actions) && m !in s.locks.spoiled
    ensures AlwaysExclusive(s, actions, m) <==> Unspoiled(s, actions, m)
    decreases |actions|
  {
    UnspoiledIsExclusive(s, m);
    hide Inv, Do, Enabled, LateResume, Exclusive;
    if actions != [] {
      var s' := Do(s, actions[0]);
      StepKeepsInv(s, actions[0]);
      SpoiledExactlyWhen(s, actions[0], m);
      if LateResume(s, actions[0], m) {
        LateResumeBreaks(s, actions[0], m);
      } else {
        ExclusiveExactlyWhen(s', actions[1..], m);
      }
    }
  }

  // -------------------------------------------------- the main results

  /** From boot, mutual exclusion holds throughout a run, with and without timed
      calls, exactly when no late attempt unlocks the mutex while it is locked. */
  lemma MutualExclusionExactlyWhen(t0: Tid, p0: int, actions: seq<Action>, m: nat)
    requires LegalRun(Initial(t0, p0), actions)
    ensures AlwaysExclusive(Initial(t0, p0), actions, m) <==> Unspoiled(Initial(t0, p0), actions, m)
  {
    InitialInv(t0, p0);
    ExclusiveExactlyWhen(Initial(t0, p0), actions, m);
  }

  /** The states of a run. */
  lemma {:induction false} AlwaysMeansEveryState(s: State, actions: seq<Action>, m: nat)
    ensures AlwaysExclusive(s, actions, m) <==> forall i :: 0 <= i <= |actions| ==> Exclusive(RunOf(s, actions[..i]), m)
    decreases |actions|
  {
    hide Do, Exclusive;
    assert RunOf(s, actions[..0]) == s;
    if actions != [] {
      AlwaysMeansEveryState(Do(s, actions[0]), actions[1..], m);
      forall i | 0 <= i <= |actions| - 1
        ensures RunOf(Do(s, actions[0]), actions[1..][..i]) == RunOf(s, actions[..i + 1])
      {
        assert actions[..i + 1][1..] == actions[1..][..i];
      }
      if forall i :: 0 <= i <= |actions| ==> Exclusive(RunOf(s, actions[..i]), m) {
        forall i | 0 <= i <= |actions| - 1 ensures Exclusive(RunOf(Do(s, actions[0]), actions[1..][..i]), m) {
          assert Exclusive(RunOf(s, actions[..i + 1]), m);
        }
      }
      if AlwaysExclusive(s, actions, m) {
        forall i | 0 <= i <= |actions| ensures Exclusive(RunOf(s, actions[..i]), m) {
          if i > 0 { assert Exclusive(RunOf(Do(s, actions[0]), actions[1..][..i - 1]), m); }
        }
      }
    }
  }

  /** Readers and writers exclude each other, the writer count is exact, and no
      wake-up is lost, in every state reachable from boot. */
  lemma ReaderWriterExclusion(t0: Tid, p0: int, actions: seq<Action>, r: nat)
    requires LegalRun(Initial(t0, p0), actions)
    ensures var s := RunOf(Initial(t0, p0), actions);
      && (forall t, u :: (t, r) in s.locks.writing && (u, r) in s.locks.writing ==> t == u)
      && (r in s.locks.rwLocked <==> exists t :: (t, r) in s.locks.writing)
      && Readers(s.locks, r) == |Reading(s.locks, r)|
      && !(r in s.locks.rwLocked && Readers(s.locks, r) > 0)
      && Writerq(s.locks, r) == |Counted(s.pc, r)|
      && (Ring(s, RwQ(r)) != [] ==>
            r in s.locks.rwLocked || Readers(s.locks, r) > 0 ||
            exists u :: u in Ring(s, Ready) && PcOf(s, u) == WriteWoken(r))
  {
    InitialInv(t0, p0);
    RunKeepsInv(Initial(t0, p0), actions);
    var s := RunOf(Initial(t0, p0), actions);
    assert RwOk(s.pc, s.locks, r) && RingOk(s, Ready);
    if Ring(s, RwQ(r)) != [] {
      HeadIsHome(s, RwQ(r));
      if !Busy(s.locks, r) {
        var u :| u in s.pc && s.pc[u] == WriteWoken(r);
        assert u in Ring(s, Ready);
      }
    }
  }

  /** A thread joining a queue stands behind every thread of at least its own
      priority, and nobody else is reordered: equals are served first come first
      served. */
  lemma FirstComeFirstServed(ring: seq<Tid>, t: Tid, prio: map<Tid, int>, i: nat)
    requires i < |ring|
    ensures var r := Enqueued(ring, t, prio, PriorityOrder.BY_PRIORITY);
      var p := PriorityOrder.Slot(KeysBy(ring, prio), KeyOf(t, prio), PriorityOrder.BY_PRIORITY);
      && r[p] == t && r[if i < p then i else i + 1] == ring[i]
      && (PriorityOrder.Sorted(KeysBy(ring, prio), PriorityOrder.BY_PRIORITY) ==>
            (i < p <==> KeyOf(ring[i], prio) >= KeyOf(t, prio)))
  {
    var keys := KeysBy(ring, prio);
    if PriorityOrder.Sorted(keys, PriorityOrder.BY_PRIORITY) {
      PriorityOrder.KernelOrdersAreStrictWeak();
      PriorityOrder.SlotSplits(keys, KeyOf(t, prio), PriorityOrder.BY_PRIORITY);
    }
  }
}
