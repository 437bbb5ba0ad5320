/** Sleeping and waiting with a deadline: what is put on the sleep queue, and until when
    it stays there, over every run. */
module SchedulerDeadlines {
  import opened PriorityOrder
  import opened Rings
  import opened SchedulerState
  import opened SchedulerRings
  import opened Scheduler
  import opened SchedulerLocks
  import opened SchedulerSafety
  import opened SchedulerTimer
  import opened SchedulerOutcomes
  import opened Wrappers

  // -------------------------------------------------- going to sleep

  /** The caller leaves the processor for p, with its timeout at until. */
  ghost predicate BlocksUntil(s: State, s': State, p: Pc, until: int)
  {
    && Blocks(s, s', p) && s.current in s'.sleep
    && s'.timeout == s.timeout[s.current := until]
  }

  lemma SuspendUntil(s: State, late: set<Tid>, until: int, p: Pc)
    requires QueuesOk(s) && !s.halted && Timed(p)
    ensures var s' := Suspend(s.(timeout := s.timeout[s.current := until], timedOut := late), p);
      BlocksUntil(s, s', p, until) && s'.timedOut == late && s'.locks == s.locks
  {
    var s1 := s.(timeout := s.timeout[s.current := until], timedOut := late);
    hide RingsOk, SleepOk, Suspend, Blocks;
    SetTimeoutKeeps(s, until);
    SameQueues(s.(timeout := s.timeout[s.current := until]), s1);
    SuspendBlocks(s1, p);
    SameBlocks(s, s1, Suspend(s1, p), p);
    BlockedIsOn(s, Suspend(s1, p), p);
  }

  lemma BlockedIsOn(s: State, s': State, p: Pc)
    requires Blocks(s, s', p)
    ensures Timed(p) ==> s.current in s'.sleep
    ensures Home(p).Some? ==> s.current in Ring(s', Home(p).value)
  {
    if Home(p).Some? { OnItsRing(s', s.current, Home(p).value); }
  }

  /** thread_sleep leaves the ready queue and every wait queue for the sleep queue. */
  lemma SleepOutcome(s: State, until: int)
    requires QueuesOk(s) && Enabled(s, DoSleep(until))
    ensures var s' := Do(s, DoSleep(until));
      && BlocksUntil(s, s', Asleep, until) && (forall q :: s.current !in Ring(s', q))
      && s'.timedOut == s.timedOut && s'.locks == s.locks
  {
    hide RingsOk, SleepOk, Suspend;
    SuspendUntil(s, s.timedOut, until, Asleep);
    assert s.(timeout := s.timeout[s.current := until], timedOut := s.timedOut) ==
      s.(timeout := s.timeout[s.current := until]);
    var s' := Do(s, DoSleep(until));
    forall q ensures s.current !in Ring(s', q) { NotOnOtherRing(s', s.current, q); }
  }

  lemma NotOnOtherRing(s: State, t: Tid, q: QId)
    requires QueuesOk(s) && t in s.pc && Home(s.pc[t]) != Some(q)
    ensures t !in Ring(s, q)
  {
    assert RingOk(s, q);
  }

  /** A timed attempt takes a free mutex at once, fails at once when its time is over,
      and otherwise waits both for the mutex and for its deadline. */
  lemma TimedLockOutcome(s: State, m: nat, until: int, now: int)
    requires QueuesOk(s) && Enabled(s, DoTimedLock(m, until, now))
    ensures var s' := Do(s, DoTimedLock(m, until, now));
      && (m !in s.locks.locked ==>
            && GoesOn(s, s') && s'.pc == s.pc
            && s'.locks == s.locks.(locked := s.locks.locked + {m}, owns := s.locks.owns + {(s.current, m)}))
      && (m in s.locks.locked && (until == 0 || until <= now) ==> s' == s)
      && (m in s.locks.locked && until != 0 && now < until ==>
            && BlocksUntil(s, s', TimedLockWait(m), until) && s.current in Ring(s', MutexQ(m))
            && s'.timedOut == s.timedOut - {s.current} && s'.locks == s.locks)
  {
    if m in s.locks.locked && until != 0 && now < until {
      hide QueuesOk, Suspend, Blocks;
      SuspendUntil(s, s.timedOut - {s.current}, until, TimedLockWait(m));
      BlockedIsOn(s, Do(s, DoTimedLock(m, until, now)), TimedLockWait(m));
    }
  }

  /** A timed condition wait gives the mutex up; then it fails at once when its time is
      over, and otherwise waits both for the condition and for its deadline. */
  lemma TimedWaitOutcome(s: State, c: nat, m: nat, until: int, now: int) returns (s1: State)
    requires QueuesOk(s) && Enabled(s, DoTimedWait(c, m, until, now))
    ensures var s' := Do(s, DoTimedWait(c, m, until, now));
      && GivenUp(s, s1, m)
      && if until <= now then s' == s1
         else && BlocksUntil(s1, s', TimedCondWait(c), until) && s.current in Ring(s', CondQ(c))
              && s'.timedOut == s1.timedOut - {s.current} && s'.locks == s1.locks
  {
    s1 := Release(s, m);
    hide QueuesOk, Suspend, Release, Blocks;
    ReleaseGivesUp(s, m);
    if now < until {
      SuspendUntil(s1, s1.timedOut - {s1.current}, until, TimedCondWait(c));
      BlockedIsOn(s1, Do(s, DoTimedWait(c, m, until, now)), TimedCondWait(c));
    }
  }

  // -------------------------------------------------- the timer

  /** Where a thread continues whose time is over. */
  function LatePc(p: Pc): Pc { if p.TimedLockWait? then TimedLockWoken(p.m) else Run }

  predicate DueAt(s: State, t: Tid, now: int) { t in s.sleep && KeyOf(t, s.timeout) <= now }

  lemma ExpiredPc(s: State, now: int, t: Tid)
    requires QueuesOk(s) && t in s.pc
    ensures var s' := ExpireSleepers(s, now);
      && s'.pc.Keys == s.pc.Keys && s'.pc[t] == if DueAt(s, t, now) then LatePc(s.pc[t]) else s.pc[t]
  {
    ExpireKeeps(s, now);
    ExpireEffect(s, now);
    TimerWakesExactlyTheDue(s, now, t);
    hide ExpireSleepers, Sorted, Distinct, RingsOk;
  }

  /** The timer wakes exactly the threads whose time has come, marked as late, whether or
      not the quantum of the current thread is over; the others stay as they are. If it
      is not over the current thread runs on, and if it is, one of the highest ready
      priority does. */
  lemma TimerOutcome(s: State, now: int, over: bool)
    requires QueuesOk(s) && Enabled(s, DoTimer(now, over))
    ensures var s' := Do(s, DoTimer(now, over));
      && QueuesOk(s') && !s'.halted && s'.pc.Keys == s.pc.Keys
      && (forall t :: t in s.pc ==> s'.pc[t] == if DueAt(s, t, now) then LatePc(s.pc[t]) else s.pc[t])
      && (forall t :: t in s'.timedOut <==> t in s.timedOut || DueAt(s, t, now))
      && (forall t :: t in s'.sleep <==> t in s.sleep && now < KeyOf(t, s.timeout))
      && (forall t :: DueAt(s, t, now) ==> t in s.pc && t in Ring(s', Ready))
      && s'.timeout == s.timeout && s'.prio == s.prio && s'.locks == s.locks
      && (over ==> Dispatched(s')) && (!over ==> s'.current == s.current)
  {
    var s1, s' := ExpireSleepers(s, now), Do(s, DoTimer(now, over));
    hide *;
    EnabledFacts(s, DoTimer(now, over));
    TimerIs(s, now, over);
    QueuesAre(s);
    ExpireKeeps(s, now);
    ExpireEffect(s, now);
    CurrentLives(s);
    ExpiredPc(s, now, s.current);
    NotDue(s, now);
    if over { TimerSwitches(s1); }
    assert s'.pc == s1.pc && QueuesOk(s') && !s'.halted;
    forall t | t in s.pc ensures s'.pc[t] == if DueAt(s, t, now) then LatePc(s.pc[t]) else s.pc[t] {
      ExpiredPc(s, now, t);
    }
    forall t
      ensures t in s'.timedOut <==> t in s.timedOut || DueAt(s, t, now)
      ensures t in s'.sleep <==> t in s.sleep && now < KeyOf(t, s.timeout)
      ensures DueAt(s, t, now) ==> t in s.pc && t in Ring(s', Ready)
    {
      DueIs(s, now, t);
      TimerWakesExactlyTheDue(s, now, t);
      ReadyIs(s, t);
      ReadyIs(s1, t);
      ReadyIs(s', t);
    }
  }

  lemma DueIs(s: State, now: int, t: Tid)
    ensures DueAt(s, t, now) <==> t in s.sleep && KeyOf(t, s.timeout) <= now
  {}

  lemma TimerIs(s: State, now: int, over: bool)
    ensures Do(s, DoTimer(now, over)) ==
      if over then Suspend(ExpireSleepers(s, now), Run) else ExpireSleepers(s, now)
  {
    hide Suspend, ExpireSleepers;
  }

  lemma QueuesAre(s: State)
    requires QueuesOk(s)
    ensures RingsOk(s) && SleepOk(s)
  {}

  /** The running thread is neither asleep nor due. */
  lemma NotDue(s: State, now: int)
    requires QueuesOk(s) && !s.halted && PcOf(s, s.current) == Run
    ensures !DueAt(s, s.current, now) && s.current in s.pc && s.pc[s.current] == Run
  {}

  lemma TimerSwitches(s: State)
    requires QueuesOk(s) && !s.halted && s.current in s.pc && s.pc[s.current] == Run
    ensures var s' := Suspend(s, Run);
      && QueuesOk(s') && Dispatched(s') && !s'.halted && SameTimes(s, s') && s'.locks == s.locks && s'.pc == s.pc
      && s'.sleep == s.sleep && s'.timedOut == s.timedOut && s'.timeout == s.timeout && s'.prio == s.prio
  {
    assert s.pc[s.current := Run] == s.pc;
    hide QueuesOk, Suspend;
    SuspendDispatches(s, Run);
    SuspendSleep(s, Run);
  }

  /** A timed attempt that resumes in time leaves the mutex locked; a late one leaves it
      unlocked, whoever owns it. */
  lemma AttemptOutcome(s: State, m: nat)
    requires QueuesOk(s) && Enabled(s, DoResume) && PcOf(s, s.current) == TimedLockWoken(m)
    ensures var s' := Do(s, DoResume);
      && GoesOn(s, s') && s'.pc == s.pc[s.current := Run] && s'.locks.owns == s.locks.owns
      && s'.locks.locked == (if s.current in s.timedOut then s.locks.locked - {m} else s.locks.locked + {m})
  {}

  // -------------------------------------------------- one step of the others

  /** Thread t waits at p with its timeout at until. */
  predicate Timing(s: State, t: Tid, p: Pc, until: int)
  {
    t in s.pc && s.pc[t] == p && Timed(p) && KeyOf(t, s.timeout) == until && (!p.Asleep? ==> t !in s.timedOut)
  }

  /** A thread that waited at p got what it waited for in time. */
  predicate Granted(s: State, t: Tid, p: Pc)
  {
    && t in s.pc && t !in s.timedOut
    && ((p.TimedLockWait? && s.pc[t] == TimedLockWoken(p.m) && (t, p.m) in s.locks.owns)
        || (p.TimedCondWait? && s.pc[t] == Run))
  }

  predicate Due(a: Action, until: int) { a.DoTimer? && a.now >= until }

  /** A thread that waits with a timeout is not the running one. */
  lemma TimingIsNotCurrent(s: State, t: Tid, p: Pc, until: int)
    requires QueuesOk(s) && Timing(s, t, p, until)
    ensures !s.halted ==> s.current != t
    ensures t in s.sleep && t !in Ring(s, Ready)
    ensures Home(p).Some? ==> t in Ring(s, Home(p).value)
  {
    ReadyIs(s, t);
    if Home(p).Some? { OnItsRing(s, t, Home(p).value); }
  }

  lemma MutexesAside(s: State, a: Action, t: Tid, p: Pc, until: int)
    requires Inv(s) && Enabled(s, a) && Timing(s, t, p, until) && t != s.current
    requires a.DoMutexLock? || a.DoMutexUnlock? || a.DoTimedLock?
    ensures Timing(Do(s, a), t, p, until) || Granted(Do(s, a), t, p)
  {
    InvIs(s);
    hide QueuesOk, Inv, Do, OtherRingsSame, Dispatched, Enabled, LocksHold, Blocks, Ring, Timing, Granted;
    EnabledFacts(s, a);
    match a
    case DoMutexLock(m) =>
      LockOutcome(s, m);
      if m in s.locks.locked { BlockedAside(s, Do(s, a), LockWait(m), t, p, until); }
      else { MoreOwned(s, Do(s, a), t, p, until); }
    case DoTimedLock(m, end, now) =>
      TimedLockOutcome(s, m, end, now);
      if m !in s.locks.locked { MoreOwned(s, Do(s, a), t, p, until); }
      else if end != 0 && now < end { BlockedAside(s, Do(s, a), TimedLockWait(m), t, p, until); }
    case DoMutexUnlock(m) => UnlockAside(s, m, t, p, until);
  }

  lemma MoreOwned(s: State, s': State, t: Tid, p: Pc, until: int)
    requires Timing(s, t, p, until) && s'.pc == s.pc && SameTimes(s, s')
    ensures Timing(s', t, p, until)
  {}

  lemma UnlockAside(s: State, m: nat, t: Tid, p: Pc, until: int)
    requires QueuesOk(s) && Enabled(s, DoMutexUnlock(m)) && Timing(s, t, p, until) && t != s.current
    ensures var s' := Do(s, DoMutexUnlock(m)); Timing(s', t, p, until) || Granted(s', t, p)
  {
    hide QueuesOk, Do, OtherRingsSame, Dispatched, Enabled, Ring;
    if Ring(s, MutexQ(m)) == [] { UnlockFrees(s, m); } else { HandOff(s, m); FirstWaiter(s, m); }
  }

  lemma CondvarsAside(s: State, a: Action, t: Tid, p: Pc, until: int)
    requires Inv(s) && Enabled(s, a) && Timing(s, t, p, until) && t != s.current
    requires a.DoCondvarSignal? || a.DoCondvarBroadcast? || a.DoMutexlessWait?
    ensures Timing(Do(s, a), t, p, until) || Granted(Do(s, a), t, p)
  {
    InvIs(s);
    hide *;
    EnabledFacts(s, a);
    match a
    case DoCondvarSignal(c) => SignalAside(s, c, t, p, until);
    case DoCondvarBroadcast(c) => BroadcastAside(s, c, t, p, until);
    case DoMutexlessWait(c) =>
      MutexlessWaitBlocks(s, c);
      TimesSame(s, Do(s, a), t);
      BlockedAside(s, Do(s, a), CondWait(c), t, p, until);
  }

  lemma TimesSame(s: State, s': State, t: Tid)
    requires SameTimes(s, s')
    ensures KeyOf(t, s'.timeout) == KeyOf(t, s.timeout) && (t in s'.timedOut <==> t in s.timedOut)
  {}

  lemma SignalAside(s: State, c: nat, t: Tid, p: Pc, until: int)
    requires QueuesOk(s) && Enabled(s, DoCondvarSignal(c)) && Timing(s, t, p, until) && t != s.current
    ensures var s' := Do(s, DoCondvarSignal(c)); Timing(s', t, p, until) || Granted(s', t, p)
  {
    hide QueuesOk, Do, OtherRingsSame, Dispatched, Enabled, Ring;
    if Ring(s, CondQ(c)) == [] {
      SignalToNobody(s, c);
    } else {
      SignalWakesTheFirst(s, c);
      HeadIsHere(s, CondQ(c));
    }
  }

  lemma BroadcastAside(s: State, c: nat, t: Tid, p: Pc, until: int)
    requires QueuesOk(s) && Enabled(s, DoCondvarBroadcast(c)) && Timing(s, t, p, until) && t != s.current
    ensures var s' := Do(s, DoCondvarBroadcast(c)); Timing(s', t, p, until) || Granted(s', t, p)
  {
    hide QueuesOk, Do, OtherRingsSame, Dispatched, Enabled, Ring;
    BroadcastWakesAll(s, c);
    WokenFromRing(s, CondQ(c), t);
  }

  lemma HeadIsHere(s: State, q: QId)
    requires QueuesOk(s) && Ring(s, q) != []
    ensures Ring(s, q)[0] in s.pc && Home(s.pc[Ring(s, q)[0]]) == Some(q)
  {
    HeadIsHome(s, q);
  }

  /** After the caller has given a mutex up. */
  lemma GivenUpAside(s: State, s1: State, m: nat, t: Tid, p: Pc, until: int)
    requires QueuesOk(s) && !s.halted && GivenUp(s, s1, m) && Timing(s, t, p, until)
    ensures Timing(s1, t, p, until) || Granted(s1, t, p)
  {
    hide QueuesOk, OtherRingsSame;
    if Ring(s, MutexQ(m)) != [] { FirstWaiter(s, m); }
  }

  lemma BlockedAside(s: State, s': State, q: Pc, t: Tid, p: Pc, until: int)
    requires Blocks(s, s', q) && t != s.current && s'.locks == s.locks
    requires KeyOf(t, s'.timeout) == KeyOf(t, s.timeout) && (t in s'.timedOut <==> t in s.timedOut)
    ensures Timing(s, t, p, until) ==> Timing(s', t, p, until)
    ensures Granted(s, t, p) ==> Granted(s', t, p)
  {
    hide Dispatched, JoinedOrSame;
  }

  lemma WaitsAside(s: State, a: Action, t: Tid, p: Pc, until: int)
    requires Inv(s) && Enabled(s, a) && Timing(s, t, p, until) && t != s.current
    requires a.DoCondvarWait? || a.DoTimedWait? || a.DoSleep?
    ensures Timing(Do(s, a), t, p, until) || Granted(Do(s, a), t, p)
  {
    InvIs(s);
    hide QueuesOk, Inv, Do, Dispatched, Enabled, LocksHold, Blocks, Release, Suspend;
    EnabledFacts(s, a);
    match a
    case DoSleep(end) =>
      SleepOutcome(s, end);
      BlockedAside(s, Do(s, a), Asleep, t, p, until);
    case DoTimedWait(c, m, end, now) =>
      var s1 := TimedWaitOutcome(s, c, m, end, now);
      GivenUpAside(s, s1, m, t, p, until);
      if now < end { BlockedAside(s1, Do(s, a), TimedCondWait(c), t, p, until); }
    case DoCondvarWait(m) =>
      ReleaseGivesUp(s, m);
      GivenUpAside(s, Release(s, m), m, t, p, until);
      LockAside(s, m, t, p, until);
  }

  lemma LockAside(s: State, m: nat, t: Tid, p: Pc, until: int)
    requires QueuesOk(s) && !s.halted && t != s.current && GivenUp(s, Release(s, m), m)
    ensures var s1, s' := Release(s, m), Do(s, DoCondvarWait(m));
      && (Timing(s1, t, p, until) ==> Timing(s', t, p, until)) && (Granted(s1, t, p) ==> Granted(s', t, p))
  {
    var s1 := Release(s, m);
    hide QueuesOk, Suspend, Release, Blocks;
    if m in s1.locks.locked {
      SuspendBlocks(s1, LockWait(m));
      BlockedAside(s1, Suspend(s1, LockWait(m)), LockWait(m), t, p, until);
    }
  }

  lemma RwAsideTiming(s: State, a: Action, t: Tid, p: Pc, until: int)
    requires Inv(s) && Enabled(s, a) && Timing(s, t, p, until) && t != s.current
    requires a.DoReadLock? || a.DoWriteLock? || a.DoReadUnlock? || a.DoWriteUnlock?
    ensures Timing(Do(s, a), t, p, until)
  {
    hide QueuesOk, Inv, Do, Dispatched, Enabled, LocksHold, OtherRingsSame, OnlyRw, JoinedOrSame, WriterHolds;
    hide WriterWaits, Reading, Writerq, Readers;
    match a
    case DoReadLock(r) => ReadLockOutcome(s, a, r);
    case DoWriteLock(r) => WriteLockOutcome(s, r);
    case DoReadUnlock(r) => ReadUnlockOutcome(s, r);
    case DoWriteUnlock(r) => WriteUnlockOutcome(s, r);
  }

  lemma ResumeAside(s: State, t: Tid, p: Pc, until: int)
    requires Inv(s) && Enabled(s, DoResume) && Timing(s, t, p, until) && t != s.current
    ensures Timing(Do(s, DoResume), t, p, until)
  {
    InvIs(s);
    match PcOf(s, s.current) {
      case ReadWoken(r) =>
        hide QueuesOk, Inv, Do, Dispatched, Enabled, JoinedOrSame, OnlyRw, WriterHolds, WriterWaits;
        ReadLockOutcome(s, DoResume, r);
      case WriteWoken(r) =>
        hide QueuesOk, Inv, Do, Dispatched, Enabled, JoinedOrSame, OnlyRw, WriterHolds, WriterWaits;
        WriteResumeOutcome(s, r);
      case TimedLockWoken(m) =>
        hide QueuesOk, Inv, Do, Enabled;
        AttemptOutcome(s, m);
      case _ =>
    }
  }

  lemma ThreadsAside(s: State, a: Action, t: Tid, p: Pc, until: int)
    requires Inv(s) && Enabled(s, a) && Timing(s, t, p, until) && t != s.current
    requires a.DoYield? || a.DoStart? || a.DoExit?
    ensures Timing(Do(s, a), t, p, until)
  {
    InvIs(s);
    assert a.DoStart? ==> a.t !in s.pc;
    hide QueuesOk, Inv, Do, OtherRingsSame, Dispatched, Enabled, LocksHold, Joined;
    match a
    case DoYield => YieldTakesTurns(s);
    case DoStart(u, pr) => StartOutcome(s, u, pr);
    case DoExit => ExitOutcome(s);
  }

  lemma TimerStepTiming(s: State, now: int, over: bool, t: Tid, p: Pc, until: int)
    requires QueuesOk(s) && Enabled(s, DoTimer(now, over)) && Timing(s, t, p, until) && t in s.sleep
    ensures var s' := Do(s, DoTimer(now, over));
      if now >= until
      then t in s'.pc && s'.pc[t] == LatePc(p) && t in s'.timedOut && t in Ring(s', Ready) && t !in s'.sleep
      else Timing(s', t, p, until)
  {
    hide QueuesOk, Do, Enabled, Dispatched, Ring;
    TimerOutcome(s, now, over);
  }

  lemma DueIsTimer(a: Action, until: int)
    ensures Due(a, until) <==> a.DoTimer? && a.now >= until
  {}

  /** Whatever another thread does, a thread that waits with a timeout goes on waiting,
      or gets what it waits for; only the timer makes it late, and only when its time
      has come. */
  lemma TimingStep(s: State, a: Action, t: Tid, p: Pc, until: int)
    requires Inv(s) && Enabled(s, a) && Timing(s, t, p, until)
    ensures !Due(a, until) ==> Timing(Do(s, a), t, p, until) || Granted(Do(s, a), t, p)
    ensures Due(a, until) ==>
      var s' := Do(s, a);
      t in s'.pc && s'.pc[t] == LatePc(p) && t in s'.timedOut && t in Ring(s', Ready) && t !in s'.sleep
  {
    InvIs(s);
    TimingIsNotCurrent(s, t, p, until);
    EnabledFacts(s, a);
    hide *;
    DueIsTimer(a, until);
    match a
    case DoTimer(now, over) => TimerStepTiming(s, now, over, t, p, until);
    case DoMutexLock(_) => MutexesAside(s, a, t, p, until);
    case DoMutexUnlock(_) => MutexesAside(s, a, t, p, until);
    case DoTimedLock(_, _, _) => MutexesAside(s, a, t, p, until);
    case DoCondvarSignal(_) => CondvarsAside(s, a, t, p, until);
    case DoCondvarBroadcast(_) => CondvarsAside(s, a, t, p, until);
    case DoMutexlessWait(_) => CondvarsAside(s, a, t, p, until);
    case DoCondvarWait(_) => WaitsAside(s, a, t, p, until);
    case DoTimedWait(_, _, _, _) => WaitsAside(s, a, t, p, until);
    case DoSleep(_) => WaitsAside(s, a, t, p, until);
    case DoResume => ResumeAside(s, t, p, until);
    case DoYield => ThreadsAside(s, a, t, p, until);
    case DoStart(_, _) => ThreadsAside(s, a, t, p, until);
    case DoExit => ThreadsAside(s, a, t, p, until);
    case _ => RwAsideTiming(s, a, t, p, until);
  }

  // -------------------------------------------------- runs

  /** No timer interrupt of the run comes at or after until. */
  predicate NoneDue(actions: seq<Action>, until: int) { forall k :: 0 <= k < |actions| ==> !Due(actions[k], until) }

  /** Until its deadline a thread waits, or has been granted what it waits for at some
      point of the run. */
  lemma {:induction false} WaitsOrIsGranted(s: State, actions: seq<Action>, t: Tid, p: Pc, until: int)
    requires Inv(s) && LegalRun(s, actions) && Timing(s, t, p, until) && NoneDue(actions, until)
    ensures Timing(RunOf(s, actions), t, p, until) ||
      exists k :: 0 < k <= |actions| && Granted(RunOf(s, actions[..k]), t, p)
    decreases |actions|
  {
    hide Inv, Do, Enabled, Timing, Granted;
    if actions != [] {
      var s1, rest := Do(s, actions[0]), actions[1..];
      assert !Due(actions[0], until);
      TimingStep(s, actions[0], t, p, until);
      StepKeepsInv(s, actions[0]);
      if Timing(s1, t, p, until) {
        WaitsOrIsGranted(s1, rest, t, p, until);
        if !Timing(RunOf(s, actions), t, p, until) {
          var k :| 0 < k <= |rest| && Granted(RunOf(s1, rest[..k]), t, p);
          assert actions[..k + 1][1..] == rest[..k];
          assert Granted(RunOf(s, actions[..k + 1]), t, p);
        }
      } else {
        assert actions[..1][1..] == [];
        assert Granted(RunOf(s, actions[..1]), t, p);
      }
    }
  }

  /** In state s thread t waits at p for a deadline: it is asleep, on the ring it waits
      on, not ready and not running; and the next timer interrupt at or after the
      deadline, whether or not a quantum is over, makes it ready and late. */
  ghost predicate StillWaits(s: State, t: Tid, p: Pc, until: int)
  {
    && t in s.sleep && t !in Ring(s, Ready) && (!s.halted ==> s.current != t)
    && (Home(p).Some? ==> t in Ring(s, Home(p).value))
    && forall now, over :: now >= until && Enabled(s, DoTimer(now, over)) ==> WakesLate(Do(s, DoTimer(now, over)), t, p)
  }

  predicate WakesLate(s: State, t: Tid, p: Pc)
  {
    t in Ring(s, Ready) && t !in s.sleep && t in s.timedOut && t in s.pc && s.pc[t] == LatePc(p)
  }

  lemma TimingStillWaits(s: State, t: Tid, p: Pc, until: int)
    requires Inv(s) && Timing(s, t, p, until)
    ensures StillWaits(s, t, p, until)
  {
    InvIs(s);
    TimingIsNotCurrent(s, t, p, until);
    hide Inv, QueuesOk, Timing, Do, Enabled;
    forall now, over | now >= until && Enabled(s, DoTimer(now, over))
      ensures WakesLate(Do(s, DoTimer(now, over)), t, p)
    {
      TimingStep(s, DoTimer(now, over), t, p, until);
    }
  }

  lemma RunStep(s: State, a: Action, actions: seq<Action>)
    requires LegalRun(s, [a] + actions)
    ensures Enabled(s, a) && LegalRun(Do(s, a), actions) && RunOf(s, [a] + actions) == RunOf(Do(s, a), actions)
  {
    hide Do, Enabled;
    assert ([a] + actions)[1..] == actions;
  }

  /** A thread that goes to sleep until a time is asleep in every state up to the first
      timer interrupt at or after that time, which makes it ready. */
  lemma SleepsUntilDue(s: State, until: int, actions: seq<Action>)
    requires Inv(s) && LegalRun(s, [DoSleep(until)] + actions) && NoneDue(actions, until)
    ensures StillWaits(RunOf(s, [DoSleep(until)] + actions), s.current, Asleep, until)
  {
    hide Inv, Do, Enabled, NoneDue, StillWaits, RunOf, LegalRun;
    var t, s1 := s.current, Do(s, DoSleep(until));
    RunStep(s, DoSleep(until), actions);
    SleepStarts(s, until);
    StepKeepsInv(s, DoSleep(until));
    RunKeepsInv(s1, actions);
    WaitsOrIsGranted(s1, actions, t, Asleep, until);
    TimingStillWaits(RunOf(s1, actions), t, Asleep, until);
  }

  lemma SleepStarts(s: State, until: int)
    requires Inv(s) && Enabled(s, DoSleep(until))
    ensures Timing(Do(s, DoSleep(until)), s.current, Asleep, until)
  {
    InvIs(s);
    hide Inv, QueuesOk, Do, Enabled;
    SleepOutcome(s, until);
  }

  /** A timed attempt that finds the mutex locked waits until its deadline, unless it is
      given the mutex before. */
  lemma TimedLockWaitsUntilDue(s: State, m: nat, until: int, now: int, actions: seq<Action>)
    requires Inv(s) && m in s.locks.locked && until != 0 && now < until
    requires LegalRun(s, [DoTimedLock(m, until, now)] + actions) && NoneDue(actions, until)
    ensures var run, p := [DoTimedLock(m, until, now)] + actions, TimedLockWait(m);
      StillWaits(RunOf(s, run), s.current, p, until) ||
      exists k :: 1 < k <= |run| && Granted(RunOf(s, run[..k]), s.current, p)
  {
    hide Inv, Do, Enabled, NoneDue, StillWaits, RunOf, LegalRun, Granted;
    var a, p := DoTimedLock(m, until, now), TimedLockWait(m);
    RunStep(s, a, actions);
    TimedLockStarts(s, m, until, now);
    WaitsFrom(s, a, actions, p, until);
  }

  /** A timed condition wait waits until its deadline, unless it is signalled before. */
  lemma TimedWaitWaitsUntilDue(s: State, c: nat, m: nat, until: int, now: int, actions: seq<Action>)
    requires Inv(s) && now < until
    requires LegalRun(s, [DoTimedWait(c, m, until, now)] + actions) && NoneDue(actions, until)
    ensures var run, p := [DoTimedWait(c, m, until, now)] + actions, TimedCondWait(c);
      StillWaits(RunOf(s, run), s.current, p, until) ||
      exists k :: 1 < k <= |run| && Granted(RunOf(s, run[..k]), s.current, p)
  {
    hide Inv, Do, Enabled, NoneDue, StillWaits, RunOf, LegalRun, Granted;
    var a, p := DoTimedWait(c, m, until, now), TimedCondWait(c);
    RunStep(s, a, actions);
    TimedWaitStarts(s, c, m, until, now);
    WaitsFrom(s, a, actions, p, until);
  }

  lemma TimedLockStarts(s: State, m: nat, until: int, now: int)
    requires Inv(s) && Enabled(s, DoTimedLock(m, until, now)) && m in s.locks.locked && until != 0 && now < until
    ensures Timing(Do(s, DoTimedLock(m, until, now)), s.current, TimedLockWait(m), until)
  {
    InvIs(s);
    hide Inv, QueuesOk, Do, Enabled;
    TimedLockOutcome(s, m, until, now);
  }

  lemma TimedWaitStarts(s: State, c: nat, m: nat, until: int, now: int)
    requires Inv(s) && Enabled(s, DoTimedWait(c, m, until, now)) && now < until
    ensures Timing(Do(s, DoTimedWait(c, m, until, now)), s.current, TimedCondWait(c), until)
  {
    InvIs(s);
    hide Inv, QueuesOk, Do, Enabled;
    var s1 := TimedWaitOutcome(s, c, m, until, now);
  }

  /** The run that starts with a call that begins to wait. */
  lemma WaitsFrom(s: State, a: Action, actions: seq<Action>, p: Pc, until: int)
    requires Inv(s) && Enabled(s, a) && LegalRun(Do(s, a), actions) && NoneDue(actions, until)
    requires Timing(Do(s, a), s.current, p, until)
    ensures var run := [a] + actions;
      StillWaits(RunOf(s, run), s.current, p, until) ||
      exists k :: 1 < k <= |run| && Granted(RunOf(s, run[..k]), s.current, p)
  {
    hide Inv, Do, Enabled, NoneDue, StillWaits, LegalRun, Granted, Timing;
    var t, s1, run := s.current, Do(s, a), [a] + actions;
    assert run[1..] == actions;
    StepKeepsInv(s, a);
    RunKeepsInv(s1, actions);
    WaitsOrIsGranted(s1, actions, t, p, until);
    if Timing(RunOf(s1, actions), t, p, until) {
      TimingStillWaits(RunOf(s1, actions), t, p, until);
    } else {
      var k :| 0 < k <= |actions| && Granted(RunOf(s1, actions[..k]), t, p);
      assert run[..k + 1][1..] == actions[..k];
      assert Granted(RunOf(s, run[..k + 1]), t, p);
    }
  }
}
