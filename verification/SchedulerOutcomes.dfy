/** What each kernel call does, told by where the threads stand before and after it
    and by who holds what. */
module SchedulerOutcomes {
  import opened PriorityOrder
  import opened Rings
  import opened SchedulerState
  import opened SchedulerRings
  import opened Scheduler
  import opened SchedulerLocks
  import opened SchedulerSafety
  import opened Wrappers

  // -------------------------------------------------- ways a call can go

  predicate SameTimes(s: State, s': State)
  {
    s'.prio == s.prio && s'.timeout == s.timeout && s'.timedOut == s.timedOut
  }

  /** The caller runs on and nobody moves. */
  predicate GoesOn(s: State, s': State)
  {
    && s'.current == s.current && s'.halted == s.halted && s'.rings == s.rings && s'.sleep == s.sleep
    && SameTimes(s, s')
  }

  /** A thread of the highest ready priority runs, or the kernel has stopped because
      no thread is ready. */
  ghost predicate Dispatched(s: State)
  {
    QueuesOk(s) && if s.halted then forall t :: t in s.pc ==> Home(s.pc[t]) != Some(Ready) else RunsHighest(s)
  }

  /** Thread t has joined the ring behind all of at least its priority, in front of
      the others, and they kept their order. */
  ghost predicate Joined(ring: seq<Tid>, ring': seq<Tid>, t: Tid, prio: map<Tid, int>)
  {
    exists p :: JoinedAt(ring, ring', t, prio, p)
  }

  ghost predicate JoinedAt(ring: seq<Tid>, ring': seq<Tid>, t: Tid, prio: map<Tid, int>, p: nat)
  {
    && p <= |ring| && ring' == ring[..p] + [t] + ring[p..]
    && (forall i :: 0 <= i < p ==> KeyOf(ring[i], prio) >= KeyOf(t, prio))
    && (forall i :: p <= i < |ring| ==> KeyOf(ring[i], prio) < KeyOf(t, prio))
  }

  ghost predicate JoinedOrSame(s: State, s': State, t: Tid, home: Option<QId>, q: QId)
  {
    if home == Some(q) then Joined(Ring(s, q), Ring(s', q), t, s.prio) else Ring(s', q) == Ring(s, q)
  }

  /** The caller leaves the processor and will continue at p. */
  ghost predicate Blocks(s: State, s': State, p: Pc)
  {
    && s'.pc == s.pc[s.current := p] && s'.prio == s.prio && Dispatched(s')
    && forall q :: q != Ready ==> JoinedOrSame(s, s', s.current, Home(p), q)
  }

  /** The wait rings other than q are as they were. */
  ghost predicate OtherRingsSame(s: State, s': State, q: QId)
  {
    forall q' :: q' != Ready && q' != q ==> Ring(s', q') == Ring(s, q')
  }

  // -------------------------------------------------- the internals

  lemma EnqueuedJoins(ring: seq<Tid>, t: Tid, prio: map<Tid, int>)
    requires Sorted(KeysBy(ring, prio), BY_PRIORITY)
    ensures Joined(ring, Enqueued(ring, t, prio, BY_PRIORITY), t, prio)
  {
    var keys, k := KeysBy(ring, prio), KeyOf(t, prio);
    var p := Slot(keys, k, BY_PRIORITY);
    KernelOrdersAreStrictWeak();
    SlotSplits(keys, k, BY_PRIORITY);
    forall i | 0 <= i < p ensures KeyOf(ring[i], prio) >= k { assert !BY_PRIORITY(k, keys[i]); }
    forall i | p <= i < |ring| ensures KeyOf(ring[i], prio) < k { assert BY_PRIORITY(k, keys[i]); }
    assert JoinedAt(ring, Enqueued(ring, t, prio, BY_PRIORITY), t, prio, p);
  }

  /** A running thread is on no ring but the ready queue, and not asleep. */
  lemma CurrentIsReady(s: State, q: QId)
    requires QueuesOk(s) && !s.halted && q != Ready
    ensures s.current !in Ring(s, q) && s.current !in s.sleep && Without(Ring(s, q), s.current) == Ring(s, q)
  {
    assert RingOk(s, q);
  }

  lemma SuspendDispatches(s: State, p: Pc)
    requires QueuesOk(s) && !s.halted
    ensures Dispatched(Suspend(s, p)) && SameTimes(s, Suspend(s, p)) && Suspend(s, p).locks == s.locks
    ensures Suspend(s, p).pc == s.pc[s.current := p]
    ensures Home(p) == Some(Ready) ==> !Suspend(s, p).halted
  {
    hide RingsOk, SleepOk, Move;
    var s1 := Move(s, s.current, p);
    MovedFields(s, s.current, p);
    MoveKeeps(s, s.current, p);
    SuspendKeeps(s, p);
    ResumeNextRunsHighest(s1);
    if Home(p) == Some(Ready) { assert s.current in s1.pc && Home(s1.pc[s.current]) == Some(Ready); }
  }

  lemma SuspendRing(s: State, p: Pc, q: QId)
    requires QueuesOk(s) && !s.halted && q != Ready
    ensures JoinedOrSame(s, Suspend(s, p), s.current, Home(p), q)
  {
    hide *;
    CurrentIsReady(s, q);
    MovedRing(s, s.current, p, q);
    ResumedRing(s, p, q);
    RingIsSorted(s, q);
    if Home(p) == Some(q) { EnqueuedJoins(Ring(s, q), s.current, s.prio); }
    JoinedOrSameIs(s, Suspend(s, p), s.current, Home(p), q);
  }

  lemma JoinedOrSameIs(s: State, s': State, t: Tid, home: Option<QId>, q: QId)
    requires if home == Some(q) then Joined(Ring(s, q), Ring(s', q), t, s.prio) else Ring(s', q) == Ring(s, q)
    ensures JoinedOrSame(s, s', t, home, q)
  {}

  lemma ResumedRing(s: State, p: Pc, q: QId)
    ensures Ring(Suspend(s, p), q) == Ring(Move(s, s.current, p), q)
  {
    hide Move;
  }

  lemma RingIsSorted(s: State, q: QId)
    requires QueuesOk(s)
    ensures Sorted(KeysBy(Ring(s, q), s.prio), BY_PRIORITY)
  {
    assert RingOk(s, q);
  }

  lemma SuspendSleep(s: State, p: Pc)
    requires QueuesOk(s) && !s.halted && !Timed(p)
    ensures Suspend(s, p).sleep == s.sleep
  {
    hide RingsOk, Move, Enqueued, IndexOf;
    MovedSleep(s, s.current, p);
    MovedFields(s, s.current, p);
  }

  lemma SuspendBlocks(s: State, p: Pc)
    requires QueuesOk(s) && !s.halted
    ensures Blocks(s, Suspend(s, p), p) && SameTimes(s, Suspend(s, p)) && Suspend(s, p).locks == s.locks
  {
    hide QueuesOk, Suspend, JoinedOrSame;
    SuspendDispatches(s, p);
    forall q | q != Ready ensures JoinedOrSame(s, Suspend(s, p), s.current, Home(p), q) { SuspendRing(s, p, q); }
  }

  /** What a yield changes is only who runs, and the order of the ready queue. */
  lemma YieldDispatches(s: State)
    requires QueuesOk(s) && !s.halted && PcOf(s, s.current) == Run
    ensures var s' := YieldIfNecessary(s);
      && Dispatched(s') && !s'.halted && SameTimes(s, s') && s'.locks == s.locks && s'.pc == s.pc
      && s'.sleep == s.sleep && forall q :: q != Ready ==> Ring(s', q) == Ring(s, q)
  {
    YieldRunsHighest(s);
    YieldKeeps(s);
    if Ring(s, Ready) == [] || Ring(s, Ready)[0] != s.current {
      assert s.pc[s.current := Run] == s.pc;
      hide QueuesOk, Suspend;
      SuspendDispatches(s, Run);
      SuspendSleep(s, Run);
      forall q | q != Ready ensures Ring(Suspend(s, Run), q) == Ring(s, q) { SuspendRing(s, Run, q); }
    }
  }

  /** Waking the first thread of a wait ring. */
  lemma WakeFirst(s: State, q: QId)
    requires QueuesOk(s) && q != Ready && Ring(s, q) != []
    ensures var w, s' := Ring(s, q)[0], Wake(s, Ring(s, q)[0]);
      && w in s.pc && Home(s.pc[w]) == Some(q) && s'.pc == s.pc[w := Woken(s.pc[w])]
      && QueuesOk(s') && s'.halted == s.halted && s'.current == s.current && s'.locks == s.locks && SameTimes(s, s')
      && Ring(s', q) == Ring(s, q)[1..] && OtherRingsSame(s, s', q) && s'.sleep == Without(s.sleep, w)
  {
    var w := Ring(s, q)[0];
    HeadIsHome(s, q);
    WakeKeeps(s, w);
    hide SleepOk, Move, Enqueued;
    MovedFields(s, w, Woken(PcOf(s, w)));
    MovedSleep(s, w, Woken(PcOf(s, w)));
    forall q' | q' != Ready
      ensures Ring(Wake(s, w), q') == if q' == q then Ring(s, q)[1..] else Ring(s, q')
    {
      MovedRing(s, w, Woken(PcOf(s, w)), q');
      assert RingOk(s, q');
    }
  }

  /** The first of a wait ring has the highest priority there. */
  lemma FirstIsHighest(s: State, q: QId, u: Tid)
    requires QueuesOk(s) && u in Ring(s, q)
    ensures KeyOf(u, s.prio) <= KeyOf(Ring(s, q)[0], s.prio)
  {
    assert RingOk(s, q);
    var ring := Ring(s, q);
    var i := IndexOf(ring, u);
    assert KeysBy(ring, s.prio)[i] == KeyOf(u, s.prio) && KeysBy(ring, s.prio)[0] == KeyOf(ring[0], s.prio);
  }

  lemma {:induction false} WakeAllEmpties(s: State, q: QId)
    requires QueuesOk(s) && q != Ready
    ensures var s' := WakeAll(s, q);
      && QueuesOk(s') && s'.halted == s.halted && SameTimes(s, s')
      && Ring(s', q) == [] && OtherRingsSame(s, s', q)
    decreases |Ring(s, q)|
  {
    hide QueuesOk, Wake;
    if Ring(s, q) != [] {
      WakeFirst(s, q);
      WakeShortens(s, q);
      WakeAllEmpties(Wake(s, Ring(s, q)[0]), q);
    }
  }

  lemma ReadyIs(s: State, t: Tid)
    requires QueuesOk(s)
    ensures t in Ring(s, Ready) <==> t in s.pc && Home(s.pc[t]) == Some(Ready)
    ensures t in s.sleep <==> t in s.pc && Timed(s.pc[t])
  {
    assert RingOk(s, Ready);
  }

  // -------------------------------------------------- condition variables

  /** A signal makes the first waiter ready, and none had a higher priority; the
      other waiters stay in order, and a thread of the highest ready priority runs. */
  lemma SignalWakesTheFirst(s: State, c: nat)
    requires QueuesOk(s) && Enabled(s, DoCondvarSignal(c)) && Ring(s, CondQ(c)) != []
    ensures var w, s' := Ring(s, CondQ(c))[0], Do(s, DoCondvarSignal(c));
      && s'.pc == s.pc[w := Run] && w in Ring(s', Ready) && w !in s'.sleep
      && Ring(s', CondQ(c)) == Ring(s, CondQ(c))[1..] && OtherRingsSame(s, s', CondQ(c))
      && (forall u :: u in Ring(s, CondQ(c)) ==> KeyOf(u, s.prio) <= KeyOf(w, s.prio))
      && !s'.halted && Dispatched(s') && SameTimes(s, s') && s'.locks == s.locks
  {
    hide RingsOk, SleepOk, Wake, YieldIfNecessary, Dispatched;
    var w := Ring(s, CondQ(c))[0];
    WakeFirst(s, CondQ(c));
    YieldDispatches(Wake(s, w));
    DispatchedIsOk(Do(s, DoCondvarSignal(c)));
    ReadyIs(Do(s, DoCondvarSignal(c)), w);
    forall u | u in Ring(s, CondQ(c)) ensures KeyOf(u, s.prio) <= KeyOf(w, s.prio) { FirstIsHighest(s, CondQ(c), u); }
  }

  lemma DispatchedIsOk(s: State)
    requires Dispatched(s)
    ensures QueuesOk(s)
  {}

  /** Nothing happens when nobody waits. */
  lemma SignalToNobody(s: State, c: nat)
    requires Ring(s, CondQ(c)) == []
    ensures Do(s, DoCondvarSignal(c)) == s
  {}

  /** A broadcast leaves nobody waiting: all who waited are ready, and no one else
      moves. */
  lemma BroadcastWakesAll(s: State, c: nat)
    requires QueuesOk(s) && Enabled(s, DoCondvarBroadcast(c))
    ensures var s' := Do(s, DoCondvarBroadcast(c));
      && Ring(s', CondQ(c)) == [] && OtherRingsSame(s, s', CondQ(c)) && s'.pc.Keys == s.pc.Keys
      && (forall t :: t in Ring(s, CondQ(c)) ==> t in Ring(s', Ready) && t !in s'.sleep)
      && (forall t :: t in s.pc ==> s'.pc[t] == if t in Ring(s, CondQ(c)) then Run else s.pc[t])
      && !s'.halted && Dispatched(s') && SameTimes(s, s') && s'.locks == s.locks
  {
    var s' := Do(s, DoCondvarBroadcast(c));
    assert s.(locks := s.locks) == s;
    hide *;
    EnabledFacts(s, DoCondvarBroadcast(c));
    BroadcastIs(s, c);
    WokenAndYields(s, s.locks, CondQ(c));
    DispatchedIsOk(s');
    forall t | t in s.pc ensures t in s'.pc && s'.pc[t] == if t in Ring(s, CondQ(c)) then Run else s.pc[t] {
      WokenFromRing(s, CondQ(c), t);
    }
    forall t | t in Ring(s, CondQ(c)) ensures t in s.pc && t in Ring(s', Ready) && t !in s'.sleep {
      WokenFromRing(s, CondQ(c), t);
      ReadyIs(s', t);
    }
  }

  lemma EnabledFacts(s: State, a: Action)
    requires Enabled(s, a)
    ensures !s.halted && (!a.DoResume? ==> PcOf(s, s.current) == Run)
  {}

  lemma BroadcastIs(s: State, c: nat)
    ensures Do(s, DoCondvarBroadcast(c)) == YieldIfNecessary(WakeAll(s, CondQ(c)))
  {}

  /** Where the threads of a ring continue when all are woken. */
  lemma WokenFromRing(s: State, q: QId, t: Tid)
    requires QueuesOk(s)
    ensures WokenFrom(s.pc, q).Keys == s.pc.Keys && (t in Ring(s, q) ==> t in s.pc)
    ensures t in s.pc ==> WokenFrom(s.pc, q)[t] == if t in Ring(s, q) then Woken(s.pc[t]) else s.pc[t]
    ensures t in Ring(s, q) ==> Home(s.pc[t]) == Some(q) && Home(Woken(s.pc[t])) == Some(Ready)
    ensures t in Ring(s, q) && q.CondQ? ==> Woken(s.pc[t]) == Run
    ensures t in Ring(s, q) && q != Ready ==> !Timed(Woken(s.pc[t]))
  {
    assert RingOk(s, q);
  }

  /** Setting the lock fields, waking everyone on a ring, and yielding. */
  lemma WokenAndYields(s: State, l: Locks, q: QId)
    requires QueuesOk(s) && !s.halted && PcOf(s, s.current) == Run && q != Ready
    ensures var s' := YieldIfNecessary(WakeAll(s.(locks := l), q));
      && Ring(s', q) == [] && OtherRingsSame(s, s', q) && s'.pc == WokenFrom(s.pc, q)
      && !s'.halted && Dispatched(s') && SameTimes(s, s') && s'.locks == l
  {
    hide RingsOk, SleepOk, WakeAll, YieldIfNecessary;
    var s1 := s.(locks := l);
    SameQueues(s, s1);
    WakeAllEffect(s1, q);
    WakeAllEmpties(s1, q);
    YieldDispatches(WakeAll(s1, q));
  }

  /** condvar_mutexless_wait waits for the condition variable, in order of priority. */
  lemma MutexlessWaitBlocks(s: State, c: nat)
    requires QueuesOk(s) && Enabled(s, DoMutexlessWait(c))
    ensures var s' := Do(s, DoMutexlessWait(c));
      && Blocks(s, s', CondWait(c)) && s.current in Ring(s', CondQ(c)) && s'.sleep == s.sleep
      && SameTimes(s, s') && s'.locks == s.locks
  {
    var s' := Do(s, DoMutexlessWait(c));
    hide RingsOk, SleepOk, Suspend;
    SuspendBlocks(s, CondWait(c));
    SuspendSleep(s, CondWait(c));
    OnItsRing(s', s.current, CondQ(c));
  }

  lemma OnItsRing(s: State, t: Tid, q: QId)
    requires QueuesOk(s) && t in s.pc && Home(s.pc[t]) == Some(q)
    ensures t in Ring(s, q)
  {
    assert RingOk(s, q);
  }

  // -------------------------------------------------- mutexes

  /** Where a waiter continues that is given the mutex. */
  function GivenPc(p: Pc, m: nat): Pc { if p.TimedLockWait? then TimedLockWoken(m) else Run }

  lemma GivenIsWoken(p: Pc, m: nat)
    requires Home(p) == Some(MutexQ(m))
    ensures Woken(p) == GivenPc(p, m)
  {}

  /** A free mutex is taken at once; for a locked one the caller waits in order of
      priority. */
  lemma LockOutcome(s: State, m: nat)
    requires QueuesOk(s) && Enabled(s, DoMutexLock(m))
    ensures var s' := Do(s, DoMutexLock(m));
      if m in s.locks.locked
      then Blocks(s, s', LockWait(m)) && s.current in Ring(s', MutexQ(m)) && SameTimes(s, s') && s'.locks == s.locks
      else && GoesOn(s, s') && s'.pc == s.pc
           && s'.locks == s.locks.(locked := s.locks.locked + {m}, owns := s.locks.owns + {(s.current, m)})
  {
    hide QueuesOk, Suspend;
    if m in s.locks.locked { WaitsOn(s, LockWait(m), MutexQ(m)); }
  }

  lemma WaitsOn(s: State, p: Pc, q: QId)
    requires QueuesOk(s) && !s.halted && Home(p) == Some(q)
    ensures Blocks(s, Suspend(s, p), p) && SameTimes(s, Suspend(s, p)) && Suspend(s, p).locks == s.locks
    ensures s.current in Ring(Suspend(s, p), q)
  {
    hide RingsOk, SleepOk, Suspend;
    SuspendBlocks(s, p);
    OnItsRing(Suspend(s, p), s.current, q);
  }

  /** From s to s1 the caller has given mutex m up: it is free, or the first waiter
      owns it and is ready. */
  ghost predicate GivenUp(s: State, s1: State, m: nat)
  {
    var waiters := Ring(s, MutexQ(m));
    && QueuesOk(s1) && s1.current == s.current && s1.halted == s.halted && SameTimes(s, s1)
    && if waiters == []
       then && s1.rings == s.rings && s1.sleep == s.sleep && s1.pc == s.pc
            && s1.locks == s.locks.(locked := s.locks.locked - {m}, owns := s.locks.owns - {(s.current, m)})
       else && waiters[0] in s.pc && s1.pc == s.pc[waiters[0] := GivenPc(s.pc[waiters[0]], m)]
            && s1.sleep == Without(s.sleep, waiters[0])
            && Ring(s1, MutexQ(m)) == waiters[1..] && OtherRingsSame(s, s1, MutexQ(m))
            && s1.locks == s.locks.(owns := s.locks.owns - {(s.current, m)} + {(waiters[0], m)})
  }

  lemma ReleaseGivesUp(s: State, m: nat)
    requires QueuesOk(s) && !s.halted
    ensures GivenUp(s, Release(s, m), m)
  {
    hide RingsOk, SleepOk, Wake;
    ReleaseKeeps(s, m);
    var waiters := Ring(s, MutexQ(m));
    if waiters != [] {
      var l := s.locks.(owns := s.locks.owns - {(s.current, m)} + {(waiters[0], m)});
      SameQueues(s, s.(locks := l));
      WakeFirst(s.(locks := l), MutexQ(m));
      GivenIsWoken(s.pc[waiters[0]], m);
    }
  }

  lemma FirstWaiter(s: State, m: nat)
    requires QueuesOk(s) && Ring(s, MutexQ(m)) != []
    ensures var w := Ring(s, MutexQ(m))[0];
      && w in s.pc && Home(s.pc[w]) == Some(MutexQ(m)) && Home(GivenPc(s.pc[w], m)) == Some(Ready)
      && forall u :: u in Ring(s, MutexQ(m)) ==> KeyOf(u, s.prio) <= KeyOf(w, s.prio)
  {
    HeadIsHome(s, MutexQ(m));
    forall u | u in Ring(s, MutexQ(m)) ensures KeyOf(u, s.prio) <= KeyOf(Ring(s, MutexQ(m))[0], s.prio) {
      FirstIsHighest(s, MutexQ(m), u);
    }
  }

  /** A released mutex nobody waits for is free. */
  lemma UnlockFrees(s: State, m: nat)
    requires QueuesOk(s) && Enabled(s, DoMutexUnlock(m)) && Ring(s, MutexQ(m)) == []
    ensures var s' := Do(s, DoMutexUnlock(m));
      && GoesOn(s, s') && s'.pc == s.pc
      && s'.locks == s.locks.(locked := s.locks.locked - {m}, owns := s.locks.owns - {(s.current, m)})
  {}

  /** A released mutex is never free while someone waits: the first waiter owns it at
      once and is ready, and no waiter has a higher priority. */
  lemma HandOff(s: State, m: nat)
    requires QueuesOk(s) && Enabled(s, DoMutexUnlock(m)) && Ring(s, MutexQ(m)) != []
    ensures var w, s' := Ring(s, MutexQ(m))[0], Do(s, DoMutexUnlock(m));
      && s'.locks == s.locks.(owns := s.locks.owns - {(s.current, m)} + {(w, m)})
      && w in s.pc && s'.pc == s.pc[w := if s.pc[w] == LockWait(m) then Run else TimedLockWoken(m)]
      && w in Ring(s', Ready) && w !in s'.sleep
      && Ring(s', MutexQ(m)) == Ring(s, MutexQ(m))[1..] && OtherRingsSame(s, s', MutexQ(m))
      && (forall u :: u in Ring(s, MutexQ(m)) ==> KeyOf(u, s.prio) <= KeyOf(w, s.prio))
      && !s'.halted && Dispatched(s') && SameTimes(s, s')
  {
    hide RingsOk, SleepOk, Release, YieldIfNecessary, Dispatched;
    var w := Ring(s, MutexQ(m))[0];
    ReleaseGivesUp(s, m);
    FirstWaiter(s, m);
    CurrentIsNotWaiting(s, MutexQ(m));
    YieldDispatches(Release(s, m));
    DispatchedIsOk(Do(s, DoMutexUnlock(m)));
    ReadyIs(Do(s, DoMutexUnlock(m)), w);
  }

  lemma CurrentIsNotWaiting(s: State, q: QId)
    requires QueuesOk(s) && !s.halted && q != Ready && Ring(s, q) != []
    ensures Ring(s, q)[0] != s.current
  {
    CurrentIsReady(s, q);
  }

  /** condvar_wait gives the mutex to its first waiter and waits for it like any other
      thread; with no waiter, or when a late attempt has unlocked it, it takes the mutex
      and returns at once. */
  lemma CondvarWaitTakesTurns(s: State, m: nat)
    requires QueuesOk(s) && Enabled(s, DoCondvarWait(m))
    ensures var s', waiters := Do(s, DoCondvarWait(m)), Ring(s, MutexQ(m));
      if waiters == []
      then GoesOn(s, s') && s'.pc == s.pc && m in s'.locks.locked && (s.current, m) in s'.locks.owns
      else && waiters[0] in s.pc && (waiters[0], m) in s'.locks.owns
           && OtherRingsSame(s, s', MutexQ(m)) && !s'.halted && SameTimes(s, s')
           && if m in s.locks.locked
              then && s'.locks == s.locks.(owns := s.locks.owns - {(s.current, m)} + {(waiters[0], m)})
                   && s'.pc == s.pc[waiters[0] := GivenPc(s.pc[waiters[0]], m)][s.current := LockWait(m)]
                   && Joined(waiters[1..], Ring(s', MutexQ(m)), s.current, s.prio) && Dispatched(s')
              else && s'.current == s.current && (s.current, m) in s'.locks.owns && m in s'.locks.locked
                   && s'.pc == s.pc[waiters[0] := GivenPc(s.pc[waiters[0]], m)]
                   && Ring(s', MutexQ(m)) == waiters[1..]
  {
    hide RingsOk, SleepOk, Release, Suspend;
    var s1, waiters := Release(s, m), Ring(s, MutexQ(m));
    ReleaseGivesUp(s, m);
    if waiters != [] {
      FirstWaiter(s, m);
      CurrentIsNotWaiting(s, MutexQ(m));
      if m in s.locks.locked {
        SuspendBlocks(s1, LockWait(m));
        assert JoinedOrSame(s1, Suspend(s1, LockWait(m)), s.current, Home(LockWait(m)), MutexQ(m));
        OtherJoins(s, s1, Suspend(s1, LockWait(m)), MutexQ(m), LockWait(m));
        NotHalted(Suspend(s1, LockWait(m)), waiters[0]);
      } else {
        OtherRingsAre(s, s1, Do(s, DoCondvarWait(m)), MutexQ(m));
      }
    }
  }

  lemma OtherRingsAre(s: State, s1: State, s': State, q: QId)
    requires OtherRingsSame(s, s1, q) && s'.rings == s1.rings
    ensures OtherRingsSame(s, s', q) && Ring(s', q) == Ring(s1, q)
  {
    forall q' | q' != Ready && q' != q ensures Ring(s', q') == Ring(s, q') { assert Ring(s1, q') == Ring(s, q'); }
  }

  lemma NotHalted(s: State, t: Tid)
    requires Dispatched(s) && t in s.pc && Home(s.pc[t]) == Some(Ready)
    ensures !s.halted
  {}

  lemma OtherJoins(s: State, s1: State, s': State, q: QId, p: Pc)
    requires OtherRingsSame(s, s1, q) && Blocks(s1, s', p) && Home(p) == Some(q)
    ensures OtherRingsSame(s, s', q)
  {
    hide Dispatched;
    forall q' | q' != Ready && q' != q ensures Ring(s', q') == Ring(s, q') {
      assert JoinedOrSame(s1, s', s1.current, Home(p), q');
    }
  }

  // -------------------------------------------------- rw-mutexes

  /** Somebody holds rw-mutex r for writing; somebody found it busy and still waits
      to write. */
  ghost predicate WriterHolds(s: State, r: nat) { exists t :: (t, r) in s.locks.writing }

  ghost predicate WriterWaits(s: State, r: nat)
  {
    exists t :: t in s.pc && (s.pc[t] == WriteQueued(r) || s.pc[t] == WriteWoken(r))
  }

  lemma WhoHolds(s: State, r: nat)
    requires Inv(s)
    ensures r in s.locks.rwLocked <==> WriterHolds(s, r)
    ensures Writerq(s.locks, r) > 0 <==> WriterWaits(s, r)
    ensures Readers(s.locks, r) == |Reading(s.locks, r)|
    ensures r in s.locks.rwLocked ==> Readers(s.locks, r) == 0
  {
    assert RwOk(s.pc, s.locks, r);
    if WriterWaits(s, r) {
      var t :| t in s.pc && (s.pc[t] == WriteQueued(r) || s.pc[t] == WriteWoken(r));
      assert t in Counted(s.pc, r);
    } else {
      assert Counted(s.pc, r) == {};
    }
  }

  /** Nothing but the standing of rw-mutex r changed. */
  ghost predicate OnlyRw(l: Locks, l': Locks, r: nat)
  {
    SameMutexes(l, l') && forall k :: k != r ==> SameRw(l, l', k)
  }

  lemma LocksTaken(l: Locks, t: Tid, r: nat)
    ensures var l' := ReadTaken(l, t, r);
      && Reading(l', r) == Reading(l, r) + multiset{t} && Readers(l', r) == Readers(l, r) + 1 && OnlyRw(l, l', r)
      && l'.writing == l.writing && Writerq(l', r) == Writerq(l, r)
    ensures var l' := WriteTaken(l, t, r);
      && r in l'.rwLocked && l'.writing == l.writing + {(t, r)} && OnlyRw(l, l', r) && Writerq(l', r) == Writerq(l, r)
  {}

  lemma LocksCounted(l: Locks, r: nat)
    ensures var l' := l.(writerq := Increased(l.writerq, r));
      && Writerq(l', r) == Writerq(l, r) + 1 && OnlyRw(l, l', r) && l'.writing == l.writing
      && Reading(l', r) == Reading(l, r)
    ensures var l' := l.(writerq := Decreased(l.writerq, r));
      && (Writerq(l, r) > 0 ==> Writerq(l', r) == Writerq(l, r) - 1) && OnlyRw(l, l', r) && l'.writing == l.writing
  {}

  lemma LocksRead(l: Locks, t: Tid, r: nat)
    ensures var l' := ReadGiven(l, t, r);
      && Reading(l', r) == Reading(l, r) - multiset{t} && (Readers(l, r) > 0 ==> Readers(l', r) == Readers(l, r) - 1)
      && OnlyRw(l, l', r) && l'.rwLocked == l.rwLocked && l'.writing == l.writing && Writerq(l', r) == Writerq(l, r)
  {}

  lemma LocksWritten(l: Locks, t: Tid, r: nat)
    ensures var l' := WriteGiven(l, t, r);
      && r !in l'.rwLocked && l'.writing == l.writing - {(t, r)} && OnlyRw(l, l', r)
      && Reading(l', r) == Reading(l, r) && Readers(l', r) == Readers(l, r) && Writerq(l', r) == Writerq(l, r)
  {}

  /** The caller asks for, or resumes its call for, rw-mutex r. */
  predicate AsksToRead(s: State, a: Action, r: nat)
  {
    a == DoReadLock(r) || (a == DoResume && PcOf(s, s.current) == ReadWoken(r))
  }

  /** A reader gets in at once, beside all other readers, exactly when no writer holds
      the lock and none waits for it; otherwise it waits in order of priority. */
  lemma ReadLockOutcome(s: State, a: Action, r: nat)
    requires Inv(s) && Enabled(s, a) && AsksToRead(s, a, r)
    ensures var s' := Do(s, a);
      if WriterHolds(s, r) || WriterWaits(s, r)
      then Blocks(s, s', ReadQueued(r)) && SameTimes(s, s') && s'.locks == s.locks
      else && GoesOn(s, s') && s'.pc == s.pc[s.current := Run]
           && Reading(s'.locks, r) == Reading(s.locks, r) + multiset{s.current}
           && Readers(s'.locks, r) == Readers(s.locks, r) + 1 && OnlyRw(s.locks, s'.locks, r)
           && !WriterHolds(s', r) && Writerq(s'.locks, r) == 0
  {
    hide QueuesOk, Inv, Suspend, Reading, Writerq, Readers, OnlyRw, ReadTaken, Blocks;
    WhoHolds(s, r);
    InvIs(s);
    assert Do(s, a) == ReadLock(s, r);
    LocksTaken(s.locks, s.current, r);
    if r in s.locks.rwLocked || Writerq(s.locks, r) > 0 { SuspendBlocks(s, ReadQueued(r)); }
  }

  /** From boot: while no writer holds or waits, every reader gets in at once. */
  lemma ReadersShare(t0: Tid, p0: int, actions: seq<Action>, a: Action, r: nat)
    requires LegalRun(Initial(t0, p0), actions)
    requires var s := RunOf(Initial(t0, p0), actions);
      Enabled(s, a) && AsksToRead(s, a, r) && !WriterHolds(s, r) && !WriterWaits(s, r)
    ensures var s := RunOf(Initial(t0, p0), actions);
      var s' := Do(s, a);
      && s'.current == s.current && !s'.halted && PcOf(s', s'.current) == Run
      && Reading(s'.locks, r) == Reading(s.locks, r) + multiset{s.current}
      && Readers(s'.locks, r) == Readers(s.locks, r) + 1
  {
    hide RunOf, LegalRun, Inv, Do;
    InitialInv(t0, p0);
    RunKeepsInv(Initial(t0, p0), actions);
    ReadLockOutcome(RunOf(Initial(t0, p0), actions), a, r);
  }

  /** A writer gets in at once exactly when nobody holds the lock. */
  lemma WriteLockOutcome(s: State, r: nat)
    requires Inv(s) && Enabled(s, DoWriteLock(r))
    ensures var s' := Do(s, DoWriteLock(r));
      if WriterHolds(s, r) || Reading(s.locks, r) != multiset{}
      then && Blocks(s, s', WriteQueued(r)) && SameTimes(s, s') && Writerq(s'.locks, r) == Writerq(s.locks, r) + 1
           && OnlyRw(s.locks, s'.locks, r) && s'.locks.writing == s.locks.writing
           && Reading(s'.locks, r) == Reading(s.locks, r)
      else && GoesOn(s, s') && s'.pc == s.pc && r in s'.locks.rwLocked
           && s'.locks.writing == s.locks.writing + {(s.current, r)} && OnlyRw(s.locks, s'.locks, r)
           && Writerq(s'.locks, r) == Writerq(s.locks, r)
  {
    hide QueuesOk, Inv, Suspend, Reading, Writerq, Readers, OnlyRw, WriteTaken, Increased, Blocks;
    WhoHolds(s, r);
    InvIs(s);
    LocksTaken(s.locks, s.current, r);
    LocksCounted(s.locks, r);
    if Busy(s.locks, r) {
      var l := s.locks.(writerq := Increased(s.locks.writerq, r));
      WithLocks(s, l);
      SuspendBlocks(s.(locks := l), WriteQueued(r));
      SameBlocks(s, s.(locks := l), Suspend(s.(locks := l), WriteQueued(r)), WriteQueued(r));
    }
  }

  lemma WithLocks(s: State, l: Locks)
    requires QueuesOk(s)
    ensures QueuesOk(s.(locks := l))
  {
    SameQueues(s, s.(locks := l));
  }

  lemma InvIs(s: State)
    requires Inv(s)
    ensures QueuesOk(s) && LocksHold(s)
  {}

  lemma CurrentLives(s: State)
    requires QueuesOk(s) && !s.halted
    ensures s.current in s.pc
  {}

  lemma OnlyRwTwice(l: Locks, l1: Locks, l': Locks, r: nat)
    requires OnlyRw(l, l1, r)
    ensures OnlyRw(l1, l', r) ==> OnlyRw(l, l', r)
  {
    if OnlyRw(l1, l', r) {
      forall k | k != r ensures SameRw(l, l', k) { assert SameRw(l, l1, k) && SameRw(l1, l', k); }
    }
  }

  /** Nothing that the ways of blocking speak of differs between s and s1. */
  lemma SameBlocks(s: State, s1: State, s': State, p: Pc)
    requires s1.current == s.current && s1.pc == s.pc && s1.prio == s.prio && s1.rings == s.rings && Blocks(s1, s', p)
    ensures Blocks(s, s', p)
  {
    hide Dispatched, Joined;
    forall q | q != Ready ensures JoinedOrSame(s, s', s.current, Home(p), q) {
      assert JoinedOrSame(s1, s', s1.current, Home(p), q);
    }
  }

  /** A woken writer gets in exactly when nobody holds the lock, and is no longer
      counted; otherwise it queues again. */
  lemma WriteResumeOutcome(s: State, r: nat)
    requires Inv(s) && Enabled(s, DoResume) && PcOf(s, s.current) == WriteWoken(r)
    ensures var s' := Do(s, DoResume);
      if WriterHolds(s, r) || Reading(s.locks, r) != multiset{}
      then Blocks(s, s', WriteQueued(r)) && SameTimes(s, s') && s'.locks == s.locks
      else && GoesOn(s, s') && s'.pc == s.pc[s.current := Run] && r in s'.locks.rwLocked
           && s'.locks.writing == s.locks.writing + {(s.current, r)} && OnlyRw(s.locks, s'.locks, r)
           && Writerq(s'.locks, r) == Writerq(s.locks, r) - 1
  {
    hide QueuesOk, Inv, Suspend, Reading, Writerq, Readers, OnlyRw, WriteTaken, Decreased, Blocks;
    WhoHolds(s, r);
    InvIs(s);
    DoResumeIs(s);
    LocksCounted(s.locks, r);
    LocksTaken(s.locks.(writerq := Decreased(s.locks.writerq, r)), s.current, r);
    CurrentLives(s);
    assert WriterWaits(s, r);
    OnlyRwTwice(s.locks, s.locks.(writerq := Decreased(s.locks.writerq, r)), Do(s, DoResume).locks, r);
    if Busy(s.locks, r) { SuspendBlocks(s, WriteQueued(r)); }
  }

  /** Everyone who waited for rw-mutex r is ready and will try again; no one else
      moves. */
  ghost predicate TriesAgain(s: State, s': State, r: nat)
  {
    && Ring(s', RwQ(r)) == [] && OtherRingsSame(s, s', RwQ(r)) && s'.pc.Keys == s.pc.Keys
    && (forall t :: t in Ring(s, RwQ(r)) ==> t in s.pc && t in Ring(s', Ready))
    && (forall t :: t in s.pc ==>
          s'.pc[t] == if s.pc[t] == ReadQueued(r) then ReadWoken(r)
                      else if s.pc[t] == WriteQueued(r) then WriteWoken(r) else s.pc[t])
    && !s'.halted && Dispatched(s') && SameTimes(s, s')
  }

  lemma AllTryAgain(s: State, l: Locks, r: nat)
    requires QueuesOk(s) && !s.halted && PcOf(s, s.current) == Run
    ensures var s' := YieldIfNecessary(WakeAll(s.(locks := l), RwQ(r))); TriesAgain(s, s', r) && s'.locks == l
  {
    var s' := YieldIfNecessary(WakeAll(s.(locks := l), RwQ(r)));
    hide *;
    WokenAndYields(s, l, RwQ(r));
    DispatchedIsOk(s');
    forall t | t in s.pc
      ensures t in s'.pc && s'.pc[t] == if s.pc[t] == ReadQueued(r) then ReadWoken(r)
                                        else if s.pc[t] == WriteQueued(r) then WriteWoken(r) else s.pc[t]
    {
      RwWoken(s, r, t);
    }
    forall t | t in Ring(s, RwQ(r)) ensures t in s.pc && t in Ring(s', Ready) {
      WokenFromRing(s, RwQ(r), t);
      ReadyIs(s', t);
    }
    WokenFromRing(s, RwQ(r), 0);
    TriesAgainIs(s, s', r);
  }

  lemma RwWoken(s: State, r: nat, t: Tid)
    requires t in s.pc
    ensures t in WokenFrom(s.pc, RwQ(r))
    ensures WokenFrom(s.pc, RwQ(r))[t] ==
      if s.pc[t] == ReadQueued(r) then ReadWoken(r) else if s.pc[t] == WriteQueued(r) then WriteWoken(r) else s.pc[t]
  {}

  lemma TriesAgainIs(s: State, s': State, r: nat)
    requires Ring(s', RwQ(r)) == [] && OtherRingsSame(s, s', RwQ(r)) && s'.pc.Keys == s.pc.Keys
    requires forall t :: t in Ring(s, RwQ(r)) ==> t in s.pc && t in Ring(s', Ready)
    requires forall t :: t in s.pc ==>
          s'.pc[t] == if s.pc[t] == ReadQueued(r) then ReadWoken(r)
                      else if s.pc[t] == WriteQueued(r) then WriteWoken(r) else s.pc[t]
    requires !s'.halted && Dispatched(s') && SameTimes(s, s')
    ensures TriesAgain(s, s', r)
  {
    hide Dispatched, OtherRingsSame, Ring;
  }

  /** A leaving reader, whether or not the last one, makes everyone try again. */
  lemma ReadUnlockOutcome(s: State, r: nat)
    requires Inv(s) && Enabled(s, DoReadUnlock(r))
    ensures var s' := Do(s, DoReadUnlock(r));
      && TriesAgain(s, s', r) && OnlyRw(s.locks, s'.locks, r)
      && Reading(s'.locks, r) == Reading(s.locks, r) - multiset{s.current}
      && Readers(s'.locks, r) == Readers(s.locks, r) - 1
      && (r in s'.locks.rwLocked <==> r in s.locks.rwLocked) && s'.locks.writing == s.locks.writing
      && Writerq(s'.locks, r) == Writerq(s.locks, r)
  {
    hide QueuesOk, Inv, WakeAll, YieldIfNecessary, TriesAgain, ReadGiven, OnlyRw, Readers, Writerq;
    WhoHolds(s, r);
    InvIs(s);
    LocksRead(s.locks, s.current, r);
    AllTryAgain(s, ReadGiven(s.locks, s.current, r), r);
  }

  /** So does a leaving writer. */
  lemma WriteUnlockOutcome(s: State, r: nat)
    requires Inv(s) && Enabled(s, DoWriteUnlock(r))
    ensures var s' := Do(s, DoWriteUnlock(r));
      && TriesAgain(s, s', r) && OnlyRw(s.locks, s'.locks, r)
      && r !in s'.locks.rwLocked && s'.locks.writing == s.locks.writing - {(s.current, r)}
      && Reading(s'.locks, r) == Reading(s.locks, r) && Readers(s'.locks, r) == Readers(s.locks, r)
      && Writerq(s'.locks, r) == Writerq(s.locks, r)
  {
    hide QueuesOk, Inv, WakeAll, YieldIfNecessary, TriesAgain, WriteGiven, OnlyRw, Readers, Writerq;
    InvIs(s);
    LocksWritten(s.locks, s.current, r);
    AllTryAgain(s, WriteGiven(s.locks, s.current, r), r);
  }

  // -------------------------------------------------- threads

  /** A yield puts the caller behind everyone of at least its priority, and the first
      ready thread runs. */
  lemma YieldTakesTurns(s: State)
    requires QueuesOk(s) && Enabled(s, DoYield)
    ensures var s' := Do(s, DoYield);
      && Joined(Without(Ring(s, Ready), s.current), Ring(s', Ready), s.current, s.prio)
      && Ring(s', Ready) != [] && s'.current == Ring(s', Ready)[0]
      && s'.pc == s.pc && s'.sleep == s.sleep && OtherRingsSame(s, s', Ready)
      && !s'.halted && Dispatched(s') && SameTimes(s, s') && s'.locks == s.locks
  {
    assert s.pc[s.current := Run] == s.pc;
    var s' := Do(s, DoYield);
    hide QueuesOk, Suspend, Joined, Enqueued, Without, Move;
    SuspendDispatches(s, Run);
    SuspendSleep(s, Run);
    forall q | q != Ready ensures Ring(s', q) == Ring(s, q) { SuspendRing(s, Run, q); }
    MovedRing(s, s.current, Run, Ready);
    ResumedRing(s, Run, Ready);
    RingIsSorted(s, Ready);
    WithoutSorted(Ring(s, Ready), s.current, s.prio, BY_PRIORITY);
    EnqueuedJoins(Without(Ring(s, Ready), s.current), s.current, s.prio);
    FirstRuns(s, Run);
  }

  lemma FirstRuns(s: State, p: Pc)
    ensures var s' := Suspend(s, p);
      && Ring(s', Ready) == Ring(Move(s, s.current, p), Ready)
      && (Ring(s', Ready) != [] ==> s'.current == Ring(s', Ready)[0])
  {
    hide Move;
  }

  /** A started thread is ready with the priority it is given, and runs at once if that
      is the highest. */
  lemma StartOutcome(s: State, t: Tid, p: int)
    requires QueuesOk(s) && Enabled(s, DoStart(t, p))
    ensures var s' := Do(s, DoStart(t, p));
      && s'.pc == s.pc[t := Run] && s'.prio == s.prio[t := p] && t in Ring(s', Ready) && t !in s'.sleep
      && OtherRingsSame(s, s', Ready) && s'.timeout == s.timeout && s'.timedOut == s.timedOut && s'.locks == s.locks
      && !s'.halted && Dispatched(s')
  {
    var s1 := s.(prio := s.prio[t := p]);
    var s2, s' := Move(s1, t, Run), Do(s, DoStart(t, p));
    hide RingsOk, SleepOk, Move, YieldIfNecessary, Dispatched;
    SetPrioKeeps(s, t, p);
    MoveKeeps(s1, t, Run);
    MovedFields(s1, t, Run);
    NewIsNowhere(s, t);
    YieldDispatches(s2);
    forall q | q != Ready ensures Ring(s', q) == Ring(s, q) {
      MovedRing(s1, t, Run, q);
      NewIsNotOn(s, t, q);
    }
    DispatchedIsOk(s');
    ReadyIs(s', t);
  }

  lemma NewIsNowhere(s: State, t: Tid)
    requires QueuesOk(s) && !s.halted && t !in s.pc
    ensures t != s.current
  {}

  lemma NewIsNotOn(s: State, t: Tid, q: QId)
    requires QueuesOk(s) && t !in s.pc
    ensures Without(Ring(s, q), t) == Ring(s, q)
  {
    assert RingOk(s, q);
  }

  /** An ended thread is on no queue; the others stand as before, and one of the highest
      ready priority runs. */
  lemma ExitOutcome(s: State)
    requires QueuesOk(s) && Enabled(s, DoExit)
    ensures var t, s' := s.current, Do(s, DoExit);
      && s'.pc == s.pc - {t} && t !in s'.sleep && (forall q :: t !in Ring(s', q))
      && OtherRingsSame(s, s', Ready) && Ring(s', Ready) == Without(Ring(s, Ready), t) && s'.sleep == s.sleep
      && SameTimes(s, s') && s'.locks == s.locks && Dispatched(s')
  {
    ExitLeavesNoTrace(s);
    ExitKeeps(s);
    forall q | q != Ready ensures Without(Ring(s, q), s.current) == Ring(s, q) { CurrentIsReady(s, q); }
    hide RingsOk, SleepOk;
  }
}
