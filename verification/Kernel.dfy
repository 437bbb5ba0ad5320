/** The scheduler as thread.cpp writes it: one object whose methods relink the
    queues and update the lock fields in place. Each method is one section with
    interrupts off and is proved to compute the step function of that name. */
module Kernel {
  import opened LinkedRings
  import opened PriorityOrder
  import opened Rings
  import opened SchedulerState
  import opened SchedulerRings
  import opened Wrappers
  import S = Scheduler
  import SchedulerDeadlines
  import SchedulerOutcomes

  /** The header of sleepq. */
  datatype Sleepers = Sleepers

  class Kernel {
    const waitq: RingTable<QId>             // readyq and the wait queues
    const sleepq: RingTable<Sleepers>
    var current: Tid                        // sched_current_thread
    var halted: bool
    var pc: map<Tid, Pc>                    // the saved contexts
    var prio: map<Tid, int>
    var timeout: map<Tid, int>
    var timedOut: set<Tid>
    var locks: Locks

    /** The queues as the sequences that their links hold. */
    ghost function Snapshot(): State
      reads this, waitq`rings, sleepq`rings
    {
      State(current, halted, pc, waitq.rings, sleepq.Ring(Sleepers), prio, timeout, timedOut, locks)
    }

    /** The links hold the queues, and every live thread is on a queue or detached. */
    ghost predicate Linked()
      reads this, waitq, sleepq
    {
      waitq.Valid() && sleepq.Valid() && forall t :: t in pc ==> waitq.Settled(t) && sleepq.Settled(t)
    }

    ghost predicate Running()
      reads this, waitq, sleepq
    {
      Linked() && QueuesOk(Snapshot()) && !halted
    }

    /** sched_setup */
    constructor (primordial: Tid, priority: int)
      ensures fresh(waitq) && fresh(sleepq) && Running() && Snapshot() == S.Initial(primordial, priority)
    {
      hide Holds, OnNone, Alone, Enqueued, Sorted, QueuesOk, KeysBy, Without;
      hide RemoveWait, RemoveSleep, InsertWait, RingOf, S.Initial;
      waitq := new RingTable<QId>();
      sleepq := new RingTable<Sleepers>();
      current, halted, pc := primordial, false, map[primordial := Run];
      prio, timeout, timedOut := map[primordial := priority], map[], {};
      locks := Locks({}, {}, {}, {}, map[], map[], {}, map[]);
      new;
      FirstInQueue(primordial, prio);
      S.InitialQueues(primordial, priority);
      EmptyQueue();
      assert Snapshot() == NobodyReady(primordial, priority);
      InitialIs(primordial, priority);
      WaitQueueInsert(primordial, Ready);
    }

    // ------------------------------------------------ queues

    method WaitQueueRemove(t: Tid)
      requires Linked() && waitq.Settled(t)
      modifies waitq
      ensures waitq.Valid() && OnNone(waitq.rings, t) && Snapshot() == RemoveWait(old(Snapshot()), t)
      ensures forall u :: u in pc && u != t ==> waitq.Settled(u)
    {
      waitq.Remove(t);
      RemovedWait(old(Snapshot()), t);
    }

    method WaitQueueInsert(t: Tid, q: QId)
      requires waitq.Valid() && OnNone(waitq.rings, t) && Sorted(KeysBy(waitq.Ring(q), prio), BY_PRIORITY)
      modifies waitq
      ensures waitq.Valid() && waitq.Settled(t) && Snapshot() == InsertWait(old(Snapshot()), t, q)
      ensures forall u :: old(waitq.Settled(u)) ==> waitq.Settled(u)
    {
      KernelOrdersAreStrictWeak();
      waitq.Insert(t, q, prio, BY_PRIORITY);
    }

    /** remove and detach */
    method SleepQueueRemove(t: Tid)
      requires sleepq.Valid() && sleepq.Settled(t)
      modifies sleepq
      ensures sleepq.Valid() && OnNone(sleepq.rings, t) && sleepq.Settled(t)
      ensures Snapshot() == RemoveSleep(old(Snapshot()), t)
      ensures forall u :: old(sleepq.Settled(u)) ==> sleepq.Settled(u)
    {
      WithoutAllAt(sleepq.rings, t, Sleepers);
      sleepq.Remove(t);
      sleepq.Detach(t);
    }

    method SleepQueueInsert(t: Tid)
      requires sleepq.Valid() && OnNone(sleepq.rings, t) && Sorted(KeysBy(sleepq.Ring(Sleepers), timeout), BY_TIMEOUT)
      modifies sleepq
      ensures sleepq.Valid() && sleepq.Settled(t) && Snapshot() == InsertSleep(old(Snapshot()), t)
      ensures forall u :: old(sleepq.Settled(u)) ==> sleepq.Settled(u)
    {
      KernelOrdersAreStrictWeak();
      sleepq.Insert(t, Sleepers, timeout, BY_TIMEOUT);
    }

    /** From one wait queue to another; the thread will continue at p. */
    method Requeue(t: Tid, q: QId, p: Pc)
      requires Linked() && waitq.Settled(t) && sleepq.Settled(t) && RingOk(Snapshot(), q)
      requires Home(p) == Some(q) && !Timed(p) && t !in sleepq.Ring(Sleepers)
      modifies waitq, `pc
      ensures Linked() && Snapshot() == Move(old(Snapshot()), t, p)
    {
      hide Holds, OnNone, Alone, Enqueued, Without, RingOk, InsertWait, RemoveWait, Sorted, KeysBy, Move;
      ghost var s := Snapshot();
      StillSorted(s, t, q);
      MoveAwake(s, t, q, p);
      WaitQueueRemove(t);
      WaitQueueInsert(t, q);
      pc := pc[t := p];
    }

    /** _sched_reschedule_thread; the thread will continue at p. */
    method Reschedule(t: Tid, p: Pc)
      requires Linked() && waitq.Settled(t) && sleepq.Settled(t) && RingOk(Snapshot(), Ready)
      requires Home(p) == Some(Ready) && !Timed(p) && t !in sleepq.Ring(Sleepers)
      modifies waitq, `pc
      ensures Linked() && Snapshot() == Move(old(Snapshot()), t, p)
    {
      Requeue(t, Ready, p);
    }

    /** The three calls that wake a thread. */
    method Wake(t: Tid)
      requires Linked() && t in pc && RingsOk(Snapshot()) && SleepOk(Snapshot())
      modifies waitq, sleepq, `pc
      ensures Linked() && Snapshot() == S.Wake(old(Snapshot()), t)
    {
      hide Holds, OnNone, Alone, QueuesOk, RingsOk, SleepOk, RingOk, Sorted, KeysBy;
      hide Enqueued, Without, RemoveWait, InsertWait, Move;
      ghost var s := Snapshot();
      MoveAsleep(s, t, Woken(s.pc[t]));
      SleepQueueRemove(t);
      hide RemoveSleep;
      Reschedule(t, Woken(pc[t]));
    }

    method ResumeNextThread()
      requires waitq.Valid()
      modifies `current, `halted
      ensures Snapshot() == S.ResumeNext(old(Snapshot()))
    {
      var t := waitq.First(Ready);
      if t.Some? { current := t.value; } else { halted := true; }
    }

    method SwitchToNextThread()
      requires Running()
      modifies waitq, `pc, `current, `halted
      ensures Linked() && Snapshot() == S.SwitchToNext(old(Snapshot()))
    {
      hide Holds, OnNone, Alone, QueuesOk, RingsOk, SleepOk, RingOk, Sorted, KeysBy;
      hide Enqueued, Without, RemoveWait, InsertWait, Move;
      CurrentIsAwake(Snapshot());
      RingAt(Snapshot(), Ready);
      Reschedule(current, Run);
      ResumeNextThread();
    }

    method YieldIfNecessary()
      requires Running()
      modifies waitq, `pc, `current, `halted
      ensures Linked() && Snapshot() == S.YieldIfNecessary(old(Snapshot()))
    {
      var t := waitq.First(Ready);
      if t != Some(current) { SwitchToNextThread(); }
    }

    /** _sched_suspend_on_wait_queue; the caller will continue at p. */
    method SuspendOnWaitQueue(q: QId, p: Pc)
      requires Running() && Home(p) == Some(q) && !Timed(p)
      modifies waitq, `pc, `current, `halted
      ensures Linked() && Snapshot() == S.Suspend(old(Snapshot()), p)
    {
      hide Holds, OnNone, Alone, QueuesOk, RingsOk, SleepOk, RingOk, Sorted, KeysBy;
      hide Enqueued, Without, RemoveWait, InsertWait, Move;
      hide S.ResumeNext;
      CurrentIsAwake(Snapshot());
      RingAt(Snapshot(), q);
      Requeue(current, q, p);
      ResumeNextThread();
    }

    /** _sched_suspend_on_sleep_queue */
    method SuspendOnSleepQueue(p: Pc)
      requires Linked() && OnNone(sleepq.rings, current)
      requires Sorted(KeysBy(sleepq.Ring(Sleepers), timeout), BY_TIMEOUT) && waitq.Settled(current)
      modifies sleepq, `pc, `current, `halted
      ensures Linked()
      ensures var s := old(Snapshot());
        Snapshot() == S.ResumeNext(InsertSleep(s.(pc := s.pc[s.current := p]), s.current))
    {
      hide Holds, OnNone, Alone, Enqueued, Sorted, KeysBy, S.ResumeNext;
      SleepQueueInsert(current);
      pc := pc[current := p];
      ResumeNextThread();
    }

    // ------------------------------------------------ mutexes

    method MutexLock(m: nat)
      requires Running()
      modifies this, waitq
      ensures Linked() && Snapshot() == S.MutexLock(old(Snapshot()), m)
    {
      if m in locks.locked {
        SuspendOnWaitQueue(MutexQ(m), LockWait(m));
      } else {
        locks := locks.(locked := locks.locked + {m}, owns := locks.owns + {(current, m)});
      }
    }

    /** The first half of mutex_unlock and of the condition waits. */
    method Release(m: nat) returns (waiter: bool)
      requires Running()
      modifies this, waitq, sleepq
      ensures Running() && Snapshot() == S.Release(old(Snapshot()), m)
      ensures waiter <==> old(waitq.Ring(MutexQ(m))) != []
    {
      hide Holds, OnNone, Alone, QueuesOk, RingsOk, SleepOk, RingOk, Sorted, KeysBy;
      hide Enqueued, Without, RemoveWait, InsertWait, Move;
      hide S.Wake;
      ghost var s := Snapshot();
      S.ReleaseKeeps(s, m);
      S.ReleaseHalted(s, m);
      RingAt(s, Ready);
      var t := waitq.First(MutexQ(m));
      waiter := t.Some?;
      if !waiter {
        locks := locks.(locked := locks.locked - {m}, owns := locks.owns - {(current, m)});
      } else {
        S.HeadIsHome(s, MutexQ(m));
        locks := locks.(owns := locks.owns - {(current, m)} + {(t.value, m)});
        LocksAside(s, locks);
        Wake(t.value);
      }
    }

    method MutexUnlock(m: nat)
      requires Running()
      modifies this, waitq, sleepq
      ensures Linked() && Snapshot() == S.MutexUnlock(old(Snapshot()), m)
    {
      hide S.Release, QueuesOk, S.YieldIfNecessary;
      var waiter := Release(m);
      if waiter { YieldIfNecessary(); }
    }

    method CondvarWait(m: nat)
      requires Running()
      modifies this, waitq, sleepq
      ensures Linked() && Snapshot() == S.CondvarWait(old(Snapshot()), m)
    {
      hide S.Release, QueuesOk, S.MutexLock;
      var _ := Release(m);
      MutexLock(m);
    }

    method CondvarSignal(c: nat)
      requires Running()
      modifies this, waitq, sleepq
      ensures Linked() && Snapshot() == S.CondvarSignal(old(Snapshot()), c)
      ensures var waiters := old(waitq.Ring(CondQ(c)));
        waiters != [] && old(PcOf(pc, current)) == Run ==>
          && pc == old(pc)[waiters[0] := Run] && waiters[0] in waitq.Ring(Ready)
          && waitq.Ring(CondQ(c)) == waiters[1..] && !halted
    {
      hide Holds, OnNone, Alone, QueuesOk, RingsOk, SleepOk, S.Wake, S.YieldIfNecessary;
      ghost var s := Snapshot();
      if Ring(s, CondQ(c)) != [] && PcOf(pc, current) == Run { SignalDoes(s, c); }
      var t := waitq.First(CondQ(c));
      if t.Some? {
        WakeHead(s, CondQ(c));
        Wake(t.value);
        YieldIfNecessary();
      }
    }

    /** The loop that empties a wait queue. */
    method WakeAll(q: QId)
      requires Running() && q != Ready
      modifies waitq, sleepq, `pc
      ensures Running() && Snapshot() == S.WakeAll(old(Snapshot()), q)
    {
      hide Holds, OnNone, Alone, QueuesOk, S.Wake;
      var t := waitq.First(q);
      while t.Some?
        invariant Running() && t == if waitq.Ring(q) == [] then None else Some(waitq.Ring(q)[0])
        invariant S.WakeAll(Snapshot(), q) == S.WakeAll(old(Snapshot()), q)
        decreases |waitq.Ring(q)|
      {
        WakeFirst(q, t.value);
        t := waitq.First(q);
      }
    }

    /** The body of that loop. */
    method WakeFirst(q: QId, t: Tid)
      requires Running() && q != Ready && waitq.Ring(q) != [] && t == waitq.Ring(q)[0]
      modifies waitq, sleepq, `pc
      ensures Running() && S.WakeAll(Snapshot(), q) == S.WakeAll(old(Snapshot()), q)
      ensures |waitq.Ring(q)| < old(|waitq.Ring(q)|)
    {
      hide Holds, OnNone, Alone, QueuesOk, RingsOk, SleepOk, S.Wake;
      ghost var s := Snapshot();
      WakeHead(s, q);
      S.WakeShortens(s, q);
      Wake(t);
    }

    method CondvarBroadcast(c: nat)
      requires Running()
      modifies this, waitq, sleepq
      ensures Linked() && Snapshot() == S.CondvarBroadcast(old(Snapshot()), c)
    {
      hide Holds, OnNone, Alone, QueuesOk, S.WakeAll, S.YieldIfNecessary;
      WakeAll(CondQ(c));
      YieldIfNecessary();
    }

    method CondvarMutexlessWait(c: nat)
      requires Running()
      modifies this, waitq
      ensures Linked() && Snapshot() == S.Suspend(old(Snapshot()), CondWait(c))
    {
      SuspendOnWaitQueue(CondQ(c), CondWait(c));
    }

    // ------------------------------------------------ rw-mutexes

    /** Entered from outside, and again whenever the waiting thread resumes. */
    method ReadLock(r: nat)
      requires Running()
      modifies this, waitq
      ensures Linked() && Snapshot() == S.ReadLock(old(Snapshot()), r)
      ensures old(r !in locks.rwLocked && Writerq(locks, r) == 0) ==>
        && current == old(current) && waitq.rings == old(waitq.rings) && pc == old(pc)[current := Run]
        && Readers(locks, r) == old(Readers(locks, r)) + 1
      ensures old(r in locks.rwLocked || Writerq(locks, r) > 0) ==>
        pc == old(pc)[old(current) := ReadQueued(r)] && old(current) in waitq.Ring(RwQ(r)) && locks == old(locks)
    {
      hide Holds, OnNone, Alone, QueuesOk, S.ReadLock;
      ReadLockDoes(Snapshot(), r);
      EnterOrQueue(r);
    }

    method EnterOrQueue(r: nat)
      requires Running()
      modifies this, waitq
      ensures Linked() && Snapshot() == S.ReadLock(old(Snapshot()), r)
    {
      hide Holds, OnNone, Alone, QueuesOk, RingsOk, SleepOk, RingOk, Sorted, KeysBy, Enqueued, Without;
      hide RemoveWait, InsertWait, Move, S.Suspend;
      CurrentIsAwake(Snapshot());
      if r in locks.rwLocked || Writerq(locks, r) > 0 {
        SuspendOnWaitQueue(RwQ(r), ReadQueued(r));
      } else {
        TakeForReading(r);
      }
    }

    method TakeForReading(r: nat)
      requires Linked() && current in pc
      modifies `pc, `locks
      ensures Linked()
      ensures Snapshot() == old(Snapshot()).(pc := old(pc)[current := Run],
        locks := S.ReadTaken(old(locks), current, r))
    {
      hide Holds, OnNone, Alone;
      pc := pc[current := Run];
      locks := locks.(readers := locks.readers[r := Readers(locks, r) + 1],
                      reading := locks.reading[r := Reading(locks, r) + multiset{current}]);
    }

    method WriteLock(r: nat)
      requires Running()
      modifies this, waitq
      ensures Linked() && Snapshot() == S.WriteLock(old(Snapshot()), r)
    {
      hide Holds, OnNone, Alone, QueuesOk, S.Suspend;
      if r in locks.rwLocked || Readers(locks, r) > 0 {
        ghost var s := Snapshot();
        locks := locks.(writerq := locks.writerq[r := Writerq(locks, r) + 1]);
        LocksAside(s, locks);
        SuspendOnWaitQueue(RwQ(r), WriteQueued(r));
      } else {
        locks := locks.(rwLocked := locks.rwLocked + {r}, writing := locks.writing + {(current, r)});
      }
    }

    method ReadUnlock(r: nat)
      requires Running() && Readers(locks, r) > 0
      modifies this, waitq, sleepq
      ensures Linked() && Snapshot() == S.ReadUnlock(old(Snapshot()), r)
    {
      hide Holds, OnNone, Alone, QueuesOk, S.WakeAll, S.YieldIfNecessary;
      ghost var s := Snapshot();
      locks := locks.(readers := locks.readers[r := Readers(locks, r) - 1],
                      reading := locks.reading[r := Reading(locks, r) - multiset{current}]);
      LocksAside(s, locks);
      WakeAll(RwQ(r));
      YieldIfNecessary();
    }

    method WriteUnlock(r: nat)
      requires Running()
      modifies this, waitq, sleepq
      ensures Linked() && Snapshot() == S.WriteUnlock(old(Snapshot()), r)
    {
      hide Holds, OnNone, Alone, QueuesOk, S.WakeAll, S.YieldIfNecessary;
      ghost var s := Snapshot();
      locks := locks.(rwLocked := locks.rwLocked - {r}, writing := locks.writing - {(current, r)});
      LocksAside(s, locks);
      WakeAll(RwQ(r));
      YieldIfNecessary();
    }

    // ------------------------------------------------ timed calls

    /** The part that both timed calls share: onto the wait queue and asleep. */
    method SuspendUntil(q: QId, p: Pc, until: int)
      requires Running() && Home(p) == Some(q) && Timed(p)
      modifies this, waitq, sleepq
      ensures Linked() && Snapshot() == S.Suspend(S.SetTimeout(old(Snapshot()), until), p)
    {
      hide Holds, OnNone, Alone, QueuesOk, RingsOk, SleepOk, RingOk, Sorted, KeysBy;
      hide Enqueued, Without, RemoveWait, InsertWait, Move;
      hide S.ResumeNext;
      ghost var s := S.SetTimeout(Snapshot(), until);
      WithTimeout(Snapshot(), until, s.timedOut, q);
      StillSorted(s, current, q);
      SleepingMove(s, current, q, p);
      NotAsleep(sleepq.rings, current);
      timeout, timedOut := timeout[current := until], timedOut - {current};
      WaitQueueRemove(current);
      WaitQueueInsert(current, q);
      SuspendOnSleepQueue(p);
    }

    method TimedLock(m: nat, until: int, now: int) returns (acquired: bool)
      requires Running()
      modifies this, waitq, sleepq
      ensures Linked() && Snapshot() == S.TimedLock(old(Snapshot()), m, until, now)
      ensures acquired <==> m !in old(locks.locked)
    {
      hide Holds, OnNone, Alone, QueuesOk, S.Suspend;
      acquired := m !in locks.locked;
      if acquired {
        locks := locks.(locked := locks.locked + {m}, owns := locks.owns + {(current, m)});
      } else if !(until == 0 || now >= until) {
        SuspendUntil(MutexQ(m), TimedLockWait(m), until);
      }
    }

    /** Whether the call waits; if not, it fails with the mutex released. */
    method TimedWait(c: nat, m: nat, until: int, now: int) returns (waits: bool)
      requires Running()
      modifies this, waitq, sleepq
      ensures Linked() && Snapshot() == S.TimedWait(old(Snapshot()), c, m, until, now)
      ensures waits <==> now < until
    {
      hide QueuesOk, S.Release, S.Suspend;
      var _ := Release(m);
      waits := now < until;
      if waits { SuspendUntil(CondQ(c), TimedCondWait(c), until); }
    }

    /** thread_sleep and thread_sleep_seconds */
    method Sleep(until: int)
      requires Running()
      modifies this, waitq, sleepq
      ensures Linked() && Snapshot() == S.SleepUntil(old(Snapshot()), until)
      ensures timeout == old(timeout)[old(current) := until] && old(current) in sleepq.Ring(Sleepers)
      ensures pc == old(pc)[old(current) := Asleep]
    {
      hide Holds, OnNone, Alone, QueuesOk, S.SleepUntil;
      SleepDoes(Snapshot(), until);
      GoToSleep(until);
    }

    method GoToSleep(until: int)
      requires Running()
      modifies this, waitq, sleepq
      ensures Linked() && Snapshot() == S.SleepUntil(old(Snapshot()), until)
    {
      hide Holds, OnNone, Alone, QueuesOk, RingsOk, SleepOk, RingOk, Sorted, KeysBy;
      hide Enqueued, Without, RemoveWait, InsertWait, Move;
      hide S.ResumeNext;
      ghost var s := Snapshot().(timeout := timeout[current := until]);
      WithTimeout(Snapshot(), until, timedOut, Ready);
      DozingMove(s, current);
      NotAsleep(sleepq.rings, current);
      timeout := timeout[current := until];
      WaitQueueRemove(current);
      waitq.Detach(current);
      SuspendOnSleepQueue(Asleep);
    }

    /** The body of the loop below. */
    method TimeOut(t: Tid)
      requires Running() && sleepq.Ring(Sleepers) != [] && t == sleepq.Ring(Sleepers)[0]
      modifies waitq, sleepq, `timedOut, `pc
      ensures Running() && Snapshot() == S.TimeOut(old(Snapshot()), t)
      ensures |sleepq.Ring(Sleepers)| < old(|sleepq.Ring(Sleepers)|)
    {
      hide Holds, OnNone, Alone, QueuesOk, RingsOk, SleepOk, S.Wake;
      ghost var s := Snapshot();
      FirstSleeper(s);
      S.TimeOutShortens(s);
      timedOut := timedOut + {t};
      Wake(t);
    }

    /** _sched_timer_elapsed */
    method TimerElapsed(now: int, endOfQuantum: int)
      requires Running()
      modifies this, waitq, sleepq
      ensures Linked() && Snapshot() == S.TimerElapsed(old(Snapshot()), now, endOfQuantum <= now)
    {
      hide QueuesOk, S.TimeOut, S.SwitchToNext;
      while true
        invariant Running()
        invariant S.ExpireSleepers(Snapshot(), now) == S.ExpireSleepers(old(Snapshot()), now)
        decreases |sleepq.Ring(Sleepers)|
      {
        var t := sleepq.First(Sleepers);
        if t.None? || now < KeyOf(t.value, timeout) { break; }
        TimeOut(t.value);
      }
      if endOfQuantum <= now { SwitchToNextThread(); }
    }

    // ------------------------------------------------ threads

    /** new_thread, as far as the queues go, and thread_start. */
    method ThreadStart(t: Tid, p: int)
      requires Running() && t !in pc
      modifies this, waitq, sleepq
      ensures Linked() && Snapshot() == S.Start(old(Snapshot()), t, p)
    {
      hide Holds, OnNone, Alone, QueuesOk, RingsOk, SleepOk, RingOk, Sorted, KeysBy;
      hide Enqueued, Without, RemoveWait, InsertWait, Move;
      hide S.YieldIfNecessary;
      ghost var s := Snapshot().(prio := prio[t := p]);
      NewThread(Snapshot(), t, p);
      NotAsleep(sleepq.rings, t);
      waitq.Detach(t);
      sleepq.Detach(t);
      prio := prio[t := p];
      Reschedule(t, Run);
      YieldIfNecessary();
    }

    method ThreadYield()
      requires Running()
      modifies waitq, `pc, `current, `halted
      ensures Linked() && Snapshot() == S.SwitchToNext(old(Snapshot()))
    {
      SwitchToNextThread();
    }

    /** The end of _sched_run_thread. */
    method Exit()
      requires Running()
      modifies this, waitq
      ensures Linked() && Snapshot() == S.Exit(old(Snapshot()))
    {
      hide Holds, OnNone, Alone, QueuesOk, RingsOk, SleepOk, RingOk, Sorted, KeysBy;
      hide Enqueued, Without, RemoveWait, InsertWait, Move;
      CurrentIsAwake(Snapshot());
      WaitQueueRemove(current);
      pc := pc - {current};
      ResumeNextThread();
    }

    /** What runs when a suspended call is resumed. */
    method Resume()
      requires Running()
      modifies this, waitq
      ensures Linked() && Snapshot() == S.Resume(old(Snapshot()))
    {
      hide Holds, OnNone, Alone, QueuesOk, S.Suspend, S.ReadLock;
      CurrentIsAwake(Snapshot());
      match pc[current] {
        case ReadWoken(r) => ReadLock(r);
        case WriteWoken(r) => ResumeWrite(r);
        case TimedLockWoken(m) => FinishAttempt(m);
        case _ =>
      }
    }

    method ResumeWrite(r: nat)
      requires Running() && current in pc && pc[current] == WriteWoken(r)
      modifies this, waitq
      ensures Linked() && Snapshot() == S.Resume(old(Snapshot()))
    {
      hide Holds, OnNone, Alone, QueuesOk, S.Suspend;
      if r in locks.rwLocked || Readers(locks, r) > 0 {
        SuspendOnWaitQueue(RwQ(r), WriteQueued(r));
      } else {
        pc := pc[current := Run];
        locks := locks.(writerq := S.Decreased(locks.writerq, r));
        locks := locks.(rwLocked := locks.rwLocked + {r}, writing := locks.writing + {(current, r)});
      }
    }

    /** return self->_locked = current->_did_not_timeout */
    method FinishAttempt(m: nat)
      requires Running() && current in pc && pc[current] == TimedLockWoken(m)
      modifies this
      ensures Linked() && Snapshot() == S.Resume(old(Snapshot()))
    {
      hide Holds, OnNone, Alone, QueuesOk;
      var late := current in timedOut;
      pc := pc[current := Run];
      locks := locks.(spoiled := if late && m in locks.locked then locks.spoiled + {m} else locks.spoiled);
      locks := locks.(locked := if late then locks.locked - {m} else locks.locked + {m});
    }
  }

  function PcOf(pc: map<Tid, Pc>, t: Tid): Pc { if t in pc then pc[t] else Run }

  // -------------------------------------------------- what the calls do

  lemma SignalDoes(s: State, c: nat)
    requires QueuesOk(s) && !s.halted && PcOf(s.pc, s.current) == Run && Ring(s, CondQ(c)) != []
    ensures var w, s' := Ring(s, CondQ(c))[0], S.CondvarSignal(s, c);
      s'.pc == s.pc[w := Run] && w in Ring(s', Ready) && Ring(s', CondQ(c)) == Ring(s, CondQ(c))[1..] && !s'.halted
  {
    hide QueuesOk, S.CondvarSignal;
    SchedulerOutcomes.SignalWakesTheFirst(s, c);
  }

  lemma ReadLockDoes(s: State, r: nat)
    requires QueuesOk(s) && !s.halted
    ensures var s' := S.ReadLock(s, r);
      if r in s.locks.rwLocked || Writerq(s.locks, r) > 0
      then s'.pc == s.pc[s.current := ReadQueued(r)] && s.current in Ring(s', RwQ(r)) && s'.locks == s.locks
      else && s'.current == s.current && s'.rings == s.rings && s'.pc == s.pc[s.current := Run]
           && Readers(s'.locks, r) == Readers(s.locks, r) + 1
  {
    hide QueuesOk, S.Suspend;
    SchedulerOutcomes.WaitsOn(s, ReadQueued(r), RwQ(r));
  }

  lemma SleepDoes(s: State, until: int)
    requires QueuesOk(s) && !s.halted
    ensures var s' := S.SleepUntil(s, until);
      s'.timeout == s.timeout[s.current := until] && s.current in s'.sleep && s'.pc == s.pc[s.current := Asleep]
  {
    hide QueuesOk, S.Suspend;
    SchedulerDeadlines.SuspendUntil(s, s.timedOut, until, Asleep);
    assert s.(timeout := s.timeout[s.current := until], timedOut := s.timedOut) ==
      s.(timeout := s.timeout[s.current := until]);
  }

  // -------------------------------------------------- moves in steps

  /** The state before the first thread is on the ready queue. */
  function NobodyReady(t: Tid, p: int): State
  {
    State(t, false, map[t := Run], map[], [], map[t := p], map[], {}, Locks({}, {}, {}, {}, map[], map[], {}, map[]))
  }

  lemma EmptyQueue()
    ensures forall q: QId :: RingOf(map[], q) == []
    ensures RingOf(map[], Sleepers) == []
  {}

  lemma InitialIs(t: Tid, p: int)
    ensures InsertWait(NobodyReady(t, p), t, Ready) == S.Initial(t, p)
  {
    FirstInQueue(t, map[t := p]);
  }

  lemma FirstInQueue(t: Tid, prio: map<Tid, int>)
    ensures OnNone<QId>(map[], t) && Sorted(KeysBy([], prio), BY_PRIORITY) && Enqueued([], t, prio, BY_PRIORITY) == [t]
  {}

  lemma RingAt(s: State, q: QId)
    requires QueuesOk(s)
    ensures RingsOk(s) && SleepOk(s) && RingOk(s, q)
  {}

  /** Setting a timeout leaves the queues in order. */
  lemma WithTimeout(s: State, until: int, late: set<Tid>, q: QId)
    requires QueuesOk(s) && !s.halted
    ensures var s' := s.(timeout := s.timeout[s.current := until], timedOut := late);
      && RingOk(s', q) && Sorted(KeysBy(s'.sleep, s'.timeout), BY_TIMEOUT)
      && s.current !in s.sleep && s.current in s.pc
  {
    S.SetTimeoutKeeps(s, until);
    S.SameQueues(s.(timeout := s.timeout[s.current := until]),
      s.(timeout := s.timeout[s.current := until], timedOut := late));
  }

  lemma NotAsleep(table: map<Sleepers, seq<nat>>, t: Tid)
    requires t !in RingOf(table, Sleepers)
    ensures OnNone(table, t)
  {
    forall h ensures t !in RingOf(table, h) { assert h == Sleepers; }
  }

  lemma FirstSleeper(s: State)
    requires QueuesOk(s) && s.sleep != []
    ensures s.sleep[0] in s.pc
    ensures var s1, s' := s.(timedOut := s.timedOut + {s.sleep[0]}), S.TimeOut(s, s.sleep[0]);
      RingsOk(s1) && SleepOk(s1) && QueuesOk(s') && s'.current == s.current && s'.halted == s.halted
  {
    assert s.sleep[0] in s.sleep;
    hide RingsOk, SleepOk, S.Wake;
    S.SameQueues(s, s.(timedOut := s.timedOut + {s.sleep[0]}));
    WakeOne(s.(timedOut := s.timedOut + {s.sleep[0]}), s.sleep[0]);
  }

  lemma WakeOne(s: State, t: Tid)
    requires RingsOk(s) && SleepOk(s) && CurrentOk(s)
    ensures QueuesOk(S.Wake(s, t)) && S.Wake(s, t).current == s.current && S.Wake(s, t).halted == s.halted
  {
    S.WakeKeeps(s, t);
    S.WakeCurrent(s, t);
  }

  lemma WakeHead(s: State, q: QId)
    requires QueuesOk(s) && Ring(s, q) != []
    ensures var t, s' := Ring(s, q)[0], S.Wake(s, Ring(s, q)[0]);
      t in s.pc && RingsOk(s) && SleepOk(s) && QueuesOk(s') && s'.current == s.current && s'.halted == s.halted
  {
    S.HeadIsHome(s, q);
    hide RingsOk, SleepOk, S.Wake;
    WakeOne(s, Ring(s, q)[0]);
  }

  lemma RemovedWait(s: State, t: Tid)
    ensures RemoveWait(s, t).rings == WithoutAll(s.rings, t)
  {}

  lemma StillSorted(s: State, t: Tid, q: QId)
    requires RingOk(s, q)
    ensures Sorted(KeysBy(Ring(RemoveWait(s, t), q), s.prio), BY_PRIORITY)
  {
    RemovedRing(s, t, q);
    WithoutSorted(Ring(s, q), t, s.prio, BY_PRIORITY);
  }

  /** A move between wait rings of a thread that is not asleep. */
  lemma MoveAwake(s: State, t: Tid, q: QId, p: Pc)
    requires Home(p) == Some(q) && !Timed(p) && t !in s.sleep
    ensures Move(s, t, p) == InsertWait(RemoveWait(s, t), t, q).(pc := s.pc[t := p])
  {}

  /** A move that starts with leaving the sleep ring. */
  lemma MoveAsleep(s: State, t: Tid, p: Pc)
    requires RingsOk(s) && SleepOk(s) && !Timed(p)
    ensures var s1 := RemoveSleep(s, t); Move(s1, t, p) == Move(s, t, p) && t !in s1.sleep && RingOk(s1, Ready)
  {
    WithoutMembers(s.sleep, t);
    assert RingOk(s, Ready);
  }

  /** A move of a thread that is not asleep, onto a wait ring and the sleep ring. */
  lemma SleepingMove(s: State, t: Tid, q: QId, p: Pc)
    requires Home(p) == Some(q) && Timed(p) && t !in s.sleep
    ensures var s1 := InsertWait(RemoveWait(s, t), t, q); Move(s, t, p) == InsertSleep(s1.(pc := s1.pc[t := p]), t)
  {
    hide Enqueued, InsertSleep, IndexOf;
    assert RemoveSleep(RemoveWait(s, t), t) == RemoveWait(s, t);
  }

  /** A move onto the sleep ring alone. */
  lemma DozingMove(s: State, t: Tid)
    requires t !in s.sleep
    ensures var s1 := RemoveWait(s, t); Move(s, t, Asleep) == InsertSleep(s1.(pc := s1.pc[t := Asleep]), t)
  {
    hide Enqueued, InsertSleep, IndexOf;
    assert RemoveSleep(RemoveWait(s, t), t) == RemoveWait(s, t);
  }

  /** The running thread has no timeout pending. */
  lemma CurrentIsAwake(s: State)
    requires QueuesOk(s) && !s.halted
    ensures s.current !in s.sleep && s.current in s.pc
  {}

  lemma LocksAside(s: State, l: Locks)
    requires QueuesOk(s)
    ensures QueuesOk(s.(locks := l)) && RingsOk(s.(locks := l)) && SleepOk(s.(locks := l))
  {
    S.SameQueues(s, s.(locks := l));
  }

  lemma NewThread(s: State, t: Tid, p: int)
    requires QueuesOk(s) && t !in s.pc
    ensures OnNone(s.rings, t) && t !in s.sleep
    ensures var s' := s.(prio := s.prio[t := p]);
      RingOk(s', Ready) && QueuesOk(Move(s', t, Run)) && Move(s', t, Run).halted == s.halted
  {
    forall q ensures t !in RingOf(s.rings, q) { assert RingOk(s, q); }
    S.SetPrioKeeps(s, t, p);
    hide Move;
    MoveKeeps(s.(prio := s.prio[t := p]), t, Run);
    MovedFields(s.(prio := s.prio[t := p]), t, Run);
  }
}
