/** What every interleaving keeps of the mutexes and the rw-mutexes. */
module SchedulerLocks {
  import opened Rings
  import opened SchedulerState
  import opened SchedulerRings
  import opened Scheduler
  import opened Wrappers

  // -------------------------------------------------- effect of the internals

  lemma SuspendEffect(s: State, pc: Pc)
    ensures Suspend(s, pc).pc == s.pc[s.current := pc] && Suspend(s, pc).locks == s.locks
    ensures Suspend(s, pc).timedOut == s.timedOut
  {
    hide Move;
    MovedFields(s, s.current, pc);
  }

  lemma WakeEffect(s: State, t: Tid)
    ensures Wake(s, t).pc == s.pc[t := Woken(PcOf(s, t))] && Wake(s, t).locks == s.locks
    ensures Wake(s, t).current == s.current && Wake(s, t).halted == s.halted
    ensures Wake(s, t).timedOut == s.timedOut && Wake(s, t).timeout == s.timeout && Wake(s, t).prio == s.prio
  {
    hide Move;
    MovedFields(s, t, Woken(PcOf(s, t)));
  }

  lemma YieldEffect(s: State)
    requires s.current in s.pc && s.pc[s.current] == Run
    ensures YieldIfNecessary(s).pc == s.pc && YieldIfNecessary(s).locks == s.locks
    ensures YieldIfNecessary(s).timedOut == s.timedOut
  {
    hide Suspend;
    SuspendEffect(s, Run);
  }

  /** The continuations after every thread on ring q is woken. */
  function WokenFrom(pc: map<Tid, Pc>, q: QId): map<Tid, Pc>
  {
    map t | t in pc :: if Home(pc[t]) == Some(q) then Woken(pc[t]) else pc[t]
  }

  lemma WokenStep(pc: map<Tid, Pc>, q: QId, t: Tid)
    requires t in pc && Home(pc[t]) == Some(q) && q != Ready
    ensures WokenFrom(pc[t := Woken(pc[t])], q) == WokenFrom(pc, q)
  {}

  lemma NoneToWake(s: State, q: QId)
    requires RingsOk(s) && Ring(s, q) == []
    ensures WokenFrom(s.pc, q) == s.pc
  {
    assert RingOk(s, q);
  }

  lemma {:induction false} WakeAllEffect(s: State, q: QId)
    requires RingsOk(s) && SleepOk(s) && q != Ready
    ensures WakeAll(s, q).pc == WokenFrom(s.pc, q) && WakeAll(s, q).locks == s.locks
    ensures WakeAll(s, q).current == s.current && WakeAll(s, q).timedOut == s.timedOut
    decreases |Ring(s, q)|
  {
    hide RingsOk, SleepOk, Wake, WokenFrom;
    if Ring(s, q) == [] {
      NoneToWake(s, q);
    } else {
      var t := Ring(s, q)[0];
      HeadIsHome(s, q);
      WakeShortens(s, q);
      WakeKeeps(s, t);
      WakeEffect(s, t);
      WakeAllEffect(Wake(s, t), q);
      WokenStep(s.pc, q, t);
    }
  }

  /** The timer touches only threads with a pending timeout, and marks exactly
      those as timed out. */
  ghost predicate OnlyTimedWoken(pc: map<Tid, Pc>, late: set<Tid>, pc': map<Tid, Pc>, late': set<Tid>)
  {
    && pc.Keys == pc'.Keys && late <= late'
    && forall t :: t in pc ==>
         (pc'[t] == pc[t] && (t in late' ==> t in late)) || (Timed(pc[t]) && pc'[t] == Woken(pc[t]) && t in late')
  }

  lemma OnlyTimedStep(pc: map<Tid, Pc>, late: set<Tid>, t: Tid, pc': map<Tid, Pc>, late': set<Tid>)
    requires t in pc && Timed(pc[t]) && OnlyTimedWoken(pc[t := Woken(pc[t])], late + {t}, pc', late')
    ensures OnlyTimedWoken(pc, late, pc', late')
  {
    assert pc[t := Woken(pc[t])].Keys == pc.Keys;
  }

  lemma SleeperIsTimed(s: State)
    requires SleepOk(s) && s.sleep != []
    ensures s.sleep[0] in s.pc && Timed(s.pc[s.sleep[0]])
  {}

  lemma {:induction false} ExpireEffect(s: State, now: int)
    requires RingsOk(s) && SleepOk(s)
    ensures OnlyTimedWoken(s.pc, s.timedOut, ExpireSleepers(s, now).pc, ExpireSleepers(s, now).timedOut)
    ensures ExpireSleepers(s, now).locks == s.locks
    ensures ExpireSleepers(s, now).current == s.current && ExpireSleepers(s, now).halted == s.halted
    ensures ExpireSleepers(s, now).timeout == s.timeout && ExpireSleepers(s, now).prio == s.prio
    decreases |s.sleep|
  {
    if !(s.sleep == [] || now < KeyOf(s.sleep[0], s.timeout)) {
      hide RingsOk, SleepOk, Wake;
      var t, s1 := s.sleep[0], s.(timedOut := s.timedOut + {s.sleep[0]});
      SleeperIsTimed(s);
      SameQueues(s, s1);
      WakeKeeps(s1, t);
      WakeEffect(s1, t);
      TimeOutShortens(s);
      ExpireEffect(TimeOut(s, t), now);
      OnlyTimedStep(s.pc, s.timedOut, t, ExpireSleepers(s, now).pc, ExpireSleepers(s, now).timedOut);
    }
  }

  // -------------------------------------------------- the lock invariant

  /** For a mutex no late attempt has unlocked under its owner: at most one owner,
      locked exactly when there is one, and threads wait only while it is locked. */
  ghost predicate MutexOk(pc: map<Tid, Pc>, l: Locks, m: nat)
  {
    m in l.spoiled ||
    (&& (forall t, u :: (t, m) in l.owns && (u, m) in l.owns ==> t == u)
     && (m in l.locked <==> exists t :: (t, m) in l.owns)
     && (forall t :: t in pc && Home(pc[t]) == Some(MutexQ(m)) ==> m in l.locked))
  }

  /** A thread waiting with a timeout is not yet marked as late, and one that was
      woken in time owns the mutex it waited for. */
  ghost predicate TimedOk(pc: map<Tid, Pc>, late: set<Tid>, l: Locks)
  {
    && (forall t :: t in pc && pc[t].TimedLockWait? ==> t !in late)
    && (forall t :: t in pc && pc[t].TimedLockWoken? && t !in late && pc[t].m !in l.spoiled ==> (t, pc[t].m) in l.owns)
  }

  /** The writers that found rw-mutex r busy and have not acquired it yet. */
  function Counted(pc: map<Tid, Pc>, r: nat): set<Tid>
  {
    set t | t in pc && (pc[t] == WriteQueued(r) || pc[t] == WriteWoken(r))
  }

  /** At most one writer, locked exactly when there is one; as many readers as
      counted, none beside a writer; the count of waiting writers is exact; and a
      thread waits only if a holder or a writer about to run will wake it. */
  ghost predicate RwOk(pc: map<Tid, Pc>, l: Locks, r: nat)
  {
    && (forall t, u :: (t, r) in l.writing && (u, r) in l.writing ==> t == u)
    && (r in l.rwLocked <==> exists t :: (t, r) in l.writing)
    && Readers(l, r) == |Reading(l, r)|
    && !(r in l.rwLocked && Readers(l, r) > 0)
    && Writerq(l, r) == |Counted(pc, r)|
    && (forall t :: t in pc && Home(pc[t]) == Some(RwQ(r)) ==>
          Busy(l, r) || exists u :: u in pc && pc[u] == WriteWoken(r))
  }

  ghost predicate LocksOk(pc: map<Tid, Pc>, l: Locks)
  {
    (forall m :: MutexOk(pc, l, m)) && (forall r :: RwOk(pc, l, r))
  }

  ghost predicate SameMutex(l: Locks, l': Locks, m: nat)
  {
    && (m in l'.locked <==> m in l.locked)
    && (m in l.spoiled ==> m in l'.spoiled)
    && forall t :: (t, m) in l'.owns <==> (t, m) in l.owns
  }

  // Which locks a continuation speaks of.

  predicate OnTimed(p: Pc) { p.TimedLockWait? || p.TimedLockWoken? }

  predicate OnRw(p: Pc) { p.ReadQueued? || p.WriteQueued? || p.WriteWoken? }

  /** Between pc and pc' no thread starts waiting for a mutex, and none changes
      its standing with a rw-mutex. */
  ghost predicate MutexAside(pc: map<Tid, Pc>, pc': map<Tid, Pc>, m: nat)
  {
    forall t :: t in pc' && Home(pc'[t]) == Some(MutexQ(m)) ==> t in pc && Home(pc[t]) == Some(MutexQ(m))
  }

  /** Nor does any get ahead with a timed attempt, or lose what it owns meanwhile. */
  ghost predicate TimedAside(pc: map<Tid, Pc>, l: Locks, pc': map<Tid, Pc>, l': Locks)
  {
    && (forall t :: t in pc' && OnTimed(pc'[t]) ==> t in pc && pc[t] == pc'[t])
    && (forall t, m: nat :: t in pc' && pc'[t] == TimedLockWoken(m) && (t, m) in l.owns ==> (t, m) in l'.owns)
    && l.spoiled <= l'.spoiled
  }

  lemma TimedFrame(pc: map<Tid, Pc>, late: set<Tid>, l: Locks, pc': map<Tid, Pc>, l': Locks)
    requires TimedOk(pc, late, l) && TimedAside(pc, l, pc', l')
    ensures TimedOk(pc', late, l')
  {}

  ghost predicate RwAside(pc: map<Tid, Pc>, pc': map<Tid, Pc>)
  {
    && (forall t :: t in pc && OnRw(pc[t]) ==> t in pc' && pc'[t] == pc[t])
    && (forall t :: t in pc' && OnRw(pc'[t]) ==> t in pc && pc'[t] == pc[t])
  }

  lemma MutexFrame(pc: map<Tid, Pc>, l: Locks, pc': map<Tid, Pc>, l': Locks, m: nat)
    requires MutexOk(pc, l, m) && SameMutex(l, l', m) && MutexAside(pc, pc', m)
    ensures MutexOk(pc', l', m)
  {}

  ghost predicate SameRw(l: Locks, l': Locks, r: nat)
  {
    && (r in l'.rwLocked <==> r in l.rwLocked)
    && Readers(l', r) == Readers(l, r) && Reading(l', r) == Reading(l, r) && Writerq(l', r) == Writerq(l, r)
    && forall t :: (t, r) in l'.writing <==> (t, r) in l.writing
  }

  /** For rw-mutex r alone. */
  ghost predicate RwAsideOf(pc: map<Tid, Pc>, pc': map<Tid, Pc>, r: nat)
  {
    && (forall t :: t in pc && OnRw(pc[t]) && pc[t].r == r ==> t in pc' && pc'[t] == pc[t])
    && (forall t :: t in pc' && OnRw(pc'[t]) && pc'[t].r == r ==> t in pc && pc'[t] == pc[t])
  }

  lemma RwFrame(pc: map<Tid, Pc>, l: Locks, pc': map<Tid, Pc>, l': Locks, r: nat)
    requires RwOk(pc, l, r) && RwAsideOf(pc, pc', r) && SameRw(l, l', r)
    ensures RwOk(pc', l', r)
  {
    assert Counted(pc', r) == Counted(pc, r);
    forall t | t in pc' && Home(pc'[t]) == Some(RwQ(r))
      ensures Busy(l', r) || exists u :: u in pc' && pc'[u] == WriteWoken(r)
    {
      assert OnRw(pc'[t]) && t in pc && Home(pc[t]) == Some(RwQ(r));
      if !Busy(l, r) {
        var u :| u in pc && pc[u] == WriteWoken(r);
        assert u in pc' && pc'[u] == WriteWoken(r);
      }
    }
  }

  lemma AllRwFrame(pc: map<Tid, Pc>, l: Locks, pc': map<Tid, Pc>, l': Locks)
    requires (forall r :: RwOk(pc, l, r)) && RwAside(pc, pc')
    requires l' == l.(locked := l'.locked, owns := l'.owns, spoiled := l'.spoiled)
    ensures forall r :: RwOk(pc', l', r)
  {
    forall r ensures RwOk(pc', l', r) { RwFrame(pc, l, pc', l', r); }
  }

  lemma AsideKeeps(pc: map<Tid, Pc>, l: Locks, pc': map<Tid, Pc>)
    requires LocksOk(pc, l) && RwAside(pc, pc') && forall m :: MutexAside(pc, pc', m)
    ensures LocksOk(pc', l)
  {
    AllRwFrame(pc, l, pc', l);
    forall m ensures MutexOk(pc', l, m) { assert MutexAside(pc, pc', m); MutexFrame(pc, l, pc', l, m); }
  }

  // -------------------------------------------------- mutex steps

  /** Locking, with or without a timeout. */
  lemma LockKeeps(pc: map<Tid, Pc>, l: Locks, t: Tid, m: nat, wait: Pc)
    requires LocksOk(pc, l) && t in pc && pc[t] == Run && (wait == LockWait(m) || wait == TimedLockWait(m))
    ensures m in l.locked ==> LocksOk(pc[t := wait], l)
    ensures m !in l.locked ==> LocksOk(pc, Acquired(l, t, m))
  {
    var pc', l' := pc[t := wait], Acquired(l, t, m);
    AllRwFrame(pc, l, pc', l);
    AllRwFrame(pc, l, pc, l');
    assert MutexOk(pc, l, m);
    if m in l.locked {
      forall k ensures MutexOk(pc', l, k) { if k != m { MutexFrame(pc, l, pc', l, k); } }
    } else {
      forall k ensures MutexOk(pc, l', k) { if k != m { MutexFrame(pc, l, pc, l', k); } }
    }
  }

  lemma FreeKeeps(pc: map<Tid, Pc>, l: Locks, t: Tid, m: nat)
    requires LocksOk(pc, l) && ((t, m) in l.owns || m in l.spoiled)
    requires forall u :: u in pc ==> Home(pc[u]) != Some(MutexQ(m))
    ensures LocksOk(pc, Freed(l, t, m))
  {
    var l' := Freed(l, t, m);
    AllRwFrame(pc, l, pc, l');
    assert MutexOk(pc, l, m);
    forall k ensures MutexOk(pc, l', k) { if k != m { MutexFrame(pc, l, pc, l', k); } }
  }

  lemma HandOverKeeps(pc: map<Tid, Pc>, l: Locks, t: Tid, m: nat, next: Tid)
    requires LocksOk(pc, l) && ((t, m) in l.owns || m in l.spoiled)
    requires next in pc && Home(pc[next]) == Some(MutexQ(m))
    ensures LocksOk(pc[next := Woken(pc[next])], HandedOver(l, t, m, next))
  {
    var pc', l' := pc[next := Woken(pc[next])], HandedOver(l, t, m, next);
    assert RwAside(pc, pc');
    AllRwFrame(pc, l, pc', l');
    assert MutexOk(pc, l, m);
    forall k ensures MutexOk(pc', l', k) {
      if k != m { MutexFrame(pc, l, pc', l', k); } else if m !in l.spoiled { assert (next, m) in l'.owns; }
    }
  }

  // -------------------------------------------------- rw-mutex steps

  ghost predicate SameMutexes(l: Locks, l': Locks)
  {
    l'.locked == l.locked && l'.owns == l.owns && l'.spoiled == l.spoiled
  }

  /** Only rw-mutex r changes. */
  lemma RwStepKeeps(pc: map<Tid, Pc>, l: Locks, pc': map<Tid, Pc>, l': Locks, r: nat)
    requires LocksOk(pc, l) && SameMutexes(l, l') && RwOk(pc', l', r)
    requires forall m :: MutexAside(pc, pc', m)
    requires forall k :: k != r ==> RwAsideOf(pc, pc', k) && SameRw(l, l', k)
    ensures LocksOk(pc', l')
  {
    forall m ensures MutexOk(pc', l', m) { assert MutexAside(pc, pc', m); MutexFrame(pc, l, pc', l', m); }
    forall k ensures RwOk(pc', l', k) { if k != r { assert RwAsideOf(pc, pc', k); RwFrame(pc, l, pc', l', k); } }
  }

  /** A counted writer is queued or about to run. */
  lemma CountedWriter(pc: map<Tid, Pc>, l: Locks, r: nat)
    requires RwOk(pc, l, r) && Writerq(l, r) > 0 && !Busy(l, r)
    ensures exists u :: u in pc && pc[u] == WriteWoken(r)
  {
    var t :| t in Counted(pc, r);
    if pc[t] == WriteQueued(r) { assert Home(pc[t]) == Some(RwQ(r)); }
  }

  lemma ReadQueueKeeps(pc: map<Tid, Pc>, l: Locks, t: Tid, r: nat)
    requires LocksOk(pc, l) && t in pc && (pc[t] == Run || pc[t] == ReadWoken(r))
    requires r in l.rwLocked || Writerq(l, r) > 0
    ensures LocksOk(pc[t := ReadQueued(r)], l)
  {
    var pc' := pc[t := ReadQueued(r)];
    assert RwOk(pc, l, r);
    assert Counted(pc', r) == Counted(pc, r);
    if !Busy(l, r) {
      CountedWriter(pc, l, r);
      var u :| u in pc && pc[u] == WriteWoken(r);
      assert u in pc' && pc'[u] == WriteWoken(r);
    }
    assert RwOk(pc', l, r);
    RwStepKeeps(pc, l, pc', l, r);
  }

  lemma LocksAt(pc: map<Tid, Pc>, l: Locks, r: nat)
    requires LocksOk(pc, l)
    ensures MutexOk(pc, l, r) && RwOk(pc, l, r)
  {}

  lemma ReadTakeKeeps(pc: map<Tid, Pc>, l: Locks, t: Tid, r: nat)
    requires LocksOk(pc, l) && t in pc && (pc[t] == Run || pc[t] == ReadWoken(r))
    requires !(r in l.rwLocked || Writerq(l, r) > 0)
    ensures LocksOk(pc[t := Run], ReadTaken(l, t, r))
  {
    hide LocksOk, RwOk, MutexOk;
    LocksAt(pc, l, r);
    ReadTakeOk(pc, l, t, r);
    RwStepKeeps(pc, l, pc[t := Run], ReadTaken(l, t, r), r);
  }

  lemma ReadTakeOk(pc: map<Tid, Pc>, l: Locks, t: Tid, r: nat)
    requires RwOk(pc, l, r) && t in pc && (pc[t] == Run || pc[t] == ReadWoken(r))
    requires !(r in l.rwLocked || Writerq(l, r) > 0)
    ensures RwOk(pc[t := Run], ReadTaken(l, t, r), r)
  {
    assert Counted(pc[t := Run], r) == Counted(pc, r);
  }

  lemma WriteJoinKeeps(pc: map<Tid, Pc>, l: Locks, t: Tid, r: nat)
    requires LocksOk(pc, l) && t in pc && Busy(l, r) && pc[t] == Run
    ensures LocksOk(pc[t := WriteQueued(r)], l.(writerq := Increased(l.writerq, r)))
  {
    hide RwOk, MutexOk;
    WriteJoinOk(pc, l, t, r);
    RwStepKeeps(pc, l, pc[t := WriteQueued(r)], l.(writerq := Increased(l.writerq, r)), r);
  }

  lemma WriteJoinOk(pc: map<Tid, Pc>, l: Locks, t: Tid, r: nat)
    requires RwOk(pc, l, r) && t in pc && Busy(l, r) && pc[t] == Run
    ensures RwOk(pc[t := WriteQueued(r)], l.(writerq := Increased(l.writerq, r)), r)
  {
    assert Counted(pc[t := WriteQueued(r)], r) == Counted(pc, r) + {t};
  }

  lemma WriteRejoinKeeps(pc: map<Tid, Pc>, l: Locks, t: Tid, r: nat)
    requires LocksOk(pc, l) && t in pc && Busy(l, r) && pc[t] == WriteWoken(r)
    ensures LocksOk(pc[t := WriteQueued(r)], l)
  {
    var pc' := pc[t := WriteQueued(r)];
    assert RwOk(pc, l, r);
    assert Counted(pc', r) == Counted(pc, r);
    assert RwOk(pc', l, r);
    RwStepKeeps(pc, l, pc', l, r);
  }

  lemma WriteTakeKeeps(pc: map<Tid, Pc>, l: Locks, t: Tid, r: nat)
    requires LocksOk(pc, l) && t in pc && !Busy(l, r) && pc[t] == Run
    ensures LocksOk(pc, WriteTaken(l, t, r))
  {
    assert RwOk(pc, l, r);
    assert RwOk(pc, WriteTaken(l, t, r), r) by { assert (t, r) in WriteTaken(l, t, r).writing; }
    RwStepKeeps(pc, l, pc, WriteTaken(l, t, r), r);
  }

  lemma WriteWokenTakeKeeps(pc: map<Tid, Pc>, l: Locks, t: Tid, r: nat)
    requires LocksOk(pc, l) && t in pc && !Busy(l, r) && pc[t] == WriteWoken(r)
    ensures LocksOk(pc[t := Run], WriteTaken(l.(writerq := Decreased(l.writerq, r)), t, r))
  {
    hide RwOk, MutexOk;
    WriteWokenTakeOk(pc, l, t, r);
    RwStepKeeps(pc, l, pc[t := Run], WriteTaken(l.(writerq := Decreased(l.writerq, r)), t, r), r);
  }

  lemma WriteWokenTakeOk(pc: map<Tid, Pc>, l: Locks, t: Tid, r: nat)
    requires RwOk(pc, l, r) && t in pc && !Busy(l, r) && pc[t] == WriteWoken(r)
    ensures RwOk(pc[t := Run], WriteTaken(l.(writerq := Decreased(l.writerq, r)), t, r), r)
  {
    var l' := WriteTaken(l.(writerq := Decreased(l.writerq, r)), t, r);
    assert Counted(pc[t := Run], r) == Counted(pc, r) - {t};
    assert (t, r) in l'.writing;
  }

  lemma GiveKeeps(pc: map<Tid, Pc>, l: Locks, l': Locks, r: nat)
    requires LocksOk(pc, l) && SameMutexes(l, l')
    requires forall k :: k != r ==> SameRw(l, l', k)
    requires Writerq(l', r) == Writerq(l, r) && Readers(l', r) == |Reading(l', r)|
    requires Readers(l', r) > 0 ==> r !in l'.rwLocked
    requires forall t, u :: (t, r) in l'.writing && (u, r) in l'.writing ==> t == u
    requires r in l'.rwLocked <==> exists t :: (t, r) in l'.writing
    ensures LocksOk(WokenFrom(pc, RwQ(r)), l')
  {
    var pc' := WokenFrom(pc, RwQ(r));
    assert RwOk(pc, l, r);
    assert Counted(pc', r) == Counted(pc, r);
    assert RwOk(pc', l', r);
    forall k | k != r ensures RwAsideOf(pc, pc', k) {}
    RwStepKeeps(pc, l, pc', l', r);
  }

  lemma ReadGiveKeeps(pc: map<Tid, Pc>, l: Locks, t: Tid, r: nat)
    requires LocksOk(pc, l) && t in Reading(l, r)
    ensures LocksOk(WokenFrom(pc, RwQ(r)), ReadGiven(l, t, r))
  {
    assert RwOk(pc, l, r);
    assert |Reading(l, r) - multiset{t}| == |Reading(l, r)| - 1;
    GiveKeeps(pc, l, ReadGiven(l, t, r), r);
  }

  lemma WriteGiveKeeps(pc: map<Tid, Pc>, l: Locks, t: Tid, r: nat)
    requires LocksOk(pc, l) && (t, r) in l.writing
    ensures LocksOk(WokenFrom(pc, RwQ(r)), WriteGiven(l, t, r))
  {
    assert RwOk(pc, l, r);
    GiveKeeps(pc, l, WriteGiven(l, t, r), r);
  }
}
