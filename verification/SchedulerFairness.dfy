/** A ready thread of the highest ready priority gets its turn. */
module SchedulerFairness {
  import opened PriorityOrder
  import opened Rings
  import opened SchedulerState
  import opened SchedulerRings
  import opened Scheduler
  import opened Wrappers

  /** The threads in front of t. */
  function FrontOf(ring: seq<Tid>, t: Tid): set<Tid>
    requires t in ring
  {
    MembersOf(ring[..IndexOf(ring, t)])
  }

  /** The threads in front of t on the ready queue. */
  function Ahead(s: State, t: Tid): set<Tid>
    requires t in Ring(s, Ready)
  {
    FrontOf(Ring(s, Ready), t)
  }

  ghost predicate NoHigher(s: State, t: Tid)
  {
    forall u :: u in Ring(s, Ready) ==> KeyOf(u, s.prio) <= KeyOf(t, s.prio)
  }

  /** Thread t is ready, of the highest ready priority, and runs or stands behind
      the thread that does. */
  ghost predicate InLine(s: State, t: Tid)
  {
    && QueuesOk(s) && !s.halted && t in Ring(s, Ready) && NoHigher(s, t)
    && (s.current == t || s.current in Ahead(s, t))
  }

  // -------------------------------------------------- one ring

  lemma {:induction false} FirstIndex(ring: seq<Tid>, t: Tid, i: nat)
    requires i < |ring| && ring[i] == t && t !in ring[..i]
    ensures IndexOf(ring, t) == i
  {
    if i > 0 {
      assert ring[0] == ring[..i][0];
      assert ring[1..][..i - 1] == ring[..i][1..];
      FirstIndex(ring[1..], t, i - 1);
    }
  }

  lemma EnqueuedBehind(ring: seq<Tid>, u: Tid, t: Tid, prio: map<Tid, int>)
    requires Distinct(ring) && t in ring && u != t && Sorted(KeysBy(ring, prio), BY_PRIORITY)
    requires KeyOf(u, prio) <= KeyOf(t, prio)
    ensures var r := Enqueued(ring, u, prio, BY_PRIORITY); t in r && FrontOf(r, t) == FrontOf(ring, t)
  {
    var keys, i := KeysBy(ring, prio), IndexOf(ring, t);
    var p, r := Slot(keys, KeyOf(u, prio), BY_PRIORITY), Enqueued(ring, u, prio, BY_PRIORITY);
    KernelOrdersAreStrictWeak();
    SlotSplits(keys, KeyOf(u, prio), BY_PRIORITY);
    assert keys[i] == KeyOf(t, prio);
    assert i < p;
    assert r[..i] == ring[..i] && r[i] == t;
    FirstIndex(r, t, i);
  }

  lemma WithoutAhead(ring: seq<Tid>, u: Tid, t: Tid)
    requires Distinct(ring) && t in ring && u != t
    ensures t in Without(ring, u) && FrontOf(Without(ring, u), t) == FrontOf(ring, t) - {u}
  {
    var i, r := IndexOf(ring, t), Without(ring, u);
    if u in ring {
      var p := IndexOf(ring, u);
      hide IndexOf, Distinct;
      if i < p {
        assert r[..i] == ring[..i] && r[i] == t;
        FirstIndex(r, t, i);
      } else {
        WithoutFront(ring, u, t);
        FirstIndex(r, t, i - 1);
      }
    }
  }

  lemma WithoutFront(ring: seq<Tid>, u: Tid, t: Tid)
    requires Distinct(ring) && t in ring && u in ring && IndexOf(ring, u) < IndexOf(ring, t)
    ensures var i, r := IndexOf(ring, t), Without(ring, u);
      i - 1 < |r| && r[i - 1] == t && t !in r[..i - 1] && MembersOf(r[..i - 1]) == FrontOf(ring, t) - {u}
  {
    hide IndexOf, MembersOf, Without;
    var i, p := IndexOf(ring, t), IndexOf(ring, u);
    WithoutPieces(ring, u, t);
    WithoutMiddle(ring[..p], u, ring[p + 1..i]);
  }

  lemma WithoutPieces(ring: seq<Tid>, u: Tid, t: Tid)
    requires Distinct(ring) && t in ring && u in ring && IndexOf(ring, u) < IndexOf(ring, t)
    ensures var i, p, r := IndexOf(ring, t), IndexOf(ring, u), Without(ring, u);
      && i - 1 < |r| && r[i - 1] == t && t !in r[..i - 1] && u !in ring[p + 1..i]
      && r[..i - 1] == ring[..p] + ring[p + 1..i] && ring[..i] == ring[..p] + [u] + ring[p + 1..i]
  {
    hide IndexOf;
  }

  lemma WithoutMiddle(a: seq<Tid>, u: Tid, b: seq<Tid>)
    requires u !in a && u !in b
    ensures MembersOf(a + b) == MembersOf(a + [u] + b) - {u}
  {}

  lemma HeadIsAhead(ring: seq<Tid>, t: Tid)
    requires t in ring
    ensures ring[0] == t || ring[0] in FrontOf(ring, t)
  {
    if IndexOf(ring, t) > 0 { assert ring[0] == ring[..IndexOf(ring, t)][0]; }
  }

  lemma {:induction false} AheadCount(ring: seq<Tid>, t: Tid, k: nat)
    requires Distinct(ring) && k < |ring| && ring[k] == t
    ensures |FrontOf(ring, t)| == k
  {
    assert t !in ring[..k];
    FirstIndex(ring, t, k);
    DistinctCount(ring[..k], FrontOf(ring, t));
  }

  lemma {:induction false} DistinctCount(ring: seq<Tid>, members: set<Tid>)
    requires Distinct(ring) && forall u :: u in members <==> u in ring
    ensures |members| == |ring|
  {
    if ring != [] {
      DistinctCount(ring[1..], members - {ring[0]});
    } else {
      assert members == {};
    }
  }

  // -------------------------------------------------- one move

  lemma MoveAhead(s: State, u: Tid, pc: Pc, t: Tid)
    requires RingOk(s, Ready) && t in Ring(s, Ready) && u != t
    requires Home(pc) == Some(Ready) ==> KeyOf(u, s.prio) <= KeyOf(t, s.prio)
    ensures var s' := Move(s, u, pc);
      && t in Ring(s', Ready) && Ahead(s', t) == Ahead(s, t) - {u}
      && (NoHigher(s, t) ==> NoHigher(s', t))
      && s'.prio == s.prio && s'.current == s.current && s'.halted == s.halted
  {
    var ring, off := Ring(s, Ready), Without(Ring(s, Ready), u);
    hide Move, Enqueued, Without, Sorted, FrontOf, Ring;
    MovedRing(s, u, pc, Ready);
    MovedFields(s, u, pc);
    WithoutAhead(ring, u, t);
    WithoutMembers(ring, u);
    WithoutSorted(ring, u, s.prio, BY_PRIORITY);
    if Home(pc) == Some(Ready) {
      EnqueuedBehind(off, u, t, s.prio);
      EnqueuedMembers(off, u, s.prio, BY_PRIORITY);
    }
  }

  lemma InLineFacts(s: State, t: Tid)
    requires InLine(s, t)
    ensures QueuesOk(s) && RingsOk(s) && SleepOk(s) && RingOk(s, Ready)
    ensures t in Ring(s, Ready) && s.current in Ring(s, Ready)
    ensures NoHigher(s, t) && KeyOf(s.current, s.prio) <= KeyOf(t, s.prio) && !s.halted
  {
    var ring := Ring(s, Ready);
    hide Sorted, Distinct, SleepOk;
    assert RingOk(s, Ready);
    if s.current != t { assert s.current in ring[..IndexOf(ring, t)]; }
  }

  lemma ResumeNextInLine(s: State, t: Tid)
    requires RingsOk(s) && SleepOk(s) && t in Ring(s, Ready) && NoHigher(s, t) && !s.halted
    ensures InLine(ResumeNext(s), t) && Ahead(ResumeNext(s), t) == Ahead(s, t) && ResumeNext(s).prio == s.prio
  {
    ResumeNextKeeps(s);
    HeadIsAhead(Ring(s, Ready), t);
  }

  /** The current thread gives up the processor. */
  lemma SuspendInLine(s: State, pc: Pc, t: Tid)
    requires InLine(s, t) && s.current != t
    ensures var s' := Suspend(s, pc); InLine(s', t) && Ahead(s', t) == Ahead(s, t) - {s.current} && s'.prio == s.prio
  {
    InLineFacts(s, t);
    hide RingsOk, SleepOk, Move, FrontOf, Ring, RingOk, InLine, NoHigher, ResumeNext;
    MoveAhead(s, s.current, pc, t);
    MoveKeeps(s, s.current, pc);
    ResumeNextInLine(Move(s, s.current, pc), t);
  }

  lemma YieldInLine(s: State, t: Tid)
    requires InLine(s, t) && s.current != t
    ensures var s' := YieldIfNecessary(s); InLine(s', t) && Ahead(s', t) <= Ahead(s, t) && s'.prio == s.prio
  {
    InLineFacts(s, t);
    hide Suspend, InLine, RingsOk, SleepOk, FrontOf;
    SuspendInLine(s, Run, t);
  }

  // -------------------------------------------------- one call

  /** Fields the ready queue does not depend on. */
  lemma SameReady(s: State, s': State, t: Tid)
    requires InLine(s, t)
    requires s'.rings == s.rings && s'.prio == s.prio && s'.current == s.current && s'.halted == s.halted
    requires QueuesOk(s')
    ensures InLine(s', t) && Ahead(s', t) == Ahead(s, t)
  {}

  lemma WakeInLine(s: State, u: Tid, t: Tid)
    requires InLine(s, t) && u != t && KeyOf(u, s.prio) <= KeyOf(t, s.prio) && u !in Ahead(s, t)
    ensures var s' := Wake(s, u);
      InLine(s', t) && Ahead(s', t) == Ahead(s, t) && s'.prio == s.prio && s'.current == s.current
  {
    InLineFacts(s, t);
    hide RingsOk, SleepOk, Move, FrontOf, Ring, RingOk, NoHigher, Woken;
    MoveAhead(s, u, Woken(PcOf(s, u)), t);
    WakeKeeps(s, u);
  }

  /** A thread on another queue is neither t nor in front of it. */
  lemma Elsewhere(s: State, q: QId, t: Tid)
    requires InLine(s, t) && q != Ready && Ring(s, q) != []
    ensures Ring(s, q)[0] != t && Ring(s, q)[0] !in Ahead(s, t)
    ensures Ring(s, q)[0] in s.pc && Home(s.pc[Ring(s, q)[0]]) == Some(q)
  {
    var u, ring := Ring(s, q)[0], Ring(s, Ready);
    assert RingOk(s, q) && RingOk(s, Ready);
    assert u !in ring;
    assert forall v :: v in ring[..IndexOf(ring, t)] ==> v in ring;
  }

  lemma {:induction false} WakeAllInLine(s: State, q: QId, t: Tid)
    requires InLine(s, t) && q != Ready && forall u :: u in Ring(s, q) ==> KeyOf(u, s.prio) <= KeyOf(t, s.prio)
    ensures var s' := WakeAll(s, q);
      InLine(s', t) && Ahead(s', t) == Ahead(s, t) && s'.prio == s.prio && s'.current == s.current
    decreases |Ring(s, q)|
  {
    if Ring(s, q) != [] {
      var u := Ring(s, q)[0];
      WakeShortens(s, q);
      Elsewhere(s, q, t);
      WakeInLine(s, u, t);
      WokenRing(s, u, q);
      WakeAllInLine(Wake(s, u), q, t);
    }
  }

  lemma WokenRing(s: State, u: Tid, q: QId)
    requires q != Ready
    ensures forall v :: v in Ring(Wake(s, u), q) ==> v in Ring(s, q)
  {
    hide Move;
    MovedRing(s, u, Woken(PcOf(s, u)), q);
  }

  lemma {:induction false} ExpireInLine(s: State, now: int, t: Tid)
    requires InLine(s, t)
    requires forall u :: u in s.sleep && KeyOf(u, s.timeout) <= now ==> KeyOf(u, s.prio) <= KeyOf(t, s.prio)
    ensures var s' := ExpireSleepers(s, now);
      InLine(s', t) && Ahead(s', t) == Ahead(s, t) && s'.prio == s.prio && s'.current == s.current
    decreases |s.sleep|
  {
    if s.sleep != [] && KeyOf(s.sleep[0], s.timeout) <= now {
      hide InLine, Wake, FrontOf;
      var u := s.sleep[0];
      var s1 := s.(timedOut := s.timedOut + {u});
      SleeperElsewhere(s, t);
      SameReady(s, s1, t);
      WakeInLine(s1, u, t);
      ExpiredSleep(s);
      TimeOutShortens(s);
      ExpireInLine(TimeOut(s, u), now, t);
    }
  }

  lemma ExpiredSleep(s: State)
    requires s.sleep != []
    ensures var s' := TimeOut(s, s.sleep[0]); s'.timeout == s.timeout && forall v :: v in s'.sleep ==> v in s.sleep
  {
    hide Move;
    var s1, u := s.(timedOut := s.timedOut + {s.sleep[0]}), s.sleep[0];
    MovedFields(s1, u, Woken(PcOf(s1, u)));
    MovedSleep(s1, u, Woken(PcOf(s1, u)));
  }

  lemma SleeperElsewhere(s: State, t: Tid)
    requires InLine(s, t) && s.sleep != []
    ensures s.sleep[0] != t && s.sleep[0] !in Ahead(s, t)
    ensures QueuesOk(s.(timedOut := s.timedOut + {s.sleep[0]}))
  {
    var ring := Ring(s, Ready);
    assert RingOk(s, Ready);
    assert s.sleep[0] in s.sleep;
    assert forall v :: v in ring[..IndexOf(ring, t)] ==> v in ring;
    SameQueues(s, s.(timedOut := s.timedOut + {s.sleep[0]}));
  }
}
