/** The timer interrupt wakes exactly the sleepers that are due, earliest first. */
module SchedulerTimer {
  import opened PriorityOrder
  import opened Rings
  import opened SchedulerState
  import opened SchedulerRings
  import opened Scheduler
  import opened SchedulerLocks

  /** How many threads at the front of the sleep ring are due. */
  function Due(ring: seq<Tid>, key: map<Tid, int>, now: int): (k: nat)
    ensures k <= |ring|
  {
    if ring == [] || now < KeyOf(ring[0], key) then 0 else 1 + Due(ring[1..], key, now)
  }

  /** Time out the threads of ts, one after the other. */
  function TimeOutEach(s: State, ts: seq<Tid>): State
    decreases |ts|
  {
    if ts == [] then s else TimeOutEach(TimeOut(s, ts[0]), ts[1..])
  }

  lemma TimeOutHead(s: State)
    requires SleepOk(s) && s.sleep != []
    ensures var s' := TimeOut(s, s.sleep[0]);
      s'.sleep == s.sleep[1..] && s'.timeout == s.timeout && s'.timedOut == s.timedOut + {s.sleep[0]}
  {
    hide Move, Sorted, Enqueued;
    var t, s1 := s.sleep[0], s.(timedOut := s.timedOut + {s.sleep[0]});
    MovedFields(s1, t, Woken(PcOf(s1, t)));
    MovedSleep(s1, t, Woken(PcOf(s1, t)));
  }

  lemma {:induction false} ExpiresPrefix(s: State, now: int)
    requires RingsOk(s) && SleepOk(s)
    ensures var s', k := ExpireSleepers(s, now), Due(s.sleep, s.timeout, now);
      && s' == TimeOutEach(s, s.sleep[..k])
      && s'.sleep == s.sleep[k..]
      && s'.timedOut == s.timedOut + MembersOf(s.sleep[..k])
    decreases |s.sleep|
  {
    hide RingsOk, SleepOk, TimeOut, MembersOf;
    if s.sleep != [] && KeyOf(s.sleep[0], s.timeout) <= now {
      var s1, k := TimeOut(s, s.sleep[0]), Due(s.sleep, s.timeout, now);
      TimeOutHead(s);
      TimeOutKeeps(s);
      ExpiresPrefix(s1, now);
      MembersBehind(s.sleep[0], s1.sleep[..k - 1]);
      assert s.sleep[..k] == [s.sleep[0]] + s1.sleep[..k - 1];
    } else {
      MembersBehind(0, []);
    }
  }

  lemma TimeOutKeeps(s: State)
    requires RingsOk(s) && SleepOk(s) && s.sleep != []
    ensures RingsOk(TimeOut(s, s.sleep[0])) && SleepOk(TimeOut(s, s.sleep[0]))
  {
    hide RingsOk, SleepOk, Wake;
    SameQueues(s, s.(timedOut := s.timedOut + {s.sleep[0]}));
    WakeKeeps(s.(timedOut := s.timedOut + {s.sleep[0]}), s.sleep[0]);
  }

  /** On a sorted ring, the prefix is all that is due. */
  lemma {:induction false} DueSplits(ring: seq<Tid>, key: map<Tid, int>, now: int)
    requires Sorted(KeysBy(ring, key), BY_TIMEOUT)
    ensures forall i :: 0 <= i < |ring| ==> (i < Due(ring, key, now) <==> KeyOf(ring[i], key) <= now)
  {
    if ring != [] {
      var keys := KeysBy(ring, key);
      assert KeysBy(ring[1..], key) == keys[1..];
      DueSplits(ring[1..], key, now);
      forall i | 0 < i < |ring| ensures keys[0] <= keys[i] && ring[i] == ring[1..][i - 1] {}
    }
  }

  /** On the sleep ring, who is in the prefix and who behind it. */
  lemma DueMembers(ring: seq<Tid>, key: map<Tid, int>, now: int, t: Tid)
    requires Sorted(KeysBy(ring, key), BY_TIMEOUT)
    ensures var k := Due(ring, key, now);
      && (t in ring[..k] <==> t in ring && KeyOf(t, key) <= now)
      && (t in ring[k..] <==> t in ring && now < KeyOf(t, key))
  {
    hide *;
    DueSplits(ring, key, now);
    SplitMembers(ring, key, now, Due(ring, key, now), t);
  }

  lemma SplitMembers(ring: seq<Tid>, key: map<Tid, int>, now: int, k: nat, t: Tid)
    requires k <= |ring|
    requires forall i :: 0 <= i < |ring| ==> (i < k <==> KeyOf(ring[i], key) <= now)
    ensures t in ring[..k] <==> t in ring && KeyOf(t, key) <= now
    ensures t in ring[k..] <==> t in ring && now < KeyOf(t, key)
  {
    hide KeyOf;
    assert ring == ring[..k] + ring[k..];
    assert forall i :: 0 <= i < k ==> ring[..k][i] == ring[i];
    assert forall i :: 0 <= i < |ring| - k ==> ring[k..][i] == ring[k + i];
  }

  /** Exactly the threads due leave the sleep ring, marked as timed out and back
      on the ready queue; the later ones stay. */
  lemma TimerWakesExactlyTheDue(s: State, now: int, t: Tid)
    requires QueuesOk(s)
    ensures var s' := ExpireSleepers(s, now);
      && (t in s'.sleep <==> t in s.sleep && now < KeyOf(t, s.timeout))
      && (t in s'.timedOut <==> t in s.timedOut || (t in s.sleep && KeyOf(t, s.timeout) <= now))
      && (t in s.sleep && KeyOf(t, s.timeout) <= now ==> t in Ring(s', Ready))
  {
    ExpiresPrefix(s, now);
    DueMembers(s.sleep, s.timeout, now, t);
    hide RingsOk, SleepOk, ExpireSleepers, Due, Ring;
    if t in s.sleep && KeyOf(t, s.timeout) <= now { DueIsReady(s, now, t); }
  }

  lemma DueIsReady(s: State, now: int, t: Tid)
    requires QueuesOk(s) && t in s.sleep && t !in ExpireSleepers(s, now).sleep
    ensures t in Ring(ExpireSleepers(s, now), Ready)
  {
    ExpireKeeps(s, now);
    ExpireEffect(s, now);
    hide ExpireSleepers, Sorted, Distinct;
    assert RingOk(ExpireSleepers(s, now), Ready);
  }
}
