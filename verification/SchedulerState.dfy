/** The scheduler of thread.cpp as a state: which ring each thread is on and where
    in a kernel call it is suspended. Each section with interrupts off is one
    atomic function from state to state. */
module SchedulerState {
  import opened PriorityOrder
  import opened Rings
  import opened Wrappers

  type Tid = nat

  /** The wait queues: the ready queue, and one for each mutex, condition variable
      and rw-mutex. */
  datatype QId = Ready | MutexQ(m: nat) | CondQ(c: nat) | RwQ(r: nat)

  /** Where a thread continues when it next runs: Run is outside any kernel call;
      the others are the suspension points of the calls that can block. */
  datatype Pc =
    | Run
    | LockWait(m: nat)
    | TimedLockWait(m: nat)
    | TimedLockWoken(m: nat)
    | CondWait(c: nat)
    | TimedCondWait(c: nat)
    | Asleep
    | ReadQueued(r: nat)
    | ReadWoken(r: nat)
    | WriteQueued(r: nat)
    | WriteWoken(r: nat)

  /** The wait ring a thread with this continuation is on. */
  function Home(pc: Pc): Option<QId>
  {
    match pc
    case Run => Some(Ready)
    case LockWait(m) => Some(MutexQ(m))
    case TimedLockWait(m) => Some(MutexQ(m))
    case TimedLockWoken(_) => Some(Ready)
    case CondWait(c) => Some(CondQ(c))
    case TimedCondWait(c) => Some(CondQ(c))
    case Asleep => None
    case ReadQueued(r) => Some(RwQ(r))
    case ReadWoken(_) => Some(Ready)
    case WriteQueued(r) => Some(RwQ(r))
    case WriteWoken(_) => Some(Ready)
  }

  /** Whether a timeout is pending. */
  predicate Timed(pc: Pc) { pc.TimedLockWait? || pc.TimedCondWait? || pc.Asleep? }

  /** The continuation after being rescheduled. */
  function Woken(pc: Pc): (w: Pc)
    ensures Home(w) == Some(Ready) && !Timed(w)
  {
    match pc
    case TimedLockWait(m) => TimedLockWoken(m)
    case ReadQueued(r) => ReadWoken(r)
    case WriteQueued(r) => WriteWoken(r)
    case TimedLockWoken(m) => TimedLockWoken(m)
    case ReadWoken(r) => ReadWoken(r)
    case WriteWoken(r) => WriteWoken(r)
    case _ => Run
  }

  datatype Locks = Locks(
    locked: set<nat>,                   // mutexes
    owns: set<(Tid, nat)>,              // who holds which mutex
    spoiled: set<nat>,                  // mutexes a late timed attempt unlocked while they were locked
    rwLocked: set<nat>,                 // rw-mutexes
    readers: map<nat, nat>,
    writerq: map<nat, nat>,
    writing: set<(Tid, nat)>,           // who holds which rw-mutex for writing
    reading: map<nat, multiset<Tid>>)   // who holds which rw-mutex for reading

  datatype State = State(
    current: Tid,
    halted: bool,                       // the deadlock panic
    pc: map<Tid, Pc>,                   // the live threads
    rings: map<QId, seq<Tid>>,
    sleep: seq<Tid>,
    prio: map<Tid, int>,
    timeout: map<Tid, int>,
    timedOut: set<Tid>,                 // threads whose _did_not_timeout is FALSE
    locks: Locks)

  function Ring(s: State, q: QId): seq<Tid> { if q in s.rings then s.rings[q] else [] }
  function Readers(l: Locks, r: nat): nat { if r in l.readers then l.readers[r] else 0 }
  function Writerq(l: Locks, r: nat): nat { if r in l.writerq then l.writerq[r] else 0 }
  function Reading(l: Locks, r: nat): multiset<Tid> { if r in l.reading then l.reading[r] else multiset{} }

  lemma EnqueuedMembers(ring: seq<Tid>, t: Tid, key: map<Tid, int>, lt: Before)
    requires Distinct(ring) && t !in ring
    ensures Distinct(Enqueued(ring, t, key, lt))
    ensures forall u :: u in Enqueued(ring, t, key, lt) <==> u in ring || u == t
  {
    var p := Slot(KeysBy(ring, key), KeyOf(t, key), lt);
    InsertAtMembers(ring, p, t);
    InsertAtDistinct(ring, p, t);
  }

  lemma EnqueuedSorted(ring: seq<Tid>, t: Tid, key: map<Tid, int>, lt: Before)
    requires StrictWeak(lt) && Sorted(KeysBy(ring, key), lt)
    ensures Sorted(KeysBy(Enqueued(ring, t, key, lt), key), lt)
  {
    var p := Slot(KeysBy(ring, key), KeyOf(t, key), lt);
    InsertKeepsSorted(KeysBy(ring, key), KeyOf(t, key), lt);
    assert KeysBy(InsertAt(ring, p, t), key) == InsertAt(KeysBy(ring, key), p, KeyOf(t, key));
  }

  lemma WithoutSorted(ring: seq<Tid>, t: Tid, key: map<Tid, int>, lt: Before)
    requires Sorted(KeysBy(ring, key), lt)
    ensures Sorted(KeysBy(Without(ring, t), key), lt)
  {
    if t in ring {
      var p := IndexOf(ring, t);
      RemoveKeepsSorted(KeysBy(ring, key), p, lt);
      assert KeysBy(RemoveAt(ring, p), key) == RemoveAt(KeysBy(ring, key), p);
    }
  }
}
