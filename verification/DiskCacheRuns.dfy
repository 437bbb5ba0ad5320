/** Any sequence of cache calls behaves like reading and writing one map, as long
    as write-backs succeed. */
module DiskCacheRuns {
  import opened PriorityOrder
  import opened Wrappers
  import opened DiskCache
  import opened DiskCacheInvariant
  import opened DiskCacheContents

  // -------------------------------------------------- the victim

  lemma {:induction false} VictimIndex(blocks: seq<Block>, lru: seq<nat>) returns (a: nat)
    requires Victim(blocks, lru).Some?
    requires forall k :: 0 <= k < |lru| ==> lru[k] < |blocks|
    ensures a < |lru| && lru[a] == Victim(blocks, lru).value
    ensures forall b :: a < b < |lru| ==> blocks[lru[b]].refcount > 0
  {
    a := |lru| - 1;
    if blocks[lru[a]].refcount > 0 {
      a := VictimIndex(blocks, lru[..|lru| - 1]);
    }
  }

  /** A miss reuses the least recently acquired of the blocks nobody holds, and
      waits exactly when every block is held. */
  lemma VictimIsLeastRecentlyAcquired(c: Cache)
    requires Valid(c)
    ensures var v := Victim(c.blocks, c.lru);
      && (v.None? <==> forall i: nat :: i < |c.blocks| ==> i in c.hist.held)
      && (v.Some? ==>
            && v.value < |c.blocks| && v.value !in c.hist.held
            && forall u: nat :: u < |c.blocks| && u !in c.hist.held && u != v.value ==>
              c.hist.stamp[v.value] < c.hist.stamp[u])
  {
    hide LiveOk, RecencyOk, Live;
    var v := Victim(c.blocks, c.lru);
    if v.Some? {
      forall u: nat | u < |c.blocks| && u !in c.hist.held && u != v.value
        ensures c.hist.stamp[v.value] < c.hist.stamp[u]
      {
        VictimIsOlder(c.blocks, c.lru, c.hist.stamp, c.hist.clock, u);
      }
    }
  }

  lemma VictimIsOlder(blocks: seq<Block>, lru: seq<nat>, stamp: seq<int>, clock: int, u: nat)
    requires RecencyOk(lru, stamp, clock) && (forall i :: i in lru ==> i < |blocks|) && |stamp| == |blocks|
    requires u in lru && u < |blocks| && blocks[u].refcount == 0
    requires Victim(blocks, lru).Some? && Victim(blocks, lru).value != u
    ensures stamp[Victim(blocks, lru).value] < stamp[u]
  {
    hide Victim;
    assert forall k :: 0 <= k < |lru| ==> lru[k] in lru;
    var a := VictimIndex(blocks, lru);
    var b := IndexOf(lru, u);
    assert lru[b] == u && b < a;
    assert Stamp(stamp, lru[b]) > Stamp(stamp, lru[a]);
  }

  // -------------------------------------------------- runs

  datatype Call =
    | DoAcquire(p: Place, readOk: bool, junk: Data)
    | DoModify(i: nat, data: Data)
    | DoRelease(i: nat, writeOk: bool)

  /** Only a holder modifies or releases a block. Nothing follows a crash. */
  predicate Legal(c: Cache, a: Call)
  {
    && Sized(c) && !c.crashed
    && match a
       case DoAcquire(_, _, _) => true
       case DoModify(i, _) => i < |c.blocks| && i in c.hist.held
       case DoRelease(i, _) => i < |c.blocks| && i in c.hist.held
  }

  function Do(c: Cache, a: Call): Cache
    requires Legal(c, a)
  {
    match a
    case DoAcquire(p, readOk, junk) => Acquire(c, p, readOk, junk).0
    case DoModify(i, data) => Modify(c, i, data)
    case DoRelease(i, writeOk) => Release(c, i, writeOk)
  }

  predicate LegalRun(c: Cache, calls: seq<Call>)
    decreases |calls|
  {
    calls == [] || (Legal(c, calls[0]) && LegalRun(Do(c, calls[0]), calls[1..]))
  }

  function RunOf(c: Cache, calls: seq<Call>): Cache
    requires LegalRun(c, calls)
    decreases |calls|
  {
    if calls == [] then c else RunOf(Do(c, calls[0]), calls[1..])
  }

  predicate FlushesSucceed(calls: seq<Call>)
  {
    forall k :: 0 <= k < |calls| && calls[k].DoRelease? ==> calls[k].writeOk
  }

  /** The plain map after the same call: only a modification changes it, where the
      modified block says. */
  function Noted(m: map<Place, Data>, c: Cache, a: Call): map<Place, Data>
    requires Legal(c, a)
  {
    match a
    case DoModify(i, data) => if c.blocks[i].d.Some? then m[PlaceOf(c.blocks[i]) := data] else m
    case _ => m
  }

  function Stored(m: map<Place, Data>, c: Cache, calls: seq<Call>): map<Place, Data>
    requires LegalRun(c, calls)
    decreases |calls|
  {
    if calls == [] then m else Stored(Noted(m, c, calls[0]), Do(c, calls[0]), calls[1..])
  }

  /** A failed read into a block that still waits to be written back. */
  predicate Crashes(c: Cache, a: Call)
    requires Legal(c, a)
  {
    a.DoAcquire? && WritesToNull(c, a.p, a.readOk)
  }

  lemma StepKeepsExactlyWhen(c: Cache, a: Call)
    requires Valid(c) && Legal(c, a)
    ensures Do(c, a).crashed <==> Crashes(c, a)
    ensures Valid(Do(c, a)) <==> !Crashes(c, a)
  {
    hide Valid, Acquire, Modify, Release, WritesToNull;
    match a
    case DoAcquire(p, readOk, junk) => AcquireKeepsExactlyWhen(c, p, readOk, junk);
    case DoModify(i, data) =>
      ModifyKeeps(c, i, data);
      NotCrashed(Do(c, a));
    case DoRelease(i, writeOk) =>
      ReleaseKeeps(c, i, writeOk);
      NotCrashed(Do(c, a));
  }

  predicate SomeCallCrashes(c: Cache, calls: seq<Call>)
    requires LegalRun(c, calls)
    decreases |calls|
  {
    calls != [] && (Crashes(c, calls[0]) || SomeCallCrashes(Do(c, calls[0]), calls[1..]))
  }

  /** From setup_disk on, whatever calls are made and whatever transfers fail: the
      LRU ring is a permutation of the blocks in order of last acquisition,
      every findable block is in the bucket of its sector and no two hold the
      same one, and the reference counts are exact. This holds exactly until a
      read fails into a block that still waits to be written back. */
  lemma {:induction false} RunKeepsExactlyWhen(c: Cache, calls: seq<Call>)
    requires Valid(c) && LegalRun(c, calls)
    ensures RunOf(c, calls).crashed <==> SomeCallCrashes(c, calls)
    ensures Valid(RunOf(c, calls)) <==> !SomeCallCrashes(c, calls)
    decreases |calls|
  {
    hide Valid, Crashes, Do;
    if calls == [] {
      NotCrashed(c);
    } else {
      StepKeepsExactlyWhen(c, calls[0]);
      var c', rest := Do(c, calls[0]), calls[1..];
      if !Crashes(c, calls[0]) { RunKeepsExactlyWhen(c', rest); }
    }
  }

  // -------------------------------------------------- transparency

  /** A block nobody holds is not waiting to be written. */
  ghost predicate IdleClean(c: Cache)
  {
    forall i :: 0 <= i < |c.blocks| && c.blocks[i].refcount == 0 ==> !c.blocks[i].dirty
  }

  lemma IdleIsSpare(c: Cache)
    requires Valid(c) && IdleClean(c)
    ensures Victim(c.blocks, c.lru).Some? ==> Spare(c, Victim(c.blocks, c.lru).value)
  {}

  /** Then no read fails into a block that waits to be written back. */
  lemma IdleCleanNeverCrashes(c: Cache, p: Place, readOk: bool)
    requires Valid(c) && IdleClean(c)
    ensures !WritesToNull(c, p, readOk)
  {}

  lemma ReplacedKeepsIdleClean(c: Cache, i: nat, b: Block, c': Cache)
    requires IdleClean(c) && i < |c.blocks| && c'.blocks == c.blocks[i := b] && (b.refcount == 0 ==> !b.dirty)
    ensures IdleClean(c')
  {}

  lemma AcquireKeepsIdleClean(c: Cache, p: Place, readOk: bool, junk: Data)
    requires Valid(c) && IdleClean(c)
    ensures IdleClean(Acquire(c, p, readOk, junk).0)
  {
    hide Valid, IdleClean, Live, Acquire;
    AcquireIs(c, p, readOk, junk);
    IdleCleanNeverCrashes(c, p, readOk);
    NotCrashed(c);
    var hit, v := Find(c.blocks, c.buckets[BucketOf(c, p.pos)], p), Victim(c.blocks, c.lru);
    if hit.Some? {
      var h := Hit(c, p, hit.value);
      ReplacedKeepsIdleClean(c, hit.value, h.blocks[hit.value], h);
    } else if v.Some? {
      IdleIsClean(c, v.value);
      var m := if readOk && p in c.media then Miss(c, p, v.value, c.media[p]) else Dropped(c, p, v.value, junk);
      ReplacedKeepsIdleClean(c, v.value, m.blocks[v.value], m);
    }
  }

  lemma IdleIsClean(c: Cache, i: nat)
    requires IdleClean(c) && i < |c.blocks| && c.blocks[i].refcount == 0
    ensures !c.blocks[i].dirty
  {}

  lemma ReleaseKeepsIdleClean(c: Cache, i: nat)
    requires Valid(c) && IdleClean(c) && i in c.hist.held
    ensures i < |c.blocks| && IdleClean(Release(c, i, true))
  {
    assert Live(c, i);
  }

  lemma StepIsTransparent(c: Cache, a: Call)
    requires Valid(c) && IdleClean(c) && Legal(c, a) && (a.DoRelease? ==> a.writeOk)
    ensures Valid(Do(c, a)) && IdleClean(Do(c, a))
    ensures a.DoModify? ==> c.blocks[a.i].d.Some?
    ensures Contents(Do(c, a)) == if a.DoModify? then Contents(c)[PlaceOf(c.blocks[a.i]) := a.data] else Contents(c)
  {
    hide Valid, Acquire, Modify, Release, Contents, IdleClean, Spare, Live;
    StepKeepsExactlyWhen(c, a);
    NotCrashed(c);
    match a
    case DoAcquire(p, readOk, junk) =>
      IdleCleanNeverCrashes(c, p, readOk);
      IdleIsSpare(c);
      AcquireKeepsContentsExactlyWhen(c, p, readOk, junk);
      AcquireKeepsIdleClean(c, p, readOk, junk);
    case DoModify(i, data) =>
      HeldIsLive(c, i);
      ModifyChangesOneSector(c, i, data);
      ModifyKeepsIdleClean(c, i, data);
    case DoRelease(i, _) =>
      ReleaseKeepsContents(c, i, true);
      ReleaseKeepsIdleClean(c, i);
  }

  lemma HeldIsLive(c: Cache, i: nat)
    requires Valid(c) && i in c.hist.held
    ensures i < |c.blocks| && Live(c, i) && c.blocks[i].d.Some? && c.blocks[i].refcount > 0
  {}

  lemma ModifyKeepsIdleClean(c: Cache, i: nat, data: Data)
    requires Valid(c) && IdleClean(c) && i in c.hist.held
    ensures i < |c.blocks| && IdleClean(Modify(c, i, data))
  {}

  /** Across any number of hits, evictions and re-reads the cache shows what its
      users last left in each sector. */
  lemma {:induction false} CacheIsTransparent(c: Cache, calls: seq<Call>)
    requires Valid(c) && IdleClean(c) && LegalRun(c, calls) && FlushesSucceed(calls)
    ensures Valid(RunOf(c, calls)) && IdleClean(RunOf(c, calls))
    ensures Contents(RunOf(c, calls)) == Stored(Contents(c), c, calls)
    decreases |calls|
  {
    if calls != [] {
      hide Valid, Legal, IdleClean, Contents, Do;
      StepIsTransparent(c, calls[0]);
      CacheIsTransparent(Do(c, calls[0]), calls[1..]);
    }
  }

  /** From boot, a successful acquire returns what was last left in the sector, or
      what the device held at boot. */
  lemma AcquireReturnsWhatWasLeft(media: map<Place, Data>, junk: seq<Block>, calls: seq<Call>, p: Place, readOk: bool,
                                  garbage: Data)
    requires |junk| == CACHE_SIZE && LegalRun(SetUp(media, junk), calls) && FlushesSucceed(calls)
    ensures var c, stored := RunOf(SetUp(media, junk), calls), Stored(media, SetUp(media, junk), calls);
      && Sized(c)
      && var (c', r) := Acquire(c, p, readOk, garbage);
         r.Acquired? ==>
           r.i < |c'.blocks| && Caches(c'.blocks[r.i], p) && p in stored && c'.blocks[r.i].buf == stored[p]
  {
    SetUpValid(media, junk);
    SetUpContents(media, junk);
    hide Valid, Legal, Contents, Do, SetUp, Acquire, IdleClean;
    CacheIsTransparent(SetUp(media, junk), calls);
    var c := RunOf(SetUp(media, junk), calls);
    AcquireReturnsContents(c, p, readOk, garbage);
    ContentsAt(c, p);
  }

  lemma ContentsAt(c: Cache, p: Place)
    requires Valid(c)
    ensures Sized(c)
    ensures p in c.media ==> p in Contents(c) && Contents(c)[p] == View(c, p)
  {}

  lemma SetUpContents(media: map<Place, Data>, junk: seq<Block>)
    requires |junk| == CACHE_SIZE
    ensures IdleClean(SetUp(media, junk)) && Sized(SetUp(media, junk)) && Contents(SetUp(media, junk)) == media
  {
    var c := SetUp(media, junk);
    SetUpValid(media, junk);
    forall p | p in media ensures View(c, p) == media[p] { ViewIs(c, p); }
  }
}
