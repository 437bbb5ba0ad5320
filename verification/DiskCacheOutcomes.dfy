/** What each cache call does with the blocks, the holders and the device. */
module DiskCacheOutcomes {
  import opened Wrappers
  import opened DiskCache
  import opened DiskCacheInvariant
  import opened DiskCacheContents
  import opened DiskCacheRuns

  /** From c to c' only block i changed, to b, and the device not at all. */
  predicate OnlyBlock(c: Cache, c': Cache, i: nat, b: Block)
  {
    i < |c.blocks| && c'.blocks == c.blocks[i := b] && c'.media == c.media
  }

  /** Nobody holds block v, and all others of that kind were acquired later. */
  ghost predicate LeastRecent(c: Cache, v: nat)
    requires Sized(c)
  {
    && v < |c.blocks| && v !in c.hist.held
    && forall u: nat :: u < |c.blocks| && u !in c.hist.held && u != v ==> c.hist.stamp[v] < c.hist.stamp[u]
  }

  lemma FoundHolds(c: Cache, p: Place)
    requires Valid(c)
    ensures var r := Find(c.blocks, c.buckets[BucketOf(c, p.pos)], p); r.Some? ==> HoldsAt(c, r.value, p)
  {
    FindIsLive(c, p);
  }

  /** A sector that some block holds is found there, whatever the device does: the
      caller holds that block once more, and nothing else changes. */
  lemma HitOutcome(c: Cache, p: Place, readOk: bool, junk: Data, i: nat)
    requires Valid(c) && HoldsAt(c, i, p)
    ensures var (c', r) := Acquire(c, p, readOk, junk);
      && r == Acquired(i) && OnlyBlock(c, c', i, c.blocks[i].(refcount := c.blocks[i].refcount + 1))
      && c'.hist.held == c.hist.held + multiset{i} && c'.hist.stamp == c.hist.stamp[i := c.hist.clock]
      && !c'.crashed
  {
    AcquireIs(c, p, readOk, junk);
    FindIsLive(c, p);
    FoundHolds(c, p);
    OneHolder(c, p);
    NotCrashed(c);
    hide RingsOk, LiveOk, HeldOk, RecencyOk, Live, Acquire;
  }

  /** When all blocks are held and none holds the sector, the caller has to wait. */
  lemma WaitOutcome(c: Cache, p: Place, readOk: bool, junk: Data)
    requires Valid(c) && (forall i: nat :: !HoldsAt(c, i, p)) && forall i: nat :: i < |c.blocks| ==> i in c.hist.held
    ensures Acquire(c, p, readOk, junk) == (c, MustWait)
  {
    hide Valid, Live, Acquire, Find, Victim, HoldsAt;
    AcquireIs(c, p, readOk, junk);
    FoundHolds(c, p);
    VictimIsLeastRecentlyAcquired(c);
  }

  /** Otherwise the least recently acquired block that nobody holds is read into. If that
      works the caller holds it with the contents of the device; if not, nobody does and
      it cannot be found. */
  lemma MissOutcome(c: Cache, p: Place, readOk: bool, junk: Data) returns (v: nat)
    requires Valid(c) && (forall i: nat :: !HoldsAt(c, i, p))
    requires exists i: nat :: i < |c.blocks| && i !in c.hist.held
    ensures LeastRecent(c, v)
    ensures var (c', r) := Acquire(c, p, readOk, junk);
      if readOk && p in c.media
      then && r == Acquired(v) && c'.hist.held == c.hist.held + multiset{v} && !c'.crashed
           && OnlyBlock(c, c', v, Block(Some(p.d), p.pos, 1, false, c.blocks[v].dirty, c.media[p]))
      else && r == Failed && c'.hist.held == c.hist.held && (c'.crashed <==> c.blocks[v].dirty)
           && OnlyBlock(c, c', v, Block(None, p.pos, 0, true, c.blocks[v].dirty, junk))
  {
    hide Valid, Live, Acquire, Find, Victim, HoldsAt, Miss, Dropped, BucketOf;
    AcquireIs(c, p, readOk, junk);
    FoundHolds(c, p);
    VictimIsLeastRecentlyAcquired(c);
    NotCrashed(c);
    v := Victim(c.blocks, c.lru).value;
    if p in c.media { MissFields(c, p, v, c.media[p]); }
    DroppedFields(c, p, v, junk);
  }

  lemma MissFields(c: Cache, p: Place, v: nat, data: Data)
    requires Sized(c) && v < |c.blocks|
    ensures var c' := Miss(c, p, v, data);
      && OnlyBlock(c, c', v, Block(Some(p.d), p.pos, 1, false, c.blocks[v].dirty, data))
      && c'.hist.held == c.hist.held + multiset{v} && c'.crashed == c.crashed
  {}

  lemma DroppedFields(c: Cache, p: Place, v: nat, junk: Data)
    requires Sized(c) && v < |c.blocks|
    ensures var c' := Dropped(c, p, v, junk);
      && OnlyBlock(c, c', v, Block(None, p.pos, 0, true, c.blocks[v].dirty, junk))
      && c'.hist.held == c.hist.held && c'.crashed == c.crashed
  {}

  /** A release takes one hold back. If it was the last and the block was changed, the
      device gets the contents when the write works; otherwise the device is not
      touched. */
  lemma ReleaseOutcome(c: Cache, i: nat, writeOk: bool)
    requires Valid(c) && i in c.hist.held
    ensures i < |c.blocks| && c.blocks[i].d.Some?
    ensures var b, c' := c.blocks[i], Release(c, i, writeOk);
      var written := c.hist.held[i] == 1 && b.dirty && writeOk;
      && c'.hist.held == c.hist.held - multiset{i} && c'.hist.stamp == c.hist.stamp
      && c'.blocks == c.blocks[i := b.(refcount := b.refcount - 1, dirty := b.dirty && !written)]
      && c'.media == (if written then c.media[Place(b.d.value, b.pos) := b.buf] else c.media)
      && c'.lru == c.lru && c'.buckets == c.buckets && !c'.crashed
  {
    assert Live(c, i);
    hide RingsOk, RecencyOk;
  }

  /** A holder's change is seen by all users at once, and stays in the block until then:
      the device, the holders and the order of reuse are as before. */
  lemma ModifyOutcome(c: Cache, i: nat, data: Data)
    requires Valid(c) && i in c.hist.held
    ensures i < |c.blocks| && c.blocks[i].d.Some?
    ensures var b, c' := c.blocks[i], Modify(c, i, data);
      && Sized(c') && Contents(c') == Contents(c)[Place(b.d.value, b.pos) := data]
      && OnlyBlock(c, c', i, b.(buf := data, dirty := true)) && c'.hist == c.hist && c'.lru == c.lru
  {
    ModifyChangesOneSector(c, i, data);
    hide RecencyOk, RingsOk, LiveOk, HeldOk, Contents;
  }

  // -------------------------------------------------- the buckets

  lemma StepKeepsSizes(c: Cache, a: Call)
    requires Legal(c, a)
    ensures |Do(c, a).buckets| == |c.buckets| && |Do(c, a).blocks| == |c.blocks|
  {
    match a
    case DoAcquire(p, readOk, junk) =>
      hide Front, Find, Victim;
      forall i: nat, k: nat | i < |c.blocks|
        ensures |Front(c, i, k).buckets| == |c.buckets| && Front(c, i, k).blocks == c.blocks
      {
        FrontFields(c, i, k);
      }
    case DoModify(_, _) =>
    case DoRelease(i, writeOk) => ReleaseKeepsSizes(c, i, writeOk);
  }

  lemma ReleaseKeepsSizes(c: Cache, i: nat, writeOk: bool)
    requires i < |c.blocks|
    ensures |Release(c, i, writeOk).buckets| == |c.buckets| && |Release(c, i, writeOk).blocks| == |c.blocks|
  {}

  lemma {:induction false} RunKeepsSizes(c: Cache, calls: seq<Call>)
    requires LegalRun(c, calls)
    ensures |RunOf(c, calls).buckets| == |c.buckets| && |RunOf(c, calls).blocks| == |c.blocks|
    decreases |calls|
  {
    hide Do, Legal;
    if calls != [] {
      StepKeepsSizes(c, calls[0]);
      RunKeepsSizes(Do(c, calls[0]), calls[1..]);
    }
  }

  /** From boot, a block stands in the bucket of its position modulo 5059, if in any, and
      never in two. */
  lemma BucketsByPosition(media: map<Place, Data>, junk: seq<Block>, calls: seq<Call>, k: nat, i: nat)
    requires |junk| == CACHE_SIZE && LegalRun(SetUp(media, junk), calls) && !SomeCallCrashes(SetUp(media, junk), calls)
    ensures var c := RunOf(SetUp(media, junk), calls);
      && |c.buckets| == 5059 && |c.blocks| == 100
      && (k < |c.buckets| && i in c.buckets[k] ==> i < |c.blocks| && k == c.blocks[i].pos % 5059)
  {
    SetUpValid(media, junk);
    RunKeepsSizes(SetUp(media, junk), calls);
    RunKeepsExactlyWhen(SetUp(media, junk), calls);
    hide RecencyOk, LiveOk, HeldOk, RunOf, LegalRun, SomeCallCrashes;
  }
}
