/** What every sequence of cache calls keeps. */
module DiskCacheInvariant {
  import opened PriorityOrder
  import opened Rings
  import opened Wrappers
  import opened DiskCache

  /** The LRU ring is a permutation of the blocks; a bucketed block is in the
      bucket of its sector. */
  ghost predicate RingsOk(c: Cache)
  {
    && Sized(c)
    && Distinct(c.lru) && (forall i: nat :: i in c.lru <==> i < |c.blocks|)
    && (forall k: nat :: k < |c.buckets| ==> Distinct(c.buckets[k]))
    && (forall k: nat, i: nat {:trigger i in c.buckets[k]} ::
          k < |c.buckets| && i in c.buckets[k] ==> i < |c.blocks| && k == BucketOf(c, c.blocks[i].pos))
  }

  function Stamp(stamp: seq<int>, i: nat): int { if i < |stamp| then stamp[i] else 0 }

  /** The LRU ring is in order of last acquisition. */
  ghost predicate RecencyOk(lru: seq<nat>, stamp: seq<int>, clock: int)
  {
    && (forall a, b :: 0 <= a < b < |lru| ==> Stamp(stamp, lru[a]) > Stamp(stamp, lru[b]))
    && (forall a :: 0 <= a < |lru| ==> Stamp(stamp, lru[a]) < clock)
  }

  /** Block i can be found, and holds a sector. */
  predicate Live(c: Cache, i: nat)
    requires Sized(c) && i < |c.blocks|
  {
    c.blocks[i].d.Some? && i in c.buckets[BucketOf(c, c.blocks[i].pos)]
  }

  function PlaceOf(b: Block): Place
    requires b.d.Some?
  {
    Place(b.d.value, b.pos)
  }

  /** A findable block was read without error, and if it is clean it equals its
      sector; no two of them hold the same sector. */
  ghost predicate LiveOk(c: Cache)
    requires Sized(c)
  {
    && (forall i :: 0 <= i < |c.blocks| && Live(c, i) ==>
          !c.blocks[i].failed && PlaceOf(c.blocks[i]) in c.media &&
          (!c.blocks[i].dirty ==> c.blocks[i].buf == c.media[PlaceOf(c.blocks[i])]))
    && (forall i, j :: 0 <= i < |c.blocks| && 0 <= j < |c.blocks| && i != j && Live(c, i) && Live(c, j) ==>
          PlaceOf(c.blocks[i]) != PlaceOf(c.blocks[j]))
  }

  /** A reference count is the number of acquires not yet released, and a held
      block can be found. */
  ghost predicate HeldOk(c: Cache)
    requires Sized(c)
  {
    && (forall i: nat :: i in c.hist.held ==> i < |c.blocks|)
    && (forall i :: 0 <= i < |c.blocks| ==> c.blocks[i].refcount == c.hist.held[i] && (i in c.hist.held ==> Live(c, i)))
  }

  ghost predicate Valid(c: Cache)
  {
    RingsOk(c) && RecencyOk(c.lru, c.hist.stamp, c.hist.clock) && LiveOk(c) && HeldOk(c) && !c.crashed
  }

  // -------------------------------------------------- splicing

  lemma FrontMembers(ring: seq<nat>, i: nat)
    requires Distinct(ring)
    ensures var r := [i] + Without(ring, i); Distinct(r) && forall u :: u in r <==> u == i || u in ring
  {
    WithoutMembers(ring, i);
  }

  lemma FrontBuckets(c: Cache, i: nat, k: nat, j: nat)
    requires RingsOk(c) && i < |c.blocks| && k < |c.buckets| && j < |c.buckets|
    ensures var b := Front(c, i, k).buckets[j];
      Distinct(b) && forall u :: u in b <==> (u == i && j == k) || (u != i && u in c.buckets[j])
  {
    WithoutMembers(c.buckets[j], i);
    FrontMembers(c.buckets[j], i);
  }

  /** Splicing block i to the front when it becomes b. */
  lemma FrontKeepsRings(c: Cache, i: nat, b: Block)
    requires RingsOk(c) && i < |c.blocks|
    ensures RingsOk(Put(Front(c, i, BucketOf(c, b.pos)), i, b))
  {
    var k := BucketOf(c, b.pos);
    var c' := Put(Front(c, i, k), i, b);
    FrontMembers(c.lru, i);
    forall j: nat | j < |c'.buckets|
      ensures Distinct(c'.buckets[j])
      ensures forall u: nat :: u in c'.buckets[j] ==> u < |c'.blocks| && j == BucketOf(c', c'.blocks[u].pos)
    {
      FrontBuckets(c, i, k, j);
      forall u: nat | u in c'.buckets[j] ensures u < |c'.blocks| && j == BucketOf(c', c'.blocks[u].pos) {
        assert u != i ==> u in c.buckets[j] && c'.blocks[u] == c.blocks[u];
      }
    }
  }

  lemma NewStamp(stamp: seq<int>, i: nat, clock: int)
    requires i < |stamp|
    ensures forall u: nat :: Stamp(stamp[i := clock], u) == if u == i then clock else Stamp(stamp, u)
  {
    forall u: nat ensures Stamp(stamp[i := clock], u) == if u == i then clock else Stamp(stamp, u) {}
  }

  lemma WithoutAt(ring: seq<nat>, i: nat, a: nat)
    requires i in ring && a < |Without(ring, i)|
    ensures a < |ring| - 1 && Without(ring, i)[a] == ring[if a < IndexOf(ring, i) then a else a + 1]
  {
    hide IndexOf;
  }

  lemma FrontKeepsRecency(lru: seq<nat>, stamp: seq<int>, clock: int, i: nat)
    requires Distinct(lru) && RecencyOk(lru, stamp, clock) && i in lru && i < |stamp|
    ensures RecencyOk([i] + Without(lru, i), stamp[i := clock], clock + 1)
  {
    hide IndexOf, Without, Distinct, Stamp;
    var w, p := Without(lru, i), IndexOf(lru, i);
    var r, stamp' := [i] + w, stamp[i := clock];
    NewStamp(stamp, i, clock);
    WithoutMembers(lru, i);
    forall a | 0 <= a < |w|
      ensures a < |lru| - 1 && w[a] == lru[if a < p then a else a + 1]
      ensures Stamp(stamp', w[a]) == Stamp(stamp, w[a]) < clock
    {
      WithoutAt(lru, i, a);
      assert w[a] in w;
    }
    forall a, b | 0 <= a < b < |r| ensures Stamp(stamp', r[a]) > Stamp(stamp', r[b]) {
      if a > 0 { assert w[a - 1] == r[a] && w[b - 1] == r[b]; } else { assert w[b - 1] == r[b]; }
    }
    forall a | 0 <= a < |r| ensures Stamp(stamp', r[a]) < clock + 1 {
      if a > 0 { assert w[a - 1] == r[a]; }
    }
  }

  lemma FrontFields(c: Cache, i: nat, k: nat)
    requires i < |c.hist.stamp|
    ensures var f := Front(c, i, k);
      && f.blocks == c.blocks && f.media == c.media && f.crashed == c.crashed && |f.buckets| == |c.buckets|
      && f.hist == History(c.hist.held + multiset{i}, c.hist.stamp[i := c.hist.clock], c.hist.clock + 1)
  {}

  /** Which blocks can be found after a splice. */
  lemma FrontLive(c: Cache, i: nat, b: Block, u: nat)
    requires RingsOk(c) && i < |c.blocks| && u < |c.blocks|
    ensures var c' := Put(Front(c, i, BucketOf(c, b.pos)), i, b);
      Live(c', u) == if u == i then b.d.Some? else Live(c, u)
  {
    FrontBuckets(c, i, BucketOf(c, b.pos), BucketOf(c, (if u == i then b else c.blocks[u]).pos));
  }

  // -------------------------------------------------- the calls keep it

  /** Block b may stand for block i. */
  ghost predicate Fits(c: Cache, i: nat, b: Block)
    requires Sized(c)
  {
    b.d.Some? ==>
      && !b.failed && PlaceOf(b) in c.media && (!b.dirty ==> b.buf == c.media[PlaceOf(b)])
      && (forall u :: 0 <= u < |c.blocks| && u != i && Live(c, u) ==> PlaceOf(c.blocks[u]) != PlaceOf(b))
  }

  lemma SpliceKeepsLive(c: Cache, i: nat, b: Block)
    requires RingsOk(c) && LiveOk(c) && i < |c.blocks| && Fits(c, i, b)
    ensures LiveOk(Put(Front(c, i, BucketOf(c, b.pos)), i, b))
  {
    var c' := Put(Front(c, i, BucketOf(c, b.pos)), i, b);
    forall u | 0 <= u < |c.blocks|
      ensures Live(c', u) == if u == i then b.d.Some? else Live(c, u)
    {
      FrontLive(c, i, b, u);
    }
    hide Live, Front;
  }

  lemma SpliceKeepsHeld(c: Cache, i: nat, b: Block)
    requires RingsOk(c) && HeldOk(c) && i < |c.blocks| && b.d.Some? && b.refcount == c.blocks[i].refcount + 1
    ensures HeldOk(Put(Front(c, i, BucketOf(c, b.pos)), i, b))
  {
    hide Live, Front, BucketOf;
    RingsAreSized(c);
    hide RingsOk;
    FrontFields(c, i, BucketOf(c, b.pos));
    var c' := Put(Front(c, i, BucketOf(c, b.pos)), i, b);
    forall u | 0 <= u < |c.blocks|
      ensures Live(c', u) == if u == i then b.d.Some? else Live(c, u)
    {
      FrontLive(c, i, b, u);
    }
  }

  lemma RingsAreSized(c: Cache)
    requires RingsOk(c)
    ensures Sized(c)
  {}

  /** Block b, once more held than block i, may stand for it. */
  ghost predicate Takes(c: Cache, i: nat, b: Block)
  {
    Sized(c) && i < |c.blocks| && Fits(c, i, b) && b.d.Some? && b.refcount == c.blocks[i].refcount + 1
  }

  lemma SpliceKeeps(c: Cache, i: nat, b: Block)
    requires Valid(c) && Takes(c, i, b)
    ensures Valid(Put(Front(c, i, BucketOf(c, b.pos)), i, b))
    ensures i in Put(Front(c, i, BucketOf(c, b.pos)), i, b).hist.held
  {
    FrontKeepsRings(c, i, b);
    FrontKeepsRecency(c.lru, c.hist.stamp, c.hist.clock, i);
    SpliceKeepsLive(c, i, b);
    SpliceKeepsHeld(c, i, b);
  }

  /** Being found is being live: a probe looks in the right bucket. */
  lemma FindIsLive(c: Cache, p: Place)
    requires Valid(c)
    ensures var r := Find(c.blocks, c.buckets[BucketOf(c, p.pos)], p);
      && (r.Some? ==> Live(c, r.value) && PlaceOf(c.blocks[r.value]) == p)
      && (r.None? ==> forall u :: 0 <= u < |c.blocks| && Live(c, u) ==> PlaceOf(c.blocks[u]) != p)
  {}

  lemma HitTakes(c: Cache, i: nat)
    requires Valid(c) && i < |c.blocks| && Live(c, i)
    ensures Takes(c, i, c.blocks[i].(refcount := c.blocks[i].refcount + 1))
  {
    assert Sized(c);
    hide RingsOk, HeldOk, RecencyOk;
  }

  lemma HitKeeps(c: Cache, i: nat)
    requires Valid(c) && i < |c.blocks| && Live(c, i)
    ensures Valid(Hit(c, PlaceOf(c.blocks[i]), i)) && i in Hit(c, PlaceOf(c.blocks[i]), i).hist.held
  {
    hide RingsOk, LiveOk, HeldOk, RecencyOk, Takes, Front;
    HitTakes(c, i);
    SpliceKeeps(c, i, c.blocks[i].(refcount := c.blocks[i].refcount + 1));
  }

  lemma MissKeeps(c: Cache, p: Place, i: nat)
    requires Valid(c) && i < |c.blocks| && c.blocks[i].refcount == 0 && p in c.media
    requires forall u :: 0 <= u < |c.blocks| && Live(c, u) ==> PlaceOf(c.blocks[u]) != p
    ensures Valid(Miss(c, p, i, c.media[p])) && i in Miss(c, p, i, c.media[p]).hist.held
  {
    SpliceKeeps(c, i, Block(Some(p.d), p.pos, 1, false, c.blocks[i].dirty, c.media[p]));
  }

  /** What is left after a failed read. */
  function Dropped(c: Cache, p: Place, i: nat, junk: Data): Cache
    requires Sized(c) && i < |c.blocks|
  {
    var c1 := Front(c, i, BucketOf(c, p.pos));
    Put(c1, i, Block(None, p.pos, 0, true, c.blocks[i].dirty, junk)).(hist := c1.hist.(held := c.hist.held))
  }

  lemma FailureDrops(c: Cache, p: Place, i: nat, junk: Data)
    requires Sized(c) && i < |c.blocks|
    ensures var c1 := Miss(c, p, i, junk);
      Release(Put(c1, i, c1.blocks[i].(failed := true, d := None)), i, false) ==
      if c.blocks[i].dirty then Dropped(c, p, i, junk).(crashed := true) else Dropped(c, p, i, junk)
  {
    hide Front;
    FrontFields(c, i, BucketOf(c, p.pos));
    assert c.hist.held + multiset{i} - multiset{i} == c.hist.held;
    var f, b := Front(c, i, BucketOf(c, p.pos)), Block(None, p.pos, 1, true, c.blocks[i].dirty, junk);
    assert Put(Miss(c, p, i, junk), i, Miss(c, p, i, junk).blocks[i].(failed := true, d := None)) == Put(f, i, b);
    assert Put(f, i, b).blocks[i := b.(refcount := 0)] == f.blocks[i := b.(refcount := 0)];
  }

  lemma DropKeeps(c: Cache, p: Place, i: nat, junk: Data)
    requires Valid(c) && i < |c.blocks| && c.blocks[i].refcount == 0
    ensures Valid(Dropped(c, p, i, junk))
  {
    var b := Block(None, p.pos, 0, true, c.blocks[i].dirty, junk);
    var c1 := Put(Front(c, i, BucketOf(c, p.pos)), i, b);
    FrontKeepsRings(c, i, b);
    FrontKeepsRecency(c.lru, c.hist.stamp, c.hist.clock, i);
    SpliceKeepsLive(c, i, b);
    forall u | 0 <= u < |c.blocks| ensures Live(c1, u) == (u != i && Live(c, u)) { FrontLive(c, i, b, u); }
    SameBut(c1, Dropped(c, p, i, junk));
    hide Live, RingsOk, LiveOk;
  }

  /** Nothing but the holders, the buffers and the flags differ. */
  lemma SameBut(c: Cache, c': Cache)
    requires RingsOk(c)
    requires c'.lru == c.lru && c'.buckets == c.buckets
    requires |c'.blocks| == |c.blocks| && |c'.hist.stamp| == |c.hist.stamp|
    requires forall u :: 0 <= u < |c.blocks| ==> c'.blocks[u].pos == c.blocks[u].pos && c'.blocks[u].d == c.blocks[u].d
    ensures RingsOk(c') && forall u :: 0 <= u < |c.blocks| ==> Live(c', u) == Live(c, u)
    ensures LiveOk(c) && c'.media == c.media && c'.blocks == c.blocks ==> LiveOk(c')
  {
    forall k: nat, i: nat | k < |c.buckets| && i in c.buckets[k]
      ensures i < |c.blocks| && k == BucketOf(c', c'.blocks[i].pos)
    {
      assert k == BucketOf(c, c.blocks[i].pos);
    }
  }

  /** The block an acquire would take over. */
  function Reused(c: Cache, p: Place): Option<nat>
    requires Sized(c)
  {
    if Find(c.blocks, c.buckets[BucketOf(c, p.pos)], p).Some? then None else Victim(c.blocks, c.lru)
  }

  /** The read into a block that still waits to be written back fails. */
  predicate WritesToNull(c: Cache, p: Place, readOk: bool)
    requires Sized(c)
  {
    Reused(c, p).Some? && c.blocks[Reused(c, p).value].dirty && !(readOk && p in c.media)
  }

  /** The four ways an acquire can go. */
  lemma AcquireIs(c: Cache, p: Place, readOk: bool, junk: Data)
    requires Valid(c)
    ensures var hit, v := Find(c.blocks, c.buckets[BucketOf(c, p.pos)], p), Victim(c.blocks, c.lru);
      && (hit.Some? ==>
            Live(c, hit.value) && PlaceOf(c.blocks[hit.value]) == p &&
            Acquire(c, p, readOk, junk) == (Hit(c, p, hit.value), Acquired(hit.value)))
      && (hit.None? && v.None? ==> Acquire(c, p, readOk, junk) == (c, MustWait))
      && (hit.None? && v.Some? ==>
            Acquire(c, p, readOk, junk) ==
            if readOk && p in c.media then (Miss(c, p, v.value, c.media[p]), Acquired(v.value))
            else if c.blocks[v.value].dirty then (Dropped(c, p, v.value, junk).(crashed := true), Failed)
            else (Dropped(c, p, v.value, junk), Failed))
  {
    FindIsLive(c, p);
    var hit, v := Find(c.blocks, c.buckets[BucketOf(c, p.pos)], p), Victim(c.blocks, c.lru);
    if hit.Some? { assert !c.blocks[hit.value].failed; }
    hide RingsOk, LiveOk, HeldOk, RecencyOk, Live, Hit, Miss, Dropped, Release, Put;
    if hit.None? && v.Some? { FailureDrops(c, p, v.value, junk); }
  }

  /** An acquire keeps the invariant exactly when it does not write to disk NULL. */
  lemma AcquireKeepsExactlyWhen(c: Cache, p: Place, readOk: bool, junk: Data)
    requires Valid(c)
    ensures Acquire(c, p, readOk, junk).0.crashed <==> WritesToNull(c, p, readOk)
    ensures Valid(Acquire(c, p, readOk, junk).0) <==> !WritesToNull(c, p, readOk)
    ensures !Acquire(c, p, readOk, junk).1.Retries?
  {
    hide Valid, Live, Find, Victim, BucketOf, Hit, Miss, Dropped, Acquire;
    NotCrashed(c);
    AcquireIs(c, p, readOk, junk);
    var hit, victim := Find(c.blocks, c.buckets[BucketOf(c, p.pos)], p), Victim(c.blocks, c.lru);
    if hit.Some? {
      HitKeeps(c, hit.value);
      NotCrashed(Hit(c, p, hit.value));
    } else if victim.Some? {
      ReuseKeeps(c, p, victim.value, junk);
      if p in c.media { NotCrashed(Miss(c, p, victim.value, c.media[p])); }
      NotCrashed(Dropped(c, p, victim.value, junk));
      Crashed(Dropped(c, p, victim.value, junk).(crashed := true));
    }
  }

  lemma NotCrashed(c: Cache)
    ensures Valid(c) ==> !c.crashed && Sized(c)
  {}

  lemma Crashed(c: Cache)
    requires c.crashed
    ensures !Valid(c)
  {}

  lemma ReuseKeeps(c: Cache, p: Place, v: nat, junk: Data)
    requires Valid(c) && Find(c.blocks, c.buckets[BucketOf(c, p.pos)], p).None?
    requires v < |c.blocks| && c.blocks[v].refcount == 0
    ensures p in c.media ==> Valid(Miss(c, p, v, c.media[p]))
    ensures Valid(Dropped(c, p, v, junk))
  {
    FindIsLive(c, p);
    hide RingsOk, LiveOk, HeldOk, RecencyOk, Live, Miss, Dropped;
    if p in c.media { MissKeeps(c, p, v); }
    DropKeeps(c, p, v, junk);
  }

  /** Replacing one block where it stands. */
  lemma PutKeeps(c: Cache, i: nat, b: Block, media: map<Place, Data>)
    requires Valid(c) && i < |c.blocks| && Live(c, i) && b.d == c.blocks[i].d && b.pos == c.blocks[i].pos
    requires media.Keys == c.media.Keys && forall p :: p in media && p != PlaceOf(b) ==> media[p] == c.media[p]
    requires PlaceOf(b) in media
    requires !b.failed && b.refcount == c.blocks[i].refcount && (!b.dirty ==> b.buf == media[PlaceOf(b)])
    ensures Valid(Put(c, i, b).(media := media))
  {
    var c' := Put(c, i, b).(media := media);
    SameBut(c, c');
    hide Live, RingsOk, RecencyOk;
    PutKeepsLive(c, i, b, media);
  }

  lemma PutKeepsLive(c: Cache, i: nat, b: Block, media: map<Place, Data>)
    requires Sized(c) && LiveOk(c) && i < |c.blocks| && Live(c, i) && b.d == c.blocks[i].d && b.pos == c.blocks[i].pos
    requires media.Keys == c.media.Keys && forall p :: p in media && p != PlaceOf(b) ==> media[p] == c.media[p]
    requires PlaceOf(b) in media
    requires !b.failed && (!b.dirty ==> b.buf == media[PlaceOf(b)])
    ensures LiveOk(Put(c, i, b).(media := media))
  {
    var c' := Put(c, i, b).(media := media);
    forall u | 0 <= u < |c.blocks| ensures Live(c', u) == Live(c, u) {}
    hide Live;
  }

  lemma FlushKeeps(c: Cache, i: nat, writeOk: bool)
    requires Valid(c) && i < |c.blocks| && Live(c, i)
    ensures Valid(Flush(c, i, writeOk)) && Flush(c, i, writeOk).hist == c.hist
  {
    var b := c.blocks[i];
    if b.dirty && writeOk { PutKeeps(c, i, b.(dirty := false), c.media[PlaceOf(b) := b.buf]); }
  }

  function LetGo(c: Cache, i: nat): Cache
    requires i < |c.blocks|
  {
    Put(c, i, c.blocks[i].(refcount := if c.blocks[i].refcount > 0 then c.blocks[i].refcount - 1 else 0))
      .(hist := c.hist.(held := c.hist.held - multiset{i}))
  }

  lemma LetGoKeeps(c: Cache, i: nat)
    requires Valid(c) && i in c.hist.held
    ensures i < |c.blocks| && Valid(LetGo(c, i))
  {
    SameBut(c, LetGo(c, i));
    LetGoKeepsLive(c, i);
    hide Live, RingsOk, RecencyOk, LiveOk;
  }

  lemma LetGoKeepsLive(c: Cache, i: nat)
    requires Sized(c) && LiveOk(c) && i < |c.blocks|
    requires forall u :: 0 <= u < |c.blocks| ==> Live(LetGo(c, i), u) == Live(c, u)
    ensures LiveOk(LetGo(c, i))
  {
    hide Live;
  }

  lemma ReleaseKeeps(c: Cache, i: nat, writeOk: bool)
    requires Valid(c) && i in c.hist.held
    ensures i < |c.blocks| && Valid(Release(c, i, writeOk))
  {
    hide Flush;
    FlushKeeps(c, i, writeOk);
    LetGoKeeps(if c.blocks[i].refcount == 1 then Flush(c, i, writeOk) else c, i);
  }

  lemma ModifyKeeps(c: Cache, i: nat, data: Data)
    requires Valid(c) && i in c.hist.held
    ensures i < |c.blocks| && Valid(Modify(c, i, data))
  {
    PutKeeps(c, i, c.blocks[i].(buf := data, dirty := true), c.media);
    assert Put(c, i, c.blocks[i].(buf := data, dirty := true)).(media := c.media) == Modify(c, i, data);
  }

  lemma SetUpValid(media: map<Place, Data>, junk: seq<Block>)
    requires |junk| == CACHE_SIZE
    ensures Valid(SetUp(media, junk))
  {
    var c := SetUp(media, junk);
    forall i: nat ensures i in c.lru <==> i < CACHE_SIZE {
      if i < CACHE_SIZE { assert c.lru[i] == i; }
    }
  }
}
