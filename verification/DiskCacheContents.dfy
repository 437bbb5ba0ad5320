/** The cache is transparent: its users see one map from sectors to contents. */
module DiskCacheContents {
  import opened Wrappers
  import opened DiskCache
  import opened DiskCacheInvariant

  ghost predicate HoldsAt(c: Cache, i: nat, p: Place)
    requires Sized(c)
  {
    i < |c.blocks| && Live(c, i) && PlaceOf(c.blocks[i]) == p
  }

  /** The contents of a sector as the users of the cache see it. */
  ghost function View(c: Cache, p: Place): Data
    requires Sized(c) && p in c.media
  {
    if i: nat :| HoldsAt(c, i, p) then c.blocks[i].buf else c.media[p]
  }

  ghost function Contents(c: Cache): map<Place, Data>
    requires Sized(c)
  {
    map p | p in c.media :: View(c, p)
  }

  lemma ViewIs(c: Cache, p: Place)
    requires Valid(c) && p in c.media
    ensures forall i: nat :: HoldsAt(c, i, p) ==> View(c, p) == c.blocks[i].buf
    ensures (forall i: nat :: !HoldsAt(c, i, p)) ==> View(c, p) == c.media[p]
  {}

  /** Two states in which the same blocks hold the same contents look the same. */
  lemma SameView(c: Cache, c': Cache, p: Place)
    requires Valid(c) && Valid(c') && p in c.media && p in c'.media
    requires forall i: nat :: HoldsAt(c, i, p) <==> HoldsAt(c', i, p)
    requires forall i: nat :: HoldsAt(c, i, p) && HoldsAt(c', i, p) ==> c.blocks[i].buf == c'.blocks[i].buf
    requires (forall i: nat :: !HoldsAt(c, i, p)) ==> c.media[p] == c'.media[p]
    ensures View(c', p) == View(c, p)
  {
    hide Valid, HoldsAt;
    ViewIs(c, p);
    ViewIs(c', p);
  }

  // -------------------------------------------------- acquire

  /** After block v becomes b. */
  lemma SpliceHolds(c: Cache, v: nat, b: Block, c': Cache, i: nat, p: Place)
    requires RingsOk(c) && v < |c.blocks|
    requires c'.blocks == c.blocks[v := b] && c'.buckets == Front(c, v, BucketOf(c, b.pos)).buckets && Sized(c')
    ensures HoldsAt(c', i, p) <==> if i == v then b.d.Some? && PlaceOf(b) == p else HoldsAt(c, i, p)
  {
    if i < |c.blocks| {
      FrontLive(c, v, b, i);
      assert Live(c', i) == Live(Put(Front(c, v, BucketOf(c, b.pos)), v, b), i);
    }
  }

  lemma HitKeepsView(c: Cache, v: nat, p: Place)
    requires Valid(c) && v < |c.blocks| && Live(c, v) && p in c.media
    ensures var c' := Hit(c, PlaceOf(c.blocks[v]), v); Valid(c') && p in c'.media && View(c', p) == View(c, p)
  {
    var c' := Hit(c, PlaceOf(c.blocks[v]), v);
    HitMedia(c, PlaceOf(c.blocks[v]), v);
    hide *;
    HitKeeps(c, v);
    ValidIsSized(c);
    ValidIsSized(c');
    forall i: nat
      ensures HoldsAt(c', i, p) <==> HoldsAt(c, i, p)
      ensures HoldsAt(c, i, p) ==> c'.blocks[i].buf == c.blocks[i].buf
    {
      HitHolds(c, v, c', i, p);
    }
    SameView(c, c', p);
  }

  lemma ValidIsSized(c: Cache)
    requires Valid(c)
    ensures Sized(c) && RingsOk(c)
  {}

  lemma HitHolds(c: Cache, v: nat, c': Cache, i: nat, p: Place)
    requires Sized(c) && RingsOk(c) && v < |c.blocks| && Live(c, v) && c.blocks[v].d.Some?
    requires c' == Hit(c, PlaceOf(c.blocks[v]), v)
    ensures Sized(c') && (HoldsAt(c', i, p) <==> HoldsAt(c, i, p))
    ensures HoldsAt(c, i, p) ==> c'.blocks[i].buf == c.blocks[i].buf
  {
    hide RingsOk, Live;
    SpliceHolds(c, v, c.blocks[v].(refcount := c.blocks[v].refcount + 1), c', i, p);
  }

  /** From c to c' block v is taken over and becomes b, which holds a sector no
      block held or (after a failed read) none. */
  ghost predicate TakenOver(c: Cache, v: nat, b: Block, c': Cache)
    requires Sized(c)
  {
    && Sized(c') && v < |c.blocks| && c'.media == c.media
    && c'.blocks == c.blocks[v := b] && c'.buckets == Front(c, v, BucketOf(c, b.pos)).buckets
    && (b.d.Some? ==> PlaceOf(b) in c.media && b.buf == c.media[PlaceOf(b)])
    && (b.d.Some? ==> forall i: nat :: !HoldsAt(c, i, PlaceOf(b)))
  }

  /** Only the sector that v held can change, and then to what is on the device. */
  lemma TakeOverView(c: Cache, v: nat, b: Block, c': Cache, q: Place)
    requires Valid(c) && Valid(c') && q in c.media && TakenOver(c, v, b, c')
    ensures View(c', q) == if HoldsAt(c, v, q) then c.media[q] else View(c, q)
  {
    forall i: nat ensures HoldsAt(c', i, q) <==> if i == v then b.d.Some? && PlaceOf(b) == q else HoldsAt(c, i, q) {
      SpliceHolds(c, v, b, c', i, q);
    }
    OneHolder(c, q);
    hide RingsOk, LiveOk, HeldOk, RecencyOk, Live, Front, HoldsAt;
    ViewIs(c, q);
    ViewIs(c', q);
  }

  lemma OneHolder(c: Cache, p: Place)
    requires Valid(c)
    ensures forall i: nat, j: nat :: HoldsAt(c, i, p) && HoldsAt(c, j, p) ==> i == j
  {}

  /** The device lacks nothing that block v holds: it can be overwritten. */
  predicate Spare(c: Cache, v: nat)
    requires Sized(c) && v < |c.blocks|
  {
    Live(c, v) && PlaceOf(c.blocks[v]) in c.media ==> c.blocks[v].buf == c.media[PlaceOf(c.blocks[v])]
  }

  lemma HolderView(c: Cache, v: nat)
    requires Valid(c) && v < |c.blocks| && Live(c, v)
    ensures var q := PlaceOf(c.blocks[v]); q in c.media && HoldsAt(c, v, q) && View(c, q) == c.blocks[v].buf
  {
    ViewIs(c, PlaceOf(c.blocks[v]));
  }

  /** Taking block v over keeps the contents of every sector exactly when v holds
      nothing the device lacks. */
  lemma TakeOverKeepsContentsExactlyWhen(c: Cache, v: nat, b: Block, c': Cache)
    requires Valid(c) && Valid(c') && TakenOver(c, v, b, c')
    ensures Contents(c') == Contents(c) <==> Spare(c, v)
  {
    if Live(c, v) { HolderView(c, v); }
    hide Valid, View, Live;
    forall q | q in c.media ensures View(c', q) == if HoldsAt(c, v, q) then c.media[q] else View(c, q) {
      TakeOverView(c, v, b, c', q);
    }
    hide TakenOver;
    TakeOverCompare(c, v, c');
  }

  lemma TakeOverCompare(c: Cache, v: nat, c': Cache)
    requires Sized(c) && Sized(c') && v < |c.blocks| && c'.media == c.media
    requires forall q :: q in c.media ==> View(c', q) == if HoldsAt(c, v, q) then c.media[q] else View(c, q)
    requires Live(c, v) ==> PlaceOf(c.blocks[v]) in c.media && View(c, PlaceOf(c.blocks[v])) == c.blocks[v].buf
    ensures Contents(c') == Contents(c) <==> Spare(c, v)
  {
    hide View;
    if Live(c, v) {
      var q := PlaceOf(c.blocks[v]);
      assert HoldsAt(c, v, q);
      assert Contents(c')[q] == c.media[q] && Contents(c)[q] == c.blocks[v].buf;
    }
  }

  lemma MissTakesOver(c: Cache, p: Place, v: nat, junk: Data)
    requires Valid(c) && v < |c.blocks| && Find(c.blocks, c.buckets[BucketOf(c, p.pos)], p).None?
    ensures p in c.media ==>
      TakenOver(c, v, Block(Some(p.d), p.pos, 1, false, c.blocks[v].dirty, c.media[p]), Miss(c, p, v, c.media[p]))
    ensures TakenOver(c, v, Block(None, p.pos, 0, true, c.blocks[v].dirty, junk), Dropped(c, p, v, junk))
  {
    hide LiveOk, HeldOk, RecencyOk, Live;
    FindIsLive(c, p);
  }

  lemma HitKeepsContents(c: Cache, i: nat)
    requires Valid(c) && i < |c.blocks| && Live(c, i)
    ensures var c' := Hit(c, PlaceOf(c.blocks[i]), i); Sized(c') && Contents(c') == Contents(c)
  {
    var c' := Hit(c, PlaceOf(c.blocks[i]), i);
    HitKeeps(c, i);
    hide RingsOk, LiveOk, HeldOk, RecencyOk, Live, View;
    forall q | q in c.media ensures q in c'.media && View(c', q) == View(c, q) { HitKeepsView(c, i, q); }
    HitMedia(c, PlaceOf(c.blocks[i]), i);
    hide Hit;
  }

  lemma MissKeepsContentsExactlyWhen(c: Cache, p: Place, v: nat, junk: Data)
    requires Valid(c) && v < |c.blocks| && Find(c.blocks, c.buckets[BucketOf(c, p.pos)], p).None?
    requires c.blocks[v].refcount == 0
    ensures p in c.media ==>
      Sized(Miss(c, p, v, c.media[p])) && (Contents(Miss(c, p, v, c.media[p])) == Contents(c) <==> Spare(c, v))
    ensures Sized(Dropped(c, p, v, junk)) && (Contents(Dropped(c, p, v, junk)) == Contents(c) <==> Spare(c, v))
  {
    FindIsLive(c, p);
    MissTakesOver(c, p, v, junk);
    DropKeeps(c, p, v, junk);
    hide RingsOk, LiveOk, HeldOk, RecencyOk, Live, Miss, Dropped, Spare, Contents, TakenOver;
    if p in c.media {
      MissKeeps(c, p, v);
      TakeOverKeepsContentsExactlyWhen(c, v, Block(Some(p.d), p.pos, 1, false, c.blocks[v].dirty, c.media[p]),
                                       Miss(c, p, v, c.media[p]));
    }
    TakeOverKeepsContentsExactlyWhen(c, v, Block(None, p.pos, 0, true, c.blocks[v].dirty, junk),
                                     Dropped(c, p, v, junk));
  }

  /** Unless it writes through a NULL disk, an acquire changes the contents of no
      sector exactly when it takes over no block, or one the device lacks nothing of. */
  lemma AcquireKeepsContentsExactlyWhen(c: Cache, p: Place, readOk: bool, junk: Data)
    requires Valid(c)
    ensures Sized(Acquire(c, p, readOk, junk).0)
    ensures !WritesToNull(c, p, readOk) ==>
      (Contents(Acquire(c, p, readOk, junk).0) == Contents(c) <==> Reused(c, p).None? || Spare(c, Reused(c, p).value))
  {
    AcquireIs(c, p, readOk, junk);
    AcquireKeepsExactlyWhen(c, p, readOk, junk);
    var hit, v := Find(c.blocks, c.buckets[BucketOf(c, p.pos)], p), Victim(c.blocks, c.lru);
    hide RingsOk, LiveOk, HeldOk, RecencyOk, Live, Hit, Miss, Dropped, Spare, Contents, Acquire;
    if hit.Some? {
      HitKeepsContents(c, hit.value);
    } else if v.Some? {
      MissKeepsContentsExactlyWhen(c, p, v.value, junk);
    }
  }

  lemma HitMedia(c: Cache, p: Place, i: nat)
    requires Sized(c) && i < |c.blocks|
    ensures Hit(c, p, i).media == c.media
  {}

  /** A successful acquire returns a block with the sector's contents, and the
      caller holds it. */
  lemma AcquireReturnsContents(c: Cache, p: Place, readOk: bool, junk: Data)
    requires Valid(c)
    ensures var (c', r) := Acquire(c, p, readOk, junk);
      r.Acquired? ==>
        && r.i < |c'.blocks| && r.i in c'.hist.held && Caches(c'.blocks[r.i], p)
        && p in c.media && c'.blocks[r.i].buf == View(c, p)
  {
    var hit, v := Find(c.blocks, c.buckets[BucketOf(c, p.pos)], p), Victim(c.blocks, c.lru);
    FindIsLive(c, p);
    if hit.Some? {
      HolderView(c, hit.value);
    } else if v.Some? {
      if p in c.media { ViewIs(c, p); }
    }
  }

  // -------------------------------------------------- release and modify

  lemma FlushKeepsView(c: Cache, i: nat, writeOk: bool, p: Place)
    requires Valid(c) && i < |c.blocks| && Live(c, i) && p in c.media
    ensures var c' := Flush(c, i, writeOk); Valid(c') && p in c'.media && View(c', p) == View(c, p)
  {
    var c' := Flush(c, i, writeOk);
    FlushKeeps(c, i, writeOk);
    forall u: nat ensures HoldsAt(c', u, p) <==> HoldsAt(c, u, p) {}
    assert HoldsAt(c, i, PlaceOf(c.blocks[i]));
    hide RingsOk, LiveOk, HeldOk, RecencyOk, Live, HoldsAt;
    SameView(c, c', p);
  }

  lemma LetGoKeepsView(c: Cache, i: nat, p: Place)
    requires Valid(c) && i in c.hist.held && p in c.media
    ensures i < |c.blocks| && Valid(LetGo(c, i)) && LetGo(c, i).media == c.media && View(LetGo(c, i), p) == View(c, p)
  {
    var c' := LetGo(c, i);
    LetGoKeeps(c, i);
    forall u: nat ensures HoldsAt(c', u, p) <==> HoldsAt(c, u, p) {}
    hide RingsOk, LiveOk, HeldOk, RecencyOk, Live, HoldsAt;
    SameView(c, c', p);
  }

  lemma FlushKeepsContents(c: Cache, i: nat, writeOk: bool)
    requires Valid(c) && i < |c.blocks| && Live(c, i)
    ensures var c' := Flush(c, i, writeOk);
      Valid(c') && c'.hist == c.hist && |c'.blocks| == |c.blocks| && Contents(c') == Contents(c)
  {
    FlushKeeps(c, i, writeOk);
    FlushMedia(c, i, writeOk);
    hide RingsOk, LiveOk, HeldOk, RecencyOk, Live, View, Flush;
    forall p | p in c.media ensures View(Flush(c, i, writeOk), p) == View(c, p) { FlushKeepsView(c, i, writeOk, p); }
  }

  lemma LetGoKeepsContents(c: Cache, i: nat)
    requires Valid(c) && i in c.hist.held
    ensures i < |c.blocks| && Valid(LetGo(c, i)) && Contents(LetGo(c, i)) == Contents(c)
  {
    hide LiveOk, HeldOk, RecencyOk, Live, View, LetGo;
    LetGoKeeps(c, i);
    LetGoMedia(c, i);
    assert Sized(c) && Sized(LetGo(c, i));
    hide RingsOk;
    forall p | p in c.media ensures View(LetGo(c, i), p) == View(c, p) { LetGoKeepsView(c, i, p); }
  }

  /** Letting a block go changes no contents, whether or not the write works. */
  lemma ReleaseKeepsContents(c: Cache, i: nat, writeOk: bool)
    requires Valid(c) && i in c.hist.held
    ensures i < |c.blocks| && Valid(Release(c, i, writeOk)) && Contents(Release(c, i, writeOk)) == Contents(c)
  {
    assert i < |c.blocks| && Live(c, i);
    var c1 := if c.blocks[i].refcount == 1 then Flush(c, i, writeOk) else c;
    FlushKeepsContents(c, i, writeOk);
    assert Release(c, i, writeOk) == LetGo(c1, i);
    hide RingsOk, LiveOk, HeldOk, RecencyOk, Live, Contents, LetGo, Flush, Release;
    LetGoKeepsContents(c1, i);
  }

  lemma FlushMedia(c: Cache, i: nat, writeOk: bool)
    requires i < |c.blocks|
    ensures Flush(c, i, writeOk).media.Keys == c.media.Keys
  {}

  lemma LetGoMedia(c: Cache, i: nat)
    requires i < |c.blocks|
    ensures LetGo(c, i).media == c.media
  {}

  /** A holder changes exactly the sector it holds. */
  lemma ModifyChangesOneSector(c: Cache, i: nat, data: Data)
    requires Valid(c) && i in c.hist.held
    ensures i < |c.blocks| && Live(c, i) && Valid(Modify(c, i, data))
    ensures Contents(Modify(c, i, data)) == Contents(c)[PlaceOf(c.blocks[i]) := data]
  {
    var c', q := Modify(c, i, data), PlaceOf(c.blocks[i]);
    ModifyKeeps(c, i, data);
    HolderView(c, i);
    HolderView(c', i);
    forall u: nat, p ensures HoldsAt(c', u, p) <==> HoldsAt(c, u, p) {}
    OneHolder(c, q);
    forall p | p in c.media && p != q ensures View(c', p) == View(c, p) {
      assert !HoldsAt(c, i, p);
      hide RingsOk, LiveOk, HeldOk, RecencyOk, Live, HoldsAt;
      SameView(c, c', p);
    }
    hide View;
  }
}
