/** The block cache as disk.cpp writes it, with its probe loops and its splicing in
    place, proved to compute the steps of DiskCache. */
module DiskCacheModule {
  import opened Wrappers
  import opened DiskCache
  import opened DiskCacheInvariant
  import LinkedRings

  /** The header of LRU_deq. */
  datatype Deque = Deque

  function Buckets(rings: map<nat, seq<nat>>): (r: seq<seq<nat>>)
    ensures |r| == HASH_TABLE_SIZE
  {
    seq(HASH_TABLE_SIZE, k requires 0 <= k < HASH_TABLE_SIZE => LinkedRings.RingOf(rings, k))
  }

  /** Block i taken off its ring and put at the front of ring h. */
  function Spliced<H(==)>(rings: map<H, seq<nat>>, i: nat, h: H): map<H, seq<nat>>
  {
    var off := LinkedRings.WithoutAll(rings, i);
    off[h := [i] + LinkedRings.RingOf(off, h)]
  }

  lemma SplicedBuckets(c: Cache, rings: map<nat, seq<nat>>, i: nat, k: nat)
    requires i < |c.hist.stamp| && c.buckets == Buckets(rings) && k < HASH_TABLE_SIZE
    ensures Buckets(Spliced(rings, i, k)) == Front(c, i, k).buckets
  {
    forall j: nat | j < HASH_TABLE_SIZE ensures Buckets(Spliced(rings, i, k))[j] == Front(c, i, k).buckets[j] {
      LinkedRings.WithoutAllAt(rings, i, j);
    }
  }

  lemma SplicedLru(c: Cache, rings: map<Deque, seq<nat>>, i: nat, k: nat)
    requires i < |c.hist.stamp| && c.lru == LinkedRings.RingOf(rings, Deque)
    ensures LinkedRings.RingOf(Spliced(rings, i, Deque), Deque) == Front(c, i, k).lru
  {
    LinkedRings.WithoutAllAt(rings, i, Deque);
  }

  lemma OnNoRing(lru: map<Deque, seq<nat>>, n: nat)
    requires n !in LinkedRings.RingOf(lru, Deque)
    ensures LinkedRings.OnNone(lru, n)
  {
    forall h ensures n !in LinkedRings.RingOf(lru, h) { assert h == Deque; }
  }

  function AtBoot(): History { History(multiset{}, seq(CACHE_SIZE, i => -i), 1) }

  lemma SetUpIs(c: Cache, media: map<Place, Data>, junk: seq<Block>)
    requires |junk| == CACHE_SIZE && c.hist == AtBoot() && c.media == media && !c.crashed
    requires c.blocks == seq(CACHE_SIZE, i requires 0 <= i < CACHE_SIZE => junk[i].(refcount := 0, dirty := false))
    requires c.lru == seq(CACHE_SIZE, i => i) && c.buckets == seq(HASH_TABLE_SIZE, k => [])
    ensures c == SetUp(media, junk)
  {}

  lemma NoBuckets()
    ensures Buckets(map[]) == seq(HASH_TABLE_SIZE, k => [])
  {}

  lemma NoLru()
    ensures LinkedRings.RingOf<Deque>(map[], Deque) == []
  {}

  lemma NoRings(n: nat)
    ensures LinkedRings.OnNone<nat>(map[], n)
  {}

  /** The members of the rings are blocks. */
  lemma LruMembers(c: Cache)
    requires RingsOk(c)
    ensures forall a :: 0 <= a < |c.lru| ==> c.lru[a] < |c.blocks|
  {
    forall a | 0 <= a < |c.lru| ensures c.lru[a] < |c.blocks| { assert c.lru[a] in c.lru; }
  }

  lemma BucketMembers(c: Cache, k: nat)
    requires RingsOk(c) && k < |c.buckets|
    ensures forall a :: 0 <= a < |c.buckets[k]| ==> c.buckets[k][a] < |c.blocks|
  {
    forall a | 0 <= a < |c.buckets[k]| ensures c.buckets[k][a] < |c.blocks| { assert c.buckets[k][a] in c.buckets[k]; }
  }

  /** What filling a block, and dropping it after a failed read, come to. */
  lemma Taken(c: Cache, p: Place, i: nat, k: nat, junk: Data)
    requires Sized(c) && i < |c.blocks| && k == BucketOf(c, p.pos)
    ensures var f, b := Front(c, i, k), Block(Some(p.d), p.pos, 1, true, c.blocks[i].dirty, junk);
      && i < |f.blocks| && f.blocks[i] == c.blocks[i]
      && (p in c.media ==> Put(f, i, b.(failed := false, buf := c.media[p])) == Miss(c, p, i, c.media[p]))
      && |Put(f, i, b).blocks| == |c.blocks| && Put(f, i, b).blocks[i] == b
      && |Miss(c, p, i, junk).blocks| == |c.blocks|
      && Put(Put(f, i, b), i, b.(d := None))
         == Put(Miss(c, p, i, junk), i, Miss(c, p, i, junk).blocks[i].(failed := true, d := None))
  {}

  lemma FlushFields(c: Cache, i: nat, writeOk: bool)
    requires i < |c.blocks|
    ensures var f := Flush(c, i, writeOk);
      && |f.blocks| == |c.blocks| && f.blocks[i].refcount == c.blocks[i].refcount
      && f.hist == c.hist && f.lru == c.lru && f.buckets == c.buckets
  {}

  lemma FindBehind(blocks: seq<Block>, bucket: seq<nat>, a: nat, p: Place)
    requires a < |bucket| && bucket[a] < |blocks|
    ensures Find(blocks, bucket[a..], p) ==
      if Caches(blocks[bucket[a]], p) then Some(bucket[a]) else Find(blocks, bucket[a + 1..], p)
  {
    assert bucket[a..][1..] == bucket[a + 1..];
  }

  lemma VictimBefore(blocks: seq<Block>, lru: seq<nat>, n: nat)
    requires 0 < n <= |lru| && lru[n - 1] < |blocks|
    ensures Victim(blocks, lru[..n]) ==
      if blocks[lru[n - 1]].refcount == 0 then Some(lru[n - 1]) else Victim(blocks, lru[..n - 1])
  {
    assert lru[..n][..n - 1] == lru[..n - 1];
  }

  class DiskModule {
    const blocks: array<Block>
    const lru: LinkedRings.RingTable<Deque>     // LRU_deq
    const table: LinkedRings.RingTable<nat>     // cache_block_hash_table
    var media: map<Place, Data>                 // the devices
    var crashed: bool
    ghost var hist: History

    /** The rings as the sequences that their links hold. */
    ghost function Snapshot(): Cache
      reads this, blocks, lru`rings, table`rings
    {
      Cache(blocks[..], lru.Ring(Deque), Buckets(table.rings), media, hist, crashed)
    }

    /** The links hold the rings, and every block is on a ring or linked to itself. */
    ghost predicate Linked()
      reads this, blocks, lru, table
    {
      && lru.Valid() && table.Valid()
      && forall i: nat :: i < blocks.Length ==> lru.Settled(i) && table.Settled(i)
    }

    /** setup_disk */
    constructor (media: map<Place, Data>, junk: seq<Block>)
      requires |junk| == CACHE_SIZE
      ensures fresh(blocks) && fresh(lru) && fresh(table) && Linked() && Snapshot() == SetUp(media, junk)
    {
      hide SetUp, Buckets, LinkedRings.Holds, LinkedRings.OnNone, LinkedRings.Alone, LinkedRings.RingOf;
      blocks := new Block[CACHE_SIZE](i requires 0 <= i < |junk| => junk[i]);
      lru := new LinkedRings.RingTable<Deque>();
      table := new LinkedRings.RingTable<nat>();
      this.media, crashed := media, false;
      hist := AtBoot();
      new;
      NoBuckets();
      NoLru();
      AddBlocks(junk);
      SetUpIs(Snapshot(), media, junk);
    }

    /** The loop that makes the blocks. */
    method AddBlocks(junk: seq<Block>)
      requires Linked() && lru.Ring(Deque) == [] && table.rings == map[]
      requires |junk| == blocks.Length == CACHE_SIZE && blocks[..] == junk
      modifies blocks, lru, table
      ensures Linked() && table.rings == map[]
      ensures lru.Ring(Deque) == seq(CACHE_SIZE, i => i)
      ensures blocks[..] == seq(CACHE_SIZE, i requires 0 <= i < CACHE_SIZE => junk[i].(refcount := 0, dirty := false))
    {
      hide LinkedRings.Holds, LinkedRings.OnNone, LinkedRings.Alone, LinkedRings.RingOf;
      var i := 0;
      while i < CACHE_SIZE
        invariant 0 <= i <= CACHE_SIZE && Linked() && table.rings == map[]
        invariant lru.Ring(Deque) == seq(i, k => k)
        invariant forall k :: 0 <= k < CACHE_SIZE ==>
          blocks[k] == if k < i then junk[k].(refcount := 0, dirty := false) else junk[k]
      {
        AddBlock(i);
        i := i + 1;
      }
    }

    method AddBlock(i: nat)
      requires Linked() && i < blocks.Length && i !in lru.Ring(Deque) && table.rings == map[]
      modifies blocks, lru, table
      ensures Linked() && lru.Ring(Deque) == old(lru.Ring(Deque)) + [i] && table.rings == map[]
      ensures blocks[..] == old(blocks[..])[i := old(blocks[i]).(refcount := 0, dirty := false)]
    {
      OnNoRing(lru.rings, i);
      NoRings(i);
      hide LinkedRings.Holds, LinkedRings.OnNone, LinkedRings.Alone;
      lru.PushBack(i, Deque);
      table.Detach(i);
      blocks[i] := blocks[i].(dirty := false);
      blocks[i] := blocks[i].(refcount := 0);
    }

    /** The walk along a hash bucket. */
    method Probe(k: nat, p: Place) returns (r: Option<nat>)
      requires Linked() && RingsOk(Snapshot()) && k < HASH_TABLE_SIZE
      ensures r == Find(blocks[..], Snapshot().buckets[k], p)
    {
      hide RingsOk, Find, LinkedRings.Holds, LinkedRings.Linked;
      BucketMembers(Snapshot(), k);
      ghost var ring, a := table.Ring(k), 0;
      assert ring == Snapshot().buckets[k] && ring[0..] == ring;
      LinkedRings.HeldRing(table.Table(), table.rings, k);
      LinkedRings.StepOn(table.Table(), k, ring, -1);
      var head := LinkedRings.Head(k);
      var probe := if head in table.next then table.next[head] else head;
      while probe != head
        invariant 0 <= a <= |ring| && probe == LinkedRings.Place(k, ring, a)
        invariant Find(blocks[..], ring[a..], p) == Find(blocks[..], ring, p)
        decreases |ring| - a
      {
        FindBehind(blocks[..], ring, a, p);
        if Caches(blocks[probe.n], p) { return Some(probe.n); }
        LinkedRings.StepOn(table.Table(), k, ring, a);
        probe, a := if probe in table.next then table.next[probe] else probe, a + 1;
      }
      r := None;
    }

    /** The walk back along the LRU ring. */
    method ProbeLru() returns (r: Option<nat>)
      requires Linked() && RingsOk(Snapshot())
      ensures r == Victim(blocks[..], lru.Ring(Deque))
    {
      hide RingsOk, Victim, Buckets, LinkedRings.Holds, LinkedRings.Linked;
      LruMembers(Snapshot());
      ghost var ring := lru.Ring(Deque);
      ghost var n: nat := |ring|;
      assert ring[..n] == ring;
      LinkedRings.HeldRing(lru.Table(), lru.rings, Deque);
      LinkedRings.StepBack(lru.Table(), Deque, ring, n);
      var head := LinkedRings.Head(Deque);
      var probe := if head in lru.prev then lru.prev[head] else head;
      while probe != head
        invariant n <= |ring| && probe == LinkedRings.Place(Deque, ring, n - 1)
        invariant Victim(blocks[..], ring[..n]) == Victim(blocks[..], ring)
        decreases n
      {
        VictimBefore(blocks[..], ring, n);
        if blocks[probe.n].refcount == 0 { return Some(probe.n); }
        LinkedRings.StepBack(lru.Table(), Deque, ring, n - 1);
        probe, n := if probe in lru.prev then lru.prev[probe] else probe, n - 1;
      }
      r := None;
    }

    /** The two splices at the head of both branches of an acquire. */
    method MoveToFront(i: nat, k: nat)
      requires Linked() && Sized(Snapshot()) && i < blocks.Length && k < HASH_TABLE_SIZE
      modifies `hist, lru, table
      ensures Linked() && Snapshot() == Front(old(Snapshot()), i, k)
    {
      hide Front, Spliced, Buckets, LinkedRings.Holds, LinkedRings.OnNone, LinkedRings.Alone, LinkedRings.RingOf;
      ghost var c := Snapshot();
      SplicedBuckets(c, table.rings, i, k);
      SplicedLru(c, lru.rings, i, k);
      FrontFields(c, i, k);
      SpliceBuckets(i, k);
      SpliceLru(i);
      hist := History(hist.held + multiset{i}, hist.stamp[i := hist.clock], hist.clock + 1);
    }

    method SpliceBuckets(i: nat, k: nat)
      requires table.Valid() && table.Settled(i)
      modifies table
      ensures table.Valid() && table.rings == Spliced(old(table.rings), i, k)
      ensures forall u :: old(table.Settled(u)) ==> table.Settled(u)
    {
      hide LinkedRings.Holds, LinkedRings.OnNone, LinkedRings.Alone, LinkedRings.WithoutAll;
      table.Remove(i);
      table.PushFront(i, k);
    }

    method SpliceLru(i: nat)
      requires lru.Valid() && lru.Settled(i)
      modifies lru
      ensures lru.Valid() && lru.rings == Spliced(old(lru.rings), i, Deque)
      ensures forall u :: old(lru.Settled(u)) ==> lru.Settled(u)
    {
      hide LinkedRings.Holds, LinkedRings.OnNone, LinkedRings.Alone, LinkedRings.WithoutAll;
      lru.Remove(i);
      lru.PushFront(i, Deque);
    }

    method FlushBlock(i: nat, writeOk: bool)
      requires i < blocks.Length
      modifies `media, `crashed, blocks
      ensures Snapshot() == Flush(old(Snapshot()), i, writeOk)
    {
      var b := blocks[i];
      if !b.dirty { return; }
      if b.d.None? { crashed := true; return; }
      if writeOk && Place(b.d.value, b.pos) in media {
        media := media[Place(b.d.value, b.pos) := b.buf];
        blocks[i] := b.(dirty := false);
      }
    }

    /** disk_cache_block_release */
    method ReleaseBlock(i: nat, writeOk: bool)
      requires i < blocks.Length && blocks[i].refcount > 0
      modifies `media, `crashed, `hist, blocks
      ensures Snapshot() == Release(old(Snapshot()), i, writeOk)
    {
      FlushFields(Snapshot(), i, writeOk);
      hide Flush;
      if blocks[i].refcount == 1 { FlushBlock(i, writeOk); }
      blocks[i] := blocks[i].(refcount := blocks[i].refcount - 1);
      hist := hist.(held := hist.held - multiset{i});
    }

    /** disk_cache_block_acquire, up to the point where it would wait. */
    method AcquireBlock(p: Place, readOk: bool, junk: Data) returns (r: Outcome)
      requires Linked() && Valid(Snapshot())
      modifies this, blocks, lru, table
      ensures (Snapshot(), r) == Acquire(old(Snapshot()), p, readOk, junk)
      ensures Linked() && !r.Retries?
      ensures crashed <==> old(WritesToNull(Snapshot(), p, readOk))
      ensures !crashed ==> Valid(Snapshot())
    {
      ghost var c := Snapshot();
      hide LiveOk, HeldOk, RecencyOk, Live, Front, Release, WritesToNull;
      AcquireKeepsExactlyWhen(c, p, readOk, junk);
      var k := p.pos % HASH_TABLE_SIZE;
      var hit := Probe(k, p);
      if hit.Some? {
        r := TakeHit(hit.value, p, k);
        return;
      }
      var victim := ProbeLru();
      if victim.None? { return MustWait; }
      r := TakeOver(victim.value, p, k, readOk, junk);
    }

    method TakeHit(i: nat, p: Place, k: nat) returns (r: Outcome)
      requires Linked() && Sized(Snapshot()) && i < blocks.Length && k == BucketOf(Snapshot(), p.pos)
      modifies this, blocks, lru, table
      ensures Linked()
      ensures (Snapshot(), r) ==
        if old(blocks[i].failed) then (Release(Hit(old(Snapshot()), p, i), i, false), Retries)
        else (Hit(old(Snapshot()), p, i), Acquired(i))
    {
      hide Front, Release, BucketOf, Buckets;
      hide LinkedRings.Holds, LinkedRings.OnNone, LinkedRings.Alone, LinkedRings.RingOf;
      FrontFields(Snapshot(), i, k);
      MoveToFront(i, k);
      blocks[i] := blocks[i].(refcount := blocks[i].refcount + 1);
      if blocks[i].failed {
        ReleaseBlock(i, false);
        return Retries;
      }
      return Acquired(i);
    }

    /** Block i is given to p and read. */
    method FillBlock(i: nat, p: Place, readOk: bool, junk: Data) returns (ok: bool)
      requires i < blocks.Length
      modifies blocks
      ensures var c := old(Snapshot());
        ok == (readOk && p in c.media) &&
        Snapshot() == Put(c, i, Block(Some(p.d), p.pos, 1, !ok, c.blocks[i].dirty, if ok then c.media[p] else junk))
    {
      ok := readOk && p in media;
      blocks[i] := blocks[i].(refcount := 1, d := Some(p.d), pos := p.pos);
      blocks[i] := blocks[i].(buf := if ok then media[p] else junk, failed := !ok);
    }

    /** After a failed read the block is given up. */
    method DropBlock(i: nat)
      requires i < blocks.Length && blocks[i].refcount > 0
      modifies `media, `crashed, `hist, blocks
      ensures var c := old(Snapshot()); Snapshot() == Release(Put(c, i, c.blocks[i].(d := None)), i, false)
    {
      hide Release;
      blocks[i] := blocks[i].(d := None);
      ReleaseBlock(i, false);
    }

    method TakeOver(i: nat, p: Place, k: nat, readOk: bool, junk: Data) returns (r: Outcome)
      requires Linked() && Sized(Snapshot()) && i < blocks.Length && k == BucketOf(Snapshot(), p.pos)
      modifies this, blocks, lru, table
      ensures Linked()
      ensures var c := old(Snapshot());
        (Snapshot(), r) ==
        if readOk && p in c.media then (Miss(c, p, i, c.media[p]), Acquired(i))
        else
          var c1 := Miss(c, p, i, junk);
          (Release(Put(c1, i, c1.blocks[i].(failed := true, d := None)), i, false), Failed)
    {
      hide Front, Release, Miss, Put, BucketOf, Buckets;
      hide LinkedRings.Holds, LinkedRings.OnNone, LinkedRings.Alone, LinkedRings.RingOf;
      FrontFields(Snapshot(), i, k);
      Taken(Snapshot(), p, i, k, junk);
      MoveToFront(i, k);
      var ok := FillBlock(i, p, readOk, junk);
      if ok { return Acquired(i); }
      DropBlock(i);
      return Failed;
    }

    /** A holder changes the buffer and marks it. */
    method ModifyBlock(i: nat, data: Data)
      requires i < blocks.Length
      modifies blocks
      ensures Snapshot() == Modify(old(Snapshot()), i, data)
    {
      blocks[i] := blocks[i].(buf := data, dirty := true);
    }
  }
}
