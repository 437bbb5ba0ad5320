/** The block cache of disk.cpp as a state. Each call is one atomic step; the
    outcome of a device transfer is a parameter of the step. */
module DiskCache {
  import opened Rings
  import opened Wrappers

  const CACHE_SIZE: nat := 100
  const HASH_TABLE_SIZE: nat := 5059

  type Data = seq<bv8>

  /** A sector of a disk or partition. */
  datatype Place = Place(d: nat, pos: nat)

  /** cache_block; failed is a negative err. */
  datatype Block = Block(d: Option<nat>, pos: nat, refcount: nat, failed: bool, dirty: bool, buf: Data)

  /** What the program does not store: which blocks are held, once per acquire not
      yet released, and when each block was last acquired. */
  datatype History = History(held: multiset<nat>, stamp: seq<int>, clock: int)

  /** The blocks, the LRU ring from the most recent, the hash buckets, and the
      sectors that exist on the devices. Crashed: the program has written through a
      NULL disk, and nothing is known of what follows. */
  datatype Cache = Cache(
    blocks: seq<Block>,
    lru: seq<nat>,
    buckets: seq<seq<nat>>,
    media: map<Place, Data>,
    hist: History,
    crashed: bool)

  predicate Caches(b: Block, p: Place) { b.d == Some(p.d) && b.pos == p.pos }

  // -------------------------------------------------- the calls

  /** The probe of a hash bucket. */
  function Find(blocks: seq<Block>, bucket: seq<nat>, p: Place): (r: Option<nat>)
    ensures r.Some? ==> r.value in bucket && r.value < |blocks| && Caches(blocks[r.value], p)
    ensures r.None? ==> forall i :: i in bucket && i < |blocks| ==> !Caches(blocks[i], p)
  {
    if bucket == [] then None
    else if bucket[0] < |blocks| && Caches(blocks[bucket[0]], p) then Some(bucket[0])
    else Find(blocks, bucket[1..], p)
  }

  /** The probe of the LRU ring from its least recent end. */
  function Victim(blocks: seq<Block>, lru: seq<nat>): (r: Option<nat>)
    ensures r.Some? ==> r.value in lru && r.value < |blocks| && blocks[r.value].refcount == 0
    ensures r.None? ==> forall i :: i in lru && i < |blocks| ==> blocks[i].refcount > 0
  {
    if lru == [] then None
    else
      var last := lru[|lru| - 1];
      if last < |blocks| && blocks[last].refcount == 0 then Some(last) else Victim(blocks, lru[..|lru| - 1])
  }

  function BucketOf(c: Cache, pos: nat): (k: nat)
    requires c.buckets != []
    ensures k < |c.buckets|
  {
    pos % |c.buckets|
  }

  /** Both rings spliced: block i goes to the front of bucket k and of the LRU. */
  function Front(c: Cache, i: nat, k: nat): Cache
    requires i < |c.hist.stamp|
  {
    c.(lru := [i] + Without(c.lru, i),
       buckets := seq(|c.buckets|, j requires 0 <= j < |c.buckets| =>
         if j == k then [i] + Without(c.buckets[j], i) else Without(c.buckets[j], i)),
       hist := History(c.hist.held + multiset{i}, c.hist.stamp[i := c.hist.clock], c.hist.clock + 1))
  }

  datatype Outcome = Acquired(i: nat) | Failed | MustWait | Retries

  function Put(c: Cache, i: nat, b: Block): Cache
    requires i < |c.blocks|
  {
    c.(blocks := c.blocks[i := b])
  }

  predicate Sized(c: Cache) { |c.buckets| > 0 && |c.hist.stamp| == |c.blocks| }

  function Hit(c: Cache, p: Place, i: nat): Cache
    requires Sized(c) && i < |c.blocks|
  {
    Put(Front(c, i, BucketOf(c, p.pos)), i, c.blocks[i].(refcount := c.blocks[i].refcount + 1))
  }

  /** A block is taken over for p; its dirty flag stays as it was. */
  function Miss(c: Cache, p: Place, i: nat, data: Data): Cache
    requires Sized(c) && i < |c.blocks|
  {
    Put(Front(c, i, BucketOf(c, p.pos)), i, Block(Some(p.d), p.pos, 1, false, c.blocks[i].dirty, data))
  }

  /** disk_cache_block_acquire. The read fails outside the partition, or when the
      device does; it then leaves junk in the buffer. */
  function Acquire(c: Cache, p: Place, readOk: bool, junk: Data): (r: (Cache, Outcome))
    requires Sized(c)
  {
    var hit := Find(c.blocks, c.buckets[BucketOf(c, p.pos)], p);
    if hit.Some? then
      if c.blocks[hit.value].failed then (Release(Hit(c, p, hit.value), hit.value, false), Retries)
      else (Hit(c, p, hit.value), Acquired(hit.value))
    else
      var victim := Victim(c.blocks, c.lru);
      if victim.None? then (c, MustWait)
      else if readOk && p in c.media then (Miss(c, p, victim.value, c.media[p]), Acquired(victim.value))
      else
        var c1 := Miss(c, p, victim.value, junk);
        var c2 := Put(c1, victim.value, c1.blocks[victim.value].(failed := true, d := None));
        (Release(c2, victim.value, false), Failed)
  }

  /** flush_block on a block nobody else holds. A block with no disk is written to
      disk NULL. */
  function Flush(c: Cache, i: nat, writeOk: bool): Cache
    requires i < |c.blocks|
  {
    var b := c.blocks[i];
    if !b.dirty then c
    else if b.d.None? then c.(crashed := true)
    else if writeOk && Place(b.d.value, b.pos) in c.media then
      Put(c, i, b.(dirty := false)).(media := c.media[Place(b.d.value, b.pos) := b.buf])
    else c
  }

  /** disk_cache_block_release: the last holder writes the block back, and lets it
      go whether or not that worked. */
  function Release(c: Cache, i: nat, writeOk: bool): Cache
    requires i < |c.blocks|
  {
    var c1 := if c.blocks[i].refcount == 1 then Flush(c, i, writeOk) else c;
    var n := c1.blocks[i].refcount;
    Put(c1, i, c1.blocks[i].(refcount := if n > 0 then n - 1 else 0))
      .(hist := c1.hist.(held := c1.hist.held - multiset{i}))
  }

  /** A holder changes the contents, as the file system does. */
  function Modify(c: Cache, i: nat, data: Data): Cache
    requires i < |c.blocks|
  {
    Put(c, i, c.blocks[i].(buf := data, dirty := true))
  }

  /** setup_disk: block i is i-th from the recent end; what the other fields of
      the blocks hold is left undefined. */
  function SetUp(media: map<Place, Data>, junk: seq<Block>): Cache
    requires |junk| == CACHE_SIZE
  {
    Cache(seq(CACHE_SIZE, i requires 0 <= i < CACHE_SIZE => junk[i].(refcount := 0, dirty := false)),
          seq(CACHE_SIZE, i => i),
          seq(HASH_TABLE_SIZE, k => []),
          media,
          History(multiset{}, seq(CACHE_SIZE, i => -i), 1),
          false)
  }
}
