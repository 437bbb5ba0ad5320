/** What a failed write-back leads to: legal runs from boot that lose the contents of
    a sector, and that write through a NULL disk. */
module DiskCacheLoss {
  import opened Wrappers
  import opened DiskCache
  import opened DiskCacheInvariant
  import opened DiskCacheContents
  import opened DiskCacheRuns

  /** The blocks nobody holds. */
  function Idle(c: Cache): set<nat> { set i: nat | i < |c.blocks| && i !in c.hist.held }

  /** The sectors used below. */
  function Sector(k: nat): Place { Place(0, k) }

  /** Sectors k, .., k + n - 1 exist, and no sector from k on is in the cache. */
  ghost predicate Fresh(c: Cache, k: nat, n: nat)
    requires Sized(c)
  {
    && (forall j: nat :: k <= j < k + n ==> Sector(j) in c.media)
    && (forall i: nat, j: nat :: k <= j ==> !HoldsAt(c, i, Sector(j)))
  }

  lemma {:induction false} RunInParts(c: Cache, a: seq<Call>, b: seq<Call>)
    requires LegalRun(c, a) && LegalRun(RunOf(c, a), b)
    ensures LegalRun(c, a + b) && RunOf(c, a + b) == RunOf(RunOf(c, a), b)
    ensures forall m :: Stored(m, c, a + b) == Stored(Stored(m, c, a), RunOf(c, a), b)
    decreases |a|
  {
    hide Legal, Do;
    if a == [] {
      assert a + b == b;
    } else {
      assert (a + b)[1..] == a[1..] + b;
      RunInParts(Do(c, a[0]), a[1..], b);
    }
  }

  lemma OneCall(c: Cache, a: Call)
    requires Legal(c, a)
    ensures LegalRun(c, [a]) && RunOf(c, [a]) == Do(c, a)
    ensures forall m :: Stored(m, c, [a]) == Noted(m, c, a)
  {
    hide Legal, Do, Noted;
    assert [a][1..] == [];
  }

  // -------------------------------------------------- until the block is reused

  /** An acquire of a sector that is not in the cache, read without error. */
  lemma FreshAcquire(c: Cache, k: nat, n: nat)
    requires Valid(c) && Fresh(c, k, n) && n > 0 && Victim(c.blocks, c.lru).Some?
    ensures var v := Victim(c.blocks, c.lru).value;
      && v < |c.blocks| && Acquire(c, Sector(k), true, []) == (Miss(c, Sector(k), v, c.media[Sector(k)]), Acquired(v))
      && Valid(Acquire(c, Sector(k), true, []).0)
      && Reused(c, Sector(k)) == Some(v)
  {
    FindIsLive(c, Sector(k));
    var hit := Find(c.blocks, c.buckets[BucketOf(c, Sector(k).pos)], Sector(k));
    assert hit.Some? ==> HoldsAt(c, hit.value, Sector(k));
    hide Valid, Acquire, Miss, Live;
    AcquireIs(c, Sector(k), true, []);
    AcquireKeepsExactlyWhen(c, Sector(k), true, []);
  }

  /** It takes over a block nobody held and leaves the others as they were. */
  lemma FreshAcquireTakes(c: Cache, k: nat, n: nat, c': Cache)
    requires Valid(c) && Fresh(c, k, n) && n > 0 && Victim(c.blocks, c.lru).Some?
    requires c' == Acquire(c, Sector(k), true, []).0
    ensures var v := Victim(c.blocks, c.lru).value;
      && Valid(c') && Sized(c') && c'.media == c.media
      && v in Idle(c) && Idle(c') == Idle(c) - {v} && c'.hist.held == c.hist.held + multiset{v}
      && Fresh(c', k + 1, n - 1)
      && (forall i: nat, p :: i != v ==> (HoldsAt(c', i, p) <==> HoldsAt(c, i, p)))
      && |c'.blocks| == |c.blocks| && forall i :: 0 <= i < |c.blocks| && i != v ==> c'.blocks[i] == c.blocks[i]
  {
    FreshAcquire(c, k, n);
    var v := Victim(c.blocks, c.lru).value;
    var b := Block(Some(0), k, 1, false, c.blocks[v].dirty, c.media[Sector(k)]);
    forall i: nat, p ensures HoldsAt(c', i, p) <==> if i == v then Sector(k) == p else HoldsAt(c, i, p) {
      SpliceHolds(c, v, b, c', i, p);
    }
  }

  /** Acquiring one new sector after another makes an idle block the next victim. */
  lemma {:induction false} UntilReused(c: Cache, d: nat, k: nat) returns (calls: seq<Call>)
    requires Valid(c) && d in Idle(c) && Fresh(c, k, |Idle(c)|)
    ensures LegalRun(c, calls)
    ensures var c' := RunOf(c, calls);
      && Valid(c') && c'.media == c.media && Victim(c'.blocks, c'.lru) == Some(d)
      && |c'.blocks| == |c.blocks| && c'.blocks[d] == c.blocks[d]
      && (forall p :: HoldsAt(c', d, p) <==> HoldsAt(c, d, p))
      && exists j: nat :: Fresh(c', j, 1)
    ensures forall m :: Stored(m, c, calls) == m
    decreases |Idle(c)|
  {
    VictimIsLeastRecentlyAcquired(c);
    NotCrashed(c);
    hide Valid, HoldsAt, Acquire, Victim;
    var v := Victim(c.blocks, c.lru).value;
    if v == d {
      calls := [];
      assert Fresh(c, k, 1);
    } else {
      var a := DoAcquire(Sector(k), true, []);
      FreshAcquireTakes(c, k, |Idle(c)|, Do(c, a));
      var rest := UntilReused(Do(c, a), d, k + 1);
      calls := [a] + rest;
      assert calls[1..] == rest;
    }
  }

  // -------------------------------------------------- from boot

  function Numbers(n: nat): (r: set<nat>)
    ensures |r| == n && forall i: nat :: i in r <==> i < n
  {
    if n == 0 then {} else Numbers(n - 1) + {n - 1}
  }

  lemma SetUpFresh(media: map<Place, Data>, junk: seq<Block>)
    requires |junk| == CACHE_SIZE && forall j: nat :: j <= CACHE_SIZE ==> Sector(j) in media
    ensures var c := SetUp(media, junk); Valid(c) && Fresh(c, 0, CACHE_SIZE + 1) && |Idle(c)| == CACHE_SIZE
  {
    hide Valid, Idle, HoldsAt;
    SetUpValid(media, junk);
    AllIdle(SetUp(media, junk));
    SetUpEmpty(media, junk);
  }

  lemma AllIdle(c: Cache)
    requires c.hist.held == multiset{}
    ensures |Idle(c)| == |c.blocks|
  {
    assert Idle(c) == Numbers(|c.blocks|);
  }

  lemma SetUpEmpty(media: map<Place, Data>, junk: seq<Block>)
    requires |junk| == CACHE_SIZE
    ensures var c := SetUp(media, junk); Sized(c) && forall i: nat, p :: !HoldsAt(c, i, p)
  {
  }

  /** After an acquire the holder changes the contents and lets go, and the
      write-back fails. */
  lemma LeftDirty(c: Cache, v: nat, data: Data, n: nat)
    requires Valid(c) && c.hist.held == multiset{v} && HoldsAt(c, v, Sector(0)) && Fresh(c, 1, n)
    ensures var calls := [DoModify(v, data), DoRelease(v, false)];
      && LegalRun(c, calls)
      && var c' := RunOf(c, calls);
         && Valid(c') && c'.media == c.media && c'.hist.held == multiset{} && HoldsAt(c', v, Sector(0))
         && Fresh(c', 1, n)
         && |c'.blocks| == |c.blocks| && c'.blocks[v].dirty && c'.blocks[v].buf == data
         && forall m :: Stored(m, c, calls) == m[Sector(0) := data]
  {
    var c1 := Modify(c, v, data);
    var c2 := Release(c1, v, false);
    ModifyKeeps(c, v, data);
    ReleaseKeeps(c1, v, false);
    forall i: nat, p ensures HoldsAt(c2, i, p) <==> HoldsAt(c, i, p) {}
    hide Valid, HoldsAt, Modify, Release;
    OneCall(c, DoModify(v, data));
    OneCall(c1, DoRelease(v, false));
    RunInParts(c, [DoModify(v, data)], [DoRelease(v, false)]);
    assert [DoModify(v, data)] + [DoRelease(v, false)] == [DoModify(v, data), DoRelease(v, false)];
  }

  /** From boot a sector can be in an idle block that still waits to be written back. */
  lemma DirtyFromBoot(media: map<Place, Data>, junk: seq<Block>, data: Data) returns (calls: seq<Call>, d: nat)
    requires |junk| == CACHE_SIZE && forall j: nat :: j <= CACHE_SIZE ==> Sector(j) in media
    ensures LegalRun(SetUp(media, junk), calls)
    ensures Stored(media, SetUp(media, junk), calls) == media[Sector(0) := data]
    ensures var c := RunOf(SetUp(media, junk), calls);
      && Valid(c) && c.media == media && d in Idle(c) && Fresh(c, 1, |Idle(c)|)
      && HoldsAt(c, d, Sector(0)) && c.blocks[d].dirty && c.blocks[d].buf == data
  {
    var c := SetUp(media, junk);
    SetUpFresh(media, junk);
    VictimIsLeastRecentlyAcquired(c);
    d := Victim(c.blocks, c.lru).value;
    var a, b := DoAcquire(Sector(0), true, []), [DoModify(d, data), DoRelease(d, false)];
    calls := [a] + b;
    var c1 := Do(c, a);
    FirstAcquire(media, junk, c1);
    hide SetUp, Valid, HoldsAt, Acquire, Victim, Do;
    OneCall(c, a);
    LeftDirty(c1, d, data, CACHE_SIZE);
    RunInParts(c, [a], b);
    AllIdle(RunOf(c1, b));
  }

  lemma FirstAcquire(media: map<Place, Data>, junk: seq<Block>, c': Cache)
    requires |junk| == CACHE_SIZE && forall j: nat :: j <= CACHE_SIZE ==> Sector(j) in media
    requires Victim(SetUp(media, junk).blocks, SetUp(media, junk).lru).Some?
    requires c' == Acquire(SetUp(media, junk), Sector(0), true, []).0
    ensures var d := Victim(SetUp(media, junk).blocks, SetUp(media, junk).lru).value;
      && Valid(c') && c'.media == media && |c'.blocks| == CACHE_SIZE && c'.hist.held == multiset{d}
      && HoldsAt(c', d, Sector(0)) && Fresh(c', 1, CACHE_SIZE)
  {
    var c := SetUp(media, junk);
    SetUpFresh(media, junk);
    FreshAcquire(c, 0, CACHE_SIZE + 1);
    FreshAcquireTakes(c, 0, CACHE_SIZE + 1, c');
    HeldIsLive(c', Victim(c.blocks, c.lru).value);
  }

  /** .. and that block can be the next victim. */
  lemma DirtyVictimFromBoot(media: map<Place, Data>, junk: seq<Block>, data: Data)
    returns (calls: seq<Call>, d: nat, j: nat)
    requires |junk| == CACHE_SIZE && forall j: nat :: j <= CACHE_SIZE ==> Sector(j) in media
    ensures LegalRun(SetUp(media, junk), calls)
    ensures Stored(media, SetUp(media, junk), calls) == media[Sector(0) := data]
    ensures var c := RunOf(SetUp(media, junk), calls);
      && Valid(c) && c.media == media && Fresh(c, j, 1) && Victim(c.blocks, c.lru) == Some(d)
      && HoldsAt(c, d, Sector(0)) && c.blocks[d].dirty && c.blocks[d].buf == data
  {
    hide SetUp, Valid, HoldsAt, Victim, Do, Fresh;
    var a, d' := DirtyFromBoot(media, junk, data);
    var c := RunOf(SetUp(media, junk), a);
    var b := UntilReused(c, d', 1);
    RunInParts(SetUp(media, junk), a, b);
    calls, d := a + b, d';
    NotCrashed(RunOf(c, b));
    j :| Fresh(RunOf(c, b), j, 1);
  }

  /** Some legal run from boot loses what its users left in a sector. */
  lemma FailedWriteBackLosesContents(media: map<Place, Data>, junk: seq<Block>, data: Data) returns (calls: seq<Call>)
    requires |junk| == CACHE_SIZE && forall j: nat :: j <= CACHE_SIZE ==> Sector(j) in media
    requires data != media[Sector(0)]
    ensures LegalRun(SetUp(media, junk), calls)
    ensures var c := RunOf(SetUp(media, junk), calls);
      && Valid(c) && Sector(0) in Contents(c) && Contents(c)[Sector(0)] == media[Sector(0)]
      && Sector(0) in Stored(media, SetUp(media, junk), calls)
      && Stored(media, SetUp(media, junk), calls)[Sector(0)] == data
  {
    hide SetUp, Valid, HoldsAt, Victim, Acquire, Contents;
    var before, d, j := DirtyVictimFromBoot(media, junk, data);
    var c, a := RunOf(SetUp(media, junk), before), DoAcquire(Sector(j), true, []);
    NotCrashed(c);
    calls := before + [a];
    ReusedLoses(c, d, j);
    OneCall(c, a);
    RunInParts(SetUp(media, junk), before, [a]);
  }

  lemma ReusedLoses(c: Cache, d: nat, j: nat)
    requires Valid(c) && Fresh(c, j, 1) && Victim(c.blocks, c.lru) == Some(d) && HoldsAt(c, d, Sector(0))
    ensures var c' := Acquire(c, Sector(j), true, []).0;
      Valid(c') && Sector(0) in Contents(c') && Contents(c')[Sector(0)] == c.media[Sector(0)]
  {
    FreshAcquire(c, j, 1);
    HolderView(c, d);
    var c' := Acquire(c, Sector(j), true, []).0;
    assert TakenOver(c, d, Block(Some(0), j, 1, false, c.blocks[d].dirty, c.media[Sector(j)]), c');
    hide Valid, HoldsAt, Victim, Acquire, TakenOver;
    TakeOverView(c, d, Block(Some(0), j, 1, false, c.blocks[d].dirty, c.media[Sector(j)]), c', Sector(0));
    ContentsAt(c', Sector(0));
  }

  /** Some legal run from boot writes through a NULL disk. */
  lemma FailedReadCrashes(media: map<Place, Data>, junk: seq<Block>) returns (calls: seq<Call>)
    requires |junk| == CACHE_SIZE && forall j: nat :: j <= CACHE_SIZE ==> Sector(j) in media
    ensures LegalRun(SetUp(media, junk), calls) && RunOf(SetUp(media, junk), calls).crashed
  {
    hide SetUp, Valid, HoldsAt, Victim, Acquire;
    var before, d, j := DirtyVictimFromBoot(media, junk, []);
    var c, a := RunOf(SetUp(media, junk), before), DoAcquire(Sector(j), false, []);
    NotCrashed(c);
    calls := before + [a];
    FreshAcquire(c, j, 1);
    StepKeepsExactlyWhen(c, a);
    OneCall(c, a);
    RunInParts(SetUp(media, junk), before, [a]);
  }
}
