/** The allocator as heap.cpp writes it: headers in memory, changed field by field,
    proved to compute the steps of HeapArena. */
module HeapModule {
  import opened PriorityOrder
  import opened Products
  import opened Rings
  import opened Wrappers
  import opened HeapArena
  import opened HeapInvariant
  import opened HeapSafety
  import opened HeapLinks
  import opened HeapBlocks
  import opened HeapWrites

  const TOP_BIT: nat := 0x8000_0000

  /** block_size: only the top bit is masked out, not the used flag. */
  function BlockSize(mem: Memory, b: nat): nat { HeaderAt(mem, b).sz % TOP_BIT }

  function BlockUsed(mem: Memory, b: nat): bool { HeaderAt(mem, b).sz % 2 == 1 }

  lemma FreeSize(mem: Memory, a: Arena, b: nat)
    requires Physical(mem, a) && Tiled(a) && b in a.order && b !in a.used && a.start + a.limit < TOP_BIT
    ensures BlockSize(mem, b) == SizeOf(a, b) == HeaderAt(mem, b).sz
  {
    hide Tiled;
    Aligned(a, IndexOf(a.order, b));
    InLimit(a);
    assert BlockOk(mem, a, IndexOf(a.order, b));
  }

  lemma InLimit(a: Arena)
    requires Tiled(a)
    ensures Top(a) <= a.start + a.limit
  {}

  lemma FreeLinksKept(mem: Memory, mem': Memory, free: seq<nat>)
    requires FreeLinks(mem, free) && SameLinks(mem, mem')
    ensures FreeLinks(mem', free)
  {}

  /** The free list, as far as walking and relinking it goes. */
  ghost predicate FreeState(mem: Memory, a: Arena, ff: nat, lf: nat)
  {
    && FreeLinks(mem, a.free) && Distinct(a.free)
    && (forall b: nat :: b in a.free ==> b in a.order && b !in a.used)
    && ff == At(a.free, 0) && (a.tailKnown ==> a.free != [])
    && lf == (if a.tailKnown then At(a.free, |a.free| - 1) else NULL)
  }

  /** The physical list. */
  ghost predicate BlockState(mem: Memory, a: Arena, alloc: nat, f: nat, l: nat)
  {
    && Tiled(a) && Physical(mem, a) && a.start + alloc == Top(a)
    && f == At(a.order, 0) && l == At(a.order, |a.order| - 1)
  }

  lemma BlockStateFrame(mem: Memory, mem': Memory, a: Arena, a': Arena, alloc: nat, f: nat, l: nat)
    requires BlockState(mem, a, alloc, f, l) && SameBlocks(mem, mem')
    requires a' == a.(free := a'.free, tailKnown := a'.tailKnown)
    ensures BlockState(mem', a', alloc, f, l)
  {
    PhysicalFrame(mem, mem', a, a');
    TiledFrame(a, a');
    hide Tiled, Physical;
  }

  lemma DetachView(a: Arena, b: nat)
    requires b in a.free
    ensures var a', k := Detached(a, b), IndexOf(a.free, b);
      && a' == a.(free := RemoveAt(a.free, k), tailKnown := a'.tailKnown)
      && a'.tailKnown == (if a.free[|a.free| - 1] == b then |a.free| > 1 else a.tailKnown)
  {}

  lemma LinkAt(mem: Memory, a: Arena, ff: nat, lf: nat, k: nat)
    requires FreeState(mem, a, ff, lf) && k < |a.free|
    ensures LinkIs(HeaderAt(mem, a.free[k]), At(a.free, k + 1), At(a.free, k - 1))
  {}

  lemma DetachState(mem: Memory, a: Arena, ff: nat, lf: nat, b: nat)
    requires FreeState(mem, a, ff, lf) && NonNull(a.free) && b in a.free
    ensures var next, prev := HeaderAt(mem, b).fnext, HeaderAt(mem, b).fprev;
      && FreeState(Unlinked(mem, prev, next), Detached(a, b),
                   if prev != NULL then ff else next, if next != NULL then lf else prev)
      && SameBlocks(mem, Unlinked(mem, prev, next))
  {
    hide HeaderAt, Unlinked, FreeLinks, SameBlocks, At, Distinct, NonNull, Detached;
    var k: nat := IndexOf(a.free, b);
    LinkAt(mem, a, ff, lf, k);
    UnlinkFree(mem, a.free, k);
    DetachKeepsList(a, b);
    DetachView(a, b);
    DetachEnds(a.free, k);
  }

  lemma DetachEnds(free: seq<nat>, k: nat)
    requires k < |free| && Distinct(free) && NonNull(free)
    ensures var r := RemoveAt(free, k);
      && At(r, 0) == (if At(free, k - 1) != NULL then At(free, 0) else At(free, k + 1))
      && At(r, |r| - 1) == (if At(free, k + 1) != NULL then At(free, |free| - 1) else At(free, k - 1))
      && (free[|free| - 1] == free[k] <==> At(free, k + 1) == NULL)
      && (|r| == 0 ==> At(r, |r| - 1) == NULL)
  {}

  /** Putting b at place p of the free list. */
  lemma LinkState(mem: Memory, a: Arena, ff: nat, lf: nat, b: nat, p: nat, mem': Memory)
    requires FreeState(mem, a, ff, lf) && NonNull(a.free) && b != NULL && b in a.order && b !in a.used && b !in a.free
    requires p == (if a.tailKnown then Place(a, a.free, SizeOf(a, b)) else 0)
    requires mem' == Linked(mem, b, At(a.free, p - 1), At(a.free, p))
    ensures p <= |a.free| && SameBlocks(mem, mem')
    ensures FreeState(mem', Freed(a, b), if p == 0 then b else ff, if p > 0 && p == |a.free| then b else lf)
  {
    hide HeaderAt, Linked, FreeLinks, SameBlocks, Place;
    LinkFree(mem, a.free, p, b);
    FreedKeepsList(a, b);
    FreedFields(a, b);
    assert a.used - {b} == a.used;
  }

  lemma {:induction false} PlaceBySize(a: Arena, a': Arena, free: seq<nat>, n: nat)
    requires a'.size == a.size
    ensures Place(a', free, n) == Place(a, free, n)
  {
    if free != [] { PlaceBySize(a, a', free[..|free| - 1], n); }
  }

  lemma ClearedIsFreed(a: Arena, b: nat)
    ensures Freed(a.(used := a.used - {b}), b) == Freed(a, b)
  {
    var a1 := a.(used := a.used - {b});
    PlaceBySize(a, a1, a.free, SizeOf(a, b));
    assert a1.used - {b} == a.used - {b};
  }

  /** The free list after writes that leave its links alone. */
  lemma FreeStateFrame(mem: Memory, mem': Memory, a: Arena, a': Arena, ff: nat, lf: nat)
    requires FreeState(mem, a, ff, lf) && SameLinks(mem, mem') && a'.free == a.free && a'.tailKnown == a.tailKnown
    requires forall b: nat :: b in a.free ==> b in a'.order && b !in a'.used
    ensures FreeState(mem', a', ff, lf)
  {
    FreeLinksKept(mem, mem', a.free);
    hide FreeLinks, Distinct;
  }

  lemma SplitState(mem: Memory, a: Arena, alloc: nat, f: nat, l: nat, b: nat, n: nat)
    requires BlockState(mem, a, alloc, f, l) && a.start > 0 && b in a.order && b !in a.used
    requires RestSize(a, b, n) >= MIN_ALLOC_SIZE && n >= MIN_ALLOC_SIZE
    ensures var right := At(a.order, IndexOf(a.order, b) + 1);
      BlockState(SplitMemory(mem, a, b, n), Split(a, b, n), alloc, f,
                 if right != NULL then l else b + OVERHEAD + RoundUp(n))
    ensures Split(a, b, n).start == a.start && Split(a, b, n).limit == a.limit
  {
    SplitTiles(a, b, n);
    SplitPhysical(mem, a, b, n);
    SplitTop(a, b, n);
    NonNullOrder(a);
    hide Tiled, Physical, Split, SplitMemory, RoundUp, SizeOf, Distinct;
    SplitEnds(a, b, n);
  }

  lemma SplitEnds(a: Arena, b: nat, n: nat)
    requires Tiled(a) && a.start > 0 && b in a.order && RestSize(a, b, n) >= MIN_ALLOC_SIZE
    ensures var o, i := Split(a, b, n).order, IndexOf(a.order, b);
      && At(o, 0) == At(a.order, 0)
      && At(o, |o| - 1) == if At(a.order, i + 1) != NULL then At(a.order, |a.order| - 1) else b + OVERHEAD + RoundUp(n)
  {
    SplitBlocks(a, b, n);
    NonNullOrder(a);
    hide Tiled, RoundUp, SizeOf, Distinct;
  }

  lemma ExtendState(mem: Memory, a: Arena, alloc: nat, f: nat, l: nat, n: nat)
    requires BlockState(mem, a, alloc, f, l) && a.start > 0 && n >= MIN_ALLOC_SIZE && Extended(a, n).Some?
    ensures var a' := Extended(a, n).value;
      && BlockState(ExtendMemory(mem, a, n), a', alloc + RoundUp(n + OVERHEAD), if f == NULL then Top(a) else f, Top(a))
      && a'.start == a.start && a'.limit == a.limit
  {
    ExtendTiles(a, n);
    ExtendPhysical(mem, a, n);
    ExtendFields(a, n);
    NonNullOrder(a);
    hide Tiled, Physical, ExtendMemory, RoundUp, SizeOf, Distinct;
  }

  lemma ExtendFree(mem: Memory, a: Arena, ff: nat, lf: nat, n: nat)
    requires FreeState(mem, a, ff, lf) && Physical(mem, a) && Tiled(a) && a.start > 0
    requires n >= MIN_ALLOC_SIZE && Extended(a, n).Some?
    ensures FreeState(ExtendMemory(mem, a, n), Extended(a, n).value, ff, lf)
  {
    ExtendPhysical(mem, a, n);
    ExtendFields(a, n);
    assert Extended(a, n).value.free == a.free && Extended(a, n).value.tailKnown == a.tailKnown;
    hide Tiled, Physical, ExtendMemory, Extended, FreeLinks, Distinct, At;
    FreeStateFrame(mem, ExtendMemory(mem, a, n), a, Extended(a, n).value, ff, lf);
  }

  lemma TakeState(mem: Memory, a: Arena, alloc: nat, f: nat, l: nat, ff: nat, lf: nat, b: nat)
    requires BlockState(mem, a, alloc, f, l) && FreeState(mem, a, ff, lf) && b in a.order && b !in a.free
    ensures BlockState(SetUsed(mem, b), Taken(a, b), alloc, f, l) && FreeState(SetUsed(mem, b), Taken(a, b), ff, lf)
  {
    SetUsedPhysical(mem, a, b);
    TiledFrame(a, Taken(a, b));
    FreeStateFrame(mem, SetUsed(mem, b), a, Taken(a, b), ff, lf);
    hide Tiled, Physical, SetUsed, FreeLinks, Distinct, FreeState, SizeOf;
  }

  lemma FreeNonNull(a: Arena)
    requires Tiled(a) && a.start > 0 && forall b: nat :: b in a.free ==> b in a.order
    ensures NonNull(a.free)
  {
    NonNullOrder(a);
    forall k | 0 <= k < |a.free| ensures a.free[k] != NULL { assert a.free[k] in a.order; }
  }

  /** The writes that put b first, and those that put it behind prev. */
  lemma LinkFirst(m: Memory, b: nat, next: nat)
    requires LinkIs(HeaderAt(m, b), NULL, NULL) && b != next && b in m
    ensures SetFnext(if next != NULL then SetFprev(m, next, b) else m, b, next) == Linked(m, b, NULL, next)
  {}

  lemma LinkBehind(m: Memory, b: nat, prev: nat, next: nat)
    requires LinkIs(HeaderAt(m, b), NULL, NULL) && b != next && b != prev && prev != next && prev != NULL && b in m
    ensures SetFprev(SetFnext(if next != NULL then SetFnext(SetFprev(m, next, b), b, next) else m, prev, b), b, prev)
      == Linked(m, b, prev, next)
  {}

  lemma MallocIs(a: Arena, n: nat)
    requires WellFormed(a) && n >= MIN_ALLOC_SIZE
    ensures match Fit(a, a.free, n)
      case Some(b) => b in a.free && b in a.order && SizeOf(a, b) >= n &&
        Malloc(a, n) ==
          (if SizeOf(a, b) >= MIN_SPLIT_DELTA + n then Cut(a, b, n) else Taken(Detached(a, b), b), Some(b))
      case None =>
        Malloc(a, n) == match Extended(a, n)
                        case Some(a1) => (Taken(a1, Top(a)), Some(Top(a)))
                        case None => (a, None)
  {
    var fit := Fit(a, a.free, n);
    if fit.Some? { MallocFits(a, n, fit.value); }
    hide Tiled, FreeListOk, Cut, Detached, Extended, SizeOf, Fit;
  }

  lemma MallocRounds(a: Arena, n: nat)
    requires WellFormed(a)
    ensures Malloc(a, n) == Malloc(a, AtLeast(n))
  {}

  lemma HandsIsList(a: Arena, n: nat)
    requires WellFormed(a)
    ensures FreeListOk(Malloc(a, n).0)
  {
    MallocKeeps(a, n);
    hide Malloc, Tiled, FreeListOk;
  }

  lemma FreshIsUnlisted(a: Arena, n: nat)
    requires WellFormed(a) && n >= MIN_ALLOC_SIZE && Extended(a, n).Some?
    ensures var a' := Extended(a, n).value; Top(a) in a'.order && Top(a) !in a'.free
  {
    ExtendTiles(a, n);
    hide Tiled;
  }

  /** Two memories that read alike. */
  ghost predicate SameHeaders(mem: Memory, mem': Memory) { forall b :: HeaderAt(mem', b) == HeaderAt(mem, b) }

  /** What users write into their data, which overlays the free links of used blocks
      and the headers of merged ones, is never read. */
  lemma DataWritesKeep(mem: Memory, mem': Memory, a: Arena, alloc: nat, f: nat, l: nat, ff: nat, lf: nat)
    requires BlockState(mem, a, alloc, f, l) && FreeState(mem, a, ff, lf)
    requires forall b: nat :: b in a.order ==>
      BlockIs(HeaderAt(mem', b), HeaderAt(mem, b).sz, HeaderAt(mem, b).next, HeaderAt(mem, b).prev)
    requires forall b: nat :: b in a.free ==> LinkIs(HeaderAt(mem', b), HeaderAt(mem, b).fnext, HeaderAt(mem, b).fprev)
    ensures BlockState(mem', a, alloc, f, l) && FreeState(mem', a, ff, lf)
  {
    forall k: nat | k < |a.order| ensures BlockOk(mem', a, k) {
      assert BlockOk(mem, a, k) && a.order[k] in a.order;
    }
    FreeLinksFrame(mem, mem', a.free);
  }

  /** A word written by the user of a block in use. */
  lemma PokeKeeps(mem: Memory, a: Arena, alloc: nat, f: nat, l: nat, ff: nat, lf: nat, b: nat, x: nat, v: nat)
    requires BlockState(mem, a, alloc, f, l) && FreeState(mem, a, ff, lf)
    requires x >= 16 && b in a.order && b in a.used && InData(a, b, x)
    ensures BlockState(Poke(mem, x, v), a, alloc, f, l) && FreeState(Poke(mem, x, v), a, ff, lf)
  {
    var mem' := Poke(mem, x, v);
    forall u: nat | u in a.order
      ensures BlockIs(HeaderAt(mem', u), HeaderAt(mem, u).sz, HeaderAt(mem, u).next, HeaderAt(mem, u).prev)
      ensures u in a.free ==> LinkIs(HeaderAt(mem', u), HeaderAt(mem, u).fnext, HeaderAt(mem, u).fprev)
    {
      DataIsApart(a, b, x, u);
      PokeHeaders(mem, x, v, u);
    }
    hide Poke, HeaderAt, Tiled, Physical, FreeLinks;
    DataWritesKeep(mem, mem', a, alloc, f, l, ff, lf);
  }

  lemma StateBySight(mem: Memory, mem': Memory, a: Arena, alloc: nat, f: nat, l: nat, ff: nat, lf: nat)
    requires SameHeaders(mem, mem')
    ensures BlockState(mem, a, alloc, f, l) ==> BlockState(mem', a, alloc, f, l)
    ensures FreeState(mem, a, ff, lf) ==> FreeState(mem', a, ff, lf)
  {
    if BlockState(mem, a, alloc, f, l) {
      forall k: nat | k < |a.order| ensures BlockOk(mem', a, k) { assert BlockOk(mem, a, k); }
    }
  }

  /** What merge leaves: the span of one or two blocks, the first of them off the
      free list if it was on it. */
  function Spanned(a: Arena, i: nat, until: nat): Arena
    requires i + until <= |a.order| && 1 <= until <= 2
  {
    if until == 2 then Merged(a, i + 1)
    else if a.order[i] in a.used then a.(used := a.used - {a.order[i]})
    else Detached(a, a.order[i])
  }

  /** The writes at the end of merge. */
  function SpanWrites(mem: Memory, b: nat, sz: nat, prev: nat, next: nat): Memory
  {
    var m1 := SetNext(SetPrev(mem, b, prev), b, next);
    var m2 := if prev != NULL then SetNext(m1, prev, b) else m1;
    var m3 := if next != NULL then SetPrev(m2, next, b) else m2;
    SetSz(m3, b, sz - sz % 2)
  }

  lemma SpanHeaders(mem: Memory, b: nat, sz: nat, prev: nat, next: nat, u: nat)
    requires b != prev && b != next
    ensures var h, h' := HeaderAt(mem, u), HeaderAt(SpanWrites(mem, b, sz, prev, next), u);
      && LinkIs(h', h.fnext, h.fprev)
      && h'.sz == (if u == b then sz - sz % 2 else h.sz)
      && h'.next == (if u == b then next else if u == prev && u != NULL then b else h.next)
      && h'.prev == (if u == b then prev else if u == next && u != NULL then b else h.prev)
  {}

  /** Spanning one block rewrites what is there, but for the used flag. */
  lemma SpanOne(mem: Memory, a: Arena, i: nat)
    requires Physical(mem, a) && Tiled(a) && a.start > 0 && i < |a.order|
    ensures var b := a.order[i];
      SameHeaders(ClearUsed(mem, b), SpanWrites(mem, b, HeaderAt(mem, b).sz, At(a.order, i - 1), At(a.order, i + 1)))
  {
    var b := a.order[i];
    BlockAt(mem, a, i);
    DistinctAt(a.order, i, i - 1);
    DistinctAt(a.order, i, i + 1);
    if i > 0 { BlockAt(mem, a, i - 1); }
    if i + 1 < |a.order| { BlockAt(mem, a, i + 1); }
    hide Physical, Tiled, SpanWrites, Distinct, NonNull;
    forall u
      ensures HeaderAt(SpanWrites(mem, b, HeaderAt(mem, b).sz, At(a.order, i - 1), At(a.order, i + 1)), u) ==
        HeaderAt(ClearUsed(mem, b), u)
    {
      SpanHeaders(mem, b, HeaderAt(mem, b).sz, At(a.order, i - 1), At(a.order, i + 1), u);
    }
  }

  /** Spanning two blocks writes what a merge is. */
  lemma SpanTwo(mem: Memory, a: Arena, i: nat, sz: nat)
    requires Physical(mem, a) && Tiled(a) && a.start > 0 && i + 1 < |a.order|
    requires sz - sz % 2 == SizeOf(a, a.order[i]) + OVERHEAD + SizeOf(a, a.order[i + 1])
    ensures SameHeaders(MergeMemory(mem, a, i + 1),
                        SpanWrites(mem, a.order[i], sz, At(a.order, i - 1), At(a.order, i + 2)))
  {
    var b := a.order[i];
    BlockAt(mem, a, i);
    DistinctAt(a.order, i, i - 1);
    DistinctAt(a.order, i, i + 2);
    if i > 0 { BlockAt(mem, a, i - 1); }
    assert At(a.order, i - 1) != NULL ==> i > 0;
    assert At(a.order, i - 1) == At(a.order, i + 2) ==> At(a.order, i - 1) == NULL;
    hide Physical, Tiled, SpanWrites, MergeWrites, Distinct, NonNull, SizeOf;
    var m1, m2 := SpanWrites(mem, b, sz, At(a.order, i - 1), At(a.order, i + 2)), MergeMemory(mem, a, i + 1);
    forall u ensures HeaderAt(m1, u) == HeaderAt(m2, u) {
      SpanHeaders(mem, b, sz, At(a.order, i - 1), At(a.order, i + 2), u);
      if u != NULL { MergeHeaders(mem, b, sz - sz % 2, At(a.order, i + 2), u); }
      else { NullUntouched(mem, b, sz - sz % 2, At(a.order, i + 2)); }
    }
  }

  lemma NullUntouched(mem: Memory, left: nat, sz: nat, right: nat)
    requires left != NULL
    ensures HeaderAt(MergeWrites(mem, left, sz, right), NULL) == HeaderAt(mem, NULL)
  {}

  lemma DetachedAlready(a: Arena, b: nat)
    requires b !in a.free
    ensures Detached(a, b) == a
  {
    assert a.free != [] ==> a.free[|a.free| - 1] in a.free;
  }

  /** Merging after the left block is off the free list. */
  lemma MergedAfterDetach(a: Arena, i: nat)
    requires 0 < i < |a.order| && Distinct(a.free) && (a.tailKnown ==> a.free != [])
    ensures Detached(a, a.order[i - 1]).order == a.order
    ensures Merged(Detached(a, a.order[i - 1]), i) == Merged(a, i)
  {
    var left := a.order[i - 1];
    NotListed(a, left);
    DetachedFields(a, left);
    SameSizes(a, Detached(a, left));
    DetachedAlready(Detached(a, left), left);
  }

  lemma MergeEnds(a: Arena, i: nat)
    requires Tiled(a) && a.start > 0 && i + 1 < |a.order|
    ensures var o := Merged(a, i + 1).order;
      && At(o, 0) == At(a.order, 0)
      && At(o, |o| - 1) == if At(a.order, i + 2) != NULL then At(a.order, |a.order| - 1) else a.order[i]
  {
    NonNullOrder(a);
    hide Tiled, Detached, SizeOf, Distinct;
  }

  lemma MergeState(mem: Memory, a: Arena, alloc: nat, f: nat, l: nat, ff: nat, lf: nat, i: nat)
    requires BlockState(mem, a, alloc, f, l) && FreeState(mem, a, ff, lf) && a.start > 0
    requires i + 1 < |a.order| && a.order[i] !in a.used && a.order[i] !in a.free && a.order[i + 1] in a.used
    ensures var mem', a' := MergeMemory(mem, a, i + 1), Merged(a, i + 1);
      && BlockState(mem', a', alloc, f, if At(a.order, i + 2) != NULL then l else a.order[i])
      && FreeState(mem', a', ff, lf) && a'.start == a.start && a'.limit == a.limit
  {
    hide Tiled, Physical, MergeMemory, Merged, Detached, SizeOf, FreeLinks, Distinct;
    MergePhysical(mem, a, i + 1);
    MergeTiles(a, i + 1);
    MergeTop(a, i + 1);
    MergedFields(a, i + 1);
    DetachedAlready(a, a.order[i]);
    MergeEnds(a, i);
    FreeStateFrame(mem, MergeMemory(mem, a, i + 1), a, Merged(a, i + 1), ff, lf);
  }

  lemma ClearState(mem: Memory, a: Arena, alloc: nat, f: nat, l: nat, ff: nat, lf: nat, b: nat)
    requires BlockState(mem, a, alloc, f, l) && FreeState(mem, a, ff, lf) && b in a.order
    ensures var a' := a.(used := a.used - {b});
      BlockState(ClearUsed(mem, b), a', alloc, f, l) && FreeState(ClearUsed(mem, b), a', ff, lf)
  {
    var a' := a.(used := a.used - {b});
    ClearUsedPhysical(mem, a, b);
    TiledFrame(a, a');
    FreeStateFrame(mem, ClearUsed(mem, b), a, a', ff, lf);
    hide Tiled, Physical, ClearUsed, FreeLinks, Distinct, FreeState, SizeOf;
  }

  /** heap_free by what merge does. */
  lemma FreeIs(a: Arena, i: nat)
    requires WellFormed(a) && i < |a.order| && a.order[i] in a.used
    ensures a.order[i] !in a.free
    ensures LeftFree(a, i) ==>
      var left := a.order[i - 1];
      && i > 0 && left == At(a.order, i - 1) && left in a.free && left !in a.used && left in Spanned(a, i - 1, 1).order
      && left !in Spanned(a, i - 1, 1).free && Spanned(a, i - 1, 1) == Detached(a, left)
      && Spanned(a, i - 1, 2) == Merged(a, i) && left in Merged(a, i).order && left !in Merged(a, i).free
    ensures Free(a, i) ==
      if LeftFree(a, i) then
        if RightFree(a, i) then Freed(Merged(a, i), a.order[i - 1])
        else Freed(Detached(a, a.order[i - 1]), a.order[i - 1])
      else Freed(a, a.order[i])
    ensures Spanned(a, i, 1) == a.(used := a.used - {a.order[i]})
    ensures Freed(Spanned(a, i, 1), a.order[i]) == Freed(a, a.order[i])
  {
    ClearedIsFreed(a, a.order[i]);
    if LeftFree(a, i) {
      NotListed(a, a.order[i - 1]);
      DetachedFields(a, a.order[i - 1]);
      MergedFields(a, i);
    }
    hide Tiled, Freed, Detached, Merged, SizeOf, Distinct;
  }

  lemma NotListed(a: Arena, b: nat)
    requires Distinct(a.free) && (a.tailKnown ==> a.free != [])
    ensures b !in Detached(a, b).free
  {
    DetachKeepsList(a, b);
  }

  lemma FreedMembers(a: Arena, b: nat)
    ensures forall u: nat :: u in Freed(a, b).free <==> u in a.free || u == b
  {
    InsertAtMembers(a.free, if a.tailKnown then Place(a, a.free, SizeOf(a, b)) else 0, b);
  }

  class Heap {
    const start: nat
    const size: nat
    var alloc: nat
    var f: nat
    var l: nat
    var ff: nat
    var lf: nat
    var mem: Memory
    ghost var arena: Arena

    ghost predicate FreeRep()
      reads this
    {
      FreeState(mem, arena, ff, lf)
    }

    ghost predicate BlockRep()
      reads this
    {
      && start > 0 && start + size < TOP_BIT && arena.start == start && arena.limit == size
      && BlockState(mem, arena, alloc, f, l)
    }

    ghost predicate Rep()
      reads this
    {
      BlockRep() && FreeRep()
    }

    /** The free list is moreover complete. */
    ghost predicate Valid()
      reads this
    {
      Rep() && FreeListOk(arena)
    }

    /** heap_init */
    constructor (start: nat, size: nat, mem: Memory)
      requires start > 0 && start % 4 == 0 && start + size < TOP_BIT
      ensures Valid() && arena == Init(start, size)
    {
      this.start, this.size, this.mem := start, size, mem;
      alloc, f, l, ff, lf := 0, NULL, NULL, NULL, NULL;
      arena := Init(start, size);
    }

    method FindBlock(n: nat) returns (scout: nat)
      requires Rep()
      ensures Fit(arena, arena.free, n) == if scout == NULL then None else Some(scout)
    {
      scout := ff;
      ghost var k := 0;
      FreeNonNull(arena);
      while scout != NULL
        invariant k <= |arena.free| && scout == At(arena.free, k)
        invariant Fit(arena, arena.free[k..], n) == Fit(arena, arena.free, n)
        decreases |arena.free| - k
      {
        assert arena.free[k] in arena.free && arena.free[k..][0] == scout &&
          arena.free[k..][1..] == arena.free[k + 1..];
        FreeSize(mem, arena, scout);
        if BlockSize(mem, scout) >= n { return; }
        assert LinkIs(HeaderAt(mem, arena.free[k]), At(arena.free, k + 1), At(arena.free, k - 1));
        scout := HeaderAt(mem, scout).fnext;
        k := k + 1;
      }
      assert k == |arena.free|;
    }

    method Detach(b: nat)
      requires Rep() && b in arena.free
      modifies this
      ensures Rep() && arena == Detached(old(arena), b)
    {
      hide Tiled, Physical, Distinct, HeaderAt, FreeState, BlockState;
      ghost var a, m := arena, mem;
      RepNonNull();
      DetachState(mem, a, ff, lf, b);
      DetachedFields(a, b);
      var prev, next := HeaderAt(mem, b).fprev, HeaderAt(mem, b).fnext;
      if prev != NULL { mem := SetFnext(mem, prev, next); } else { ff := next; }
      if next != NULL { mem := SetFprev(mem, next, prev); } else { lf := prev; }
      arena := Detached(arena, b);
      BlockStateFrame(m, mem, a, arena, alloc, f, l);
    }

    /** The walk of mark_as_free back from lf. */
    method ScanBack(b: nat) returns (scout: nat, ghost p: nat)
      requires Rep() && b in arena.order && b !in arena.used
      ensures p == (if arena.tailKnown then Place(arena, arena.free, SizeOf(arena, b)) else 0)
      ensures scout == At(arena.free, p - 1)
    {
      hide BlockState, FreeLinks, Distinct, BlockSize, SizeOf;
      RepNonNull();
      SizeNow(b);
      scout := lf;
      p := if arena.tailKnown then |arena.free| else 0;
      assert arena.free[..|arena.free|] == arena.free;
      while scout != NULL && BlockSize(mem, scout) >= BlockSize(mem, b)
        invariant p <= |arena.free| && scout == At(arena.free, p - 1)
        invariant if arena.tailKnown
                  then Place(arena, arena.free[..p], SizeOf(arena, b)) == Place(arena, arena.free, SizeOf(arena, b))
                  else p == 0
        decreases p
      {
        BackOne(p, b);
        scout := HeaderAt(mem, scout).fprev;
        p := p - 1;
      }
      if p > 0 { BackOne(p, b); }
    }

    lemma BackOne(p: nat, b: nat)
      requires Rep() && 0 < p <= |arena.free|
      ensures var u := arena.free[p - 1];
        && BlockSize(mem, u) == SizeOf(arena, u) && HeaderAt(mem, u).fprev == At(arena.free, p - 2)
        && arena.free[..p][..p - 1] == arena.free[..p - 1]
    {
      assert arena.free[p - 1] in arena.free;
      FreeSize(mem, arena, arena.free[p - 1]);
      LinkAt(mem, arena, ff, lf, p - 1);
    }

    method MarkAsFree(b: nat)
      requires Rep() && b in arena.order && b !in arena.free
      modifies this
      ensures Rep() && arena == Freed(old(arena), b)
    {
      hide BlockState, FreeState, Place;
      ClearedIsFreed(arena, b);
      ClearFree(b);
      hide Freed;
      var scout;
      ghost var p;
      scout, p := ScanBack(b);
      if scout == NULL { LinkInFirst(b, p); } else { LinkInBehind(b, scout, p); }
    }

    /** The first three writes of mark_as_free. */
    method ClearFree(b: nat)
      requires Rep() && b in arena.order && b !in arena.free
      modifies `mem, `arena
      ensures Rep() && arena == old(arena).(used := old(arena).used - {b})
      ensures b in mem && LinkIs(HeaderAt(mem, b), NULL, NULL)
    {
      ghost var a := arena;
      mem := SetFprev(SetFnext(mem, b, NULL), b, NULL);
      assert FreeLinks(mem, a.free) by { FreeLinksFrame(old(mem), mem, a.free); }
      assert Physical(mem, a) by { PhysicalFrame(old(mem), mem, a, a); }
      ghost var m := mem;
      ClearUsedPhysical(mem, a, b);
      mem := ClearUsed(mem, b);
      arena := a.(used := a.used - {b});
      FreeLinksKept(m, mem, a.free);
      TiledFrame(a, arena);
      hide Tiled, Physical, FreeLinks;
    }

    /** The memory after b is linked in at place p. */
    lemma LinkedState(b: nat, p: nat)
      requires Rep() && Unlisted(b, p)
      ensures var m := Linked(mem, b, At(arena.free, p - 1), At(arena.free, p));
        && p <= |arena.free|
        && FreeState(m, Freed(arena, b), if p == 0 then b else ff, if p > 0 && p == |arena.free| then b else lf)
        && BlockState(m, Freed(arena, b), alloc, f, l)
    {
      hide HeaderAt, SizeOf, Distinct;
      RepNonNull();
      var m := Linked(mem, b, At(arena.free, p - 1), At(arena.free, p));
      LinkState(mem, arena, ff, lf, b, p, m);
      FreedFields(arena, b);
      assert arena.used - {b} == arena.used;
      hide Freed, Linked, FreeState, Place, Distinct, FreeLinks, Physical, Tiled;
      BlockStateFrame(mem, m, arena, Freed(arena, b), alloc, f, l);
    }

    lemma LinkedApart(b: nat, p: nat)
      requires Rep() && Unlisted(b, p)
      ensures b != NULL && b != At(arena.free, p) && b != At(arena.free, p - 1)
      ensures At(arena.free, p - 1) == At(arena.free, p) ==> At(arena.free, p) == NULL
      ensures p > 0 <==> At(arena.free, p - 1) != NULL
      ensures p < |arena.free| <==> At(arena.free, p) != NULL
    {
      RepNonNull();
      hide Tiled, Physical, FreeLinks, HeaderAt;
    }

    ghost predicate Unlisted(b: nat, p: nat)
      reads this
    {
      && b in arena.order && b !in arena.free && b !in arena.used && b in mem && LinkIs(HeaderAt(mem, b), NULL, NULL)
      && p == (if arena.tailKnown then Place(arena, arena.free, SizeOf(arena, b)) else 0)
    }

    lemma Neighbours(b: nat, p: nat)
      requires Rep() && Unlisted(b, p)
      ensures p == 0 ==> ff == At(arena.free, p) && At(arena.free, p - 1) == NULL
      ensures p > 0 ==> At(arena.free, p - 1) != NULL && HeaderAt(mem, At(arena.free, p - 1)).fnext == At(arena.free, p)
      ensures Freed(arena, b).start == arena.start && Freed(arena, b).limit == arena.limit
      ensures b in mem && LinkIs(HeaderAt(mem, b), NULL, NULL)
    {
      LinkedApart(b, p);
      if p > 0 { LinkAt(mem, arena, ff, lf, p - 1); }
    }

    method LinkInFirst(b: nat, ghost p: nat)
      requires Rep() && Unlisted(b, p) && At(arena.free, p - 1) == NULL
      modifies this
      ensures Rep() && arena == Freed(old(arena), b)
    {
      hide BlockState, FreeState, Place, Freed, HeaderAt, Linked, At;
      Neighbours(b, p);
      LinkedState(b, p);
      LinkedApart(b, p);
      LinkFirst(mem, b, ff);
      var oldFirst := ff;
      if oldFirst != NULL { mem := SetFprev(mem, oldFirst, b); }
      mem := SetFnext(mem, b, oldFirst);
      ff := b;
      arena := Freed(arena, b);
    }

    method LinkInBehind(b: nat, scout: nat, ghost p: nat)
      requires Rep() && Unlisted(b, p) && scout == At(arena.free, p - 1) != NULL
      modifies this
      ensures Rep() && arena == Freed(old(arena), b)
    {
      hide BlockState, FreeState, Place, Freed, HeaderAt, Linked, At;
      Neighbours(b, p);
      LinkedState(b, p);
      LinkedApart(b, p);
      LinkBehind(mem, b, scout, At(arena.free, p));
      var oldNext := HeaderAt(mem, scout).fnext;
      if oldNext == NULL {
        lf := b;
      } else {
        mem := SetFprev(mem, oldNext, b);
        mem := SetFnext(mem, b, oldNext);
      }
      mem := SetFnext(mem, scout, b);
      mem := SetFprev(mem, b, scout);
      arena := Freed(arena, b);
    }

    /** The writes of split, for a size that is a whole number of words. */
    method WriteSplit(b: nat, m: nat) returns (rest: nat)
      requires HeaderAt(mem, b).sz >= m + OVERHEAD
      modifies `mem, `l
      ensures rest == b + OVERHEAD + m
      ensures var h := old(HeaderAt(mem, b)); mem == SplitWrites(old(mem), b, rest, m, h.sz - m - OVERHEAD, h.next)
      ensures l == if old(HeaderAt(mem, b)).next != NULL then old(l) else rest
    {
      ghost var m0 := mem;
      rest := b + (m + 20 - 8);
      var right := HeaderAt(mem, b).next;
      var restSz := HeaderAt(mem, b).sz - m - 20 + 8;
      mem := mem[rest := HeaderAt(mem, rest).(sz := restSz - restSz % 2, next := right, prev := b)];
      HeaderElsewhere(m0, rest, HeaderAt(m0, rest).(sz := restSz - restSz % 2, next := right, prev := b), b);
      hide HeaderAt;
      mem := mem[b := HeaderAt(mem, b).(sz := m, next := rest)];
      if right != NULL { mem := SetPrev(mem, right, rest); } else { l := rest; }
    }

    /** split */
    method SplitBlock(b: nat, minSize: nat) returns (rest: nat)
      requires Rep() && b in arena.order && b !in arena.used && b !in arena.free
      requires RestSize(arena, b, minSize) >= MIN_ALLOC_SIZE && minSize >= MIN_ALLOC_SIZE
      modifies this
      ensures Rep() && arena == Split(old(arena), b, minSize) && rest == b + OVERHEAD + RoundUp(minSize)
    {
      hide BlockState, FreeState, HeaderAt, SizeOf, At, SplitMemory, Split, SplitWrites;
      RepIs();
      BeforeSplit(b, minSize);
      SplitState(mem, arena, alloc, f, l, b, minSize);
      SplitFree(b, minSize);
      var m := minSize;
      if m % 4 != 0 { m := m + (4 - m % 4); }
      SplitMemoryIs(mem, arena, b, minSize, m, HeaderAt(mem, b).next);
      rest := WriteSplit(b, m);
      arena := Split(arena, b, minSize);
    }

    lemma RepIs()
      requires Rep()
      ensures start > 0 && arena.start == start && BlockState(mem, arena, alloc, f, l) && FreeState(mem, arena, ff, lf)
    {}

    /** heap_sbrk */
    method Sbrk(n: nat) returns (r: nat)
      requires start > 0
      modifies `alloc
      ensures var total := RoundUp(n);
        if old(alloc) + total > size then r == NULL && alloc == old(alloc)
        else r == start + old(alloc) && alloc == old(alloc) + total
    {
      var total := n;
      if total % 4 != 0 { total := total + (4 - total % 4); }
      if alloc + total > size { return NULL; }
      r := start + alloc;
      alloc := alloc + total;
    }

    method ExtendHeap(n: nat) returns (blk: nat)
      requires Rep() && n >= MIN_ALLOC_SIZE
      modifies this
      ensures Rep()
      ensures var a := old(arena);
        if Extended(a, n).Some? then blk == Top(a) && arena == Extended(a, n).value else blk == NULL && arena == a
    {
      hide BlockState, FreeState, HeaderAt, SizeOf, At, ExtendMemory, Tiled, Physical;
      ghost var a := arena;
      RepIs();
      RepTop(n);
      if Extended(a, n).Some? {
        AroundExtend(a, n);
        ExtendState(mem, a, alloc, f, l, n);
        ExtendFree(mem, a, ff, lf, n);
      }
      var total := n + 20 - 8;
      blk := Sbrk(total);
      if blk == NULL { return; }
      AppendBlock(blk, n + ((start + alloc) - blk - total));
      arena := Extended(a, n).value;
    }

    lemma RepTop(n: nat)
      requires Rep()
      ensures Tiled(arena) && Physical(mem, arena) && Top(arena) == start + alloc
      ensures l == At(arena.order, |arena.order| - 1)
      ensures Extended(arena, n).None? <==> alloc + RoundUp(n + OVERHEAD) > size
      ensures ExtendMemory(mem, arena, n) == ExtendWrites(mem, Top(arena), RoundUp(n + OVERHEAD) - OVERHEAD, l)
    {}

    /** The header of a block at the end of the arena. */
    method AppendBlock(blk: nat, sz: nat)
      requires blk != l
      modifies `mem, `f, `l
      ensures mem == ExtendWrites(old(mem), blk, sz, old(l)) && l == blk && f == if old(f) == NULL then blk else old(f)
    {
      mem := mem[blk := HeaderAt(mem, blk).(sz := sz, next := NULL, prev := l)];
      if l != NULL { mem := SetNext(mem, l, blk); }
      if f == NULL { f := blk; }
      l := blk;
    }

    method TakeBlock(b: nat)
      requires Rep() && b in arena.order && b !in arena.free
      modifies `mem, `arena
      ensures Rep() && arena == Taken(old(arena), b)
    {
      hide BlockState, FreeState, SetUsed;
      RepIs();
      TakeState(mem, arena, alloc, f, l, ff, lf, b);
      mem := SetUsed(mem, b);
      arena := Taken(arena, b);
    }

    /** get_block when the free list has a block. */
    method TakeFree(blk: nat, n: nat)
      requires Valid() && blk in arena.free && n >= MIN_ALLOC_SIZE && SizeOf(arena, blk) >= n
      modifies this
      ensures Rep()
      ensures var a := old(arena);
        arena == if SizeOf(a, blk) >= MIN_SPLIT_DELTA + n then Cut(a, blk, n) else Taken(Detached(a, blk), blk)
    {
      hide BlockState, FreeState, Detached, Freed, Split;
      ghost var a := arena;
      FreeIsUnused(blk);
      Detach(blk);
      DetachedFields(a, blk);
      NotListed(a, blk);
      SizeNow(blk);
      SameSizes(a, arena);
      if BlockSize(mem, blk) >= MIN_SPLIT_DELTA + n {
        CutOff(blk, n);
      }
      TakeBlock(blk);
    }

    method CutOff(blk: nat, n: nat)
      requires Rep() && blk in arena.order && blk !in arena.used && blk !in arena.free && n >= MIN_ALLOC_SIZE
      requires SizeOf(arena, blk) >= MIN_SPLIT_DELTA + n
      modifies this
      ensures Rep() && arena == Freed(Split(old(arena), blk, n), blk + OVERHEAD + RoundUp(n))
      ensures blk in arena.order && blk !in arena.free
    {
      hide BlockState, FreeState, Freed, Split, RestSize, SizeOf, RoundUp;
      BeforeCut(blk, n);
      var other := SplitBlock(blk, n);
      FreedFields(arena, other);
      FreedMembers(arena, other);
      MarkAsFree(other);
    }

    lemma BeforeCut(blk: nat, n: nat)
      requires Rep() && blk in arena.order && blk !in arena.free && SizeOf(arena, blk) >= MIN_SPLIT_DELTA + n
      ensures RestSize(arena, blk, n) >= MIN_ALLOC_SIZE && SizeOf(arena, blk) >= RoundUp(n) + OVERHEAD
      ensures var a', other := Split(arena, blk, n), blk + OVERHEAD + RoundUp(n);
        other !in a'.free && other in a'.order && blk != other && blk in a'.order && blk !in a'.free
    {
      SplitFields(arena, blk, n);
    }

    /** get_block */
    method GetBlock(n: nat) returns (blk: nat)
      requires Valid() && n >= MIN_ALLOC_SIZE
      modifies this
      ensures Valid()
      ensures (arena, if blk == NULL then None else Some(blk)) == Malloc(old(arena), n)
    {
      hide BlockState, FreeState, FreeListOk, Fit, Malloc, Extended, SizeOf, Cut, Detached;
      ghost var a := arena;
      RepTop(n);
      FreeIsOrdered();
      MallocKeeps(a, n);
      MallocIs(a, n);
      blk := FindBlock(n);
      if blk == NULL {
        blk := ExtendHeap(n);
        if blk != NULL {
          FreshIsUnlisted(a, n);
          TakeBlock(blk);
        }
      } else {
        TakeFree(blk, n);
      }
      HandsIsList(a, n);
    }

    lemma FreeIsOrdered()
      requires Valid()
      ensures forall b :: b in arena.free ==> b in arena.order
      ensures WellFormed(arena) && NonNull(arena.free)
    {
      FreeNonNull(arena);
    }

    /** heap_malloc: the address of the data, or NULL. */
    method HeapMalloc(n: nat) returns (ptr: nat)
      requires Valid()
      modifies this
      ensures Valid()
      ensures (arena, if ptr == NULL then None else Some(ptr - OVERHEAD)) == Malloc(old(arena), n)
      ensures ptr % 4 == 0 && (ptr != NULL ==> ptr >= OVERHEAD)
    {
      hide BlockState, FreeState, FreeListOk, Malloc;
      FreeIsOrdered();
      MallocRounds(arena, n);
      MallocKeeps(arena, n);
      var blk := GetBlock(if n < MIN_ALLOC_SIZE then MIN_ALLOC_SIZE else n);
      if blk == NULL { return NULL; }
      BlockAligned(blk);
      ptr := blk + OVERHEAD;
    }

    lemma BlockAligned(blk: nat)
      requires Valid() && blk in arena.used
      ensures blk % 4 == 0
    {
      Aligned(arena, IndexOf(arena.order, blk));
    }

    /** What the headers of a block say. */
    lemma HeaderSays(j: nat)
      requires Rep() && j < |arena.order|
      ensures var h, u := HeaderAt(mem, arena.order[j]), arena.order[j];
        && h.sz == SizeOf(arena, u) + Flag(u in arena.used) && h.sz - h.sz % 2 == SizeOf(arena, u)
        && h.next == At(arena.order, j + 1) && h.prev == At(arena.order, j - 1)
        && (BlockUsed(mem, u) <==> u in arena.used) && u in arena.order
    {
      RawSize(mem, arena, j);
      assert BlockOk(mem, arena, j);
    }

    /** The last writes of merge. */
    method Span(leftmost: nat, nsize: nat, prev: nat, right: nat)
      requires nsize >= OVERHEAD
      modifies `mem, `f, `l
      ensures mem == SpanWrites(old(mem), leftmost, nsize - OVERHEAD, prev, right)
      ensures f == (if prev != NULL then old(f) else leftmost) && l == (if right != NULL then old(l) else leftmost)
    {
      mem := SetPrev(mem, leftmost, prev);
      mem := SetNext(mem, leftmost, right);
      if prev != NULL { mem := SetNext(mem, prev, leftmost); } else { f := leftmost; }
      if right != NULL { mem := SetPrev(mem, right, leftmost); } else { l := leftmost; }
      mem := SetSz(mem, leftmost, nsize - 20 + 8);
      mem := ClearUsed(mem, leftmost);
    }

    /** merge, for the one or two blocks it is called with. */
    method Merge(leftmost: nat, until: nat, ghost i: nat)
      requires Rep() && 1 <= until <= 2 && i + until <= |arena.order| && leftmost == arena.order[i]
      requires leftmost in arena.used || leftmost in arena.free
      requires until == 2 ==> leftmost in arena.free && arena.order[i + 1] in arena.used
      modifies this
      ensures Rep() && arena == Spanned(old(arena), i, until)
    {
      hide BlockState, FreeState, SizeOf, Detached, HeaderAt;
      ghost var a := arena;
      HeaderSays(i);
      if leftmost in a.free { FreeIsUnused(leftmost); }
      var leftBound := HeaderAt(mem, leftmost).prev;
      var scout, nsize, k := leftmost, 0, 0;
      while k < until
        invariant k <= until && Rep()
        invariant k == 0 ==> arena == a && scout == leftmost && nsize == 0
        invariant k > 0 ==> arena == (if leftmost in a.used then a else Detached(a, leftmost))
        invariant k > 0 ==> scout == At(a.order, i + k)
        invariant k == 1 ==> nsize == OVERHEAD + SizeOf(a, leftmost) + Flag(leftmost in a.used)
        invariant k == 2 ==> nsize == OVERHEAD + SizeOf(a, leftmost) + OVERHEAD + SizeOf(a, a.order[i + 1]) + 1
      {
        DetachedFields(a, leftmost);
        SameSizes(a, arena);
        HeaderSays(i + k);
        if !BlockUsed(mem, scout) {
          Detach(scout);
          SameSizes(a, arena);
          HeaderSays(i + k);
        }
        nsize := nsize + 20 + HeaderAt(mem, scout).sz - 8;
        scout := HeaderAt(mem, scout).next;
        k := k + 1;
      }
      if until == 1 {
        FinishOne(leftmost, nsize, leftBound, scout, a, i);
      } else {
        FinishTwo(leftmost, nsize, leftBound, scout, a, i);
      }
    }

    method FinishOne(leftmost: nat, nsize: nat, leftBound: nat, right: nat, ghost a: Arena, ghost i: nat)
      requires Rep() && i < |a.order| && leftmost == a.order[i]
      requires arena == if leftmost in a.used then a else Detached(a, leftmost)
      requires leftBound == At(a.order, i - 1) && right == At(a.order, i + 1)
      requires nsize == OVERHEAD + SizeOf(a, leftmost) + Flag(leftmost in a.used)
      modifies this
      ensures Rep() && arena == Spanned(a, i, 1)
    {
      hide BlockState, FreeState, SizeOf, Detached, HeaderAt, Tiled, Physical, SameHeaders, SpanWrites, ClearUsed;
      DetachedFields(a, leftmost);
      SameSizes(a, arena);
      HeaderSays(i);
      RepTop(0);
      RepIs();
      RepEnds(i);
      SpanOne(mem, arena, i);
      ClearState(mem, arena, alloc, f, l, ff, lf, leftmost);
      ghost var m := mem;
      Span(leftmost, nsize, leftBound, right);
      arena := arena.(used := arena.used - {leftmost});
      StateBySight(ClearUsed(m, leftmost), mem, arena, alloc, f, l, ff, lf);
      assert leftmost !in a.used ==> a.used - {leftmost} == a.used;
    }

    lemma RepEnds(i: nat)
      requires Rep() && i < |arena.order|
      ensures At(arena.order, i - 1) == NULL ==> f == arena.order[i]
      ensures At(arena.order, i + 1) == NULL ==> l == arena.order[i]
    {
      RepNonNull();
    }

    method FinishTwo(leftmost: nat, nsize: nat, leftBound: nat, right: nat, ghost a: Arena, ghost i: nat)
      requires Rep() && i + 1 < |a.order| && leftmost == a.order[i] && leftmost !in a.used && a.order[i + 1] in a.used
      requires arena == Detached(a, leftmost) && Distinct(a.free) && (a.tailKnown ==> a.free != [])
      requires leftBound == At(a.order, i - 1) && right == At(a.order, i + 2)
      requires nsize == OVERHEAD + SizeOf(a, leftmost) + OVERHEAD + SizeOf(a, a.order[i + 1]) + 1
      modifies this
      ensures Rep() && arena == Spanned(a, i, 2)
    {
      hide BlockState, FreeState, SizeOf, Detached, HeaderAt, Tiled, Physical;
      hide SameHeaders, SpanWrites, Merged, Distinct, MergeMemory;
      DetachedFields(a, leftmost);
      NotListed(a, leftmost);
      SameSizes(a, arena);
      MergedAfterDetach(a, i + 1);
      RepTop(0);
      RepIs();
      RepEnds(i);
      OddSpan(i);
      SpanTwo(mem, arena, i, nsize - OVERHEAD);
      MergeState(mem, arena, alloc, f, l, ff, lf, i);
      ghost var m := mem;
      Span(leftmost, nsize, leftBound, right);
      StateBySight(MergeMemory(m, arena, i + 1), mem, Merged(arena, i + 1), alloc, f, l, ff, lf);
      arena := Merged(arena, i + 1);
    }

    lemma OddSpan(i: nat)
      requires Rep() && i + 1 < |arena.order|
      ensures var n := SizeOf(arena, arena.order[i]) + OVERHEAD + SizeOf(arena, arena.order[i + 1]);
        (n + 1) - (n + 1) % 2 == n
    {
      var m, n := SizeOf(arena, arena.order[i]), SizeOf(arena, arena.order[i + 1]);
      BlockWords(arena, i);
      BlockWords(arena, i + 1);
      OddSum(m, n);
    }

    /** heap_free */
    method HeapFree(ptr: nat)
      requires Valid() && ptr >= OVERHEAD && ptr - OVERHEAD in arena.used && ptr - OVERHEAD in arena.order
      modifies this
      ensures Valid() && arena == Free(old(arena), IndexOf(old(arena).order, ptr - OVERHEAD))
    {
      hide BlockState, FreeState, FreeListOk, HeaderAt, BlockUsed, Free, LeftFree, RightFree, Freed, Merged, Detached;
      var bk := ptr + 8 - 20;
      ghost var a, i := arena, IndexOf(arena.order, bk);
      FreeIsOrdered();
      FreeReleasesExactlyWhen(a, i);
      FreeIs(a, i);
      HeaderSays(i);
      NeighboursSay(i);
      var left, right := HeaderAt(mem, bk).prev, HeaderAt(mem, bk).next;
      var leftFree := left != NULL && !BlockUsed(mem, left);
      var rightFree := right != NULL && !BlockUsed(mem, right);
      if leftFree && rightFree {
        Merge(left, 2, i - 1);
        bk := left;
      } else if leftFree {
        Merge(left, 1, i - 1);
        bk := left;
      } else if rightFree {
        Merge(bk, 1, i);
      }
      MarkAsFree(bk);
    }

    /** The user of a block changes a word of its data. */
    method WriteWord(ptr: nat, word: nat, value: nat)
      requires Valid() && ptr >= OVERHEAD && ptr - OVERHEAD in arena.used
      requires 4 * word < SizeOf(arena, ptr - OVERHEAD)
      modifies `mem
      ensures Valid() && ptr + 4 * word >= 16 && mem == Poke(old(mem), ptr + 4 * word, value)
    {
      DataWord(ptr - OVERHEAD, word);
      hide BlockState, FreeState, FreeListOk, Poke;
      PokeKeeps(mem, arena, alloc, f, l, ff, lf, ptr - OVERHEAD, ptr + 4 * word, value);
      mem := Poke(mem, ptr + 4 * word, value);
    }

    lemma DataWord(b: nat, word: nat)
      requires Valid() && b in arena.used && 4 * word < SizeOf(arena, b)
      ensures b in arena.order && b + OVERHEAD >= 16 && InData(arena, b, b + OVERHEAD + 4 * word)
    {
      var k := IndexOf(arena.order, b);
      BlockWords(arena, k);
      Aligned(arena, k);
    }

    /** Any run of allocations, frees and writes by the holders: the memory stays
        what the run of HeapSafety says, over which what is held is disjoint. */
    method Perform(calls: seq<Call>, ghost h: HeapSafety.Heap)
      requires Valid() && h.arena == arena && Sound(h) && LegalRun(h, calls)
      modifies this
      ensures Valid() && arena == RunOf(h, calls).arena && Sound(RunOf(h, calls))
    {
      hide BlockState, FreeState, FreeListOk, WellFormed, Malloc, Free;
      ghost var now := h;
      var i := 0;
      while i < |calls|
        invariant 0 <= i <= |calls| && Valid() && now.arena == arena && Sound(now)
        invariant LegalRun(now, calls[i..]) && RunOf(now, calls[i..]) == RunOf(h, calls)
      {
        assert calls[i..][0] == calls[i] && calls[i..][1..] == calls[i + 1..];
        StepKeeps(now, calls[i]);
        match calls[i] {
          case DoMalloc(n) => var _ := HeapMalloc(n);
          case DoFree(b) => HeapFree(b + OVERHEAD);
          case DoWrite(b, word, value) => WriteWord(b + OVERHEAD, word, value);
        }
        now := Do(now, calls[i]);
        i := i + 1;
      }
    }

    lemma NeighboursSay(i: nat)
      requires Valid() && i < |arena.order|
      ensures At(arena.order, i - 1) != NULL && !BlockUsed(mem, At(arena.order, i - 1)) <==> LeftFree(arena, i)
      ensures At(arena.order, i + 1) != NULL && !BlockUsed(mem, At(arena.order, i + 1)) <==> RightFree(arena, i)
    {
      RepNonNull();
      if i > 0 { HeaderSays(i - 1); }
      if i + 1 < |arena.order| { HeaderSays(i + 1); }
    }

    lemma FreeIsUnused(b: nat)
      requires Rep() && b in arena.free
      ensures b in arena.order && b !in arena.used && (arena.tailKnown ==> arena.free != []) && Distinct(arena.free)
    {}

    lemma SizeNow(b: nat)
      requires Rep() && b in arena.order && b !in arena.used
      ensures BlockSize(mem, b) == SizeOf(arena, b)
    {
      FreeSize(mem, arena, b);
    }

    lemma BeforeSplit(b: nat, n: nat)
      requires Rep() && b in arena.order && b !in arena.used && RestSize(arena, b, n) >= MIN_ALLOC_SIZE
      ensures HeaderAt(mem, b).sz == SizeOf(arena, b)
      ensures HeaderAt(mem, b).next == At(arena.order, IndexOf(arena.order, b) + 1)
    {
      FreeSize(mem, arena, b);
      assert BlockOk(mem, arena, IndexOf(arena.order, b));
    }

    lemma SplitFree(b: nat, n: nat)
      requires Rep() && b in arena.order && b !in arena.used && RestSize(arena, b, n) >= MIN_ALLOC_SIZE
      ensures FreeState(SplitMemory(mem, arena, b, n), Split(arena, b, n), ff, lf)
    {
      SplitPhysical(mem, arena, b, n);
      SplitFields(arena, b, n);
      hide Tiled, Physical, Split, SplitMemory, HeaderAt, SizeOf, FreeLinks, Distinct, At;
      FreeStateFrame(mem, SplitMemory(mem, arena, b, n), arena, Split(arena, b, n), ff, lf);
    }

    lemma RepNonNull()
      requires Rep()
      ensures NonNull(arena.free) && NonNull(arena.order)
    {
      FreeNonNull(arena);
      NonNullOrder(arena);
    }
  }

  lemma OddSum(m: nat, n: nat)
    requires m % 4 == 0 && n % 4 == 0
    ensures var k := m + OVERHEAD + n; (k + 1) - (k + 1) % 2 == k
  {
    ModIs(m + OVERHEAD + n + 1, 2, 2 * (m / 4) + 6 + 2 * (n / 4), 1);
  }

  lemma HeaderElsewhere(mem: Memory, b: nat, h: Header, u: nat)
    requires u != b
    ensures HeaderAt(mem[b := h], u) == HeaderAt(mem, u)
  {}

  lemma SplitMemoryIs(mem: Memory, a: Arena, b: nat, n: nat, m: nat, right: nat)
    requires b in a.order && RestSize(a, b, n) >= 0 && m == RoundUp(n) && right == At(a.order, IndexOf(a.order, b) + 1)
    ensures SplitMemory(mem, a, b, n) == SplitWrites(mem, b, b + OVERHEAD + m, m, SizeOf(a, b) - m - OVERHEAD, right)
  {}
}
