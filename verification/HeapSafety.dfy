/** What is handed out by the allocator, over every run. */
module HeapSafety {
  import opened PriorityOrder
  import opened Rings
  import opened Wrappers
  import opened HeapArena
  import opened HeapInvariant

  // -------------------------------------------------- malloc and free keep it

  lemma WholeKeeps(a: Arena, b: nat)
    requires WellFormed(a) && b in a.free
    ensures WellFormed(Taken(Detached(a, b), b))
  {
    DetachKeepsList(a, b);
    TiledFrame(a, Taken(Detached(a, b), b));
    hide Tiled, Detached;
    DetachedFields(a, b);
  }

  lemma DetachedFields(a: Arena, b: nat)
    ensures Detached(a, b) == a.(free := Detached(a, b).free, tailKnown := Detached(a, b).tailKnown)
  {}

  lemma FreedFields(a: Arena, b: nat)
    ensures Freed(a, b) == a.(free := Freed(a, b).free, used := a.used - {b})
  {}

  lemma SplitFields(a: Arena, b: nat, n: nat)
    requires Tiled(a) && b in a.order && SizeOf(a, b) >= RoundUp(n) + OVERHEAD + MIN_ALLOC_SIZE
    ensures var a', rest := Split(a, b, n), b + OVERHEAD + RoundUp(n);
      && a'.free == a.free && a'.tailKnown == a.tailKnown && a'.used == a.used - {rest}
      && (forall u :: u in a'.order <==> u in a.order || u == rest) && rest !in a.order
      && SizeOf(a', b) == RoundUp(n) && (forall u :: u in a.order && u != b ==> SizeOf(a', u) == SizeOf(a, u))
  {
    SplitBlocks(a, b, n);
    InsertAtMembers(a.order, IndexOf(a.order, b) + 1, b + OVERHEAD + RoundUp(n));
  }

  /** The arena when the found block is cut in two. */
  function Cut(a: Arena, b: nat, n: nat): Arena
    requires b in a.order && SizeOf(a, b) >= RoundUp(n) + OVERHEAD
  {
    Taken(Freed(Split(Detached(a, b), b, n), b + OVERHEAD + RoundUp(n)), b)
  }

  lemma CutTiles(a: Arena, b: nat, n: nat)
    requires Tiled(a) && b in a.order && SizeOf(a, b) >= RoundUp(n) + OVERHEAD + MIN_ALLOC_SIZE && n >= MIN_ALLOC_SIZE
    ensures Tiled(Cut(a, b, n))
  {
    hide Tiled, Detached, Freed, Split, RoundUp;
    DetachedFields(a, b);
    TiledFrame(a, Detached(a, b));
    SplitTiles(Detached(a, b), b, n);
    FreedFields(Split(Detached(a, b), b, n), b + OVERHEAD + RoundUp(n));
    TiledFrame(Split(Detached(a, b), b, n), Cut(a, b, n));
  }

  lemma CutList(a: Arena, b: nat, n: nat)
    requires WellFormed(a) && b in a.free && SizeOf(a, b) >= RoundUp(n) + OVERHEAD + MIN_ALLOC_SIZE
    ensures var a', rest := Cut(a, b, n), b + OVERHEAD + RoundUp(n);
      && Distinct(a'.free) && a'.free != [] && rest !in a.order
      && (forall u: nat :: u in a'.free <==> (u in a.free && u != b) || u == rest)
  {
    hide Tiled, Detached, Freed, Split, RoundUp, Distinct;
    var a1, rest := Detached(a, b), b + OVERHEAD + RoundUp(n);
    DetachedFields(a, b);
    DetachKeepsList(a, b);
    TiledFrame(a, a1);
    SplitFields(a1, b, n);
    FreedKeepsList(Split(a1, b, n), rest);
  }

  lemma CutBlocks(a: Arena, b: nat, n: nat)
    requires WellFormed(a) && b in a.free && SizeOf(a, b) >= RoundUp(n) + OVERHEAD + MIN_ALLOC_SIZE
    ensures var a', rest := Cut(a, b, n), b + OVERHEAD + RoundUp(n);
      && a'.used == a.used - {rest} + {b} && SizeOf(a', b) == RoundUp(n)
      && (forall u: nat :: u in a'.order <==> u in a.order || u == rest)
      && (forall u: nat :: u in a.order && u != b ==> SizeOf(a', u) == SizeOf(a, u))
  {
    hide Tiled, Detached, Freed, Split, RoundUp, Distinct;
    var a1, rest := Detached(a, b), b + OVERHEAD + RoundUp(n);
    DetachedFields(a, b);
    TiledFrame(a, a1);
    SplitFields(a1, b, n);
    FreedFields(Split(a1, b, n), rest);
  }

  /** From a to a' block b is handed out with at least n bytes, and the blocks in
      use stay as they are. */
  ghost predicate Hands(a: Arena, a': Arena, b: nat, n: nat)
  {
    && WellFormed(a') && b !in a.used && a'.used == a.used + {b} && SizeOf(a', b) >= n
    && (forall u :: u in a.used ==> SizeOf(a', u) == SizeOf(a, u))
  }

  lemma CutHands(a: Arena, b: nat, n: nat)
    requires WellFormed(a) && b in a.free
    requires SizeOf(a, b) >= RoundUp(n) + OVERHEAD + MIN_ALLOC_SIZE && n >= MIN_ALLOC_SIZE
    ensures Hands(a, Cut(a, b, n), b, n)
  {
    hide Tiled, Cut, Distinct, SizeOf, RoundUp;
    CutTiles(a, b, n);
    CutList(a, b, n);
    CutBlocks(a, b, n);
  }

  lemma WholeHands(a: Arena, b: nat, n: nat)
    requires WellFormed(a) && b in a.free && SizeOf(a, b) >= n
    ensures Hands(a, Taken(Detached(a, b), b), b, n)
  {
    hide Tiled, Detached, Distinct;
    WholeKeeps(a, b);
    DetachedFields(a, b);
  }

  lemma ExtendHands(a: Arena, n: nat)
    requires WellFormed(a) && n >= MIN_ALLOC_SIZE && Extended(a, n).Some?
    ensures Hands(a, Taken(Extended(a, n).value, Top(a)), Top(a), n)
  {
    ExtendTiles(a, n);
    TiledFrame(Extended(a, n).value, Taken(Extended(a, n).value, Top(a)));
    hide Tiled;
  }

  function AtLeast(n: nat): nat { if n < MIN_ALLOC_SIZE then MIN_ALLOC_SIZE else n }

  lemma MallocFits(a: Arena, n: nat, b: nat)
    requires WellFormed(a) && Fit(a, a.free, AtLeast(n)) == Some(b)
    ensures b in a.free && SizeOf(a, b) >= AtLeast(n) && b in a.order
    ensures SizeOf(a, b) >= MIN_SPLIT_DELTA + AtLeast(n) ==> Malloc(a, n) == (Cut(a, b, AtLeast(n)), Some(b))
    ensures SizeOf(a, b) < MIN_SPLIT_DELTA + AtLeast(n) ==> Malloc(a, n) == (Taken(Detached(a, b), b), Some(b))
  {
    hide Tiled, Taken, Detached, Freed, Split, SizeOf, RoundUp, Distinct;
  }

  lemma FitHands(a: Arena, n: nat, b: nat)
    requires WellFormed(a) && Fit(a, a.free, AtLeast(n)) == Some(b)
    ensures Malloc(a, n).1 == Some(b) && Hands(a, Malloc(a, n).0, b, AtLeast(n))
  {
    hide WellFormed, Hands, Malloc, Taken, Detached, SizeOf, Cut;
    MallocFits(a, n, b);
    if SizeOf(a, b) >= MIN_SPLIT_DELTA + AtLeast(n) {
      CutHands(a, b, AtLeast(n));
    } else {
      WholeHands(a, b, AtLeast(n));
    }
  }

  lemma NoFitHands(a: Arena, n: nat)
    requires WellFormed(a) && Fit(a, a.free, AtLeast(n)).None?
    ensures var (a', r) := Malloc(a, n); if r.Some? then Hands(a, a', r.value, AtLeast(n)) else a' == a
  {
    if Extended(a, AtLeast(n)).Some? { ExtendHands(a, AtLeast(n)); }
    hide Hands, Taken, Extended, SizeOf, Distinct, Tiled;
  }

  /** A successful allocation hands out one block that was not in use, large
      enough, and touches no block in use; a failed one changes nothing. */
  lemma MallocKeeps(a: Arena, n: nat)
    requires WellFormed(a)
    ensures var (a', r) := Malloc(a, n);
      if r.Some? then Hands(a, a', r.value, n) else a' == a
  {
    hide Malloc, WellFormed, Fit;
    if Fit(a, a.free, AtLeast(n)).Some? { FitHands(a, n, Fit(a, a.free, AtLeast(n)).value); } else { NoFitHands(a, n); }
  }

  /** From a to a' the blocks in use other than b stay as they are; b itself does
      too, or is free. */
  ghost predicate Returns(a: Arena, a': Arena, b: nat, kept: bool)
  {
    && WellFormed(a') && a'.used == (if kept then a.used else a.used - {b})
    && (forall u :: u in a.used && u != b ==> SizeOf(a', u) == SizeOf(a, u))
    && (kept ==> SizeOf(a', b) == SizeOf(a, b))
  }

  lemma PlainFree(a: Arena, b: nat)
    requires WellFormed(a) && b in a.used
    ensures Returns(a, Freed(a, b), b, false)
  {
    hide Tiled, Freed, Distinct;
    FreedFields(a, b);
    FreedKeepsList(a, b);
    TiledFrame(a, Freed(a, b));
  }

  lemma RelinkedFree(a: Arena, b: nat, left: nat)
    requires WellFormed(a) && left in a.free
    ensures Returns(a, Freed(Detached(a, left), left), b, true)
  {
    hide Tiled, Freed, Detached, Distinct;
    var a1 := Detached(a, left);
    DetachedFields(a, left);
    DetachKeepsList(a, left);
    FreedFields(a1, left);
    FreedKeepsList(a1, left);
    TiledFrame(a, Freed(a1, left));
  }

  lemma MergedFields(a: Arena, i: nat)
    requires Tiled(a) && 0 < i < |a.order|
    ensures var a', left, b := Merged(a, i), a.order[i - 1], a.order[i];
      && a'.free == Detached(a, left).free && a'.tailKnown == Detached(a, left).tailKnown && a'.used == a.used - {b}
      && (forall u: nat :: u in a'.order <==> u in a.order && u != b) && left != b
      && (forall u: nat :: u in a.order && u != left ==> SizeOf(a', u) == SizeOf(a, u))
  {
    MergeBlocks(a, i);
    TiledIsDistinct(a);
    hide Tiled, SizeOf;
    var r := RemoveAt(a.order, i);
    forall u: nat ensures u in r <==> u in a.order && u != a.order[i] {
      if u in a.order && u != a.order[i] {
        var k := IndexOf(a.order, u);
        assert r[if k < i then k else k - 1] == u;
      }
    }
  }

  lemma MergedFree(a: Arena, i: nat)
    requires WellFormed(a) && 0 < i < |a.order| && a.order[i] in a.used && a.order[i - 1] in a.free
    ensures Returns(a, Freed(Merged(a, i), a.order[i - 1]), a.order[i], false)
  {
    hide Tiled, Freed, Detached, Distinct, Merged, SizeOf;
    var left, a1 := a.order[i - 1], Merged(a, i);
    MergedFields(a, i);
    DetachKeepsList(a, left);
    FreedFields(a1, left);
    FreedKeepsList(a1, left);
    MergeTiles(a, i);
    TiledFrame(a1, Freed(a1, left));
    MergedSizes(a1, Freed(a1, left));
  }

  lemma MergedSizes(a: Arena, a': Arena)
    requires a'.size == a.size
    ensures forall u: nat :: SizeOf(a', u) == SizeOf(a, u)
  {}

  /** Freeing a block releases it exactly unless its left neighbour is free and its
      right one is not. */
  lemma FreeReleasesExactlyWhen(a: Arena, i: nat)
    requires WellFormed(a) && i < |a.order| && a.order[i] in a.used
    ensures Returns(a, Free(a, i), a.order[i], LeftFree(a, i) && !RightFree(a, i))
    ensures a.order[i] !in Free(a, i).used <==> !(LeftFree(a, i) && !RightFree(a, i))
  {
    hide Tiled, Freed, Detached, Distinct, Merged, SizeOf;
    var b := a.order[i];
    if LeftFree(a, i) { assert a.order[i - 1] in a.order && a.order[i - 1] in a.free; }
    hide FreeListOk;
    if LeftFree(a, i) && RightFree(a, i) { MergedFree(a, i); }
    else if LeftFree(a, i) { RelinkedFree(a, b, a.order[i - 1]); }
    else { PlainFree(a, b); }
  }

  // -------------------------------------------------- payloads

  /** The data of blocks in use: aligned, inside the arena, and pairwise disjoint,
      headers included. */
  lemma PayloadsDisjoint(a: Arena, u: nat, v: nat)
    requires WellFormed(a) && u in a.used && v in a.used
    ensures (u + OVERHEAD) % 4 == 0 && a.start <= u && EndOf(a, u) <= a.start + a.limit
    ensures u != v ==> EndOf(a, u) <= v || EndOf(a, v) <= u
  {
    var i, j := IndexOf(a.order, u), IndexOf(a.order, v);
    Aligned(a, i);
    if i < j { Increasing(a, i, j); } else if j < i { Increasing(a, j, i); }
  }

  // -------------------------------------------------- runs

  /** The arena with what its users hold: for each block handed out and not yet
      given back, the number of bytes asked for. */
  datatype Heap = Heap(arena: Arena, held: map<nat, nat>)

  /** DoWrite: the user of a block changes a word of its data. */
  datatype Call = DoMalloc(n: nat) | DoFree(b: nat) | DoWrite(b: nat, word: nat, value: nat)

  predicate Legal(h: Heap, c: Call)
  {
    match c
    case DoMalloc(_) => forall b :: b in h.arena.free ==> b in h.arena.order
    case DoFree(b) => b in h.held && b in h.arena.order
    case DoWrite(b, word, _) => b in h.held && 4 * word < h.held[b]
  }

  function Do(h: Heap, c: Call): Heap
    requires Legal(h, c)
  {
    match c
    case DoMalloc(n) =>
      var (a, r) := Malloc(h.arena, n);
      Heap(a, if r.Some? then h.held[r.value := n] else h.held)
    case DoFree(b) => Heap(Free(h.arena, IndexOf(h.arena.order, b)), h.held - {b})
    case DoWrite(_, _, _) => h
  }

  predicate LegalRun(h: Heap, calls: seq<Call>)
    decreases |calls|
  {
    calls == [] || (Legal(h, calls[0]) && LegalRun(Do(h, calls[0]), calls[1..]))
  }

  function RunOf(h: Heap, calls: seq<Call>): Heap
    requires LegalRun(h, calls)
    decreases |calls|
  {
    if calls == [] then h else RunOf(Do(h, calls[0]), calls[1..])
  }

  ghost predicate Sound(h: Heap)
  {
    WellFormed(h.arena) && forall b :: b in h.held ==> b in h.arena.used && SizeOf(h.arena, b) >= h.held[b]
  }

  lemma StepKeeps(h: Heap, c: Call)
    requires Sound(h) && Legal(h, c)
    ensures Sound(Do(h, c))
  {
    hide WellFormed, Malloc, Free, SizeOf, LeftFree, RightFree;
    match c
    case DoMalloc(n) =>
      MallocKeeps(h.arena, n);
    case DoFree(b) =>
      FreeReleasesExactlyWhen(h.arena, IndexOf(h.arena.order, b));
    case DoWrite(_, _, _) =>
  }

  lemma {:induction false} RunKeeps(h: Heap, calls: seq<Call>)
    requires Sound(h) && LegalRun(h, calls)
    ensures Sound(RunOf(h, calls))
    decreases |calls|
  {
    hide Sound, Legal, Do;
    if calls != [] {
      StepKeeps(h, calls[0]);
      RunKeeps(Do(h, calls[0]), calls[1..]);
    }
  }

  lemma InitSound(start: nat, limit: nat)
    requires start % 4 == 0
    ensures Sound(Heap(Init(start, limit), map[]))
  {}

  /** Over every run from an empty heap, what is handed out and not yet given back
      is large enough, aligned, inside the arena, and overlaps nothing else that
      is handed out. */
  lemma HeldDataIsDisjoint(start: nat, limit: nat, calls: seq<Call>, u: nat, v: nat)
    requires start % 4 == 0 && LegalRun(Heap(Init(start, limit), map[]), calls)
    requires var h := RunOf(Heap(Init(start, limit), map[]), calls); u in h.held && v in h.held
    ensures var h := RunOf(Heap(Init(start, limit), map[]), calls);
      && SizeOf(h.arena, u) >= h.held[u] && (u + OVERHEAD) % 4 == 0
      && h.arena.start <= u && EndOf(h.arena, u) <= h.arena.start + h.arena.limit
      && (u != v ==> EndOf(h.arena, u) <= v || EndOf(h.arena, v) <= u)
  {
    hide WellFormed, RunOf, LegalRun;
    InitSound(start, limit);
    RunKeeps(Heap(Init(start, limit), map[]), calls);
    PayloadsDisjoint(RunOf(Heap(Init(start, limit), map[]), calls).arena, u, v);
  }

  // -------------------------------------------------- leaks

  /** In use, and held by nobody. */
  predicate Leaked(h: Heap, b: nat) { b in h.arena.used && b !in h.held }

  lemma StepKeepsLeaked(h: Heap, c: Call, b: nat)
    requires Sound(h) && Legal(h, c) && Leaked(h, b)
    ensures Leaked(Do(h, c), b)
  {
    hide WellFormed, Malloc, Free, SizeOf, LeftFree, RightFree;
    match c
    case DoMalloc(n) =>
      MallocKeeps(h.arena, n);
    case DoFree(f) =>
      FreeReleasesExactlyWhen(h.arena, IndexOf(h.arena.order, f));
    case DoWrite(_, _, _) =>
  }

  /** A block that is leaked stays so: no later call can hand it out or free it. */
  lemma {:induction false} LeakedForEver(h: Heap, calls: seq<Call>, b: nat)
    requires Sound(h) && LegalRun(h, calls) && Leaked(h, b)
    ensures Leaked(RunOf(h, calls), b)
    decreases |calls|
  {
    hide Sound, Legal, Do, Leaked;
    if calls != [] {
      StepKeeps(h, calls[0]);
      StepKeepsLeaked(h, calls[0], b);
      LeakedForEver(Do(h, calls[0]), calls[1..], b);
    }
  }

  /** Freeing a block leaks it exactly when its left neighbour is free and its right
      one is not. */
  lemma FreeLeaksExactlyWhen(h: Heap, b: nat)
    requires Sound(h) && Legal(h, DoFree(b))
    ensures var i := IndexOf(h.arena.order, b);
      Leaked(Do(h, DoFree(b)), b) <==> LeftFree(h.arena, i) && !RightFree(h.arena, i)
  {
    hide WellFormed, Free, SizeOf;
    FreeReleasesExactlyWhen(h.arena, IndexOf(h.arena.order, b));
  }

  // -------------------------------------------------- best fit

  ghost predicate BySize(a: Arena)
  {
    forall j, k :: 0 <= j < k < |a.free| ==> SizeOf(a, a.free[j]) <= SizeOf(a, a.free[k])
  }

  /** On a list in order of size the first fit is a best fit. */
  lemma {:induction false} FirstFitIsBestFit(a: Arena, free: seq<nat>, n: nat, u: nat)
    requires forall j, k :: 0 <= j < k < |free| ==> SizeOf(a, free[j]) <= SizeOf(a, free[k])
    requires u in free && SizeOf(a, u) >= n
    ensures Fit(a, free, n).Some? && SizeOf(a, Fit(a, free, n).value) <= SizeOf(a, u)
  {
    if SizeOf(a, free[0]) < n {
      FirstFitIsBestFit(a, free[1..], n, u);
    }
  }

  /** Insertion keeps the list in order of size exactly when lf was known, the list
      was empty, or the block is no larger than the first. */
  lemma InsertKeepsBySizeExactlyWhen(a: Arena, b: nat)
    requires BySize(a) && b !in a.free
    ensures BySize(Freed(a, b)) <==> a.tailKnown || a.free == [] || SizeOf(a, b) <= SizeOf(a, a.free[0])
  {
    var p := if a.tailKnown then Place(a, a.free, SizeOf(a, b)) else 0;
    var a' := Freed(a, b);
    MergedSizes(a, a');
    hide SizeOf;
    if a.tailKnown || a.free == [] || SizeOf(a, b) <= SizeOf(a, a.free[0]) {
      forall j, k | 0 <= j < k < |a'.free| ensures SizeOf(a, a'.free[j]) <= SizeOf(a, a'.free[k]) {
        if k == p { if j < p - 1 { assert SizeOf(a, a.free[j]) <= SizeOf(a, a.free[p - 1]); } }
        else if j == p { assert a'.free[k] == a.free[k - 1]; }
      }
    } else {
      assert a'.free[0] == b && a'.free[1] == a.free[0];
    }
  }
}
