/** Two short runs of the allocator from an empty heap: one leaks a block, one leaves
    the free list out of order. */
module HeapLoss {
  import opened PriorityOrder
  import opened Wrappers
  import opened HeapArena
  import opened HeapSafety

  /** Three blocks in use, of 8, 8 and n bytes; the last n is a whole number of words. */
  function Three(start: nat, limit: nat, n: nat): Heap
  {
    var a, b, c := start, start + 20, start + 40;
    Heap(Arena(start, limit, [a, b, c], map[a := 8, b := 8, c := n], {a, b, c}, [], false), map[a := 8, b := 8, c := n])
  }

  function Empty(start: nat, limit: nat): Heap { Heap(Init(start, limit), map[]) }

  lemma Prepend(h: Heap, c: Call, calls: seq<Call>, h': Heap)
    requires Legal(h, c) && h' == Do(h, c) && LegalRun(h', calls)
    ensures LegalRun(h, [c] + calls) && RunOf(h, [c] + calls) == RunOf(h', calls)
  {
    hide Do, Legal;
    assert ([c] + calls)[1..] == calls;
  }

  /** An allocation at the end of the arena. */
  lemma AtTheEnd(h: Heap, n: nat)
    requires h.arena.free == [] && n >= MIN_ALLOC_SIZE && n % 4 == 0
    requires Top(h.arena) + n + OVERHEAD <= h.arena.start + h.arena.limit
    ensures Legal(h, DoMalloc(n))
    ensures var b, a := Top(h.arena), h.arena;
      Do(h, DoMalloc(n)) ==
      Heap(a.(order := a.order + [b], size := a.size[b := n], used := a.used - {b} + {b}), h.held[b := n])
  {}

  /** Where the arena ends, and what it is one block later. */
  ghost predicate Follows(h: Heap, n: nat, b: nat, h': Heap)
  {
    var a := h.arena;
    && a.free == [] && b !in a.used && b == Top(a) && b + n + OVERHEAD <= a.start + a.limit
    && h' == Heap(a.(order := a.order + [b], size := a.size[b := n], used := a.used + {b}), h.held[b := n])
  }

  lemma NextAtTheEnd(h: Heap, n: nat, b: nat, h': Heap)
    requires n >= 8 && n % 4 == 0 && Follows(h, n, b, h')
    ensures Legal(h, DoMalloc(n)) && Do(h, DoMalloc(n)) == h'
  {
    AtTheEnd(h, n);
    hide Top, Do, Legal;
    assert h.arena.used - {b} + {b} == h.arena.used + {b};
  }

  lemma Followed(start: nat, limit: nat, n: nat)
    requires limit >= 52 + n
    ensures var a, b, c := start, start + 20, start + 40;
      var h1 := Heap(Arena(start, limit, [a], map[a := 8], {a}, [], false), map[a := 8]);
      var h2 := Heap(Arena(start, limit, [a, b], map[a := 8, b := 8], {a, b}, [], false), map[a := 8, b := 8]);
      && Follows(Empty(start, limit), 8, a, h1) && Follows(h1, 8, b, h2) && Follows(h2, n, c, Three(start, limit, n))
  {}

  lemma ThreeMallocs(start: nat, limit: nat, n: nat, rest: seq<Call>)
    requires n >= 8 && n % 4 == 0 && limit >= 52 + n && LegalRun(Three(start, limit, n), rest)
    ensures var calls := [DoMalloc(8), DoMalloc(8), DoMalloc(n)] + rest;
      LegalRun(Empty(start, limit), calls) && RunOf(Empty(start, limit), calls) == RunOf(Three(start, limit, n), rest)
  {
    var a, b, c := start, start + 20, start + 40;
    var h0, h3 := Empty(start, limit), Three(start, limit, n);
    var h1 := Heap(Arena(start, limit, [a], map[a := 8], {a}, [], false), map[a := 8]);
    var h2 := Heap(Arena(start, limit, [a, b], map[a := 8, b := 8], {a, b}, [], false), map[a := 8, b := 8]);
    hide Do, Legal, Init, Top, SizeOf, Follows;
    Followed(start, limit, n);
    NextAtTheEnd(h0, 8, a, h1);
    NextAtTheEnd(h1, 8, b, h2);
    NextAtTheEnd(h2, n, c, h3);
    Prepend(h2, DoMalloc(n), rest, h3);
    Prepend(h1, DoMalloc(8), [DoMalloc(n)] + rest, h2);
    Prepend(h0, DoMalloc(8), [DoMalloc(8)] + ([DoMalloc(n)] + rest), h1);
    assert [DoMalloc(8), DoMalloc(8), DoMalloc(n)] + rest == [DoMalloc(8)] + ([DoMalloc(8)] + ([DoMalloc(n)] + rest));
  }

  /** Two frees from there. */
  lemma TwoFrees(h: Heap, b: nat, c: nat)
    requires Legal(h, DoFree(b)) && Legal(Do(h, DoFree(b)), DoFree(c))
    ensures LegalRun(h, [DoFree(b), DoFree(c)])
    ensures RunOf(h, [DoFree(b), DoFree(c)]) == Do(Do(h, DoFree(b)), DoFree(c))
  {
    hide Do, Legal;
    var h1 := Do(h, DoFree(b));
    var h2 := Do(h1, DoFree(c));
    Prepend(h1, DoFree(c), [], h2);
    Prepend(h, DoFree(b), [DoFree(c)] + [], h1);
    assert [DoFree(b), DoFree(c)] == [DoFree(b)] + ([DoFree(c)] + []);
  }

  lemma FirstFreed(start: nat, limit: nat, n: nat)
    ensures var h, a := Three(start, limit, n), start;
      && Legal(h, DoFree(a))
      && Do(h, DoFree(a)) == Heap(h.arena.(used := {a + 20, a + 40}, free := [a]), map[a + 20 := 8, a + 40 := n])
  {
    assert InsertAt([], 0, start) == [start];
  }

  /** Free the first of three blocks and then the second: the second is leaked. */
  lemma LeakingRun(start: nat, limit: nat)
    requires limit >= 60
    ensures var calls := [DoMalloc(8), DoMalloc(8), DoMalloc(8)] + [DoFree(start), DoFree(start + 20)];
      LegalRun(Empty(start, limit), calls) && Leaked(RunOf(Empty(start, limit), calls), start + 20)
  {
    var h, b := Three(start, limit, 8), start + 20;
    FirstFreed(start, limit, 8);
    var h1 := Do(h, DoFree(start));
    assert IndexOf(h1.arena.order, b) == 1;
    TwoFrees(h, start, b);
    ThreeMallocs(start, limit, 8, [DoFree(start), DoFree(b)]);
  }

  /** Free a small block and then a large one that is not its neighbour: the large
      one comes first on the list, and the next first fit is no best fit. */
  lemma UnsortingRun(start: nat, limit: nat)
    requires limit >= 68
    ensures var calls := [DoMalloc(8), DoMalloc(8), DoMalloc(16)] + [DoFree(start), DoFree(start + 40)];
      && LegalRun(Empty(start, limit), calls)
      && var a := RunOf(Empty(start, limit), calls).arena;
         && !BySize(a) && SizeOf(a, start) == 8 && start in a.free
         && Fit(a, a.free, 8).Some? && SizeOf(a, Fit(a, a.free, 8).value) == 16
  {
    var h, c := Three(start, limit, 16), start + 40;
    FirstFreed(start, limit, 16);
    var h1 := Do(h, DoFree(start));
    assert IndexOf(h1.arena.order, c) == 2;
    TwoFrees(h, start, c);
    ThreeMallocs(start, limit, 16, [DoFree(start), DoFree(c)]);
    var a := Do(h1, DoFree(c)).arena;
    assert a.free == [c, start] && SizeOf(a, a.free[0]) == 16 && SizeOf(a, a.free[1]) == 8;
  }
}
