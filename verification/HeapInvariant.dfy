/** What every call of the allocator keeps. */
module HeapInvariant {
  import opened PriorityOrder
  import opened Rings
  import opened Wrappers
  import opened HeapArena

  predicate WholeWords(n: nat) { n % 4 == 0 && n >= MIN_ALLOC_SIZE }

  /** The blocks fill the taken part of the arena without gap or overlap; sizes are
      multiples of the word. */
  ghost predicate Tiled(a: Arena)
  {
    && a.start % 4 == 0 && Top(a) <= a.start + a.limit
    && (a.order != [] ==> a.order[0] == a.start)
    && (forall j, k :: 0 <= j < k < |a.order| && k == j + 1 ==> a.order[k] == EndOf(a, a.order[j]))
    && (forall k :: 0 <= k < |a.order| ==> WholeWords(SizeOf(a, a.order[k])))
  }

  /** The free list holds exactly the blocks whose used bit is clear, each once. */
  ghost predicate FreeListOk(a: Arena)
  {
    && Distinct(a.free)
    && (forall b: nat :: b in a.free <==> b in a.order && b !in a.used)
    && (forall b: nat :: b in a.used ==> b in a.order)
    && (a.tailKnown ==> a.free != [])
  }

  ghost predicate WellFormed(a: Arena) { Tiled(a) && FreeListOk(a) }

  lemma {:induction false} Increasing(a: Arena, j: nat, k: nat)
    requires Tiled(a) && j < k < |a.order|
    ensures EndOf(a, a.order[j]) <= a.order[k]
  {
    if j + 1 < k {
      Increasing(a, j, k - 1);
      assert a.order[k] == EndOf(a, a.order[k - 1]);
    }
  }

  lemma {:induction false} Aligned(a: Arena, k: nat)
    requires Tiled(a) && k < |a.order|
    ensures a.order[k] % 4 == 0 && a.start <= a.order[k] && EndOf(a, a.order[k]) <= Top(a)
  {
    if k > 0 {
      Aligned(a, k - 1);
      assert a.order[k] == EndOf(a, a.order[k - 1]);
    }
    if k + 1 < |a.order| { Increasing(a, k, |a.order| - 1); }
  }

  lemma TiledIsDistinct(a: Arena)
    requires Tiled(a)
    ensures Distinct(a.order)
  {
    forall j, k | 0 <= j < k < |a.order| ensures a.order[j] != a.order[k] { Increasing(a, j, k); }
  }

  /** No block starts inside another. */
  lemma NoBlockInside(a: Arena, b: nat, x: nat)
    requires Tiled(a) && b in a.order && b < x < EndOf(a, b)
    ensures x !in a.order
  {
    var i := IndexOf(a.order, b);
    if x in a.order {
      var k := IndexOf(a.order, x);
      if k < i { Increasing(a, k, i); } else if i < k { Increasing(a, i, k); }
      assert false;
    }
  }

  // -------------------------------------------------- the steps

  /** The blocks after a split: b shorter, the rest behind it, the others alike. */
  lemma SplitBlocks(a: Arena, b: nat, n: nat)
    requires Tiled(a) && b in a.order && SizeOf(a, b) >= RoundUp(n) + OVERHEAD + MIN_ALLOC_SIZE
    ensures var a', i, rest := Split(a, b, n), IndexOf(a.order, b), b + OVERHEAD + RoundUp(n);
      && a'.order == InsertAt(a.order, i + 1, rest) && rest !in a.order && b % 4 == 0
      && SizeOf(a', b) == RoundUp(n) && SizeOf(a', rest) == SizeOf(a, b) - RoundUp(n) - OVERHEAD
      && (forall k :: 0 <= k < |a.order| && k != i ==> SizeOf(a', a.order[k]) == SizeOf(a, a.order[k]))
  {
    var i, rest := IndexOf(a.order, b), b + OVERHEAD + RoundUp(n);
    NoBlockInside(a, b, rest);
    Aligned(a, i);
    TiledIsDistinct(a);
    hide Tiled;
    forall k | 0 <= k < |a.order| && k != i
      ensures a.order[k] != b && a.order[k] != rest
    {
      assert a.order[k] in a.order;
    }
  }

  function Sizes(a: Arena): (s: seq<nat>)
    ensures |s| == |a.order| && forall k :: 0 <= k < |s| ==> s[k] == SizeOf(a, a.order[k])
  {
    seq(|a.order|, k requires 0 <= k < |a.order| => SizeOf(a, a.order[k]))
  }

  /** Tiling as a matter of two sequences. */
  ghost predicate Tiles(start: nat, order: seq<nat>, sizes: seq<nat>)
  {
    && |order| == |sizes| && (order != [] ==> order[0] == start)
    && (forall j, k :: 0 <= j < k < |order| && k == j + 1 ==> order[k] == order[j] + OVERHEAD + sizes[j])
    && (forall k :: 0 <= k < |sizes| ==> WholeWords(sizes[k]))
  }

  lemma TiledIsTiles(a: Arena)
    ensures Tiled(a) <==> a.start % 4 == 0 && Top(a) <= a.start + a.limit && Tiles(a.start, a.order, Sizes(a))
  {
    hide SizeOf, WholeWords;
    var s := Sizes(a);
    assert forall k :: 0 <= k < |a.order| ==> EndOf(a, a.order[k]) == a.order[k] + OVERHEAD + s[k];
  }

  lemma SplitTwo(start: nat, order: seq<nat>, sizes: seq<nat>, i: nat, m: nat)
    requires Tiles(start, order, sizes) && i < |order| && sizes[i] >= m + OVERHEAD
    requires WholeWords(m) && WholeWords(sizes[i] - m - OVERHEAD)
    ensures Tiles(start, InsertAt(order, i + 1, order[i] + OVERHEAD + m),
                  InsertAt(sizes[i := m], i + 1, sizes[i] - m - OVERHEAD))
  {
    hide WholeWords;
    var o := InsertAt(order, i + 1, order[i] + OVERHEAD + m);
    var z := InsertAt(sizes[i := m], i + 1, sizes[i] - m - OVERHEAD);
    forall k, l | 0 <= k < l < |o| && l == k + 1 ensures o[l] == o[k] + OVERHEAD + z[k] {
      if k > i + 1 { assert order[k] == order[k - 1] + OVERHEAD + sizes[k - 1]; }
    }
    forall k | 0 <= k < |z| ensures WholeWords(z[k]) {
      if k > i + 1 { assert z[k] == sizes[k - 1]; }
    }
  }

  lemma SplitSizes(a: Arena, b: nat, n: nat)
    requires Tiled(a) && b in a.order && SizeOf(a, b) >= RoundUp(n) + OVERHEAD + MIN_ALLOC_SIZE
    ensures var i, m := IndexOf(a.order, b), RoundUp(n);
      Sizes(Split(a, b, n)) == InsertAt(Sizes(a)[i := m], i + 1, Sizes(a)[i] - m - OVERHEAD)
  {
    hide *;
    SplitBlocks(a, b, n);
  }

  lemma SplitTop(a: Arena, b: nat, n: nat)
    requires Tiled(a) && b in a.order && SizeOf(a, b) >= RoundUp(n) + OVERHEAD + MIN_ALLOC_SIZE
    ensures Top(Split(a, b, n)) == Top(a) && Split(a, b, n).start == a.start && Split(a, b, n).limit == a.limit
  {
    SplitBlocks(a, b, n);
    var i, o := IndexOf(a.order, b), Split(a, b, n).order;
    if i < |a.order| - 1 { assert o[|o| - 1] == a.order[|a.order| - 1]; }
  }

  lemma SplitTiles(a: Arena, b: nat, n: nat)
    requires Tiled(a) && b in a.order && SizeOf(a, b) >= RoundUp(n) + OVERHEAD + MIN_ALLOC_SIZE && n >= MIN_ALLOC_SIZE
    ensures Tiled(Split(a, b, n)) && Top(Split(a, b, n)) == Top(a)
  {
    hide *;
    SplitBlocks(a, b, n);
    SplitSizes(a, b, n);
    SplitTop(a, b, n);
    TiledIsTiles(a);
    TiledIsTiles(Split(a, b, n));
    BlockWords(a, IndexOf(a.order, b));
    WordsLeft(SizeOf(a, b), RoundUp(n));
    SplitTwo(a.start, a.order, Sizes(a), IndexOf(a.order, b), RoundUp(n));
  }

  lemma BlockWords(a: Arena, i: nat)
    requires Tiled(a) && i < |a.order|
    ensures WholeWords(SizeOf(a, a.order[i]))
  {}

  lemma MergeTwo(start: nat, order: seq<nat>, sizes: seq<nat>, i: nat)
    requires Tiles(start, order, sizes) && 0 < i < |order|
    ensures Tiles(start, RemoveAt(order, i), RemoveAt(sizes[i - 1 := sizes[i - 1] + OVERHEAD + sizes[i]], i))
  {
    var o, z := RemoveAt(order, i), RemoveAt(sizes[i - 1 := sizes[i - 1] + OVERHEAD + sizes[i]], i);
    assert WholeWords(sizes[i - 1]) && WholeWords(sizes[i]);
    assert WholeWords(sizes[i - 1] + OVERHEAD + sizes[i]);
    assert order[i] == order[i - 1] + OVERHEAD + sizes[i - 1];
    hide WholeWords;
    forall k, l | 0 <= k < l < |o| && l == k + 1 ensures o[l] == o[k] + OVERHEAD + z[k] {
      if k >= i - 1 { assert order[l + 1] == order[l] + OVERHEAD + sizes[l]; }
    }
    forall k | 0 <= k < |z| ensures WholeWords(z[k]) {
      if k >= i { assert z[k] == sizes[k + 1]; }
    }
  }

  /** The blocks after a merge: the left one larger, the right one gone. */
  lemma MergeBlocks(a: Arena, i: nat)
    requires Tiled(a) && 0 < i < |a.order|
    ensures var a', left := Merged(a, i), a.order[i - 1];
      && a'.order == RemoveAt(a.order, i) && SizeOf(a', left) == SizeOf(a, left) + OVERHEAD + SizeOf(a, a.order[i])
      && (forall k :: 0 <= k < |a.order| && k != i - 1 ==> SizeOf(a', a.order[k]) == SizeOf(a, a.order[k]))
      && EndOf(a', left) == EndOf(a, a.order[i])
  {
    TiledIsDistinct(a);
    assert a.order[i] == EndOf(a, a.order[i - 1]);
    hide Tiled;
  }

  lemma MergeSizes(a: Arena, i: nat)
    requires Tiled(a) && 0 < i < |a.order|
    ensures Sizes(Merged(a, i)) == RemoveAt(Sizes(a)[i - 1 := Sizes(a)[i - 1] + OVERHEAD + Sizes(a)[i]], i)
  {
    hide *;
    MergeBlocks(a, i);
  }

  lemma MergeTop(a: Arena, i: nat)
    requires Tiled(a) && 0 < i < |a.order|
    ensures Top(Merged(a, i)) == Top(a) && Merged(a, i).start == a.start && Merged(a, i).limit == a.limit
  {
    MergeBlocks(a, i);
    hide SizeOf, Tiled;
  }

  lemma MergeTiles(a: Arena, i: nat)
    requires Tiled(a) && 0 < i < |a.order|
    ensures Tiled(Merged(a, i)) && Top(Merged(a, i)) == Top(a)
  {
    hide *;
    MergeBlocks(a, i);
    MergeSizes(a, i);
    MergeTop(a, i);
    TiledIsTiles(a);
    TiledIsTiles(Merged(a, i));
    MergeTwo(a.start, a.order, Sizes(a), i);
  }

  lemma WordsLeft(n: nat, m: nat)
    requires WholeWords(n) && m % 4 == 0 && m >= MIN_ALLOC_SIZE && n >= m + OVERHEAD + MIN_ALLOC_SIZE
    ensures WholeWords(m) && WholeWords(n - m - OVERHEAD)
  {}

  lemma ExtendTiles(a: Arena, n: nat)
    requires Tiled(a) && n >= MIN_ALLOC_SIZE && Extended(a, n).Some?
    ensures Tiled(Extended(a, n).value) && Top(a) !in a.order
  {
    var a', t := Extended(a, n).value, Top(a);
    if t in a.order {
      Aligned(a, IndexOf(a.order, t));
      assert false;
    }
    TopAligned(a);
    forall k | 0 <= k < |a.order|
      ensures SizeOf(a', a.order[k]) == SizeOf(a, a.order[k])
    {
      assert a.order[k] in a.order;
    }
  }

  lemma TopAligned(a: Arena)
    requires Tiled(a)
    ensures Top(a) % 4 == 0
  {
    if a.order != [] { Aligned(a, |a.order| - 1); }
  }

  lemma DetachKeepsList(a: Arena, b: nat)
    requires Distinct(a.free) && (a.tailKnown ==> a.free != [])
    ensures var a' := Detached(a, b); Distinct(a'.free) && (a'.tailKnown ==> a'.free != [])
    ensures forall u :: u in Detached(a, b).free <==> u in a.free && u != b
  {
    WithoutMembers(a.free, b);
    var r := Without(a.free, b);
    assert a.free != [] ==> a.free[|a.free| - 1] in a.free;
    if |a.free| > 1 && a.free[|a.free| - 1] == b { assert a.free[0] != b && a.free[0] in r; }
  }

  lemma FreedKeepsList(a: Arena, b: nat)
    requires Distinct(a.free) && b !in a.free && (a.tailKnown ==> a.free != [])
    ensures Distinct(Freed(a, b).free) && (forall u :: u in Freed(a, b).free <==> u in a.free || u == b)
    ensures Freed(a, b).free != []
  {
    var p := if a.tailKnown then Place(a, a.free, SizeOf(a, b)) else 0;
    InsertAtMembers(a.free, p, b);
    InsertAtDistinct(a.free, p, b);
  }

  /** Tiling does not depend on the free list or the used bits. */
  lemma TiledFrame(a: Arena, a': Arena)
    requires Tiled(a) && a'.start == a.start && a'.limit == a.limit && a'.order == a.order && a'.size == a.size
    ensures Tiled(a')
  {}
}
