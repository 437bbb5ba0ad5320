/** The writes that split, merge, extend and flag blocks keep the headers in step
    with the arena. */
module HeapBlocks {
  import opened PriorityOrder
  import opened Products
  import opened Rings
  import opened Wrappers
  import opened HeapArena
  import opened HeapInvariant
  import opened HeapSafety
  import opened HeapLinks

  /** Only sizes, flags and physical links differ. */
  ghost predicate SameLinks(mem: Memory, mem': Memory)
  {
    forall b :: LinkIs(HeaderAt(mem', b), HeaderAt(mem, b).fnext, HeaderAt(mem, b).fprev)
  }

  // -------------------------------------------------- the used flag

  /** head.parts.used = 1 */
  function SetUsed(mem: Memory, b: nat): Memory { SetSz(mem, b, HeaderAt(mem, b).sz - HeaderAt(mem, b).sz % 2 + 1) }

  lemma EvenPlusFlag(n: nat, used: bool)
    requires n % 4 == 0
    ensures (n + Flag(used)) % 2 == Flag(used)
  {
    ModIs(n + Flag(used), 2, 2 * (n / 4), Flag(used));
  }

  lemma RawSize(mem: Memory, a: Arena, k: nat)
    requires Physical(mem, a) && Tiled(a) && k < |a.order|
    ensures var h, b := HeaderAt(mem, a.order[k]), a.order[k];
      h.sz % 2 == Flag(b in a.used) && h.sz - h.sz % 2 == SizeOf(a, b)
  {
    hide Tiled, SizeOf, HeaderAt, At;
    BlockWords(a, k);
    assert BlockOk(mem, a, k);
    EvenPlusFlag(SizeOf(a, a.order[k]), a.order[k] in a.used);
  }

  /** Writing the size word of one block. */
  lemma SetSzPhysical(mem: Memory, a: Arena, a': Arena, b: nat, x: nat)
    requires Physical(mem, a) && b in a.order && a'.order == a.order && a'.size == a.size
    requires forall u: nat :: u in a.order && u != b ==> (u in a'.used <==> u in a.used)
    requires x == SizeOf(a, b) + Flag(b in a'.used)
    ensures Physical(SetSz(mem, b, x), a') && SameLinks(mem, SetSz(mem, b, x))
  {
    forall k: nat | k < |a.order| ensures BlockOk(SetSz(mem, b, x), a', k) {
      assert BlockOk(mem, a, k) && a.order[k] in a.order;
    }
  }

  lemma ClearUsedPhysical(mem: Memory, a: Arena, b: nat)
    requires Physical(mem, a) && Tiled(a) && b in a.order
    ensures Physical(ClearUsed(mem, b), a.(used := a.used - {b})) && SameLinks(mem, ClearUsed(mem, b))
  {
    hide Tiled, SizeOf, HeaderAt, SetSz, Physical, SameLinks;
    RawSize(mem, a, IndexOf(a.order, b));
    SetSzPhysical(mem, a, a.(used := a.used - {b}), b, HeaderAt(mem, b).sz - HeaderAt(mem, b).sz % 2);
  }

  lemma SetUsedPhysical(mem: Memory, a: Arena, b: nat)
    requires Physical(mem, a) && Tiled(a) && b in a.order
    ensures Physical(SetUsed(mem, b), Taken(a, b)) && SameLinks(mem, SetUsed(mem, b))
  {
    hide Tiled, SizeOf, HeaderAt, SetSz, Physical, SameLinks;
    RawSize(mem, a, IndexOf(a.order, b));
    SetSzPhysical(mem, a, Taken(a, b), b, HeaderAt(mem, b).sz - HeaderAt(mem, b).sz % 2 + 1);
  }

  lemma SameSizes(a: Arena, a': Arena)
    requires a'.size == a.size
    ensures forall u: nat :: SizeOf(a', u) == SizeOf(a, u)
  {}

  // -------------------------------------------------- split

  function SplitWrites(mem: Memory, b: nat, rest: nat, m: nat, restSz: nat, right: nat): Memory
  {
    var mem1 := mem[rest := HeaderAt(mem, rest).(sz := restSz - restSz % 2, next := right, prev := b)];
    var mem2 := mem1[b := HeaderAt(mem, b).(sz := m, next := rest)];
    if right != NULL then SetPrev(mem2, right, rest) else mem2
  }

  lemma SplitHeaders(mem: Memory, b: nat, rest: nat, m: nat, restSz: nat, right: nat, u: nat)
    requires b != rest && right != b && right != rest && u != NULL
    ensures var h, h' := HeaderAt(mem, u), HeaderAt(SplitWrites(mem, b, rest, m, restSz, right), u);
      && LinkIs(h', h.fnext, h.fprev)
      && h'.sz == (if u == rest then restSz - restSz % 2 else if u == b then m else h.sz)
      && h'.next == (if u == rest then right else if u == b then rest else h.next)
      && h'.prev == (if u == rest then b else if u == right then rest else h.prev)
  {}

  lemma SplitLinks(mem: Memory, b: nat, rest: nat, m: nat, restSz: nat, right: nat)
    requires b != rest && right != b && right != rest
    ensures SameLinks(mem, SplitWrites(mem, b, rest, m, restSz, right))
  {}

  lemma NonNullOrder(a: Arena)
    requires Tiled(a) && a.start > 0
    ensures NonNull(a.order) && Distinct(a.order)
  {
    forall k | 0 <= k < |a.order| ensures a.order[k] != NULL { Aligned(a, k); }
    TiledIsDistinct(a);
  }

  lemma NotAt(s: seq<nat>, j: int, x: nat)
    requires x !in s && x != NULL
    ensures At(s, j) != x
  {}

  lemma AtIs(s: seq<nat>, i: nat)
    requires i < |s|
    ensures At(s, i) == s[i]
  {}

  /** What is left of block b, without a flag. */
  function RestSize(a: Arena, b: nat, n: nat): int { SizeOf(a, b) - RoundUp(n) - OVERHEAD }

  function SplitMemory(mem: Memory, a: Arena, b: nat, n: nat): Memory
    requires b in a.order && RestSize(a, b, n) >= 0
  {
    SplitWrites(mem, b, b + OVERHEAD + RoundUp(n), RoundUp(n), RestSize(a, b, n), At(a.order, IndexOf(a.order, b) + 1))
  }

  /** The facts about the blocks around a split. */
  lemma AroundSplit(mem: Memory, a: Arena, b: nat, n: nat)
    requires Physical(mem, a) && Tiled(a) && a.start > 0 && b in a.order && RestSize(a, b, n) >= MIN_ALLOC_SIZE
    ensures var i, rest := IndexOf(a.order, b), b + OVERHEAD + RoundUp(n);
      && NonNull(a.order) && Distinct(a.order) && rest !in a.order && b != rest
      && At(a.order, i + 1) != b && At(a.order, i + 1) != rest
      && RestSize(a, b, n) % 2 == 0
  {
    var i := IndexOf(a.order, b);
    NonNullOrder(a);
    SplitBlocks(a, b, n);
    BlockWords(a, i);
    NotAt(a.order, i + 1, b + OVERHEAD + RoundUp(n));
    DistinctAt(a.order, i, i + 1);
    assert RestSize(a, b, n) % 2 == 0 by { EvenLeft(SizeOf(a, b), RoundUp(n)); }
  }

  lemma EvenLeft(n: nat, m: nat)
    requires n % 4 == 0 && m % 4 == 0
    ensures (n - m - OVERHEAD) % 2 == 0
  {
    Even(2 * (n / 4) - 2 * (m / 4) - 6);
  }

  lemma Even(k: int)
    ensures (2 * k) % 2 == 0
  {}

  lemma SplitRest(mem: Memory, a: Arena, b: nat, n: nat)
    requires Physical(mem, a) && Tiled(a) && a.start > 0 && b in a.order
    requires b !in a.used && RestSize(a, b, n) >= MIN_ALLOC_SIZE
    ensures var i := IndexOf(a.order, b);
      |Split(a, b, n).order| == |a.order| + 1 && BlockOk(SplitMemory(mem, a, b, n), Split(a, b, n), i + 1)
  {
    var i, rest := IndexOf(a.order, b), b + OVERHEAD + RoundUp(n);
    SplitBlocks(a, b, n);
    AroundSplit(mem, a, b, n);
    assert rest !in Split(a, b, n).used;
    hide Tiled, Physical, SplitWrites, HeaderAt, SizeOf, RoundUp, At, Distinct, NonNull, InsertAt, Split;
    InsertedNeighbours(a.order, i + 1, rest, i + 1);
    AtIs(a.order, i);
    SplitHeaders(mem, b, rest, RoundUp(n), RestSize(a, b, n), At(a.order, i + 1), rest);
  }

  lemma BlockAt(mem: Memory, a: Arena, k: nat)
    requires Physical(mem, a) && Tiled(a) && a.start > 0 && k < |a.order|
    ensures a.order[k] in a.order && a.order[k] != NULL && BlockOk(mem, a, k)
    ensures NonNull(a.order) && Distinct(a.order) && At(a.order, k) == a.order[k]
  {
    NonNullOrder(a);
  }

  lemma SplitUsed(a: Arena, b: nat, n: nat, u: nat)
    requires Tiled(a) && b in a.order && RestSize(a, b, n) >= MIN_ALLOC_SIZE && u in a.order
    ensures u in Split(a, b, n).used <==> u in a.used
  {
    SplitBlocks(a, b, n);
    hide Tiled, RoundUp, SizeOf;
  }

  /** What the k-th of the old blocks has for neighbours. */
  lemma SplitNeighbours(a: Arena, b: nat, n: nat, j: nat, k: nat)
    requires Tiled(a) && b in a.order && RestSize(a, b, n) >= MIN_ALLOC_SIZE
    requires k < |a.order| && j == (if k <= IndexOf(a.order, b) then k else k + 1)
    ensures var o, i, rest := Split(a, b, n).order, IndexOf(a.order, b), b + OVERHEAD + RoundUp(n);
      && |o| == |a.order| + 1 && o[j] == a.order[k]
      && At(o, j + 1) == (if k == i then rest else At(a.order, k + 1))
      && At(o, j - 1) == (if k == i + 1 then rest else At(a.order, k - 1))
  {
    hide Tiled, SizeOf, RoundUp, Split, At;
    SplitBlocks(a, b, n);
    InsertedNeighbours(a.order, IndexOf(a.order, b) + 1, b + OVERHEAD + RoundUp(n), j);
  }

  /** What is written to the header of the k-th of the old blocks. */
  lemma SplitHeaderOf(mem: Memory, a: Arena, b: nat, n: nat, k: nat)
    requires Physical(mem, a) && Tiled(a) && a.start > 0 && b in a.order && RestSize(a, b, n) >= MIN_ALLOC_SIZE
    requires k < |a.order|
    ensures var i, rest := IndexOf(a.order, b), b + OVERHEAD + RoundUp(n);
      var h, h' := HeaderAt(mem, a.order[k]), HeaderAt(SplitMemory(mem, a, b, n), a.order[k]);
      && h'.sz == (if k == i then RoundUp(n) else h.sz)
      && h'.next == (if k == i then rest else h.next)
      && h'.prev == (if k == i + 1 then rest else h.prev)
  {
    hide Tiled, Physical, SplitWrites, HeaderAt, SizeOf, RoundUp, At, Distinct, NonNull, BlockOk;
    var i := IndexOf(a.order, b);
    AroundSplit(mem, a, b, n);
    BlockAt(mem, a, k);
    BlockAt(mem, a, i);
    DistinctAt(a.order, k, i + 1);
    DistinctAt(a.order, k, i);
    SplitHeaders(mem, b, b + OVERHEAD + RoundUp(n), RoundUp(n), RestSize(a, b, n), At(a.order, i + 1), a.order[k]);
  }

  lemma SplitOther(mem: Memory, a: Arena, b: nat, n: nat, j: nat, k: nat)
    requires Physical(mem, a) && Tiled(a) && a.start > 0 && b in a.order
    requires b !in a.used && RestSize(a, b, n) >= MIN_ALLOC_SIZE
    requires k < |a.order| && j == (if k <= IndexOf(a.order, b) then k else k + 1)
    ensures |Split(a, b, n).order| == |a.order| + 1 && BlockOk(SplitMemory(mem, a, b, n), Split(a, b, n), j)
  {
    hide Tiled, Physical, SplitMemory, HeaderAt, SizeOf, RoundUp, At, Distinct, NonNull, Split;
    SplitBlocks(a, b, n);
    BlockAt(mem, a, k);
    SplitUsed(a, b, n, a.order[k]);
    SplitNeighbours(a, b, n, j, k);
    SplitHeaderOf(mem, a, b, n, k);
  }

  lemma SplitPhysical(mem: Memory, a: Arena, b: nat, n: nat)
    requires Physical(mem, a) && Tiled(a) && a.start > 0 && b in a.order
    requires b !in a.used && RestSize(a, b, n) >= MIN_ALLOC_SIZE
    ensures Physical(SplitMemory(mem, a, b, n), Split(a, b, n)) && SameLinks(mem, SplitMemory(mem, a, b, n))
  {
    hide Tiled, SplitWrites, SameLinks, HeaderAt, SizeOf, RoundUp, At, BlockOk, Split;
    var i := IndexOf(a.order, b);
    AroundSplit(mem, a, b, n);
    SplitLinks(mem, b, b + OVERHEAD + RoundUp(n), RoundUp(n), RestSize(a, b, n), At(a.order, i + 1));
    SplitRest(mem, a, b, n);
    forall j: nat | j < |a.order| + 1 ensures BlockOk(SplitMemory(mem, a, b, n), Split(a, b, n), j) {
      if j != i + 1 { SplitOther(mem, a, b, n, j, if j <= i then j else j - 1); }
    }
  }

  // -------------------------------------------------- merge

  /** The writes that make left span up to right. */
  function MergeWrites(mem: Memory, left: nat, sz: nat, right: nat): Memory
  {
    var mem1 := SetNext(mem, left, right);
    var mem2 := if right != NULL then SetPrev(mem1, right, left) else mem1;
    SetSz(mem2, left, sz)
  }

  function MergeMemory(mem: Memory, a: Arena, i: nat): Memory
    requires 0 < i < |a.order|
  {
    MergeWrites(mem, a.order[i - 1], SizeOf(a, a.order[i - 1]) + OVERHEAD + SizeOf(a, a.order[i]), At(a.order, i + 1))
  }

  lemma MergeHeaders(mem: Memory, left: nat, sz: nat, right: nat, u: nat)
    requires left != right && u != NULL
    ensures var h, h' := HeaderAt(mem, u), HeaderAt(MergeWrites(mem, left, sz, right), u);
      && LinkIs(h', h.fnext, h.fprev)
      && h'.sz == (if u == left then sz else h.sz)
      && h'.next == (if u == left then right else h.next)
      && h'.prev == (if u == right then left else h.prev)
  {}

  lemma MergeLinks(mem: Memory, left: nat, sz: nat, right: nat)
    ensures SameLinks(mem, MergeWrites(mem, left, sz, right))
  {}

  lemma MergeHeaderOf(mem: Memory, a: Arena, i: nat, k: nat)
    requires Physical(mem, a) && Tiled(a) && a.start > 0 && 0 < i < |a.order| && k < |a.order|
    ensures var h, h' := HeaderAt(mem, a.order[k]), HeaderAt(MergeMemory(mem, a, i), a.order[k]);
      && h'.sz == (if k == i - 1 then SizeOf(a, a.order[i - 1]) + OVERHEAD + SizeOf(a, a.order[i]) else h.sz)
      && h'.next == (if k == i - 1 then At(a.order, i + 1) else h.next)
      && h'.prev == (if k == i + 1 then a.order[i - 1] else h.prev)
  {
    hide Tiled, Physical, MergeWrites, HeaderAt, SizeOf, At, Distinct, NonNull, BlockOk;
    BlockAt(mem, a, k);
    BlockAt(mem, a, i - 1);
    DistinctAt(a.order, k, i + 1);
    DistinctAt(a.order, k, i - 1);
    DistinctAt(a.order, i - 1, i + 1);
    MergeHeaders(mem, a.order[i - 1], SizeOf(a, a.order[i - 1]) + OVERHEAD + SizeOf(a, a.order[i]), At(a.order, i + 1),
                 a.order[k]);
  }

  lemma MergeNeighbours(a: Arena, i: nat, j: nat, k: nat)
    requires 0 < i < |a.order| && j < |a.order| - 1 && k == (if j < i then j else j + 1)
    ensures var o := Merged(a, i).order;
      && |o| == |a.order| - 1 && o[j] == a.order[k]
      && At(o, j + 1) == (if k == i - 1 then At(a.order, i + 1) else At(a.order, k + 1))
      && At(o, j - 1) == (if k == i + 1 then a.order[i - 1] else At(a.order, k - 1))
  {
    hide At, Detached, SizeOf;
    RemovedNeighbours(a.order, i, j);
    AtIs(a.order, i - 1);
  }

  lemma MergeOne(mem: Memory, a: Arena, i: nat, j: nat, k: nat)
    requires Physical(mem, a) && Tiled(a) && a.start > 0 && 0 < i < |a.order| && a.order[i - 1] !in a.used
    requires j < |a.order| - 1 && k == (if j < i then j else j + 1)
    ensures j < |Merged(a, i).order| && BlockOk(MergeMemory(mem, a, i), Merged(a, i), j)
  {
    hide Tiled, Physical, MergeMemory, HeaderAt, SizeOf, At, Distinct, NonNull, Merged;
    MergeBlocks(a, i);
    MergedFields(a, i);
    BlockAt(mem, a, k);
    BlockAt(mem, a, i);
    DistinctAt(a.order, k, i);
    MergeNeighbours(a, i, j, k);
    MergeHeaderOf(mem, a, i, k);
  }

  lemma MergePhysical(mem: Memory, a: Arena, i: nat)
    requires Physical(mem, a) && Tiled(a) && a.start > 0 && 0 < i < |a.order| && a.order[i - 1] !in a.used
    ensures Physical(MergeMemory(mem, a, i), Merged(a, i)) && SameLinks(mem, MergeMemory(mem, a, i))
  {
    hide Tiled, MergeWrites, SameLinks, HeaderAt, SizeOf, At, BlockOk;
    MergeLinks(mem, a.order[i - 1], SizeOf(a, a.order[i - 1]) + OVERHEAD + SizeOf(a, a.order[i]), At(a.order, i + 1));
    forall j: nat | j < |Merged(a, i).order| ensures BlockOk(MergeMemory(mem, a, i), Merged(a, i), j) {
      MergeOne(mem, a, i, j, if j < i then j else j + 1);
    }
  }

  // -------------------------------------------------- extend

  /** The writes that append block t of n bytes behind last. */
  function ExtendWrites(mem: Memory, t: nat, n: nat, last: nat): Memory
  {
    var mem1 := mem[t := HeaderAt(mem, t).(sz := n, next := NULL, prev := last)];
    if last != NULL then SetNext(mem1, last, t) else mem1
  }

  lemma ExtendHeaders(mem: Memory, t: nat, n: nat, last: nat, u: nat)
    requires t != last && u != NULL
    ensures var h, h' := HeaderAt(mem, u), HeaderAt(ExtendWrites(mem, t, n, last), u);
      && LinkIs(h', h.fnext, h.fprev)
      && h'.sz == (if u == t then n else h.sz)
      && h'.next == (if u == t then NULL else if u == last then t else h.next)
      && h'.prev == (if u == t then last else h.prev)
  {}

  lemma ExtendLinks(mem: Memory, t: nat, n: nat, last: nat)
    requires t != last
    ensures SameLinks(mem, ExtendWrites(mem, t, n, last))
  {}

  function ExtendMemory(mem: Memory, a: Arena, n: nat): Memory
  {
    ExtendWrites(mem, Top(a), RoundUp(n + OVERHEAD) - OVERHEAD, At(a.order, |a.order| - 1))
  }

  lemma AroundExtend(a: Arena, n: nat)
    requires Tiled(a) && a.start > 0 && n >= MIN_ALLOC_SIZE && Extended(a, n).Some?
    ensures Top(a) != NULL && Top(a) !in a.order && At(a.order, |a.order| - 1) != Top(a)
  {
    ExtendTiles(a, n);
    TopIsPositive(a);
    NotAt(a.order, |a.order| - 1, Top(a));
  }

  lemma ExtendOld(mem: Memory, a: Arena, n: nat, k: nat)
    requires Physical(mem, a) && Tiled(a) && a.start > 0 && n >= MIN_ALLOC_SIZE && Extended(a, n).Some? && k < |a.order|
    ensures k < |Extended(a, n).value.order| && BlockOk(ExtendMemory(mem, a, n), Extended(a, n).value, k)
  {
    hide Tiled, Physical, HeaderAt, SizeOf, RoundUp, ExtendWrites, Extended, Top, Distinct, NonNull;
    AroundExtend(a, n);
    ExtendFields(a, n);
    BlockAt(mem, a, k);
    DistinctAt(a.order, k, |a.order| - 1);
    ExtendHeaders(mem, Top(a), RoundUp(n + OVERHEAD) - OVERHEAD, At(a.order, |a.order| - 1), a.order[k]);
  }

  lemma ExtendNew(mem: Memory, a: Arena, n: nat)
    requires Physical(mem, a) && Tiled(a) && a.start > 0 && n >= MIN_ALLOC_SIZE && Extended(a, n).Some?
    ensures |Extended(a, n).value.order| == |a.order| + 1
    ensures BlockOk(ExtendMemory(mem, a, n), Extended(a, n).value, |a.order|)
  {
    hide Tiled, Physical, HeaderAt, SizeOf, RoundUp, ExtendWrites, Extended, Top, Distinct, NonNull;
    AroundExtend(a, n);
    ExtendFields(a, n);
    ExtendHeaders(mem, Top(a), RoundUp(n + OVERHEAD) - OVERHEAD, At(a.order, |a.order| - 1), Top(a));
  }

  lemma ExtendPhysical(mem: Memory, a: Arena, n: nat)
    requires Physical(mem, a) && Tiled(a) && a.start > 0 && n >= MIN_ALLOC_SIZE && Extended(a, n).Some?
    ensures Physical(ExtendMemory(mem, a, n), Extended(a, n).value) && SameLinks(mem, ExtendMemory(mem, a, n))
  {
    hide Tiled, HeaderAt, SizeOf, RoundUp, ExtendWrites, SameLinks, Extended, Top, BlockOk, At;
    AroundExtend(a, n);
    ExtendLinks(mem, Top(a), RoundUp(n + OVERHEAD) - OVERHEAD, At(a.order, |a.order| - 1));
    ExtendNew(mem, a, n);
    forall k: nat | k < |a.order| + 1 ensures BlockOk(ExtendMemory(mem, a, n), Extended(a, n).value, k) {
      if k < |a.order| { ExtendOld(mem, a, n, k); }
    }
  }

  lemma TopIsPositive(a: Arena)
    requires a.start > 0
    ensures Top(a) > 0
  {}

  lemma ExtendFields(a: Arena, n: nat)
    requires Tiled(a) && n >= MIN_ALLOC_SIZE && Extended(a, n).Some?
    ensures var a' := Extended(a, n).value;
      && a'.order == a.order + [Top(a)] && a'.used == a.used - {Top(a)}
      && SizeOf(a', Top(a)) == RoundUp(n + OVERHEAD) - OVERHEAD
      && forall u: nat :: u in a.order ==> SizeOf(a', u) == SizeOf(a, u) && (u in a'.used <==> u in a.used)
  {
    ExtendTiles(a, n);
    hide Tiled;
  }
}
