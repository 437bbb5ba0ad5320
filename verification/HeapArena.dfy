/** The allocator of heap.cpp as a state: the blocks in the order of their
    addresses, and the free list. */
module HeapArena {
  import opened PriorityOrder
  import opened Rings
  import opened Wrappers

  /** sizeof(block) without the two links that overlay the data. */
  const OVERHEAD: nat := 12
  const MIN_SPLIT_DELTA: nat := 512
  const MIN_ALLOC_SIZE: nat := 8

  /** Blocks are named by their addresses. tailKnown says that lf points to the
      last free block; otherwise it is NULL. */
  datatype Arena = Arena(
    start: nat,
    limit: nat,
    order: seq<nat>,
    size: map<nat, nat>,
    used: set<nat>,
    free: seq<nat>,
    tailKnown: bool)

  function SizeOf(a: Arena, b: nat): nat { if b in a.size then a.size[b] else 0 }

  function EndOf(a: Arena, b: nat): nat { b + OVERHEAD + SizeOf(a, b) }

  /** The end of the part of the arena taken so far. */
  function Top(a: Arena): nat { if a.order == [] then a.start else EndOf(a, a.order[|a.order| - 1]) }

  function RoundUp(n: nat): (r: nat)
    ensures r % 4 == 0 && n <= r < n + 4
  {
    if n % 4 == 0 then n else n + 4 - n % 4
  }

  // -------------------------------------------------- the free list

  /** find_block */
  function Fit(a: Arena, free: seq<nat>, n: nat): (r: Option<nat>)
    ensures r.Some? ==> r.value in free && SizeOf(a, r.value) >= n
    ensures r.None? ==> forall b :: b in free ==> SizeOf(a, b) < n
  {
    if free == [] then None else if SizeOf(a, free[0]) >= n then Some(free[0]) else Fit(a, free[1..], n)
  }

  /** The walk back from lf over the blocks that are not smaller. */
  function Place(a: Arena, free: seq<nat>, n: nat): (p: nat)
    ensures p <= |free|
    ensures p > 0 ==> SizeOf(a, free[p - 1]) < n
    ensures forall k :: p <= k < |free| ==> SizeOf(a, free[k]) >= n
  {
    if free == [] then 0
    else if SizeOf(a, free[|free| - 1]) >= n then Place(a, free[..|free| - 1], n)
    else |free|
  }

  function Detached(a: Arena, b: nat): Arena
  {
    a.(free := Without(a.free, b),
       tailKnown := if a.free != [] && a.free[|a.free| - 1] == b then |a.free| > 1 else a.tailKnown)
  }

  /** mark_as_free */
  function Freed(a: Arena, b: nat): Arena
  {
    var p := if a.tailKnown then Place(a, a.free, SizeOf(a, b)) else 0;
    a.(used := a.used - {b}, free := InsertAt(a.free, p, b))
  }

  // -------------------------------------------------- malloc

  /** split: the part behind n bytes of data becomes a block of its own. */
  function Split(a: Arena, b: nat, n: nat): Arena
    requires b in a.order && SizeOf(a, b) >= RoundUp(n) + OVERHEAD
  {
    var m := RoundUp(n);
    var rest := b + OVERHEAD + m;
    a.(order := InsertAt(a.order, IndexOf(a.order, b) + 1, rest),
       size := a.size[b := m][rest := SizeOf(a, b) - m - OVERHEAD],
       used := a.used - {rest})
  }

  /** extend_heap */
  function Extended(a: Arena, n: nat): Option<Arena>
  {
    var total := RoundUp(n + OVERHEAD);
    if Top(a) + total > a.start + a.limit then None
    else Some(a.(order := a.order + [Top(a)], size := a.size[Top(a) := total - OVERHEAD], used := a.used - {Top(a)}))
  }

  function Taken(a: Arena, b: nat): Arena { a.(used := a.used + {b}) }

  /** heap_malloc; the result is a block, whose data begins OVERHEAD bytes on. */
  function Malloc(a: Arena, n: nat): (Arena, Option<nat>)
    requires forall b :: b in a.free ==> b in a.order
  {
    var n := if n < MIN_ALLOC_SIZE then MIN_ALLOC_SIZE else n;
    match Fit(a, a.free, n)
    case Some(b) =>
      var a1 := Detached(a, b);
      if SizeOf(a, b) >= MIN_SPLIT_DELTA + n then
        (Taken(Freed(Split(a1, b, n), b + OVERHEAD + RoundUp(n)), b), Some(b))
      else (Taken(a1, b), Some(b))
    case None =>
      match Extended(a, n)
      case Some(a1) => (Taken(a1, Top(a)), Some(Top(a)))
      case None => (a, None)
  }

  // -------------------------------------------------- free

  predicate LeftFree(a: Arena, i: nat)
    requires i < |a.order|
  {
    i > 0 && a.order[i - 1] !in a.used
  }

  predicate RightFree(a: Arena, i: nat)
    requires i < |a.order|
  {
    i + 1 < |a.order| && a.order[i + 1] !in a.used
  }

  /** merge of two neighbours. */
  function Merged(a: Arena, i: nat): Arena
    requires 0 < i < |a.order|
  {
    var left, b := a.order[i - 1], a.order[i];
    Detached(a, left).(order := RemoveAt(a.order, i),
                       size := a.size[left := SizeOf(a, left) + OVERHEAD + SizeOf(a, b)],
                       used := a.used - {b})
  }

  /** heap_free of the i-th block. With a free left and a used right neighbour the
      left one is taken off the free list and put back, and the block itself
      stays as it is. */
  function Free(a: Arena, i: nat): Arena
    requires i < |a.order|
  {
    if LeftFree(a, i) && RightFree(a, i) then Freed(Merged(a, i), a.order[i - 1])
    else if LeftFree(a, i) then Freed(Detached(a, a.order[i - 1]), a.order[i - 1])
    else Freed(a, a.order[i])
  }

  /** heap_init */
  function Init(start: nat, limit: nat): Arena { Arena(start, limit, [], map[], {}, [], false) }
}
