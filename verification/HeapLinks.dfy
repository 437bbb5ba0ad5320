/** Block headers in memory, and when they represent an arena. */
module HeapLinks {
  import opened PriorityOrder
  import opened Rings
  import opened HeapArena

  const NULL: nat := 0

  /** sz carries the used flag in its lowest bit; the free links overlay the data
      and mean something only in a free block. */
  datatype Header = Header(sz: nat, next: nat, prev: nat, fnext: nat, fprev: nat)

  type Memory = map<nat, Header>

  /** Whatever lies at an address, read as a header. */
  function HeaderAt(mem: Memory, b: nat): Header { if b in mem then mem[b] else Header(0, 0, 0, 0, 0) }

  function At(s: seq<nat>, k: int): nat { if 0 <= k < |s| then s[k] else NULL }

  function Flag(used: bool): nat { if used then 1 else 0 }

  ghost predicate BlockIs(h: Header, sz: nat, next: nat, prev: nat) { h.sz == sz && h.next == next && h.prev == prev }

  /** The header of the k-th block: size and flag, and the links of the physical
      list. */
  ghost predicate BlockOk(mem: Memory, a: Arena, k: nat)
    requires k < |a.order|
  {
    BlockIs(HeaderAt(mem, a.order[k]), SizeOf(a, a.order[k]) + Flag(a.order[k] in a.used), At(a.order, k + 1),
            At(a.order, k - 1))
  }

  ghost predicate Physical(mem: Memory, a: Arena)
  {
    forall k: nat :: k < |a.order| ==> BlockOk(mem, a, k)
  }

  ghost predicate LinkIs(h: Header, fnext: nat, fprev: nat) { h.fnext == fnext && h.fprev == fprev }

  /** The links of the free list. */
  ghost predicate FreeLinks(mem: Memory, free: seq<nat>)
  {
    forall k :: 0 <= k < |free| ==> LinkIs(HeaderAt(mem, free[k]), At(free, k + 1), At(free, k - 1))
  }

  ghost predicate NonNull(s: seq<nat>) { forall k :: 0 <= k < |s| ==> s[k] != NULL }

  // -------------------------------------------------- single writes

  function SetNext(mem: Memory, b: nat, x: nat): Memory { mem[b := HeaderAt(mem, b).(next := x)] }
  function SetPrev(mem: Memory, b: nat, x: nat): Memory { mem[b := HeaderAt(mem, b).(prev := x)] }
  function SetFnext(mem: Memory, b: nat, x: nat): Memory { mem[b := HeaderAt(mem, b).(fnext := x)] }
  function SetFprev(mem: Memory, b: nat, x: nat): Memory { mem[b := HeaderAt(mem, b).(fprev := x)] }
  function SetSz(mem: Memory, b: nat, x: nat): Memory { mem[b := HeaderAt(mem, b).(sz := x)] }

  /** head.parts.used = 0 */
  function ClearUsed(mem: Memory, b: nat): Memory { SetSz(mem, b, HeaderAt(mem, b).sz - HeaderAt(mem, b).sz % 2) }

  /** Only free links differ. */
  ghost predicate SameBlocks(mem: Memory, mem': Memory)
  {
    forall b :: BlockIs(HeaderAt(mem', b), HeaderAt(mem, b).sz, HeaderAt(mem, b).next, HeaderAt(mem, b).prev)
  }

  lemma PhysicalFrame(mem: Memory, mem': Memory, a: Arena, a': Arena)
    requires Physical(mem, a) && SameBlocks(mem, mem') && a'.order == a.order && a'.size == a.size && a'.used == a.used
    ensures Physical(mem', a')
  {
    forall k: nat | k < |a'.order| ensures BlockOk(mem', a', k) { assert BlockOk(mem, a, k); }
  }

  lemma FreeLinksFrame(mem: Memory, mem': Memory, free: seq<nat>)
    requires FreeLinks(mem, free)
    requires forall b :: b in free ==> LinkIs(HeaderAt(mem', b), HeaderAt(mem, b).fnext, HeaderAt(mem, b).fprev)
    ensures FreeLinks(mem', free)
  {}

  // -------------------------------------------------- the free list

  /** The writes of detach. */
  function Unlinked(mem: Memory, prev: nat, next: nat): Memory
  {
    var mem1 := if prev != NULL then SetFnext(mem, prev, next) else mem;
    if next != NULL then SetFprev(mem1, next, prev) else mem1
  }

  lemma UnlinkedHeaders(mem: Memory, prev: nat, next: nat, b: nat)
    requires b != NULL && (prev == next ==> prev == NULL)
    ensures var h, h' := HeaderAt(mem, b), HeaderAt(Unlinked(mem, prev, next), b);
      h'.fnext == (if b == prev then next else h.fnext) && h'.fprev == (if b == next then prev else h.fprev)
  {}

  lemma UnlinkedBlocks(mem: Memory, prev: nat, next: nat)
    ensures SameBlocks(mem, Unlinked(mem, prev, next))
  {}

  /** Neighbours after the removal of the k-th member. */
  lemma RemovedNeighbours(s: seq<nat>, k: nat, j: nat)
    requires k < |s| && j < |s| - 1
    ensures var r, i := RemoveAt(s, k), if j < k then j else j + 1;
      && r[j] == s[i]
      && At(r, j + 1) == (if i == k - 1 then At(s, k + 1) else At(s, i + 1))
      && At(r, j - 1) == (if i == k + 1 then At(s, k - 1) else At(s, i - 1))
  {}

  lemma DistinctAt(s: seq<nat>, i: nat, j: int)
    requires Distinct(s) && NonNull(s) && i < |s|
    ensures s[i] == At(s, j) <==> i == j
  {}

  lemma UnlinkFree(mem: Memory, free: seq<nat>, k: nat)
    requires FreeLinks(mem, free) && k < |free| && Distinct(free) && NonNull(free)
    ensures var mem' := Unlinked(mem, At(free, k - 1), At(free, k + 1));
      FreeLinks(mem', RemoveAt(free, k)) && SameBlocks(mem, mem')
  {
    hide HeaderAt, Unlinked, At, Distinct, NonNull, SameBlocks;
    var prev, next := At(free, k - 1), At(free, k + 1);
    UnlinkedBlocks(mem, prev, next);
    forall j | 0 <= j < |free| - 1
      ensures LinkIs(HeaderAt(Unlinked(mem, prev, next), RemoveAt(free, k)[j]), At(RemoveAt(free, k), j + 1),
                     At(RemoveAt(free, k), j - 1))
    {
      UnlinkOne(mem, free, k, j);
    }
  }

  lemma UnlinkOne(mem: Memory, free: seq<nat>, k: nat, j: nat)
    requires FreeLinks(mem, free) && k < |free| && Distinct(free) && NonNull(free) && j < |free| - 1
    ensures var mem', r := Unlinked(mem, At(free, k - 1), At(free, k + 1)), RemoveAt(free, k);
      LinkIs(HeaderAt(mem', r[j]), At(r, j + 1), At(r, j - 1))
  {
    var i := if j < k then j else j + 1;
    assert free[i] != NULL;
    NoNeighbourTwice(free, k);
    hide HeaderAt, Unlinked, At, Distinct, NonNull, RemoveAt;
    RemovedNeighbours(free, k, j);
    DistinctAt(free, i, k - 1);
    DistinctAt(free, i, k + 1);
    UnlinkedHeaders(mem, At(free, k - 1), At(free, k + 1), free[i]);
  }

  lemma NoNeighbourTwice(s: seq<nat>, k: nat)
    requires Distinct(s) && NonNull(s) && k < |s|
    ensures At(s, k - 1) == At(s, k + 1) ==> At(s, k - 1) == NULL
  {}

  /** The writes that put b between two blocks of the free list. */
  function Linked(mem: Memory, b: nat, prev: nat, next: nat): Memory
  {
    var mem0 := mem[b := HeaderAt(mem, b).(fnext := next, fprev := prev)];
    var mem1 := if next != NULL then SetFprev(mem0, next, b) else mem0;
    if prev != NULL then SetFnext(mem1, prev, b) else mem1
  }

  lemma LinkedHeaders(mem: Memory, b: nat, prev: nat, next: nat, u: nat)
    requires b != NULL && b != prev && b != next && (prev == next ==> prev == NULL)
    ensures var h, h' := HeaderAt(mem, u), HeaderAt(Linked(mem, b, prev, next), u);
      u != NULL ==>
        && h'.fnext == (if u == b then next else if u == prev then b else h.fnext)
        && h'.fprev == (if u == b then prev else if u == next then b else h.fprev)
  {}

  lemma LinkedBlocks(mem: Memory, b: nat, prev: nat, next: nat)
    ensures SameBlocks(mem, Linked(mem, b, prev, next))
  {}

  /** Neighbours after an insertion at p. */
  lemma InsertedNeighbours(s: seq<nat>, p: nat, b: nat, j: nat)
    requires p <= |s| && j <= |s|
    ensures var r, i := InsertAt(s, p, b), if j < p then j else j - 1;
      if j == p then r[j] == b && At(r, j + 1) == At(s, p) && At(r, j - 1) == At(s, p - 1)
      else
        && r[j] == s[i]
        && At(r, j + 1) == (if i == p - 1 then b else At(s, i + 1))
        && At(r, j - 1) == (if i == p then b else At(s, i - 1))
  {}

  lemma LinkOne(mem: Memory, free: seq<nat>, p: nat, b: nat, j: nat)
    requires FreeLinks(mem, free) && p <= |free| && Distinct(free)
    requires NonNull(free) && b != NULL && b !in free && j <= |free|
    ensures var mem', r := Linked(mem, b, At(free, p - 1), At(free, p)), InsertAt(free, p, b);
      LinkIs(HeaderAt(mem', r[j]), At(r, j + 1), At(r, j - 1))
  {
    var i := if j < p then j else j - 1;
    assert b != At(free, p - 1) && b != At(free, p);
    assert At(free, p - 1) == At(free, p) ==> At(free, p) == NULL;
    assert j != p ==> free[i] != NULL && free[i] != b;
    assert j != p ==> LinkIs(HeaderAt(mem, free[i]), At(free, i + 1), At(free, i - 1));
    hide HeaderAt, Linked, At, Distinct, NonNull, InsertAt, FreeLinks;
    InsertedNeighbours(free, p, b, j);
    if j != p {
      DistinctAt(free, i, p - 1);
      DistinctAt(free, i, p);
    }
    LinkedHeaders(mem, b, At(free, p - 1), At(free, p), if j == p then b else free[i]);
  }

  lemma LinkFree(mem: Memory, free: seq<nat>, p: nat, b: nat)
    requires FreeLinks(mem, free) && p <= |free| && Distinct(free) && NonNull(free) && b != NULL && b !in free
    ensures var mem' := Linked(mem, b, At(free, p - 1), At(free, p));
      FreeLinks(mem', InsertAt(free, p, b)) && SameBlocks(mem, mem')
  {
    hide HeaderAt, Linked, At, Distinct, NonNull, SameBlocks;
    var prev, next := At(free, p - 1), At(free, p);
    LinkedBlocks(mem, b, prev, next);
    forall j | 0 <= j <= |free|
      ensures LinkIs(HeaderAt(Linked(mem, b, prev, next), InsertAt(free, p, b)[j]), At(InsertAt(free, p, b), j + 1),
                     At(InsertAt(free, p, b), j - 1))
    {
      LinkOne(mem, free, p, b, j);
    }
  }
}
