/** What the users of blocks write into their data. */
module HeapWrites {
  import opened PriorityOrder
  import opened HeapArena
  import opened HeapInvariant
  import opened HeapLinks

  /** The word at address x, as seen by every header of which it would be a field. */
  function Poke(mem: Memory, x: nat, v: nat): Memory
    requires x >= 16
  {
    SetSz(SetNext(SetPrev(SetFnext(SetFprev(mem, x - 16, v), x - 12, v), x - 8, v), x - 4, v), x, v)
  }

  lemma PokeHeaders(mem: Memory, x: nat, v: nat, u: nat)
    requires x >= 16
    ensures var h, h' := HeaderAt(mem, u), HeaderAt(Poke(mem, x, v), u);
      && h'.sz == (if u == x then v else h.sz)
      && h'.next == (if u + 4 == x then v else h.next)
      && h'.prev == (if u + 8 == x then v else h.prev)
      && h'.fnext == (if u + 12 == x then v else h.fnext)
      && h'.fprev == (if u + 16 == x then v else h.fprev)
  {}

  /** A word of the data of block b. */
  predicate InData(a: Arena, b: nat, x: nat) { b + OVERHEAD <= x && x + 4 <= EndOf(a, b) }

  /** No field of another header is a word of the data of b, and of b's own header
      only the free links are. */
  lemma DataIsApart(a: Arena, b: nat, x: nat, u: nat)
    requires Tiled(a) && b in a.order && InData(a, b, x) && u in a.order
    ensures x != u && x != u + 4 && x != u + 8
    ensures u != b ==> x != u + 12 && x != u + 16
  {
    var i, j := IndexOf(a.order, b), IndexOf(a.order, u);
    assert WholeWords(SizeOf(a, a.order[j]));
    if i < j { Increasing(a, i, j); } else if j < i { Increasing(a, j, i); }
  }
}
