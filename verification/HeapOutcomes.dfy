/** What malloc and free do with the blocks. */
module HeapOutcomes {
  import opened PriorityOrder
  import opened Rings
  import opened Wrappers
  import opened HeapArena
  import opened HeapInvariant
  import opened HeapSafety

  /** The number of bytes in whole words, at least eight, for a request of n. */
  predicate Words(w: nat, n: nat) { w % 4 == 0 && w >= 8 && n <= w && (w < n + 4 || w == 8) }

  lemma WordsIs(n: nat)
    ensures Words(RoundUp(AtLeast(n)), n) && forall w: nat :: Words(w, n) ==> w == RoundUp(AtLeast(n))
  {}

  /** Block b is the first of the free list with at least n bytes. */
  ghost predicate FirstFit(a: Arena, b: nat, n: nat)
  {
    exists k :: 0 <= k < |a.free| && a.free[k] == b && SizeOf(a, b) >= n &&
      forall j :: 0 <= j < k ==> SizeOf(a, a.free[j]) < n
  }

  lemma {:induction false} FitIsFirst(a: Arena, free: seq<nat>, n: nat) returns (k: nat)
    requires Fit(a, free, n).Some?
    ensures k < |free| && free[k] == Fit(a, free, n).value && forall j :: 0 <= j < k ==> SizeOf(a, free[j]) < n
  {
    if SizeOf(a, free[0]) >= n {
      k := 0;
    } else {
      k := FitIsFirst(a, free[1..], n);
      k := k + 1;
    }
  }

  /** From a to a' block b, which was free, is handed out whole. */
  ghost predicate HandsWhole(a: Arena, a': Arena, b: nat)
  {
    && a'.order == a.order && a'.size == a.size && a'.used == a.used + {b}
    && forall u: nat :: u in a'.free <==> u in a.free && u != b
  }

  /** From a to a' the first w bytes of block b are handed out, and the rest behind them
      is a free block. */
  ghost predicate HandsFront(a: Arena, a': Arena, b: nat, w: nat)
    requires b in a.order
  {
    var rest := b + 12 + w;
    && rest !in a.order && a'.order == InsertAt(a.order, IndexOf(a.order, b) + 1, rest) && a'.used == a.used + {b}
    && SizeOf(a', b) == w && SizeOf(a', rest) + 12 + w == SizeOf(a, b)
    && (forall u: nat :: u in a.order && u != b ==> SizeOf(a', u) == SizeOf(a, u))
    && forall u: nat :: u in a'.free <==> (u in a.free && u != b) || u == rest
  }

  /** From a to a' a block of w bytes is handed out at the end of the taken part. */
  ghost predicate HandsNew(a: Arena, a': Arena, w: nat)
  {
    && a'.order == a.order + [Top(a)] && a'.used == a.used + {Top(a)} && a'.free == a.free && Top(a) !in a.order
    && SizeOf(a', Top(a)) == w && forall u: nat :: u in a.order ==> SizeOf(a', u) == SizeOf(a, u)
  }

  /** With a free block that is large enough, malloc takes the first such one, and cuts it
      if at least 512 bytes would be left over. */
  lemma MallocFromList(a: Arena, n: nat)
    requires WellFormed(a) && exists u: nat :: u in a.free && SizeOf(a, u) >= n && SizeOf(a, u) >= 8
    ensures var (a', r) := Malloc(a, n);
      var m := if n < 8 then 8 else n;
      && r.Some? && FirstFit(a, r.value, m) && r.value in a.order
      && if SizeOf(a, r.value) >= 512 + m then forall w: nat :: Words(w, n) ==> HandsFront(a, a', r.value, w)
         else HandsWhole(a, a', r.value)
  {
    var m := AtLeast(n);
    var u: nat :| u in a.free && SizeOf(a, u) >= n && SizeOf(a, u) >= 8;
    assert Fit(a, a.free, m).Some?;
    var b := Fit(a, a.free, m).value;
    var k := FitIsFirst(a, a.free, m);
    hide WellFormed, Malloc, HandsFront, HandsWhole, Fit;
    MallocFits(a, n, b);
    WordsIs(n);
    if SizeOf(a, b) >= 512 + m { CutHandsFront(a, b, m); } else { WholeIsHanded(a, b); }
  }

  lemma CutHandsFront(a: Arena, b: nat, m: nat)
    requires WellFormed(a) && b in a.free
    requires SizeOf(a, b) >= RoundUp(m) + OVERHEAD + MIN_ALLOC_SIZE && m >= MIN_ALLOC_SIZE
    ensures b in a.order && HandsFront(a, Cut(a, b, m), b, RoundUp(m))
  {
    hide Tiled, Cut, Distinct, RoundUp, SizeOf;
    CutList(a, b, m);
    CutBlocks(a, b, m);
    CutOrder(a, b, m);
  }

  lemma CutOrder(a: Arena, b: nat, m: nat)
    requires WellFormed(a) && b in a.order && b in a.free && SizeOf(a, b) >= RoundUp(m) + OVERHEAD + MIN_ALLOC_SIZE
    ensures var a', rest := Cut(a, b, m), b + OVERHEAD + RoundUp(m);
      && a'.order == InsertAt(a.order, IndexOf(a.order, b) + 1, rest)
      && SizeOf(a', rest) == SizeOf(a, b) - RoundUp(m) - OVERHEAD
  {
    hide Tiled, Freed, Detached, RoundUp, Distinct;
    var a1 := Detached(a, b);
    DetachedFields(a, b);
    TiledFrame(a, a1);
    SplitBlocks(a1, b, m);
    FreedFields(Split(a1, b, m), b + OVERHEAD + RoundUp(m));
  }

  lemma WholeIsHanded(a: Arena, b: nat)
    requires WellFormed(a) && b in a.free
    ensures HandsWhole(a, Taken(Detached(a, b), b), b)
  {
    hide Tiled, Distinct;
    DetachKeepsList(a, b);
  }

  /** Without one, malloc extends the taken part of the arena by just what is needed, and
      fails exactly when that does not fit. */
  lemma MallocAtTheEnd(a: Arena, n: nat, w: nat)
    requires WellFormed(a) && Words(w, n)
    requires forall u: nat :: u in a.free ==> SizeOf(a, u) < n || SizeOf(a, u) < 8
    ensures var (a', r) := Malloc(a, n);
      if Top(a) + 12 + w <= a.start + a.limit then r == Some(Top(a)) && HandsNew(a, a', w)
      else r == None && a' == a
  {
    WordsIs(n);
    assert Fit(a, a.free, AtLeast(n)).None?;
    assert RoundUp(AtLeast(n) + OVERHEAD) == w + OVERHEAD;
    TopIsNew(a);
    hide Tiled, FreeListOk, Top;
  }

  lemma TopIsNew(a: Arena)
    requires WellFormed(a)
    ensures Top(a) !in a.order
  {
    if Top(a) in a.order {
      Aligned(a, IndexOf(a.order, Top(a)));
      assert false;
    }
  }

  // -------------------------------------------------- free

  /** The blocks and their sizes are as before; b and no other is now free, or nothing is. */
  ghost predicate SameBlocks(a: Arena, a': Arena)
  {
    a'.order == a.order && a'.size == a.size
  }

  /** Free puts the block on the free list when its left neighbour is in use; joins it to
      the left neighbour, and never to the right one, when both are free; and otherwise
      changes at most the order of the free list. */
  lemma FreeOutcome(a: Arena, i: nat)
    requires WellFormed(a) && i < |a.order| && a.order[i] in a.used
    ensures var b, a' := a.order[i], Free(a, i);
      var leftFree := i > 0 && a.order[i - 1] in a.free;
      var rightFree := i + 1 < |a.order| && a.order[i + 1] in a.free;
      && (!leftFree ==>
            SameBlocks(a, a') && a'.used == a.used - {b} && forall u: nat :: u in a'.free <==> u in a.free || u == b)
      && (leftFree && rightFree ==>
            && a'.order == RemoveAt(a.order, i) && a'.used == a.used - {b}
            && SizeOf(a', a.order[i - 1]) == SizeOf(a, a.order[i - 1]) + 12 + SizeOf(a, b)
            && (forall u: nat :: u in a.order && u != a.order[i - 1] && u != b ==> SizeOf(a', u) == SizeOf(a, u))
            && forall u: nat :: u in a'.free <==> u in a.free)
      && (leftFree && !rightFree ==>
            SameBlocks(a, a') && a'.used == a.used && forall u: nat :: u in a'.free <==> u in a.free)
  {
    var b := a.order[i];
    NeighboursFree(a, i);
    hide Tiled, Freed, Detached, Distinct, Merged, SizeOf;
    if LeftFree(a, i) && RightFree(a, i) { FreeMerges(a, i); }
    else if LeftFree(a, i) { FreeRelinks(a, a.order[i - 1]); }
    else { FreeLists(a, b); }
  }

  lemma NeighboursFree(a: Arena, i: nat)
    requires WellFormed(a) && i < |a.order|
    ensures LeftFree(a, i) <==> i > 0 && a.order[i - 1] in a.free
    ensures RightFree(a, i) <==> i + 1 < |a.order| && a.order[i + 1] in a.free
  {}

  lemma FreeLists(a: Arena, b: nat)
    requires WellFormed(a) && b in a.used
    ensures var a' := Freed(a, b);
      SameBlocks(a, a') && a'.used == a.used - {b} && forall u: nat :: u in a'.free <==> u in a.free || u == b
  {
    hide Tiled, Freed, Distinct;
    FreedFields(a, b);
    FreedKeepsList(a, b);
  }

  lemma FreeRelinks(a: Arena, left: nat)
    requires WellFormed(a) && left in a.free
    ensures var a' := Freed(Detached(a, left), left);
      SameBlocks(a, a') && a'.used == a.used && forall u: nat :: u in a'.free <==> u in a.free
  {
    hide Tiled, Freed, Detached, Distinct;
    var a1 := Detached(a, left);
    DetachedFields(a, left);
    DetachKeepsList(a, left);
    FreedFields(a1, left);
    FreedKeepsList(a1, left);
  }

  lemma FreeMerges(a: Arena, i: nat)
    requires WellFormed(a) && 0 < i < |a.order| && a.order[i] in a.used && a.order[i - 1] in a.free
    ensures var b, left, a' := a.order[i], a.order[i - 1], Freed(Merged(a, i), a.order[i - 1]);
      && a'.order == RemoveAt(a.order, i) && a'.used == a.used - {b}
      && SizeOf(a', left) == SizeOf(a, left) + 12 + SizeOf(a, b)
      && (forall u: nat :: u in a.order && u != left && u != b ==> SizeOf(a', u) == SizeOf(a, u))
      && forall u: nat :: u in a'.free <==> u in a.free
  {
    hide Tiled, Freed, Detached, Distinct, SizeOf;
    var left, a1 := a.order[i - 1], Merged(a, i);
    MergeBlocks(a, i);
    hide Merged;
    MergedFields(a, i);
    DetachKeepsList(a, left);
    FreedFields(a1, left);
    FreedKeepsList(a1, left);
    MergedSizes(a1, Freed(a1, left));
  }

  // -------------------------------------------------- the last free block

  /** The block that a call takes off the free list. */
  function TakenOff(a: Arena, n: nat): Option<nat> { Fit(a, a.free, AtLeast(n)) }

  predicate IsLast(a: Arena, b: nat) { a.free != [] && a.free[|a.free| - 1] == b }

  /** Which block is the last free one is forgotten exactly when the only free block is
      taken off the list, and found again when the last of several is. */
  lemma TailKnownExactlyWhen(a: Arena, n: nat, i: nat)
    requires WellFormed(a) && i < |a.order| && a.order[i] in a.used
    ensures TakenOff(a, n) == None ==> Malloc(a, n).0.tailKnown == a.tailKnown
    ensures TakenOff(a, n).Some? ==>
      (Malloc(a, n).0.tailKnown <==> |a.free| > 1 && (a.tailKnown || IsLast(a, TakenOff(a, n).value)))
    ensures !LeftFree(a, i) ==> Free(a, i).tailKnown == a.tailKnown
    ensures LeftFree(a, i) ==> (Free(a, i).tailKnown <==> |a.free| > 1 && (a.tailKnown || IsLast(a, a.order[i - 1])))
  {
    NeighboursFree(a, i);
    hide Malloc, Free, Tiled, Distinct, Detached, IsLast;
    if TakenOff(a, n).Some? {
      MallocTail(a, n);
      TailAfterDetach(a, TakenOff(a, n).value);
    } else {
      ExtendTail(a, n);
    }
    FreeTail(a, i);
    if LeftFree(a, i) { TailAfterDetach(a, a.order[i - 1]); }
  }

  lemma MallocTail(a: Arena, n: nat)
    requires WellFormed(a) && TakenOff(a, n).Some?
    ensures TakenOff(a, n).value in a.free
    ensures Malloc(a, n).0.tailKnown == Detached(a, TakenOff(a, n).value).tailKnown
  {
    var b, m := TakenOff(a, n).value, AtLeast(n);
    hide Malloc, Tiled, Distinct, SizeOf, Fit, RoundUp, Detached, Freed;
    MallocFits(a, n, b);
    if SizeOf(a, b) >= MIN_SPLIT_DELTA + m {
      Cuttable(a, b, m);
      FreedFields(Split(Detached(a, b), b, m), b + OVERHEAD + RoundUp(m));
    }
  }

  lemma Cuttable(a: Arena, b: nat, m: nat)
    requires b in a.order && SizeOf(a, b) >= MIN_SPLIT_DELTA + m
    ensures SizeOf(a, b) >= RoundUp(m) + OVERHEAD
    ensures b in Detached(a, b).order && SizeOf(Detached(a, b), b) == SizeOf(a, b)
  {}

  lemma ExtendTail(a: Arena, n: nat)
    requires WellFormed(a) && TakenOff(a, n) == None
    ensures Malloc(a, n).0.tailKnown == a.tailKnown
  {
    hide Tiled, Distinct, SizeOf, RoundUp, Top;
  }

  lemma FreeTail(a: Arena, i: nat)
    requires i < |a.order|
    ensures Free(a, i).tailKnown == if LeftFree(a, i) then Detached(a, a.order[i - 1]).tailKnown else a.tailKnown
  {
    hide Detached, Freed;
    FreedFields(a, a.order[i]);
    if LeftFree(a, i) {
      FreedFields(Merged(a, i), a.order[i - 1]);
      FreedFields(Detached(a, a.order[i - 1]), a.order[i - 1]);
    }
  }

  lemma TailAfterDetach(a: Arena, b: nat)
    requires b in a.free
    ensures Detached(a, b).tailKnown <==> |a.free| > 1 && (a.tailKnown || IsLast(a, b))
  {
    if |a.free| == 1 { assert a.free[0] == b; }
  }
}
