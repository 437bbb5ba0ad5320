/** Rings threaded through the NEXT and PREV fields of their members, any number of
    them side by side: the wait queues and the sleep queue of the scheduler, the
    LRU ring and the hash buckets of the block cache. */
module LinkedRings {
  import opened PriorityOrder
  import opened Rings
  import opened Wrappers

  /** What a link field can refer to: an element, or the header of a ring. */
  datatype Ref<H> = Elem(n: nat) | Head(h: H)

  /** All link fields. One that was never written refers to its own node, as
      initialisation leaves it. */
  datatype Links<H(==)> = Links(next: map<Ref<H>, Ref<H>>, prev: map<Ref<H>, Ref<H>>)

  function NextOf<H(==)>(l: Links<H>, r: Ref<H>): Ref<H> { if r in l.next then l.next[r] else r }
  function PrevOf<H(==)>(l: Links<H>, r: Ref<H>): Ref<H> { if r in l.prev then l.prev[r] else r }
  function SetNext<H(==)>(l: Links<H>, r: Ref<H>, x: Ref<H>): Links<H> { l.(next := l.next[r := x]) }
  function SetPrev<H(==)>(l: Links<H>, r: Ref<H>, x: Ref<H>): Links<H> { l.(prev := l.prev[r := x]) }

  /** The k-th place of the ring of header h; the header is in front of the first
      element and behind the last. */
  function Place<H>(h: H, ring: seq<nat>, k: int): Ref<H> { if 0 <= k < |ring| then Elem(ring[k]) else Head(h) }

  /** Along the ring NEXT goes one step forward and PREV one step back. */
  ghost predicate Linked<H>(l: Links<H>, h: H, ring: seq<nat>)
  {
    && NextOf(l, Head(h)) == Place(h, ring, 0) && PrevOf(l, Head(h)) == Place(h, ring, |ring| - 1)
    && forall k {:trigger ring[k]} :: 0 <= k < |ring| ==>
         NextOf(l, Elem(ring[k])) == Place(h, ring, k + 1) && PrevOf(l, Elem(ring[k])) == Place(h, ring, k - 1)
  }

  /** A member of no ring, linked to itself. */
  predicate Alone<H(==)>(l: Links<H>, n: nat) { NextOf(l, Elem(n)) == Elem(n) == PrevOf(l, Elem(n)) }

  // -------------------------------------------------- removing

  /** The two writes that unlink what stands between p and q. */
  function Unlinked<H(==)>(l: Links<H>, p: Ref<H>, q: Ref<H>): Links<H> { SetPrev(SetNext(l, p, q), q, p) }

  lemma UnlinkedAt<H>(l: Links<H>, p: Ref<H>, q: Ref<H>, r: Ref<H>)
    ensures NextOf(Unlinked(l, p, q), r) == if r == p then q else NextOf(l, r)
    ensures PrevOf(Unlinked(l, p, q), r) == if r == q then p else PrevOf(l, r)
  {}

  /** Places after the removal of the k-th element. */
  lemma RemovedPlaces<H>(h: H, ring: seq<nat>, k: nat, j: nat)
    requires k < |ring| && j < |ring| - 1
    ensures var r, i := RemoveAt(ring, k), if j < k then j else j + 1;
      && r[j] == ring[i] && i != k
      && Place(h, r, j + 1) == (if i == k - 1 then Place(h, ring, k + 1) else Place(h, ring, i + 1))
      && Place(h, r, j - 1) == (if i == k + 1 then Place(h, ring, k - 1) else Place(h, ring, i - 1))
  {}

  lemma DistinctPlace<H>(h: H, ring: seq<nat>, i: nat, j: int)
    requires Distinct(ring) && i < |ring|
    ensures Elem(ring[i]) == Place(h, ring, j) <==> i == j
  {}

  lemma UnlinkOwn<H>(l: Links<H>, h: H, ring: seq<nat>, k: nat)
    requires Linked(l, h, ring) && Distinct(ring) && k < |ring|
    ensures Linked(Unlinked(l, Place(h, ring, k - 1), Place(h, ring, k + 1)), h, RemoveAt(ring, k))
  {
    var l', r := Unlinked(l, Place(h, ring, k - 1), Place(h, ring, k + 1)), RemoveAt(ring, k);
    assert NextOf(l', Head(h)) == Place(h, r, 0) && PrevOf(l', Head(h)) == Place(h, r, |r| - 1);
    hide Unlinked, Place, Distinct, NextOf, PrevOf;
    forall j | 0 <= j < |r|
      ensures NextOf(l', Elem(r[j])) == Place(h, r, j + 1) && PrevOf(l', Elem(r[j])) == Place(h, r, j - 1)
    {
      UnlinkOne(l, h, ring, k, j);
    }
  }

  lemma UnlinkOne<H>(l: Links<H>, h: H, ring: seq<nat>, k: nat, j: nat)
    requires Linked(l, h, ring) && Distinct(ring) && k < |ring| && j < |ring| - 1
    ensures var l', r := Unlinked(l, Place(h, ring, k - 1), Place(h, ring, k + 1)), RemoveAt(ring, k);
      NextOf(l', Elem(r[j])) == Place(h, r, j + 1) && PrevOf(l', Elem(r[j])) == Place(h, r, j - 1)
  {
    hide Unlinked, Place, Distinct, NextOf, PrevOf, RemoveAt;
    var i := if j < k then j else j + 1;
    RemovedPlaces(h, ring, k, j);
    DistinctPlace(h, ring, i, k - 1);
    DistinctPlace(h, ring, i, k + 1);
    UnlinkedAt(l, Place(h, ring, k - 1), Place(h, ring, k + 1), Elem(ring[i]));
  }

  /** A ring that holds neither p nor q. */
  ghost predicate Off<H>(h: H, ring: seq<nat>, r: Ref<H>)
  {
    r != Head(h) && forall k :: 0 <= k < |ring| ==> r != Elem(ring[k])
  }

  lemma UnlinkOther<H>(l: Links<H>, h: H, ring: seq<nat>, p: Ref<H>, q: Ref<H>)
    requires Linked(l, h, ring) && Off(h, ring, p) && Off(h, ring, q)
    ensures Linked(Unlinked(l, p, q), h, ring)
  {}

  // -------------------------------------------------- inserting

  /** The four writes that put n between p and q. */
  function LinkedIn<H(==)>(l: Links<H>, p: Ref<H>, n: Ref<H>, q: Ref<H>): Links<H>
  {
    SetPrev(SetNext(SetPrev(SetNext(l, p, n), n, p), n, q), q, n)
  }

  lemma LinkedInAt<H>(l: Links<H>, p: Ref<H>, n: Ref<H>, q: Ref<H>, r: Ref<H>)
    requires n != p && n != q
    ensures NextOf(LinkedIn(l, p, n, q), r) == if r == n then q else if r == p then n else NextOf(l, r)
    ensures PrevOf(LinkedIn(l, p, n, q), r) == if r == n then p else if r == q then n else PrevOf(l, r)
  {}

  /** Places after an insertion at k. */
  lemma InsertedPlaces<H>(h: H, ring: seq<nat>, k: nat, n: nat, j: nat)
    requires k <= |ring| && j <= |ring|
    ensures var r, i := InsertAt(ring, k, n), if j < k then j else j - 1;
      if j == k then r[j] == n && Place(h, r, j + 1) == Place(h, ring, k) && Place(h, r, j - 1) == Place(h, ring, k - 1)
      else
        && r[j] == ring[i]
        && Place(h, r, j + 1) == (if i == k - 1 then Elem(n) else Place(h, ring, i + 1))
        && Place(h, r, j - 1) == (if i == k then Elem(n) else Place(h, ring, i - 1))
  {}

  lemma NewPlace<H>(h: H, ring: seq<nat>, n: nat, j: int)
    requires n !in ring
    ensures Elem(n) != Place(h, ring, j)
  {}

  lemma LinkOwn<H>(l: Links<H>, h: H, ring: seq<nat>, k: nat, n: nat)
    requires Linked(l, h, ring) && Distinct(ring) && k <= |ring| && n !in ring
    ensures Linked(LinkedIn(l, Place(h, ring, k - 1), Elem(n), Place(h, ring, k)), h, InsertAt(ring, k, n))
  {
    hide LinkedIn, Distinct, NextOf, PrevOf;
    var l', r := LinkedIn(l, Place(h, ring, k - 1), Elem(n), Place(h, ring, k)), InsertAt(ring, k, n);
    NewPlace(h, ring, n, k - 1);
    NewPlace(h, ring, n, k);
    LinkedInAt(l, Place(h, ring, k - 1), Elem(n), Place(h, ring, k), Head(h));
    assert NextOf(l', Head(h)) == Place(h, r, 0) && PrevOf(l', Head(h)) == Place(h, r, |r| - 1);
    hide Place;
    forall j | 0 <= j < |r|
      ensures NextOf(l', Elem(r[j])) == Place(h, r, j + 1) && PrevOf(l', Elem(r[j])) == Place(h, r, j - 1)
    {
      LinkOne(l, h, ring, k, n, j);
    }
  }

  lemma LinkOne<H>(l: Links<H>, h: H, ring: seq<nat>, k: nat, n: nat, j: nat)
    requires Linked(l, h, ring) && Distinct(ring) && k <= |ring| && n !in ring && j <= |ring|
    ensures var l', r := LinkedIn(l, Place(h, ring, k - 1), Elem(n), Place(h, ring, k)), InsertAt(ring, k, n);
      NextOf(l', Elem(r[j])) == Place(h, r, j + 1) && PrevOf(l', Elem(r[j])) == Place(h, r, j - 1)
  {
    hide LinkedIn, Place, Distinct, NextOf, PrevOf, InsertAt;
    var i := if j < k then j else j - 1;
    InsertedPlaces(h, ring, k, n, j);
    NewPlace(h, ring, n, k - 1);
    NewPlace(h, ring, n, k);
    if j != k {
      DistinctPlace(h, ring, i, k - 1);
      DistinctPlace(h, ring, i, k);
      assert ring[i] in ring;
    }
    LinkedInAt(l, Place(h, ring, k - 1), Elem(n), Place(h, ring, k), if j == k then Elem(n) else Elem(ring[i]));
  }

  lemma LinkOther<H>(l: Links<H>, h: H, ring: seq<nat>, p: Ref<H>, n: nat, q: Ref<H>)
    requires Linked(l, h, ring) && Off(h, ring, p) && Off(h, ring, q) && n !in ring
    ensures Linked(LinkedIn(l, p, Elem(n), q), h, ring)
  {
    forall k | 0 <= k < |ring| ensures ring[k] != n { assert ring[k] in ring; }
  }

  // -------------------------------------------------- the table

  function RingOf<H(==)>(rings: map<H, seq<nat>>, h: H): seq<nat> { if h in rings then rings[h] else [] }

  /** The links hold exactly these rings, which share no member. */
  ghost predicate Holds<H(!new)>(l: Links<H>, rings: map<H, seq<nat>>)
  {
    && (forall h :: Distinct(RingOf(rings, h)) && Linked(l, h, RingOf(rings, h)))
    && (forall h, g, n: nat :: n in RingOf(rings, h) && n in RingOf(rings, g) ==> h == g)
  }

  ghost predicate OnNone<H(!new)>(rings: map<H, seq<nat>>, n: nat) { forall h :: n !in RingOf(rings, h) }

  function WithoutAll<H(==)>(rings: map<H, seq<nat>>, n: nat): map<H, seq<nat>>
  {
    map h | h in rings :: Without(rings[h], n)
  }

  lemma WithoutAllAt<H>(rings: map<H, seq<nat>>, n: nat, h: H)
    ensures RingOf(WithoutAll(rings, n), h) == Without(RingOf(rings, h), n)
  {}

  /** A place of one ring is on no other. */
  lemma PlaceIsOff<H(!new)>(l: Links<H>, rings: map<H, seq<nat>>, h: H, k: int, g: H)
    requires Holds(l, rings) && g != h
    ensures Off(g, RingOf(rings, g), Place(h, RingOf(rings, h), k))
  {
    var ring, other := RingOf(rings, h), RingOf(rings, g);
    if 0 <= k < |ring| {
      assert ring[k] in ring;
      forall j | 0 <= j < |other| ensures other[j] != ring[k] { assert other[j] in other; }
    }
  }

  /** Taking the k-th element out of ring h. */
  lemma RemoveKeeps<H(!new)>(l: Links<H>, rings: map<H, seq<nat>>, h: H, k: nat)
    requires Holds(l, rings) && k < |RingOf(rings, h)|
    ensures var ring := RingOf(rings, h);
      Holds(Unlinked(l, Place(h, ring, k - 1), Place(h, ring, k + 1)), WithoutAll(rings, ring[k]))
  {
    var ring := RingOf(rings, h);
    var n, l' := ring[k], Unlinked(l, Place(h, ring, k - 1), Place(h, ring, k + 1));
    assert n in ring && IndexOf(ring, n) == k;
    forall g ensures Distinct(RingOf(WithoutAll(rings, n), g)) && Linked(l', g, RingOf(WithoutAll(rings, n), g)) {
      WithoutAllAt(rings, n, g);
      WithoutMembers(RingOf(rings, g), n);
      hide Linked, Unlinked, Holds;
      RemoveFrom(l, rings, h, k, g);
    }
    hide Linked, Unlinked;
    forall g, g', u: nat | u in RingOf(WithoutAll(rings, n), g) && u in RingOf(WithoutAll(rings, n), g')
      ensures g == g'
    {
      WithoutAllAt(rings, n, g);
      WithoutAllAt(rings, n, g');
      WithoutMembers(RingOf(rings, g), n);
      WithoutMembers(RingOf(rings, g'), n);
    }
  }

  lemma RemoveFrom<H(!new)>(l: Links<H>, rings: map<H, seq<nat>>, h: H, k: nat, g: H)
    requires Holds(l, rings) && k < |RingOf(rings, h)|
    ensures var ring := RingOf(rings, h);
      Linked(Unlinked(l, Place(h, ring, k - 1), Place(h, ring, k + 1)), g, Without(RingOf(rings, g), ring[k]))
  {
    var ring := RingOf(rings, h);
    assert ring[k] in ring && Linked(l, g, RingOf(rings, g)) && Distinct(ring);
    if g == h {
      FirstPlace(ring, k);
      hide Linked, Unlinked;
      UnlinkOwn(l, h, ring, k);
    } else {
      PlaceIsOff(l, rings, h, k - 1, g);
      PlaceIsOff(l, rings, h, k + 1, g);
      assert ring[k] !in RingOf(rings, g);
      hide Linked, Unlinked, Holds;
      UnlinkOther(l, g, RingOf(rings, g), Place(h, ring, k - 1), Place(h, ring, k + 1));
    }
  }

  lemma FirstPlace(ring: seq<nat>, k: nat)
    requires Distinct(ring) && k < |ring|
    ensures IndexOf(ring, ring[k]) == k && Without(ring, ring[k]) == RemoveAt(ring, k)
  {
    assert ring[k] in ring;
  }

  /** Putting n at place k of ring h. */
  lemma InsertKeeps<H(!new)>(l: Links<H>, rings: map<H, seq<nat>>, h: H, k: nat, n: nat)
    requires Holds(l, rings) && k <= |RingOf(rings, h)| && OnNone(rings, n)
    ensures var ring := RingOf(rings, h);
      Holds(LinkedIn(l, Place(h, ring, k - 1), Elem(n), Place(h, ring, k)), rings[h := InsertAt(ring, k, n)])
  {
    var ring := RingOf(rings, h);
    var rings' := rings[h := InsertAt(ring, k, n)];
    hide Linked, LinkedIn, Place, InsertAt, RingOf, Distinct;
    forall g, u: nat ensures u in RingOf(rings', g) ==> u in RingOf(rings, g) || (g == h && u == n) {
      InsertedMember(rings, h, k, n, g, u);
    }
    forall g
      ensures Distinct(RingOf(rings', g))
      ensures Linked(LinkedIn(l, Place(h, ring, k - 1), Elem(n), Place(h, ring, k)), g, RingOf(rings', g))
    {
      InsertInto(l, rings, h, k, n, g);
    }
  }

  lemma InsertedMember<H(!new)>(rings: map<H, seq<nat>>, h: H, k: nat, n: nat, g: H, u: nat)
    requires k <= |RingOf(rings, h)|
    ensures u in RingOf(rings[h := InsertAt(RingOf(rings, h), k, n)], g) <==>
      u in RingOf(rings, g) || (g == h && u == n)
  {
    InsertAtMembers(RingOf(rings, h), k, n);
  }

  lemma InsertInto<H(!new)>(l: Links<H>, rings: map<H, seq<nat>>, h: H, k: nat, n: nat, g: H)
    requires Holds(l, rings) && k <= |RingOf(rings, h)| && OnNone(rings, n)
    ensures var ring := RingOf(rings, h);
      && Linked(LinkedIn(l, Place(h, ring, k - 1), Elem(n), Place(h, ring, k)), g,
        RingOf(rings[h := InsertAt(ring, k, n)], g))
      && Distinct(RingOf(rings[h := InsertAt(ring, k, n)], g))
  {
    hide Linked, LinkedIn, Place, InsertAt, Distinct;
    var ring := RingOf(rings, h);
    assert Linked(l, g, RingOf(rings, g)) && n !in RingOf(rings, g) && Distinct(RingOf(rings, g));
    if g == h {
      InsertAtDistinct(ring, k, n);
      LinkOwn(l, h, ring, k, n);
    } else {
      PlaceIsOff(l, rings, h, k - 1, g);
      PlaceIsOff(l, rings, h, k, g);
      LinkOther(l, g, RingOf(rings, g), Place(h, ring, k - 1), n, Place(h, ring, k));
    }
  }

  /** Rewriting the links of an element of no ring, or unlinking one that is alone. */
  lemma LooseWrite<H(!new)>(l: Links<H>, rings: map<H, seq<nat>>, n: nat, p: Ref<H>, q: Ref<H>)
    requires Holds(l, rings) && OnNone(rings, n)
    ensures Holds(SetPrev(SetNext(l, Elem(n), p), Elem(n), q), rings)
  {
    var l' := SetPrev(SetNext(l, Elem(n), p), Elem(n), q);
    forall h ensures Linked(l', h, RingOf(rings, h)) {
      var ring := RingOf(rings, h);
      assert Linked(l, h, ring) && n !in ring;
      forall k | 0 <= k < |ring| ensures ring[k] != n { assert ring[k] in ring; }
    }
  }

  class RingTable<H(==, !new)> {
    var next: map<Ref<H>, Ref<H>>
    var prev: map<Ref<H>, Ref<H>>
    ghost var rings: map<H, seq<nat>>

    function Table(): Links<H>
      reads this
    {
      Links(next, prev)
    }

    ghost function Ring(h: H): seq<nat>
      reads `rings
    {
      RingOf(rings, h)
    }

    ghost predicate Valid()
      reads this
    {
      Holds(Table(), rings)
    }

    /** An element is on a ring or linked to itself, so that removing it is safe. */
    ghost predicate Settled(n: nat)
      reads this
    {
      OnNone(rings, n) ==> Alone(Table(), n)
    }

    /** Every node is initialised: it refers to itself. */
    constructor ()
      ensures Valid() && rings == map[] && forall n :: Settled(n)
    {
      next, prev, rings := map[], map[], map[];
    }

    /** init of a new element. */
    method Detach(n: nat)
      requires Valid() && OnNone(rings, n)
      modifies `next, `prev
      ensures Valid() && Settled(n) && forall u :: old(Settled(u)) ==> Settled(u)
    {
      LooseWrite(Table(), rings, n, Elem(n), Elem(n));
      next := next[Elem(n) := Elem(n)];
      prev := prev[Elem(n) := Elem(n)];
    }

    /** The first element, if any. */
    method First(h: H) returns (r: Option<nat>)
      requires Valid()
      ensures r == if Ring(h) == [] then None else Some(Ring(h)[0])
    {
      assert Linked(Table(), h, Ring(h));
      var node := if Head(h) in next then next[Head(h)] else Head(h);
      r := if node.Elem? then Some(node.n) else None;
    }

    /** remove: what refers to n is made to refer past it. */
    method Remove(n: nat)
      requires Valid() && Settled(n)
      modifies this
      ensures Valid() && rings == WithoutAll(old(rings), n) && OnNone(rings, n)
      ensures forall u :: u != n && old(Settled(u)) ==> Settled(u)
      ensures old(OnNone(rings, n)) ==> Settled(n)
    {
      var prevNode := if Elem(n) in prev then prev[Elem(n)] else Elem(n);
      var nextNode := if Elem(n) in next then next[Elem(n)] else Elem(n);
      ghost var l := Table();
      next := next[prevNode := nextNode];
      prev := prev[nextNode := prevNode];
      assert Table() == Unlinked(l, prevNode, nextNode);
      RemoveEffect(l, rings, n);
      rings := WithoutAll(rings, n);
    }

    /** The walk back from the tail to the first element that n is not before. */
    method Walk(n: nat, h: H, key: map<nat, int>, lt: Before) returns (node1: Ref<H>, node2: Ref<H>, ghost p: nat)
      requires Valid() && StrictWeak(lt) && Sorted(KeysBy(Ring(h), key), lt)
      ensures p == Slot(KeysBy(Ring(h), key), KeyOf(n, key), lt)
      ensures node1 == Place(h, Ring(h), p - 1) && node2 == Place(h, Ring(h), p)
    {
      hide Holds, Sorted, Slot, Linked, KeyOf, StrictWeak, KeysBy, RingOf;
      ghost var ring, keys := Ring(h), KeysBy(Ring(h), key);
      p := |ring|;
      HeldRing(Table(), rings, h);
      StepBack(Table(), h, ring, p);
      node2 := Head(h);
      node1 := if node2 in prev then prev[node2] else node2;
      while node1.Elem? && lt(KeyOf(n, key), KeyOf(node1.n, key))
        invariant p <= |ring| && node1 == Place(h, ring, p - 1) && node2 == Place(h, ring, p)
        invariant forall i :: p <= i < |ring| ==> lt(KeyOf(n, key), keys[i])
        decreases p
      {
        p := p - 1;
        assert keys[p] == KeyOf(ring[p], key);
        StepBack(Table(), h, ring, p);
        node2 := node1;
        node1 := if node2 in prev then prev[node2] else node2;
      }
      assert p > 0 ==> keys[p - 1] == KeyOf(ring[p - 1], key);
      EndOfWalk(keys, KeyOf(n, key), lt, p);
    }

    /** insert: the walk, and the four writes that put n where it ends. */
    method Insert(n: nat, h: H, key: map<nat, int>, lt: Before)
      requires Valid() && OnNone(rings, n) && StrictWeak(lt) && Sorted(KeysBy(Ring(h), key), lt)
      modifies this
      ensures Valid() && rings == old(rings)[h := Enqueued(old(Ring(h)), n, key, lt)]
      ensures Settled(n) && forall u :: old(Settled(u)) ==> Settled(u)
    {
      var node1, node2, p := Walk(n, h, key, lt);
      PutBetween(node1, n, node2, h, p);
    }

    /** The four writes of an insertion. */
    method PutBetween(node1: Ref<H>, n: nat, node2: Ref<H>, ghost h: H, ghost k: nat)
      requires Valid() && OnNone(rings, n) && k <= |Ring(h)|
      requires node1 == Place(h, Ring(h), k - 1) && node2 == Place(h, Ring(h), k)
      modifies this
      ensures Valid() && rings == old(rings)[h := InsertAt(old(Ring(h)), k, n)]
      ensures Settled(n) && forall u :: old(Settled(u)) ==> Settled(u)
    {
      hide Holds, InsertAt, OnNone, Place;
      ghost var l := Table();
      InsertKeeps(l, rings, h, k, n);
      InsertLeavesAlone(l, rings, h, k, n);
      InsertMembers(rings, h, k, n);
      next := next[node1 := Elem(n)];
      prev := prev[Elem(n) := node1];
      next := next[Elem(n) := node2];
      prev := prev[node2 := Elem(n)];
      assert Table() == LinkedIn(l, node1, Elem(n), node2);
      rings := rings[h := InsertAt(Ring(h), k, n)];
    }

    /** The splice at the head of a ring. */
    method PushFront(n: nat, h: H)
      requires Valid() && OnNone(rings, n)
      modifies this
      ensures Valid() && rings == old(rings)[h := [n] + old(Ring(h))]
      ensures Settled(n) && forall u :: old(Settled(u)) ==> Settled(u)
    {
      hide Holds, InsertAt, OnNone, Place;
      ghost var l := Table();
      FrontPlaces(l, rings, h, n);
      InsertKeeps(l, rings, h, 0, n);
      InsertLeavesAlone(l, rings, h, 0, n);
      InsertMembers(rings, h, 0, n);
      var first := if Head(h) in next then next[Head(h)] else Head(h);
      prev := prev[first := Elem(n)];
      next := next[Elem(n) := first];
      next := next[Head(h) := Elem(n)];
      prev := prev[Elem(n) := Head(h)];
      FrontWrites(l, Head(h), Elem(n), first);
      rings := rings[h := [n] + Ring(h)];
    }

    /** The splice at the end of a ring. */
    method PushBack(n: nat, h: H)
      requires Valid() && OnNone(rings, n)
      modifies this
      ensures Valid() && rings == old(rings)[h := old(Ring(h)) + [n]]
      ensures Settled(n) && forall u :: old(Settled(u)) ==> Settled(u)
    {
      assert Linked(Table(), h, Ring(h)) && InsertAt(Ring(h), |Ring(h)|, n) == Ring(h) + [n];
      PutBetween(if Head(h) in prev then prev[Head(h)] else Head(h), n, Head(h), h, |Ring(h)|);
    }
  }

  /** The writes of an insertion, in the order of the block cache. */
  lemma FrontWrites<H>(l: Links<H>, p: Ref<H>, n: Ref<H>, q: Ref<H>)
    requires n != p && n != q
    ensures SetPrev(SetNext(SetNext(SetPrev(l, q, n), n, q), p, n), n, p) == LinkedIn(l, p, n, q)
  {
    Commute(l.next, n, q, p, n);
    Commute(l.prev, q, n, n, p);
  }

  lemma Commute<X, Y>(m: map<X, Y>, a: X, u: Y, b: X, v: Y)
    requires a != b
    ensures m[a := u][b := v] == m[b := v][a := u]
  {}

  lemma FrontPlaces<H(!new)>(l: Links<H>, rings: map<H, seq<nat>>, h: H, n: nat)
    requires Holds(l, rings) && OnNone(rings, n)
    ensures var ring := RingOf(rings, h);
      && InsertAt(ring, 0, n) == [n] + ring
      && Place(h, ring, -1) == Head(h) && Place(h, ring, 0) == NextOf(l, Head(h)) && NextOf(l, Head(h)) != Elem(n)
  {
    var ring := RingOf(rings, h);
    assert Linked(l, h, ring) && n !in ring;
  }

  lemma HeldRing<H(!new)>(l: Links<H>, rings: map<H, seq<nat>>, h: H)
    requires Holds(l, rings)
    ensures Linked(l, h, RingOf(rings, h)) && Distinct(RingOf(rings, h))
  {}

  lemma StepBack<H>(l: Links<H>, h: H, ring: seq<nat>, k: nat)
    requires Linked(l, h, ring) && k <= |ring|
    ensures PrevOf(l, Place(h, ring, k)) == Place(h, ring, k - 1)
  {
    if k < |ring| { assert PrevOf(l, Elem(ring[k])) == Place(h, ring, k - 1); }
  }

  lemma StepOn<H>(l: Links<H>, h: H, ring: seq<nat>, k: int)
    requires Linked(l, h, ring) && -1 <= k < |ring|
    ensures NextOf(l, Place(h, ring, k)) == Place(h, ring, k + 1)
  {
    if k >= 0 { assert NextOf(l, Elem(ring[k])) == Place(h, ring, k + 1); }
  }

  /** Where the walk back ends is the slot of the new key. */
  lemma EndOfWalk(keys: seq<int>, k: int, lt: Before, p: nat)
    requires StrictWeak(lt) && Sorted(keys, lt) && p <= |keys|
    requires forall i :: p <= i < |keys| ==> lt(k, keys[i])
    requires p > 0 ==> !lt(k, keys[p - 1])
    ensures p == Slot(keys, k, lt)
  {
    forall i | 0 <= i < p ensures !lt(k, keys[i]) {
      if i < p - 1 && lt(k, keys[i]) { StrictWeakOrder(lt, k, keys[i], keys[p - 1]); }
    }
    SlotIsTheOnlySplit(keys, k, lt, p);
  }

  lemma RemovedMember<H(!new)>(l: Links<H>, rings: map<H, seq<nat>>, n: nat, h: H, u: nat)
    requires Holds(l, rings)
    ensures u in RingOf(WithoutAll(rings, n), h) <==> u in RingOf(rings, h) && u != n
  {
    WithoutAllAt(rings, n, h);
    HeldRing(l, rings, h);
    hide Holds, RingOf, Without, Linked;
    WithoutMembers(RingOf(rings, h), n);
  }

  lemma RemovedMembers<H(!new)>(l: Links<H>, rings: map<H, seq<nat>>, n: nat)
    requires Holds(l, rings)
    ensures OnNone(WithoutAll(rings, n), n)
    ensures forall u :: u != n && OnNone(WithoutAll(rings, n), u) ==> OnNone(rings, u)
    ensures OnNone(rings, n) ==> WithoutAll(rings, n) == rings
  {
    hide Holds, RingOf;
    forall h, u: nat ensures u in RingOf(WithoutAll(rings, n), h) <==> u in RingOf(rings, h) && u != n {
      RemovedMember(l, rings, n, h, u);
    }
    if OnNone(rings, n) { WithoutNothing(rings, n); }
  }

  lemma WithoutNothing<H(!new)>(rings: map<H, seq<nat>>, n: nat)
    requires OnNone(rings, n)
    ensures WithoutAll(rings, n) == rings
  {
    forall h | h in rings ensures Without(rings[h], n) == rings[h] { assert RingOf(rings, h) == rings[h]; }
  }

  lemma RemoveEffect<H(!new)>(l: Links<H>, rings: map<H, seq<nat>>, n: nat)
    requires Holds(l, rings) && (OnNone(rings, n) ==> Alone(l, n))
    ensures var l' := Unlinked(l, PrevOf(l, Elem(n)), NextOf(l, Elem(n)));
      && Holds(l', WithoutAll(rings, n)) && OnNone(WithoutAll(rings, n), n)
      && (forall u :: u != n && OnNone(WithoutAll(rings, n), u) ==> OnNone(rings, u))
      && (forall u :: u != n && Alone(l, u) ==> Alone(l', u)) && (Alone(l, n) ==> Alone(l', n))
  {
    hide Holds, WithoutAll, RingOf;
    RemovedMembers(l, rings, n);
    if OnNone(rings, n) {
      LooseWrite(l, rings, n, Elem(n), Elem(n));
    } else {
      var h :| n in RingOf(rings, h);
      hide OnNone, Unlinked, Alone;
      RemoveMember(l, rings, n, h);
    }
  }

  lemma RemoveMember<H(!new)>(l: Links<H>, rings: map<H, seq<nat>>, n: nat, h: H)
    requires Holds(l, rings) && n in RingOf(rings, h)
    ensures var l' := Unlinked(l, PrevOf(l, Elem(n)), NextOf(l, Elem(n)));
      Holds(l', WithoutAll(rings, n)) && !Alone(l, n) && forall u :: Alone(l, u) ==> Alone(l', u)
  {
    hide Holds, WithoutAll, RingOf;
    var k := IndexOf(RingOf(rings, h), n);
    HeldRing(l, rings, h);
    assert RingOf(rings, h)[k] == n;
    RemoveKeeps(l, rings, h, k);
    NeighboursAreNotAlone(l, rings, h, k);
  }

  /** Neither the elements of a ring nor those linked to its header are alone. */
  lemma NeighboursAreNotAlone<H(!new)>(l: Links<H>, rings: map<H, seq<nat>>, h: H, k: nat)
    requires Holds(l, rings) && k < |RingOf(rings, h)|
    ensures var ring := RingOf(rings, h);
      forall u :: Alone(l, u) ==> u != ring[k] && Elem(u) != Place(h, ring, k - 1) && Elem(u) != Place(h, ring, k + 1)
  {
    var ring := RingOf(rings, h);
    assert Linked(l, h, ring) && Distinct(ring);
    forall j: nat | j < |ring| ensures !Alone(l, ring[j]) { MemberIsNotAlone(l, h, ring, j); }
  }

  lemma MemberIsNotAlone<H>(l: Links<H>, h: H, ring: seq<nat>, j: nat)
    requires Linked(l, h, ring) && Distinct(ring) && j < |ring|
    ensures !Alone(l, ring[j])
  {}

  lemma InsertMembers<H(!new)>(rings: map<H, seq<nat>>, h: H, k: nat, n: nat)
    requires k <= |RingOf(rings, h)|
    ensures var rings' := rings[h := InsertAt(RingOf(rings, h), k, n)];
      !OnNone(rings', n) && forall u :: u != n && OnNone(rings', u) ==> OnNone(rings, u)
  {
    var rings' := rings[h := InsertAt(RingOf(rings, h), k, n)];
    InsertAtMembers(RingOf(rings, h), k, n);
    assert n in RingOf(rings', h);
    forall g, u: nat | u != n && u in RingOf(rings, g) ensures u in RingOf(rings', g) {}
  }

  lemma InsertLeavesAlone<H(!new)>(l: Links<H>, rings: map<H, seq<nat>>, h: H, k: nat, n: nat)
    requires Holds(l, rings) && k <= |RingOf(rings, h)|
    ensures var ring := RingOf(rings, h);
      var l' := LinkedIn(l, Place(h, ring, k - 1), Elem(n), Place(h, ring, k));
      forall u :: u != n && Alone(l, u) ==> Alone(l', u)
  {
    var ring := RingOf(rings, h);
    assert Linked(l, h, ring) && Distinct(ring);
    forall j: nat | j < |ring| ensures !Alone(l, ring[j]) { MemberIsNotAlone(l, h, ring, j); }
  }
}
