/** The doubly-linked priority queue of include/queue.h: an intrusive ring through
    the queue's own node. */
module ListQueue {
  import opened PriorityOrder
  import opened QueueNode

  /** The ring, starting at the queue's own node. */
  function Ring(head: Node, s: seq<Node>): seq<Node> { [head] + s }

  ghost function Members(ring: seq<Node>): set<Node> { set n | n in ring }

  /** Along the ring NEXT goes one step forward and PREV one step back. */
  ghost predicate Linked(ring: seq<Node>)
    requires |ring| > 0
    reads Members(ring)`next, Members(ring)`prev
  {
    && NoDuplicates(ring)
    && (forall i {:trigger ring[i].next} :: 0 <= i < |ring| - 1 ==> ring[i].next == ring[i + 1])
    && (forall i {:trigger ring[i].prev} :: 0 < i < |ring| ==> ring[i].prev == ring[i - 1])
    && ring[|ring| - 1].next == ring[0]
    && ring[0].prev == ring[|ring| - 1]
  }

  lemma InsertKeepsDistinct(ring: seq<Node>, p: nat, elem: Node)
    requires p <= |ring| && NoDuplicates(ring) && elem !in ring
    ensures NoDuplicates(InsertAt(ring, p, elem))
  {
    var r := InsertAt(ring, p, elem);
    forall i, j | 0 <= i < j < |r| ensures r[i] != r[j] {
      assert i != p ==> r[i] == ring[if i < p then i else i - 1];
      assert j != p ==> r[j] == ring[if j < p then j else j - 1];
    }
  }

  lemma RemoveKeepsDistinct(ring: seq<Node>, p: nat)
    requires p < |ring| && NoDuplicates(ring)
    ensures NoDuplicates(RemoveAt(ring, p))
  {}

  /** The four writes that put elem between node1 and node2. */
  method LinkBetween(node1: Node, elem: Node, node2: Node, ghost ring: seq<Node>, ghost p: nat)
    requires |ring| > 0 && Linked(ring) && elem !in ring
    requires p < |ring| && node1 == ring[p] && node2 == ring[if p + 1 == |ring| then 0 else p + 1]
    modifies elem`next, elem`prev, node1`next, node2`prev
    ensures Linked(InsertAt(ring, p + 1, elem))
  {
    node1.next := elem;
    elem.prev := node1;
    elem.next := node2;
    node2.prev := elem;

    ghost var r := InsertAt(ring, p + 1, elem);
    InsertKeepsDistinct(ring, p + 1, elem);
    forall i {:trigger r[i].next} | 0 <= i < |r| - 1 ensures r[i].next == r[i + 1] {
      if i < p { assert r[i] == ring[i]; } else if i > p + 1 { assert r[i] == ring[i - 1]; }
    }
    forall i {:trigger r[i].prev} | 0 < i < |r| ensures r[i].prev == r[i - 1] {
      if i <= p { assert r[i] == ring[i]; } else if i > p + 1 { assert r[i] == ring[i - 1]; }
    }
  }

  /** The two writes that take the node at place p out of the ring. */
  method Unlink(prevNode: Node, nextNode: Node, ghost ring: seq<Node>, ghost p: nat)
    requires |ring| > 0 && Linked(ring) && 0 < p < |ring|
    requires prevNode == ring[p - 1] && nextNode == ring[if p + 1 == |ring| then 0 else p + 1]
    modifies prevNode`next, nextNode`prev
    ensures Linked(RemoveAt(ring, p))
  {
    prevNode.next := nextNode;
    nextNode.prev := prevNode;

    ghost var r := RemoveAt(ring, p);
    RemoveKeepsDistinct(ring, p);
    forall i {:trigger r[i].next} | 0 <= i < |r| - 1 ensures r[i].next == r[i + 1] {
      if i < p { assert r[i] == ring[i]; } else { assert r[i] == ring[i + 1]; }
    }
    forall i {:trigger r[i].prev} | 0 < i < |r| ensures r[i].prev == r[i - 1] {
      if i < p { assert r[i] == ring[i]; } else { assert r[i] == ring[i + 1]; }
    }
  }

  lemma Neighbours(ring: seq<Node>, p: nat)
    requires |ring| > 0 && Linked(ring) && 0 < p < |ring|
    ensures ring[p].prev == ring[p - 1] && ring[p].next == ring[if p + 1 == |ring| then 0 else p + 1]
  {}

  lemma RingInsert(head: Node, s: seq<Node>, p: nat, elem: Node)
    requires p <= |s|
    ensures Ring(head, InsertAt(s, p, elem)) == InsertAt(Ring(head, s), p + 1, elem)
  {}

  lemma RingRemove(head: Node, s: seq<Node>, p: nat)
    requires p < |s|
    ensures Ring(head, RemoveAt(s, p)) == RemoveAt(Ring(head, s), p + 1)
  {}

  class ListQueue {
    const head: Node
    const lt: Before
    ghost var contents: seq<Node>

    ghost predicate Valid()
      reads this, Members(Ring(head, contents))`next, Members(Ring(head, contents))`prev
    {
      && StrictWeak(lt)
      && Linked(Ring(head, contents))
      && Sorted(Keys(contents), lt)
    }

    constructor Init(head: Node, lt: Before)
      requires StrictWeak(lt)
      modifies head`next, head`prev
      ensures Valid() && contents == [] && this.head == head && this.lt == lt
    {
      this.head, this.lt, contents := head, lt, [];
      new;
      head.next := head;
      head.prev := head;
    }

    method Head() returns (first: Node?)
      requires Valid()
      ensures first == if contents == [] then null else contents[0]
    {
      assert Ring(head, contents)[0] == head;
      if contents != [] { assert Ring(head, contents)[1] == contents[0]; }
      first := head.next;
      if first == head {
        first := null;
      }
    }

    /** The backward walk from the tail to the first node that elem is not
        BEFORE, or to the queue's own node. */
    method FindPlace(elem: Node) returns (node1: Node, node2: Node, ghost p: nat)
      requires Valid()
      ensures p == Slot(Keys(contents), elem.key, lt)
      ensures node1 == Ring(head, contents)[p]
      ensures node2 == Ring(head, contents)[if p == |contents| then 0 else p + 1]
    {
      p := |contents|;
      node2 := head;
      node1 := node2.prev;
      while node1 != head && lt(elem.key, node1.key)
        invariant p <= |contents|
        invariant node1 == Ring(head, contents)[p]
        invariant node2 == Ring(head, contents)[if p == |contents| then 0 else p + 1]
        invariant forall i :: p <= i < |contents| ==> lt(elem.key, contents[i].key)
        decreases p
      {
        node2 := node1;
        node1 := node2.prev;
        p := p - 1;
      }
      FrontIsNotPassed(p, node1, elem);
      SlotIsTheOnlySplit(Keys(contents), elem.key, lt, p);
    }

    method Insert(elem: Node)
      requires Valid() && elem !in Ring(head, contents)
      modifies this`contents, elem`next, elem`prev
      modifies Members(Ring(head, contents))`next, Members(Ring(head, contents))`prev
      ensures Valid()
      ensures contents == Inserted(old(contents), elem, lt)
    {
      hide StrictWeak, Sorted, Linked, NoDuplicates;
      var node1, node2, p := FindPlace(elem);
      ghost var ring := Ring(head, contents);
      LinkBetween(node1, elem, node2, ring, p);
      contents := InsertAt(contents, p, elem);
      RingInsert(head, old(contents), p, elem);
      assert Sorted(Keys(contents), lt) by {
        KeysOfInsertAt(old(contents), p, elem);
        InsertKeepsSorted(Keys(old(contents)), elem.key, lt);
      }
    }

    /** Where the backward scan stops, no element in front may be passed. */
    lemma FrontIsNotPassed(p: nat, node1: Node, elem: Node)
      requires Valid() && p <= |contents| && node1 == Ring(head, contents)[p]
      requires node1 == head || !lt(elem.key, node1.key)
      ensures forall i :: 0 <= i < p ==> !lt(elem.key, contents[i].key)
    {
      if p > 0 {
        forall i | 0 <= i < p ensures !lt(elem.key, contents[i].key) {
          assert Keys(contents)[i] == contents[i].key && Keys(contents)[p - 1] == node1.key;
          StrictWeakOrder(lt, contents[p - 1].key, contents[i].key, elem.key);
          StrictWeakOrder(lt, elem.key, contents[i].key, contents[p - 1].key);
        }
      }
    }

    method Remove(elem: Node)
      requires Valid() && elem in contents
      modifies this`contents
      modifies Members(Ring(head, contents))`next, Members(Ring(head, contents))`prev
      ensures Valid()
      ensures contents == Removed(old(contents), elem)
    {
      hide StrictWeak, Sorted, Linked, NoDuplicates, IndexOf;
      ghost var ring, p := Ring(head, contents), IndexOf(contents, elem);
      Neighbours(ring, p + 1);
      var prevNode := elem.prev;
      var nextNode := elem.next;
      Unlink(prevNode, nextNode, ring, p + 1);
      contents := RemoveAt(contents, p);
      RingRemove(head, old(contents), p);
      KeysOfRemoveAt(old(contents), p);
      RemoveKeepsSorted(Keys(old(contents)), p, lt);
    }
  }

  /** Self-links: a node on no ring, which remove may be applied to safely. */
  method Detach(elem: Node)
    modifies elem`next, elem`prev
    ensures elem.next == elem == elem.prev
  {
    elem.next := elem;
    elem.prev := elem;
  }

  method RemoveDetached(elem: Node)
    requires elem.next == elem == elem.prev
    modifies elem`next, elem`prev
    ensures elem.next == elem == elem.prev
  {
    var prevNode := elem.prev;
    var nextNode := elem.next;
    prevNode.next := nextNode;
    nextNode.prev := prevNode;
  }
}
