/** One queue element or queue header: the link fields that NEXT, PREV, COLOR,
    PARENT, LEFT and RIGHT name in include/thread.h, with the key that BEFORE
    compares. */
module QueueNode {
  import opened PriorityOrder

  class Node {
    const key: int

    // doubly-linked list
    var next: Node?
    var prev: Node?

    // red-black tree: null is red, a reference to the queue's own node is black
    var color: Node?
    var parent: Node?
    var left: Node?
    var right: Node?

    constructor (key: int)
      ensures this.key == key
    {
      this.key := key;
      next, prev, color, parent, left, right := null, null, null, null, null, null;
    }
  }

  function Keys(s: seq<Node>): (ks: seq<int>)
    ensures |ks| == |s| && forall i :: 0 <= i < |s| ==> ks[i] == s[i].key
  {
    seq(|s|, i requires 0 <= i < |s| => s[i].key)
  }

  ghost predicate NoDuplicates(s: seq<Node>)
  {
    forall i, j :: 0 <= i < j < |s| ==> s[i] != s[j]
  }

  /** What both insert routines must do to the queue's sequence of elements. */
  function Inserted(s: seq<Node>, x: Node, lt: Before): seq<Node>
  {
    InsertAt(s, Slot(Keys(s), x.key, lt), x)
  }

  /** What both remove routines must do to it. */
  ghost function Removed(s: seq<Node>, x: Node): seq<Node>
    requires x in s
  {
    RemoveAt(s, IndexOf(s, x))
  }

  lemma KeysOfInsertAt(s: seq<Node>, p: nat, x: Node)
    requires p <= |s|
    ensures Keys(InsertAt(s, p, x)) == InsertAt(Keys(s), p, x.key)
  {}

  lemma KeysOfRemoveAt(s: seq<Node>, p: nat)
    requires p < |s|
    ensures Keys(RemoveAt(s, p)) == RemoveAt(Keys(s), p)
  {}
}
