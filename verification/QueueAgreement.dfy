/** The two implementations of include/queue.h are interchangeable. */
module QueueAgreement {
  import opened PriorityOrder
  import opened QueueNode
  import opened RedBlackTree
  import L = ListQueue
  import R = RedBlackQueue

  datatype Op = Insert(elem: Node) | Remove(elem: Node) | Head

  /** Callers insert only detached elements and remove only queued ones. */
  ghost predicate Legal(s: seq<Node>, op: Op, headers: set<Node>)
  {
    match op
    case Insert(x) => x !in s && x !in headers
    case Remove(x) => x in s
    case Head => true
  }

  /** The queue's sequence after one operation. */
  ghost function After(s: seq<Node>, op: Op, lt: Before): seq<Node>
  {
    match op
    case Insert(x) => Inserted(s, x, lt)
    case Remove(x) => if x in s then Removed(s, x) else s
    case Head => s
  }

  /** Insertion in order: behind every element that the new one is not BEFORE, and so
      behind its equals, and in front of the others, which keep their places. */
  lemma InsertedBehindEquals(s: seq<Node>, x: Node, lt: Before) returns (p: nat)
    requires StrictWeak(lt) && Sorted(Keys(s), lt)
    ensures p <= |s| && After(s, Insert(x), lt) == s[..p] + [x] + s[p..]
    ensures forall i :: 0 <= i < p ==> !lt(x.key, s[i].key)
    ensures forall i :: p <= i < |s| ==> lt(x.key, s[i].key)
  {
    p := Slot(Keys(s), x.key, lt);
    SlotSplits(Keys(s), x.key, lt);
    forall i | 0 <= i < |s| ensures if i < p then !lt(x.key, s[i].key) else lt(x.key, s[i].key) {
      assert Keys(s)[i] == s[i].key;
    }
  }

  /** Removal takes out the element and leaves the others in their order. */
  lemma RemovedAlone(s: seq<Node>, x: Node, lt: Before) returns (p: nat)
    requires x in s
    ensures p < |s| && s[p] == x && After(s, Remove(x), lt) == s[..p] + s[p + 1..]
  {
    p := IndexOf(s, x);
  }

  ghost predicate LegalRun(s: seq<Node>, ops: seq<Op>, lt: Before, headers: set<Node>)
    decreases |ops|
  {
    ops == [] || (Legal(s, ops[0], headers) && LegalRun(After(s, ops[0], lt), ops[1..], lt, headers))
  }

  /** The sequence that a whole run leaves. */
  ghost function Final(s: seq<Node>, ops: seq<Op>, lt: Before, headers: set<Node>): seq<Node>
    requires LegalRun(s, ops, lt, headers)
    decreases |ops|
  {
    if ops == [] then s else Final(After(s, ops[0], lt), ops[1..], lt, headers)
  }

  function FirstOf(s: seq<Node>): Node? { if s == [] then null else s[0] }

  /** The run up to and with operation i. */
  lemma {:induction false} OneMore(s: seq<Node>, ops: seq<Op>, i: nat, lt: Before, headers: set<Node>)
    requires LegalRun(s, ops, lt, headers) && i < |ops|
    ensures LegalRun(s, ops[..i], lt, headers) && LegalRun(s, ops[..i + 1], lt, headers)
    ensures Legal(Final(s, ops[..i], lt, headers), ops[i], headers)
    ensures Final(s, ops[..i + 1], lt, headers) == After(Final(s, ops[..i], lt, headers), ops[i], lt)
    decreases |ops|
  {
    hide Legal, After;
    if i == 0 {
      assert ops[..1][1..] == [];
    } else {
      OneMore(After(s, ops[0], lt), ops[1..], i - 1, lt, headers);
      assert ops[..i][1..] == ops[1..][..i - 1] && ops[..i + 1][1..] == ops[1..][..i];
    }
  }

  ghost predicate Together(list: L.ListQueue, tree: R.RedBlackQueue)
    reads list, L.Members(L.Ring(list.head, list.contents))`next, L.Members(L.Ring(list.head, list.contents))`prev
    reads tree, tree.nil`left, tree.nil`color, tree.nil`parent
    reads Nodes(tree.tree)`color, Nodes(tree.tree)`parent, Nodes(tree.tree)`left, Nodes(tree.tree)`right
  {
    && list.Valid() && tree.Valid() && list.lt == tree.lt
    && list.contents == tree.Contents() && tree.nil != list.head
  }

  // The two routines write different link fields, so each leaves the other
  // queue alone even though both hold the very same nodes.

  lemma NodesAllocated(t: Tree)
    ensures forall n | n in Nodes(t) :: allocated(n)
  {}

  method ListInsert(list: L.ListQueue, x: Node, ghost tree: R.RedBlackQueue)
    requires list.Valid() && tree.Valid() && x !in L.Ring(list.head, list.contents)
    modifies list`contents, x`next, x`prev
    modifies L.Members(L.Ring(list.head, list.contents))`next, L.Members(L.Ring(list.head, list.contents))`prev
    ensures list.Valid() && tree.Valid()
    ensures list.contents == Inserted(old(list.contents), x, list.lt)
  {
    NodesAllocated(tree.tree);
    hide *;
    list.Insert(x);
  }

  method TreeInsert(tree: R.RedBlackQueue, x: Node, ghost list: L.ListQueue)
    requires list.Valid() && tree.Valid() && x !in Nodes(tree.tree) && x != tree.nil
    modifies tree`leftmost, tree`tree, tree.nil`left, tree.nil`parent, tree.nil`color
    modifies x`color, x`left, x`right, x`parent
    modifies Nodes(tree.tree)`color, Nodes(tree.tree)`left, Nodes(tree.tree)`right, Nodes(tree.tree)`parent
    ensures list.Valid() && tree.Valid() && Nodes(tree.tree) == old(Nodes(tree.tree)) + {x}
    ensures tree.Contents() == Inserted(old(tree.Contents()), x, tree.lt)
  {
    assert forall n | n in L.Members(L.Ring(list.head, list.contents)) :: allocated(n);
    hide *;
    tree.Insert(x);
  }

  method ListRemove(list: L.ListQueue, x: Node, ghost tree: R.RedBlackQueue)
    requires list.Valid() && tree.Valid() && x in list.contents
    modifies list`contents
    modifies L.Members(L.Ring(list.head, list.contents))`next, L.Members(L.Ring(list.head, list.contents))`prev
    ensures list.Valid() && tree.Valid()
    ensures list.contents == Removed(old(list.contents), x)
  {
    NodesAllocated(tree.tree);
    hide *;
    list.Remove(x);
  }

  method TreeRemove(tree: R.RedBlackQueue, x: Node, ghost list: L.ListQueue)
    requires list.Valid() && tree.Valid() && x in Nodes(tree.tree)
    modifies tree`leftmost, tree`tree, tree.nil`left, tree.nil`parent, tree.nil`color
    modifies Nodes(tree.tree)`color, Nodes(tree.tree)`left, Nodes(tree.tree)`right, Nodes(tree.tree)`parent
    ensures list.Valid() && tree.Valid() && Nodes(tree.tree) == old(Nodes(tree.tree)) - {x}
    ensures x in old(tree.Contents()) && tree.Contents() == Removed(old(tree.Contents()), x)
  {
    assert forall n | n in L.Members(L.Ring(list.head, list.contents)) :: allocated(n);
    hide *;
    tree.Remove(x);
  }

  lemma SameMembers(list: L.ListQueue, tree: R.RedBlackQueue)
    requires Together(list, tree)
    ensures forall x :: x in list.contents <==> x in Nodes(tree.tree)
    ensures L.Members(L.Ring(list.head, list.contents)) == {list.head} + Nodes(tree.tree)
    ensures forall x :: x in L.Ring(list.head, list.contents) <==> x == list.head || x in list.contents
  {
    NodesAreInorder(tree.tree);
    assert L.Members(L.Ring(list.head, list.contents)) == {list.head} + set n | n in list.contents;
  }

  /** One operation on both queues. */
  method Both(list: L.ListQueue, tree: R.RedBlackQueue, op: Op, ghost pool: set<Node>)
      returns (listHead: Node?, treeHead: Node?)
    requires Together(list, tree) && Legal(list.contents, op, {list.head, tree.nil})
    requires {list.head, tree.nil} + Nodes(tree.tree) <= pool && (!op.Head? ==> op.elem in pool)
    modifies list`contents, tree`leftmost, tree`tree, pool
    ensures Together(list, tree) && {list.head, tree.nil} + Nodes(tree.tree) <= pool
    ensures list.contents == After(old(list.contents), op, list.lt)
    ensures listHead == treeHead
    ensures op.Head? ==> listHead == FirstOf(list.contents)
  {
    hide L.ListQueue.Valid, R.RedBlackQueue.Valid, Nodes, Inserted, Removed, L.Members, L.Ring;
    SameMembers(list, tree);
    listHead, treeHead := null, null;
    match op {
      case Insert(x) =>
        ListInsert(list, x, tree);
        TreeInsert(tree, x, list);
      case Remove(x) =>
        ListRemove(list, x, tree);
        TreeRemove(tree, x, list);
      case Head =>
        listHead := list.Head();
        treeHead := tree.Head();
    }
  }

  /** Any legal run, on both queues in step: each asked for its head reports the head
      of the sequence that the operations so far leave, and both end as the same
      sequence. */
  method RunBoth(list: L.ListQueue, tree: R.RedBlackQueue, ops: seq<Op>, ghost pool: set<Node>)
      returns (listHeads: seq<Node?>, treeHeads: seq<Node?>)
    requires Together(list, tree) && LegalRun(list.contents, ops, list.lt, {list.head, tree.nil})
    requires {list.head, tree.nil} + Nodes(tree.tree) <= pool
    requires forall i :: 0 <= i < |ops| && !ops[i].Head? ==> ops[i].elem in pool
    modifies list`contents, tree`leftmost, tree`tree, pool
    ensures Together(list, tree) && listHeads == treeHeads && |listHeads| == |ops|
    ensures forall i :: 0 <= i < |ops| && ops[i].Head? ==>
      && LegalRun(old(list.contents), ops[..i], list.lt, {list.head, tree.nil})
      && listHeads[i] == FirstOf(Final(old(list.contents), ops[..i], list.lt, {list.head, tree.nil}))
    ensures list.contents == Final(old(list.contents), ops, list.lt, {list.head, tree.nil})
  {
    hide Together, Nodes, Legal, After, LegalRun, Final;
    ghost var start, headers := list.contents, {list.head, tree.nil};
    listHeads, treeHeads := [], [];
    var i := 0;
    NothingYet(start, ops, list.lt, headers);
    while i < |ops|
      invariant 0 <= i <= |ops| && |listHeads| == i
      invariant Together(list, tree) && listHeads == treeHeads
      invariant {list.head, tree.nil} + Nodes(tree.tree) <= pool
      invariant LegalRun(start, ops[..i], list.lt, headers) && list.contents == Final(start, ops[..i], list.lt, headers)
      invariant forall k :: 0 <= k < i && ops[k].Head? ==>
        && LegalRun(start, ops[..k], list.lt, headers)
        && listHeads[k] == FirstOf(Final(start, ops[..k], list.lt, headers))
    {
      OneMore(start, ops, i, list.lt, headers);
      AfterHead(list.contents, ops[i], list.lt);
      var listHead, treeHead := Both(list, tree, ops[i], pool);
      listHeads, treeHeads := listHeads + [listHead], treeHeads + [treeHead];
      i := i + 1;
    }
    assert ops[..|ops|] == ops;
  }

  lemma NothingYet(s: seq<Node>, ops: seq<Op>, lt: Before, headers: set<Node>)
    ensures LegalRun(s, ops[..0], lt, headers) && Final(s, ops[..0], lt, headers) == s
  {}

  lemma AfterHead(s: seq<Node>, op: Op, lt: Before)
    ensures op.Head? ==> After(s, op, lt) == s
  {}
}
