/** The red-black priority queue of include/queue.h. */
module RedBlackQueue {
  import opened PriorityOrder
  import opened QueueNode
  import opened RedBlackTree
  import opened RedBlackLinks
  import opened RedBlackInsert
  import opened RedBlackRemove
  import opened RedBlackSplice

  function FirstOf(s: seq<Node>, nil: Node): Node
  {
    if s == [] then nil else s[0]
  }

  /** Key k belongs behind all of front and in front of all of back. */
  ghost predicate BetweenSeqs(front: seq<Node>, back: seq<Node>, k: int, lt: Before)
  {
    && (forall i :: 0 <= i < |front| ==> !lt(k, front[i].key))
    && (forall i :: 0 <= i < |back| ==> lt(k, back[i].key))
  }

  /** Key k belongs at p's hole. */
  ghost predicate Between(p: Path, k: int, lt: Before) { BetweenSeqs(Front(p), Back(p), k, lt) }

  lemma PivotOrder(a: seq<Node>, n: Node, b: seq<Node>, lt: Before)
    requires Sorted(Keys(a + [n] + b), lt)
    ensures forall i :: 0 <= i < |a| ==> !lt(n.key, a[i].key)
    ensures forall i :: 0 <= i < |b| ==> !lt(b[i].key, n.key)
  {
    var s := a + [n] + b;
    assert Keys(s)[|a|] == n.key;
    forall i | 0 <= i < |a| ensures !lt(n.key, a[i].key) { assert Keys(s)[i] == a[i].key; }
    forall i | 0 <= i < |b| ensures !lt(b[i].key, n.key) { assert Keys(s)[|a| + 1 + i] == b[i].key; }
  }

  /** Going left of a node that k is BEFORE, or right of one it is not, keeps k's
      place at the hole. */
  lemma BetweenBelow(p: Path, t: Tree, k: int, lt: Before)
    requires t.Fork? && StrictWeak(lt) && Sorted(Keys(Inorder(Plug(p, t))), lt) && Between(p, k, lt)
    ensures Between(Step(lt(k, t.node.key), p, t.node, t.black, Far(lt(k, t.node.key), t)), k, lt)
  {
    hide *;
    PlugSplits(p, t);
    StepSides(lt(k, t.node.key), p, t);
    BetweenSides(p, k, lt);
    BetweenSides(Step(lt(k, t.node.key), p, t.node, t.black, Far(lt(k, t.node.key), t)), k, lt);
    Descended(Front(p), Inorder(t.left), t.node, Inorder(t.right), Back(p), k, lt);
  }

  lemma BetweenSides(p: Path, k: int, lt: Before)
    ensures Between(p, k, lt) <==> BetweenSeqs(Front(p), Back(p), k, lt)
  {}

  lemma PlugSplits(p: Path, t: Tree)
    requires t.Fork?
    ensures Inorder(Plug(p, t)) == (Front(p) + Inorder(t.left)) + [t.node] + (Inorder(t.right) + Back(p))
  {
    PlugInorder(p, t);
    hide Plug, Front, Back;
  }

  lemma Descended(front: seq<Node>, l: seq<Node>, n: Node, r: seq<Node>, back: seq<Node>, k: int, lt: Before)
    requires StrictWeak(lt) && Sorted(Keys((front + l) + [n] + (r + back)), lt) && BetweenSeqs(front, back, k, lt)
    ensures lt(k, n.key) ==> BetweenSeqs(front, [n] + (r + back), k, lt)
    ensures !lt(k, n.key) ==> BetweenSeqs(front + l + [n], back, k, lt)
  {
    PivotOrder(front + l, n, r + back, lt);
    hide StrictWeak, Sorted, Keys;
    if lt(k, n.key) { BeforePivot(front + l, n, r + back, k, lt); } else { BehindPivot(front + l, n, r + back, k, lt); }
  }

  /** What is in front of and behind a hole one step down. */
  lemma StepSides(left: bool, p: Path, t: Tree)
    requires t.Fork?
    ensures var q := Step(left, p, t.node, t.black, Far(left, t));
      && Front(q) == (if left then Front(p) else Front(p) + Inorder(t.left) + [t.node])
      && Back(q) == (if left then [t.node] + (Inorder(t.right) + Back(p)) else Back(p))
  {
    hide Inorder;
    assert [t.node] + Inorder(t.right) + Back(p) == [t.node] + (Inorder(t.right) + Back(p));
  }

  lemma BeforePivot(a: seq<Node>, n: Node, b: seq<Node>, k: int, lt: Before)
    requires StrictWeak(lt) && lt(k, n.key) && forall i :: 0 <= i < |b| ==> !lt(b[i].key, n.key)
    ensures forall i :: 0 <= i < |b| ==> lt(k, b[i].key)
  {
    forall i | 0 <= i < |b| ensures lt(k, b[i].key) { StrictWeakOrder(lt, k, n.key, b[i].key); }
  }

  lemma BehindPivot(a: seq<Node>, n: Node, b: seq<Node>, k: int, lt: Before)
    requires StrictWeak(lt) && !lt(k, n.key) && forall i :: 0 <= i < |a| ==> !lt(n.key, a[i].key)
    ensures forall i :: 0 <= i < |a| ==> !lt(k, a[i].key)
  {
    forall i | 0 <= i < |a| ensures !lt(k, a[i].key) { StrictWeakOrder(lt, a[i].key, n.key, k); }
  }

  /** The children of a loose node, read as node references. */
  lemma ChildrenOf(p: Path, sub: Tree, nil: Node)
    requires Loose(p, sub, nil)
    ensures Disjoint(p, sub, nil) && sub.Fork?
    ensures RootOf(sub.left, nil) == nil <==> sub.left.Leaf?
    ensures RootOf(sub.right, nil) == nil <==> sub.right.Leaf?
    ensures sub.left.Fork? ==> RootOf(sub.left, nil) == sub.left.node
    ensures sub.right.Fork? ==> RootOf(sub.right, nil) == sub.right.node
  {}

  lemma InsertedBetween(front: seq<Node>, elem: Node, back: seq<Node>, lt: Before)
    requires BetweenSeqs(front, back, elem.key, lt)
    ensures Inserted(front + back, elem, lt) == front + [elem] + back
  {
    var s := front + back;
    SlotIsTheOnlySplit(Keys(s), elem.key, lt, |front|);
    assert s[..|front|] == front && s[|front|..] == back;
  }

  lemma InsertedAtHole(p: Path, elem: Node, lt: Before)
    requires Between(p, elem.key, lt)
    ensures Inorder(Plug(p, Leaf)) == Front(p) + Back(p)
    ensures Inserted(Inorder(Plug(p, Leaf)), elem, lt) == Front(p) + [elem] + Back(p)
    ensures Inorder(Plug(p, Fork(Leaf, elem, false, Leaf))) == Front(p) + [elem] + Back(p)
  {
    PlugInorder(p, Leaf);
    PlugInorder(p, Fork(Leaf, elem, false, Leaf));
    assert Front(p) + Inorder(Leaf) + Back(p) == Front(p) + Back(p);
    assert Inorder(Fork(Leaf, elem, false, Leaf)) == [elem];
    InsertedBetween(Front(p), elem, Back(p), lt);
  }

  /** LEFTMOST moves to the new element exactly when it is inserted to the left
      of the old one. */
  lemma ParentInPath(p: Path, nil: Node)
    requires Focus(p, Leaf, nil)
    ensures Disjoint(p, Leaf, nil)
    ensures ParentOf(p, nil) in PathNodes(p) || (ParentOf(p, nil) == nil && !p.GoRight?)
  {}

  lemma LeftmostAfterInsert(p: Path, elem: Node, nil: Node)
    requires Disjoint(p, Leaf, nil)
    ensures var first := FirstOf(Front(p) + Back(p), nil);
      FirstOf(Front(p) + [elem] + Back(p), nil) == if !p.GoRight? && ParentOf(p, nil) == first then elem else first
  {
    if p.GoLeft? { FrontInPath(p.up); }
  }

  /** The new red leaf takes the place of the missing child. */
  method Attach(elem: Node, x: Node, goLeft: bool, nil: Node, ghost p: Path)
    requires Focus(p, Leaf, nil) && x == ParentOf(p, nil) && goLeft == !p.GoRight?
    requires elem !in PathNodes(p) && elem != nil
    requires elem.color == null && elem.left == nil && elem.right == nil
    modifies elem`parent, (if goLeft then {x} else {})`left, (if goLeft then {} else {x})`right
    ensures Focus(p, Fork(Leaf, elem, false, Leaf), nil)
  {
    ghost var t := Fork(Leaf, elem, false, Leaf);
    assert Nodes(t) == {elem} && Inner(t) == {};
    assert Disjoint(p, t, nil) && Hung(t, nil) && nil !in PathNodes(p);
    EndIsApart(p);
    hide PathHung, PathApart, PathNodes, Beyond, Disjoint, Hung, Nodes, Inner;
    if goLeft {
      x.left := elem;
    } else {
      x.right := elem;
    }
    elem.parent := x;
  }

  /** The repair loop and the two closing writes of insert. */
  lemma SentinelApart(t: Tree, nil: Node)
    requires Focus(Top, t, nil)
    ensures nil !in Nodes(t) && nil !in PathNodes(Top)
  {}

  lemma AtTop(t: Tree)
    requires t.Fork?
    ensures PathNodes(Top) == {} && t.node in Nodes(t)
    ensures Nodes(Blacken(t)) == Nodes(t) && Inorder(Blacken(t)) == Inorder(t)
  {}

  lemma NewNode(p: Path, elem: Node)
    ensures Sound(p, Leaf, 0) ==> RedAt(p, Fork(Leaf, elem, false, Leaf), 0)
    ensures Nodes(Fork(Leaf, elem, false, Leaf)) == {elem}
  {}

  method Rebalance(elem: Node, nil: Node, ghost p: Path) returns (ghost whole: Tree)
    requires Focus(p, Fork(Leaf, elem, false, Leaf), nil) && Sound(p, Leaf, 0)
    modifies (PathNodes(p) + {elem})`left, (PathNodes(p) + {elem})`right
    modifies (PathNodes(p) + {elem})`parent, (PathNodes(p) + {elem})`color, nil`left, nil`parent
    ensures Focus(Top, whole, nil) && nil.parent == nil
    ensures RedBlack(whole) && Nodes(whole) == PathNodes(p) + {elem}
    ensures Inorder(whole) == Inorder(Plug(p, Fork(Leaf, elem, false, Leaf)))
  {
    ghost var t0 := Fork(Leaf, elem, false, Leaf);
    hide Sound, PathHung, Hung, PathNodes, Nodes, Disjoint, Inorder, Plug, Balanced, PathBalanced, RedAt, RedBlack;
    NewNode(p, elem);
    ghost var q, t, h := RepairAfterInsert(elem, nil, p, t0, 0);
    BlackenIsRedBlack(q, t, h);
    ZipUpAll(q, t, nil);
    PlugNodes(q, t);
    whole := Plug(q, t);
    PlugIsFork(q, t);
    AtTop(whole);
    SetColor(nil.left, nil, Top, whole, nil);
    whole := Blacken(whole);
    SentinelApart(whole, nil);
    nil.parent := nil;
  }

  lemma PlugIsFork(p: Path, t: Tree)
    requires t.Fork?
    ensures Plug(p, t).Fork?
    decreases p
  {}

  lemma RemovedBetween(f: seq<Node>, l: seq<Node>, elem: Node, r: seq<Node>, b: seq<Node>)
    requires NoDuplicates(f + (l + [elem] + r) + b)
    ensures elem in f + (l + [elem] + r) + b
    ensures Removed(f + (l + [elem] + r) + b, elem) == f + (l + r) + b
  {
    var s, i := f + (l + [elem] + r) + b, |f| + |l|;
    assert s[i] == elem;
    assert IndexOf(s, elem) == i;
    assert s[..i] == f + l && s[i + 1..] == r + b;
  }

  lemma RemovedAtHole(p: Path, sub: Tree, nil: Node)
    requires Disjoint(p, sub, nil) && sub.Fork?
    ensures sub.node in Inorder(Plug(p, sub))
    ensures Removed(Inorder(Plug(p, sub)), sub.node) == Front(p) + (Inorder(sub.left) + Inorder(sub.right)) + Back(p)
  {
    PlugInorder(p, sub);
    PlugNodes(p, sub);
    InorderDistinct(Plug(p, sub));
    hide Front, Back, Plug, NoDuplicates, Removed, Disjoint;
    assert Inorder(sub) == Inorder(sub.left) + [sub.node] + Inorder(sub.right);
    RemovedBetween(Front(p), Inorder(sub.left), sub.node, Inorder(sub.right), Back(p));
  }

  lemma NoBlackLevels(t: Tree)
    requires Balanced(t, 0) && !IsRed(t)
    ensures t.Leaf?
  {
    if t.Fork? { BalancedIsNonnegative(t.left, -1); }
  }

  lemma LoneChild(sub: Tree, h: int)
    requires Balanced(sub, h) && sub.Fork? && sub.left.Leaf? && sub.right.Fork?
    ensures |Inorder(sub.right)| > 0 && Inorder(sub.right)[0] == sub.right.node
  {
    var r := sub.right;
    assert Balanced(r, 0);
    if r.black { NoBlackLevels(r); }
    NoBlackLevels(r.left);
  }

  /** A LEFTMOST without left child hands over to its right child, or to its
      parent when it has none; any other node leaves LEFTMOST alone. */
  lemma LeftmostAfterRemove(p: Path, sub: Tree, h: int, nil: Node)
    requires Disjoint(p, sub, nil) && Sound(p, sub, h) && sub.Fork?
    ensures var before := FirstOf(Inorder(Plug(p, sub)), nil);
      FirstOf(Front(p) + (Inorder(sub.left) + Inorder(sub.right)) + Back(p), nil) ==
      if sub.left.Leaf? && sub.node == before then
        if sub.right.Leaf? then ParentOf(p, nil) else sub.right.node
      else before
  {
    PlugInorder(p, sub);
    FrontInPath(p);
    var f, l, r, b := Front(p), Inorder(sub.left), Inorder(sub.right), Back(p);
    if sub.left.Leaf? && sub.right.Fork? { LoneChild(sub, h); }
    assert sub.left.Fork? ==> |l| > 0 && l[0] in l;
    NodesAreInorder(sub.left);
    assert Inorder(sub) == l + [sub.node] + r;
    assert f == [] && sub.left.Leaf? && sub.right.Leaf? ==> FirstOf(b, nil) == ParentOf(p, nil);
    assert forall n :: n in f || n in l ==> n != sub.node;
    hide Inorder, Front, Back, Plug, Sound, Disjoint;
    assert sub.left.Leaf? && f == [] ==> FirstOf(f + (l + [sub.node] + r) + b, nil) == sub.node;
  }

  /** The repair loop, when it is needed, and the closing write of remove. */
  method Restore(balanced: bool, node: Node, parentNode: Node, nil: Node, ghost p: Path, ghost t0: Tree, ghost k0: int)
      returns (ghost whole: Tree)
    requires Focus(p, t0, nil) && node == RootOf(t0, nil) && parentNode == ParentOf(p, nil)
    requires if balanced then Sound(p, t0, k0) else ShortAt(p, t0, k0)
    modifies Members(p, t0)`left, Members(p, t0)`right, Members(p, t0)`parent, Members(p, t0)`color
    modifies nil`left, nil`parent, nil`color
    ensures Focus(Top, whole, nil) && nil.parent == nil
    ensures RedBlack(whole) && Nodes(whole) == Members(p, t0) && Inorder(whole) == Inorder(Plug(p, t0))
  {
    hide PathHung, Hung, Sound, ShortAt, Nodes, PathNodes, Inorder, Plug, RedBlack;
    ghost var q, t, k := p, t0, k0;
    if !balanced {
      q, t, k := RepairAfterRemove(node, parentNode, nil, p, t0, k0);
    }
    SoundIsRedBlack(q, t, k);
    ZipUpAll(q, t, nil);
    PlugNodes(q, t);
    whole := Plug(q, t);
    nil.parent := nil;
  }

  class RedBlackQueue {
    const nil: Node
    const lt: Before
    var leftmost: Node
    ghost var tree: Tree

    ghost predicate Valid()
      reads this, nil`left, nil`color, nil`parent
      reads Nodes(tree)`color, Nodes(tree)`parent, Nodes(tree)`left, Nodes(tree)`right
    {
      && StrictWeak(lt)
      && Focus(Top, tree, nil)
      && nil.parent == nil
      && RedBlack(tree)
      && Sorted(Keys(Inorder(tree)), lt)
      && leftmost == FirstOf(Inorder(tree), nil)
    }

    ghost function Contents(): seq<Node>
      reads this
    {
      Inorder(tree)
    }

    constructor Init(nil: Node, lt: Before)
      requires StrictWeak(lt)
      modifies nil`parent, nil`left, nil`color
      ensures Valid() && Contents() == [] && this.nil == nil && this.lt == lt
    {
      this.nil, this.lt, leftmost, tree := nil, lt, nil, Leaf;
      new;
      nil.parent := nil;
      nil.left := nil;
      nil.color := nil;
      assert Balanced(Leaf, 0);
    }

    method Head() returns (first: Node?)
      requires Valid()
      ensures first == if Contents() == [] then null else Contents()[0]
    {
      NodesAreInorder(tree);
      first := leftmost;
      if first == nil {
        first := null;
      }
    }

    /** The walk down from the root, stopping at the missing child that elem
        will fill. */
    method Descend(elem: Node) returns (x: Node, goLeft: bool, ghost p: Path)
      requires Valid()
      ensures Focus(p, Leaf, nil) && Plug(p, Leaf) == tree && Members(p, Leaf) == Nodes(tree)
      ensures x == ParentOf(p, nil) && goLeft == !p.GoRight?
      ensures Sound(p, Leaf, 0) && Between(p, elem.key, lt)
    {
      ghost var t, h := tree, 0;
      h :| Balanced(tree, h);
      p, x, goLeft := Top, nil, true;
      assert Between(p, elem.key, lt);
      hide StrictWeak, Sorted, Between, Sound, Disjoint, PathHung, Nodes, PathNodes;
      var side := nil.left;
      while side != nil
        invariant Focus(p, t, nil) && Plug(p, t) == tree && Members(p, t) == Nodes(tree)
        invariant side == RootOf(t, nil) && x == ParentOf(p, nil) && goLeft == !p.GoRight?
        invariant Sound(p, t, h) && Between(p, elem.key, lt)
        decreases t
      {
        x := side;
        goLeft := lt(elem.key, x.key);
        BetweenBelow(p, t, elem.key, lt);
        SoundBelow(goLeft, p, t, h);
        ZipDown(p, t, nil);
        side := if goLeft then x.left else x.right;
        h := if t.black then h - 1 else h;
        p, t := Step(goLeft, p, t.node, t.black, Far(goLeft, t)), Near(goLeft, t);
      }
    }

    /** The element as a red leaf, and the place it will fill. */
    method Place(elem: Node) returns (x: Node, goLeft: bool, ghost p: Path)
      requires Valid() && elem !in Nodes(tree) && elem != nil
      modifies elem`color, elem`left, elem`right
      ensures Focus(p, Leaf, nil) && Plug(p, Leaf) == tree && PathNodes(p) == Nodes(tree)
      ensures x == ParentOf(p, nil) && goLeft == !p.GoRight?
      ensures Sound(p, Leaf, 0) && Between(p, elem.key, lt)
      ensures elem.color == null && elem.left == nil && elem.right == nil
    {
      hide StrictWeak, Sorted, RedBlack, Focus;
      elem.color := null;
      elem.left := nil;
      elem.right := nil;
      x, goLeft, p := Descend(elem);
    }

    /** The element linked in and LEFTMOST updated; colours not yet repaired. */
    method Hang(elem: Node) returns (ghost p: Path)
      requires Valid() && elem !in Nodes(tree) && elem != nil
      modifies this`leftmost, nil`left, elem`color, elem`left, elem`right, elem`parent
      modifies Nodes(tree)`left, Nodes(tree)`right
      ensures Focus(p, Fork(Leaf, elem, false, Leaf), nil) && Sound(p, Leaf, 0)
      ensures PathNodes(p) == Nodes(tree)
      ensures Inorder(Plug(p, Fork(Leaf, elem, false, Leaf))) == Inserted(Contents(), elem, lt)
      ensures leftmost == FirstOf(Inserted(Contents(), elem, lt), nil)
    {
      var x, goLeft;
      hide Focus, Sound, Nodes, PathNodes, Inorder, Plug, Between, Inserted;
      x, goLeft, p := Place(elem);
      InsertedAtHole(p, elem, lt);
      ParentInPath(p, nil);
      LeftmostAfterInsert(p, elem, nil);
      Attach(elem, x, goLeft, nil, p);
      if goLeft && x == leftmost {
        leftmost := elem;
      }
    }

    method Insert(elem: Node)
      requires Valid() && elem !in Nodes(tree) && elem != nil
      modifies this`leftmost, this`tree, nil`left, nil`parent, nil`color
      modifies elem`color, elem`left, elem`right, elem`parent
      modifies Nodes(tree)`color, Nodes(tree)`left, Nodes(tree)`right, Nodes(tree)`parent
      ensures Valid() && Nodes(tree) == old(Nodes(tree)) + {elem}
      ensures Contents() == Inserted(old(Contents()), elem, lt)
    {
      hide StrictWeak, Sorted, RedBlack, Focus, Sound, Nodes, PathNodes, Inorder, Plug, Inserted, FirstOf, Keys;
      KeepsSorted(elem);
      ghost var p := Hang(elem);
      tree := Rebalance(elem, nil, p);
    }

    lemma KeepsSorted(elem: Node)
      requires Valid()
      ensures Sorted(Keys(Inserted(Contents(), elem, lt)), lt)
    {
      KeysOfInsertAt(Contents(), Slot(Keys(Contents()), elem.key, lt), elem);
      InsertKeepsSorted(Keys(Contents()), elem.key, lt);
    }

    lemma RemoveKeepsOrder(elem: Node)
      requires Valid() && elem in Contents()
      ensures Sorted(Keys(Removed(Contents(), elem)), lt)
    {
      KeysOfRemoveAt(Contents(), IndexOf(Contents(), elem));
      RemoveKeepsSorted(Keys(Contents()), IndexOf(Contents(), elem), lt);
    }

    /** Where a queued element is, and what its removal leaves. */
    lemma Locate(elem: Node) returns (p: Path, sub: Tree, h: int)
      requires Valid() && elem in Nodes(tree)
      ensures Focus(p, sub, nil) && Sound(p, sub, h) && sub.Fork? && sub.node == elem
      ensures Plug(p, sub) == tree && Members(p, sub) == Nodes(tree)
      ensures elem in Contents() && Sorted(Keys(Removed(Contents(), elem)), lt)
    {
      var k :| Balanced(tree, k);
      p, sub, h := LocateFrom(Top, tree, k, elem, nil);
      NodesAreInorder(tree);
      RemoveKeepsOrder(elem);
    }

    /** The element out of the links and LEFTMOST updated; colours not yet
        repaired unless balanced. */
    method Unlink(elem: Node, leftNode: Node, rightNode: Node, parent: Node, ghost p: Path, ghost sub: Tree,
                  ghost h: int)
        returns (balanced: bool, node: Node, parentNode: Node, ghost q: Path, ghost t: Tree, ghost k: int)
      requires Loose(p, sub, nil) && Sound(p, sub, h) && sub.node == elem && elem != nil && parent == ParentOf(p, nil)
      requires leftNode == RootOf(sub.left, nil) && rightNode == RootOf(sub.right, nil)
      requires leftmost == FirstOf(Inorder(Plug(p, sub)), nil)
      modifies this`leftmost, nil`left, nil`parent, Members(p, sub)`color
      modifies (Members(p, sub) - {elem})`left, (Members(p, sub) - {elem})`right, (Members(p, sub) - {elem})`parent
      ensures Focus(q, t, nil) && Members(q, t) == Members(p, sub) - {elem}
      ensures node == RootOf(t, nil) && parentNode == ParentOf(q, nil)
      ensures if balanced then Sound(q, t, k) else ShortAt(q, t, k)
      ensures elem in Inorder(Plug(p, sub)) && Inorder(Plug(q, t)) == Removed(Inorder(Plug(p, sub)), elem)
      ensures leftmost == FirstOf(Inorder(Plug(q, t)), nil)
      ensures elem.color == null
    {
      hide *;
      ChildrenOf(p, sub, nil);
      RemovedAtHole(p, sub, nil);
      LeftmostAfterRemove(p, sub, h, nil);
      OuterInorder(p, sub);
      parentNode := parent;
      if leftNode == nil {
        leftmost := if elem != leftmost then leftmost else if rightNode == nil then parentNode else rightNode;
        q, t, k, node := p, sub.right, h, rightNode;
        balanced := RemoveOuter(elem, node, parentNode, nil, p, sub, t, h);
      } else if rightNode == nil {
        q, t, k, node := p, sub.left, h, leftNode;
        balanced := RemoveOuter(elem, node, parentNode, nil, p, sub, t, h);
      } else {
        balanced, node, parentNode, q, t, k := RemoveInner(elem, leftNode, rightNode, parentNode, nil, p, sub, h);
      }
    }

    /** Removal at a known place. */
    method RemoveAt(elem: Node, ghost p: Path, ghost sub: Tree, ghost h: int) returns (ghost whole: Tree)
      requires Focus(p, sub, nil) && Sound(p, sub, h) && sub.Fork? && sub.node == elem
      requires leftmost == FirstOf(Inorder(Plug(p, sub)), nil)
      modifies this`leftmost, nil`left, nil`parent, nil`color
      modifies Members(p, sub)`color, Members(p, sub)`left, Members(p, sub)`right, Members(p, sub)`parent
      ensures Focus(Top, whole, nil) && nil.parent == nil
      ensures RedBlack(whole) && Nodes(whole) == Members(p, sub) - {elem}
      ensures elem in Inorder(Plug(p, sub)) && Inorder(whole) == Removed(Inorder(Plug(p, sub)), elem)
      ensures leftmost == FirstOf(Inorder(whole), nil)
      ensures elem.color == elem.parent == elem.left == elem.right == null
    {
      assert elem in Members(p, sub);
      hide *;
      var queue, parentNode, leftNode, rightNode := Loosen(elem, nil, p, sub, h);
      var balanced, node;
      ghost var q, t, k;
      balanced, node, parentNode, q, t, k := Unlink(elem, leftNode, rightNode, parentNode, p, sub, h);
      whole := Restore(balanced, node, parentNode, queue, q, t, k);
    }

    lemma OuterInorder(p: Path, sub: Tree)
      requires sub.Fork?
      ensures sub.left.Leaf? ==>
        Inorder(Plug(p, sub.right)) == Front(p) + (Inorder(sub.left) + Inorder(sub.right)) + Back(p)
      ensures sub.right.Leaf? ==>
        Inorder(Plug(p, sub.left)) == Front(p) + (Inorder(sub.left) + Inorder(sub.right)) + Back(p)
    {
      PlugInorder(p, sub.left);
      PlugInorder(p, sub.right);
      assert sub.left.Leaf? ==> Inorder(sub.left) + Inorder(sub.right) == Inorder(sub.right);
      assert sub.right.Leaf? ==> Inorder(sub.left) + Inorder(sub.right) == Inorder(sub.left);
    }

    method Remove(elem: Node)
      requires Valid() && elem in Nodes(tree)
      modifies this`leftmost, this`tree, nil`left, nil`parent, nil`color
      modifies Nodes(tree)`color, Nodes(tree)`left, Nodes(tree)`right, Nodes(tree)`parent
      ensures Valid() && Nodes(tree) == old(Nodes(tree)) - {elem}
      ensures elem in old(Contents()) && Contents() == Removed(old(Contents()), elem)
      ensures elem.color == elem.parent == elem.left == elem.right == null
    {
      hide StrictWeak, Sorted, RedBlack, Focus, Sound, Nodes, PathNodes, Inorder, Plug, Removed, FirstOf, Members, Keys;
      ghost var p, sub, h := Locate(elem);
      tree := RemoveAt(elem, p, sub, h);
    }
  }
}
