/** Taking a node out of the tree's links, before the colours are repaired. */
module RedBlackSplice {
  import opened QueueNode
  import opened RedBlackTree
  import opened RedBlackLinks
  import opened RedBlackRemove

  // ------------------------------------------------- at most one child

  lemma OuterRemoved(p: Path, sub: Tree, kid: Tree, h: int)
    requires Sound(p, sub, h) && sub.Fork?
    requires (kid == sub.left && sub.right.Leaf?) || (kid == sub.right && sub.left.Leaf?)
    ensures sub.black ==> ShortAt(p, kid, h)
    ensures !sub.black ==> Sound(p, kid, h)
    ensures sub.left.Fork? ==> sub.black
    ensures Inorder(kid) == Inorder(sub.left) + Inorder(sub.right)
  {
    var k := if sub.black then h - 1 else h;
    assert Balanced(sub.left, k) && Balanced(sub.right, k);
    BalancedIsNonnegative(kid, k);
    if kid.Fork? {
      BalancedIsNonnegative(kid.left, if kid.black then k - 1 else k);
    }
  }

  lemma KidApart(p: Path, sub: Tree, kid: Tree, nil: Node)
    requires Disjoint(p, sub, nil) && sub.Fork? && (kid == sub.left || kid == sub.right)
    ensures Disjoint(p, kid, nil) && RootApart(kid) && EndApart(p)
    ensures nil !in PathNodes(p) && nil !in Nodes(kid) && PathNodes(p) !! Nodes(kid)
  {}

  /** The only child takes elem's place. */
  method SpliceOut(elem: Node, child: Node, parentNode: Node, ghost nil: Node, ghost p: Path, ghost sub: Tree,
                   ghost kid: Tree)
    requires Disjoint(p, sub, nil) && sub.Fork? && sub.node == elem && nil.color == nil
    requires kid == sub.left || kid == sub.right
    requires PathHung(p, nil) && HoleOf(p, nil) == elem && Hung(kid, nil)
    requires parentNode == ParentOf(p, nil) && child == RootOf(kid, nil)
    requires p.GoRight? ==> p.node.left != elem
    modifies child`parent
    modifies (if parentNode.left == elem then {parentNode} else {})`left
    modifies (if parentNode.left == elem then {} else {parentNode})`right
    ensures Focus(p, kid, nil)
  {
    hide Hung, PathHung, Disjoint, Nodes, PathNodes, Inner, Beyond;
    KidApart(p, sub, kid, nil);
    child.parent := parentNode;
    if elem == parentNode.left {
      parentNode.left := child;
    } else {
      parentNode.right := child;
    }
  }

  // ------------------------------------------------- two children

  function Append(r: Path, base: Path): (q: Path)
    ensures !r.Top? ==> !q.Top? && q.node == r.node && q.GoLeft? == r.GoLeft?
  {
    match r
    case Top => base
    case GoLeft(up, n, b, other) => GoLeft(Append(up, base), n, b, other)
    case GoRight(up, n, b, other) => GoRight(Append(up, base), n, b, other)
  }

  lemma PlugAppend(r: Path, base: Path, t: Tree)
    ensures Plug(Append(r, base), t) == Plug(base, Plug(r, t))
    decreases r
  {
    if !r.Top? { PlugAppend(r.up, base, Fill(r, t)); }
  }

  lemma {:induction false} SoundAppend(r: Path, base: Path, t: Tree, h: int) returns (k: int)
    requires Sound(base, Plug(r, t), h)
    ensures Sound(Append(r, base), t, k)
    decreases r
  {
    if r.Top? {
      k := h;
    } else {
      var k' := SoundAppend(r.up, base, Fill(r, t), h);
      SoundBelow(r.GoLeft?, Append(r.up, base), Fill(r, t), k');
      k := if r.black then k' - 1 else k';
    }
  }

  /** The way down along left children only. */
  predicate AllLeft(r: Path) { r.Top? || (r.GoLeft? && AllLeft(r.up)) }

  lemma {:induction false} AllLeftFront(r: Path)
    requires AllLeft(r)
    ensures Front(r) == []
  {
    if !r.Top? { AllLeftFront(r.up); }
  }

  function Outermost(r: Path): Node
    requires !r.Top?
  {
    if r.up.Top? then r.node else Outermost(r.up)
  }

  ghost function ParentsWithin(r: Path): set<Node>
  {
    if r.Top? then {} else
      Nodes(r.other) + (if r.up.Top? then {} else {r.node}) + ParentsWithin(r.up)
  }

  /** The links of a way down inside a subtree, leaving open both its hole and
      what the subtree hangs from. */
  ghost predicate WayHung(r: Path, nil: Node)
    reads PathNodes(r)`color, PathNodes(r)`right, Beyond(r)`left, ParentsWithin(r)`parent
  {
    !r.Top? ==>
      && r.GoLeft?
      && r.node != nil
      && r.node.color == ColorOf(r.black, nil)
      && r.node.right == RootOf(r.other, nil)
      && Below(r.other, r.node) && Hung(r.other, nil)
      && (!r.up.Top? ==> r.node.parent == r.up.node && r.up.node.left == r.node)
      && WayHung(r.up, nil)
  }

  lemma {:induction false} WayApart(r: Path)
    requires PathApart(r)
    ensures ParentsWithin(r) <= PathNodes(r)
    ensures !r.Top? ==> Outermost(r) in PathNodes(r) && Outermost(r) !in ParentsWithin(r)
  {
    if !r.Top? { WayApart(r.up); }
  }

  lemma {:induction false} AppendHung(r: Path, base: Path, nil: Node)
    requires WayHung(r, nil) && PathHung(base, nil) && !base.Top?
    requires !r.Top? ==> HoleOf(base, nil) == Outermost(r) && Outermost(r).parent == base.node
    ensures PathHung(Append(r, base), nil)
    ensures HoleOf(Append(r, base), nil) == if r.Top? then HoleOf(base, nil) else r.node.left
  {
    if !r.Top? {
      AppendHung(r.up, base, nil);
    }
  }

  /** The pieces of the surgery below share no node. */
  ghost predicate Spread(p: Path, elem: Node, l: Tree, r: Path, x: Node, xr: Tree, nil: Node)
  {
    && {nil, elem, x} !! Nodes(l) !! PathNodes(r) !! Nodes(xr) !! PathNodes(p)
    && nil != elem && elem != x && x != nil
    && EndApart(p) && EndApart(r) && RootApart(l) && RootApart(xr)
    && ParentsWithin(r) <= PathNodes(r)
    && (!r.Top? ==> Outermost(r) in PathNodes(r) && Outermost(r) !in ParentsWithin(r))
  }

  lemma SubtreeParts(p: Path, sub: Tree, nil: Node)
    requires Disjoint(p, sub, nil) && sub.Fork?
    ensures PathApart(p) && Apart(sub.left) && Apart(sub.right) && EndApart(p) && RootApart(sub.left)
    ensures Nodes(sub) == Nodes(sub.left) + {sub.node} + Nodes(sub.right)
    ensures {nil, sub.node} !! Nodes(sub.left) !! Nodes(sub.right) !! PathNodes(p) && nil != sub.node
  {}

  lemma SuccessorParts(r: Path, xs: Tree)
    requires Apart(Plug(r, xs)) && xs.Fork? && xs.left.Leaf?
    ensures PathApart(r) && Apart(xs) && Apart(xs.right) && EndApart(r) && RootApart(xs.right)
    ensures Nodes(Plug(r, xs)) == PathNodes(r) + {xs.node} + Nodes(xs.right)
    ensures {xs.node} !! PathNodes(r) !! Nodes(xs.right)
    ensures ParentsWithin(r) <= PathNodes(r)
    ensures !r.Top? ==> Outermost(r) in PathNodes(r) && Outermost(r) !in ParentsWithin(r)
  {
    PlugNodes(r, xs);
    assert Nodes(xs) == {xs.node} + Nodes(xs.right);
    hide Plug, Nodes, PathNodes, ParentsWithin, Beyond;
    WayApart(r);
    EndIsApart(r);
    RootIsApart(xs.right);
  }

  lemma SpreadOut(p: Path, sub: Tree, r: Path, xs: Tree, nil: Node)
    requires Disjoint(p, sub, nil) && sub.Fork? && xs.Fork? && xs.left.Leaf? && Plug(r, xs) == sub.right
    ensures Spread(p, sub.node, sub.left, r, xs.node, xs.right, nil)
    ensures Members(p, sub) == PathNodes(p) + {sub.node, xs.node} + Nodes(sub.left) + PathNodes(r) + Nodes(xs.right)
  {
    hide Nodes, PathNodes, Apart, PathApart, Inner, Beyond, ParentsWithin, Plug, Disjoint, EndApart, RootApart;
    SubtreeParts(p, sub, nil);
    SuccessorParts(r, xs);
  }

  /** The first writes of the two-children case: x takes over elem's colour, its
      left child and its parent. */
  method TakePlace(elem: Node, x: Node, leftNode: Node, parentNode: Node,
                   ghost p: Path, ghost l: Tree, ghost r: Path, ghost xr: Tree, ghost nil: Node)
    requires Spread(p, elem, l, r, x, xr, nil) && l.Fork?
    requires PathHung(p, nil) && HoleOf(p, nil) == elem && (p.GoRight? ==> p.node.left != elem)
    requires Hung(l, nil) && WayHung(r, nil) && Hung(xr, nil)
    requires leftNode == l.node && parentNode == ParentOf(p, nil)
    modifies elem`color, x`color, x`left, x`parent, l.node`parent
    modifies (if parentNode.left == elem then {parentNode} else {})`left
    modifies (if parentNode.left == elem then {} else {parentNode})`right
    ensures PathHung(p, nil) && HoleOf(p, nil) == x && x.parent == ParentOf(p, nil)
    ensures x.color == old(elem.color) && elem.color == old(x.color)
    ensures Hung(l, nil) && x.left == l.node && Below(l, x)
    ensures WayHung(r, nil) && Hung(xr, nil)
  {
    hide Spread, Hung, PathHung, WayHung, Nodes, PathNodes, Inner, Beyond, ParentsWithin;
    SpreadPoints(p, elem, l, r, x, xr, nil);
    var tempColor := x.color;
    x.color := elem.color;
    elem.color := tempColor;
    leftNode.parent := x;
    x.left := leftNode;
    x.parent := parentNode;
    if elem == parentNode.left {
      parentNode.left := x;
    } else {
      parentNode.right := x;
    }
  }

  /** The nodes written are on none of the other parts. */
  lemma SpreadPoints(p: Path, elem: Node, l: Tree, r: Path, x: Node, xr: Tree, nil: Node)
    requires Spread(p, elem, l, r, x, xr, nil) && l.Fork?
    ensures EndApart(p) && EndApart(r) && RootApart(l) && RootApart(xr) && ParentsWithin(r) <= PathNodes(r)
    ensures elem != x && nil != elem && x != nil && nil !in PathNodes(p) && l.node != nil
    ensures elem !in PathNodes(p) && elem !in Nodes(l) && elem !in PathNodes(r) && elem !in Nodes(xr)
    ensures x !in PathNodes(p) && x !in Nodes(l) && x !in PathNodes(r) && x !in Nodes(xr)
    ensures l.node != elem && l.node != x && l.node !in PathNodes(p) && l.node !in PathNodes(r) && l.node !in Nodes(xr)
    ensures var n := ParentOf(p, nil); n !in Nodes(l) && n !in PathNodes(r) && n !in Nodes(xr) && n != x && n != elem
  {}

  /** The remaining writes when x was not elem's own child: x's right child takes
      over x's old place and x takes over elem's right child. */
  method CloseGap(x: Node, rightX: Node, rightNode: Node, parentX: Node,
                  ghost p: Path, ghost elem: Node, ghost l: Tree, ghost r: Path, ghost xr: Tree, ghost nil: Node)
    requires Spread(p, elem, l, r, x, xr, nil) && l.Fork? && !r.Top?
    requires PathHung(p, nil) && HoleOf(p, nil) == x && x.parent == ParentOf(p, nil)
    requires Hung(l, nil) && x.left == l.node && Below(l, x)
    requires WayHung(r, nil) && Hung(xr, nil) && rightX == RootOf(xr, nil)
    requires parentX == r.node && Outermost(r) == rightNode
    modifies rightX`parent, parentX`left, rightNode`parent, x`right
    ensures PathHung(p, nil) && HoleOf(p, nil) == x && x.parent == ParentOf(p, nil)
    ensures Hung(l, nil) && x.left == l.node && Below(l, x)
    ensures WayHung(r, nil) && Hung(xr, nil)
    ensures x.right == rightNode && rightNode.parent == x && r.node.left == rightX && Below(xr, r.node)
  {
    hide Hung, PathHung, WayHung, Nodes, PathNodes, Inner, Beyond, ParentsWithin, Outermost;
    rightX.parent := parentX;
    parentX.left := rightX;
    rightNode.parent := x;
    x.right := rightNode;
  }

  lemma ReplacedApart(x: Node, black: bool, l: Tree, r: Path, xs: Tree, elem: Node)
    requires xs.Fork? && xs.left.Leaf? && xs.node == x
    requires Apart(Fork(l, elem, black, Plug(r, xs)))
    ensures Apart(Fork(l, x, black, Plug(r, xs.right)))
    ensures Nodes(Fork(l, x, black, Plug(r, xs.right))) == Nodes(Fork(l, elem, black, Plug(r, xs))) - {elem}
  {
    SuccessorParts(r, xs);
    PlugNodes(r, xs.right);
    hide Plug, PathNodes, PathApart;
  }

  lemma ReplacedDisjoint(p: Path, x: Node, black: bool, l: Tree, r: Path, xs: Tree, elem: Node, nil: Node)
    requires xs.Fork? && xs.left.Leaf? && xs.node == x
    requires Disjoint(p, Fork(l, elem, black, Plug(r, xs)), nil)
    ensures Disjoint(Append(r, GoRight(p, x, black, l)), xs.right, nil)
    ensures Members(Append(r, GoRight(p, x, black, l)), xs.right) ==
      Members(p, Fork(l, elem, black, Plug(r, xs))) - {elem}
  {
    var base, whole := GoRight(p, x, black, l), Fork(l, x, black, Plug(r, xs.right));
    ReplacedApart(x, black, l, r, xs, elem);
    assert elem in Nodes(Fork(l, elem, black, Plug(r, xs)));
    assert Plug(base, Plug(r, xs.right)) == Plug(p, whole);
    hide Nodes, PathNodes, Apart, PathApart, Plug;
    PlugAppend(r, base, xs.right);
    PlugNodes(p, whole);
    PlugNodes(Append(r, base), xs.right);
  }

  lemma ReplacedFocus(p: Path, x: Node, black: bool, l: Tree, r: Path, xs: Tree, elem: Node, nil: Node)
    requires xs.Fork? && xs.left.Leaf? && xs.node == x && x != nil
    requires Disjoint(p, Fork(l, elem, black, Plug(r, xs)), nil) && nil.color == nil
    requires PathHung(p, nil) && HoleOf(p, nil) == x && x.parent == ParentOf(p, nil)
    requires x.color == ColorOf(black, nil) && x.left == RootOf(l, nil) && Hung(l, nil) && Below(l, x)
    requires WayHung(r, nil) && Hung(xs.right, nil)
    requires r.Top? ==> x.right == RootOf(xs.right, nil) && Below(xs.right, x)
    requires !r.Top? ==> x.right == Outermost(r) && Outermost(r).parent == x
    requires !r.Top? ==> r.node.left == RootOf(xs.right, nil) && Below(xs.right, r.node)
    ensures Focus(Append(r, GoRight(p, x, black, l)), xs.right, nil)
  {
    hide Disjoint, WayHung, Hung, Plug, PathNodes, Nodes, Outermost;
    ReplacedDisjoint(p, x, black, l, r, xs, elem, nil);
    assert PathHung(GoRight(p, x, black, l), nil);
    hide PathHung;
    AppendHung(r, GoRight(p, x, black, l), nil);
  }

  lemma SuccessorIsNext(r: Path, xs: Tree)
    requires xs.Fork? && xs.left.Leaf? && AllLeft(r)
    ensures Inorder(Plug(r, xs)) == [xs.node] + Inorder(Plug(r, xs.right))
  {
    hide Plug, Inorder, Front, Back;
    AllLeftFront(r);
    PlugInorder(r, xs.right);
    PlugInorder(r, xs);
    LeftlessInorder(xs);
  }

  lemma LeftlessInorder(t: Tree)
    requires t.Fork? && t.left.Leaf?
    ensures Inorder(t) == [t.node] + Inorder(t.right)
  {}

  lemma ReplacedInorder(p: Path, x: Node, black: bool, l: Tree, r: Path, xs: Tree)
    requires xs.Fork? && xs.left.Leaf? && xs.node == x && AllLeft(r)
    ensures Inorder(Plug(Append(r, GoRight(p, x, black, l)), xs.right)) ==
      Front(p) + (Inorder(l) + Inorder(Plug(r, xs))) + Back(p)
  {
    hide *;
    var base := GoRight(p, x, black, l);
    SidesOfBase(p, x, black, l);
    PlugAppend(r, base, xs.right);
    PlugInorder(base, Plug(r, xs.right));
    SuccessorIsNext(r, xs);
  }

  lemma SidesOfBase(p: Path, x: Node, black: bool, l: Tree)
    ensures Front(GoRight(p, x, black, l)) == Front(p) + Inorder(l) + [x]
    ensures Back(GoRight(p, x, black, l)) == Back(p)
  {
    hide Inorder;
  }

  // ------------------------------------------------- both cases

  /** The heap holds Plug(p, sub), except that the three links of sub's own node
      may have been cleared. */
  ghost predicate Loose(p: Path, sub: Tree, nil: Node)
    reads PathNodes(p)`color, PathNodes(p)`parent, PathNodes(p)`left, PathNodes(p)`right
    reads Nodes(sub)`color, Inner(sub)`parent, Inner(sub)`left, Inner(sub)`right
    reads nil`left, nil`color
  {
    && Disjoint(p, sub, nil) && nil.color == nil && sub.Fork?
    && PathHung(p, nil) && HoleOf(p, nil) == sub.node && (p.GoRight? ==> p.node.left != sub.node)
    && sub.node.color == ColorOf(sub.black, nil)
    && Hung(sub.left, nil) && Hung(sub.right, nil)
    && Below(sub.left, sub.node) && Below(sub.right, sub.node)
  }

  /** GET_QUEUE, and the three stores that clear the links. */
  method Loosen(elem: Node, ghost nil: Node, ghost p: Path, ghost sub: Tree, ghost h: int)
      returns (queue: Node, parentNode: Node, leftNode: Node, rightNode: Node)
    requires Focus(p, sub, nil) && Sound(p, sub, h) && sub.Fork? && sub.node == elem
    modifies elem`parent, elem`left, elem`right
    ensures queue == nil && parentNode == ParentOf(p, nil)
    ensures leftNode == RootOf(sub.left, nil) && rightNode == RootOf(sub.right, nil)
    ensures elem != nil
    ensures Loose(p, sub, nil)
    ensures elem.parent == elem.left == elem.right == null
  {
    OnlyOneHole(p, sub, nil);
    assert elem !in Inner(sub) && elem !in PathNodes(p) && elem != nil;
    hide PathHung, Hung, PathNodes, Nodes, Disjoint;
    ParentSeen(p, sub, nil);
    ParentIsBlack(p, sub, h, nil);
    if elem.color != null {
      queue := elem.color;
    } else {
      queue := elem.parent.color;
    }
    parentNode := elem.parent;
    leftNode := elem.left;
    rightNode := elem.right;
    elem.parent := null;
    elem.left := null;
    elem.right := null;
  }

  lemma ParentIsBlack(p: Path, sub: Tree, h: int, nil: Node)
    requires Focus(p, sub, nil) && Sound(p, sub, h)
    ensures IsRed(sub) ==> ParentOf(p, nil).color == nil
  {}

  /** Finds the place of a node that is known to be in the tree. */
  lemma {:induction false} LocateFrom(p: Path, t: Tree, h: int, elem: Node, nil: Node)
    returns (q: Path, sub: Tree, k: int)
    requires elem in Nodes(t) && Focus(p, t, nil) && Sound(p, t, h)
    ensures Focus(q, sub, nil) && Sound(q, sub, k) && sub.Fork? && sub.node == elem
    ensures Plug(q, sub) == Plug(p, t) && Members(q, sub) == Members(p, t)
    decreases t
  {
    if t.node == elem {
      q, sub, k := p, t, h;
    } else {
      var left := elem in Nodes(t.left);
      ZipDown(p, t, nil);
      SoundBelow(left, p, t, h);
      q, sub, k := LocateFrom(Step(left, p, t.node, t.black, Far(left, t)), Near(left, t),
                              if t.black then h - 1 else h, elem, nil);
    }
  }

  lemma KidInMembers(p: Path, sub: Tree, kid: Tree, nil: Node)
    requires Disjoint(p, sub, nil) && sub.Fork? && (kid == sub.left || kid == sub.right)
    requires sub.left.Leaf? || sub.right.Leaf?
    requires kid.Leaf? ==> sub.left.Leaf? && sub.right.Leaf?
    ensures Members(p, kid) == Members(p, sub) - {sub.node}
    ensures kid.Fork? ==> kid.node in Members(p, kid)
    ensures !p.Top? ==> p.node in Members(p, kid)
    ensures sub.node in Members(p, sub) && sub.node != nil
  {}

  /** A node with at most one child leaves the tree. */
  method RemoveOuter(elem: Node, child: Node, parentNode: Node, ghost nil: Node,
                     ghost p: Path, ghost sub: Tree, ghost kid: Tree, ghost h: int)
      returns (balanced: bool)
    requires Loose(p, sub, nil) && Sound(p, sub, h) && sub.node == elem
    requires (kid == sub.left && sub.right.Leaf?) || (kid == sub.right && sub.left.Leaf?)
    requires parentNode == ParentOf(p, nil) && child == RootOf(kid, nil)
    modifies (Members(p, sub) - {elem})`left, (Members(p, sub) - {elem})`right
    modifies (Members(p, sub) - {elem})`parent, Members(p, sub)`color, nil`left, nil`parent
    ensures Focus(p, kid, nil) && Members(p, kid) == Members(p, sub) - {elem}
    ensures if balanced then Sound(p, kid, h) else ShortAt(p, kid, h)
    ensures elem.color == null
  {
    hide PathHung, Hung, PathNodes, Nodes, Sound, ShortAt, Disjoint, Inorder;
    KidInMembers(p, sub, kid, nil);
    OuterRemoved(p, sub, kid, h);
    SpliceOut(elem, child, parentNode, nil, p, sub, kid);
    balanced := elem.color == null;
    elem.color := null;
  }

  /** The walk to the leftmost node of the right subtree. */
  method FindSuccessor(rightNode: Node, elem: Node, nil: Node, ghost p: Path, ghost sub: Tree)
      returns (x: Node, parentX: Node, ghost r: Path, ghost xs: Tree)
    requires Loose(p, sub, nil) && sub.node == elem && sub.right.Fork? && sub.right.node == rightNode
    ensures Loose(p, sub, nil)
    ensures xs.Fork? && xs.left.Leaf? && xs.node == x
    ensures Plug(r, xs) == sub.right && AllLeft(r)
    ensures WayHung(r, nil) && Hung(xs, nil) && Below(xs, parentX)
    ensures if r.Top? then x == rightNode && parentX == elem
            else parentX == r.node && r.node.left == x && Outermost(r) == rightNode
  {
    x, parentX, r, xs := rightNode, elem, Top, sub.right;
    while true
      invariant xs.Fork? && xs.node == x && Plug(r, xs) == sub.right && AllLeft(r)
      invariant WayHung(r, nil) && Hung(xs, nil) && Below(xs, parentX)
      invariant if r.Top? then x == rightNode && parentX == elem
                else parentX == r.node && r.node.left == x && Outermost(r) == rightNode
      decreases xs
    {
      var leftX := x.left;
      if leftX == nil {
        break;
      }
      parentX := x;
      x := leftX;
      r, xs := GoLeft(r, xs.node, xs.black, xs.right), xs.left;
    }
  }

  /** All the writes that put the successor x in elem's place. */
  lemma ForkHung(t: Tree, nil: Node)
    requires Hung(t, nil) && t.Fork?
    ensures Hung(t.right, nil) && Below(t.right, t.node) && t.node.right == RootOf(t.right, nil) && t.node != nil
  {}

  method Promote(elem: Node, x: Node, leftNode: Node, rightNode: Node, parentNode: Node, parentX: Node,
                 ghost nil: Node, ghost p: Path, ghost sub: Tree, ghost r: Path, ghost xs: Tree)
      returns (node: Node, newParent: Node)
    requires Loose(p, sub, nil) && sub.node == elem && sub.left.Fork? && sub.right.Fork?
    requires parentNode == ParentOf(p, nil) && leftNode == sub.left.node && rightNode == sub.right.node
    requires xs.Fork? && xs.left.Leaf? && xs.node == x && Plug(r, xs) == sub.right
    requires WayHung(r, nil) && Hung(xs, nil) && Below(xs, parentX)
    requires if r.Top? then x == rightNode && parentX == elem
             else parentX == r.node && r.node.left == x && Outermost(r) == rightNode
    modifies (Members(p, sub) - {elem})`left, (Members(p, sub) - {elem})`right
    modifies (Members(p, sub) - {elem})`parent, Members(p, sub)`color, nil`left, nil`parent
    ensures Focus(Append(r, GoRight(p, x, sub.black, sub.left)), xs.right, nil)
    ensures node == RootOf(xs.right, nil) && newParent == ParentOf(Append(r, GoRight(p, x, sub.black, sub.left)), nil)
    ensures elem.color == ColorOf(xs.black, nil)
  {
    ghost var l, xr := sub.left, xs.right;
    hide Disjoint, PathHung, WayHung, Nodes, PathNodes, Inner, Beyond, ParentsWithin, Plug, Outermost, Hung;
    SpreadOut(p, sub, r, xs, nil);
    OuterInMembers(p, sub, r, xs, nil);
    ForkHung(xs, nil);
    assert sub == Fork(l, elem, sub.black, Plug(r, xs));
    TakePlace(elem, x, leftNode, parentNode, p, l, r, xr, nil);
    node := x.right;
    if x == rightNode {
      assert r.Top?;
      newParent := x;
    } else {
      CloseGap(x, node, rightNode, parentX, p, elem, l, r, xr, nil);
      newParent := parentX;
    }
    ReplacedFocus(p, x, sub.black, l, r, xs, elem, nil);
  }

  lemma OuterInMembers(p: Path, sub: Tree, r: Path, xs: Tree, nil: Node)
    requires Disjoint(p, sub, nil) && sub.Fork? && xs.Fork? && xs.left.Leaf? && Plug(r, xs) == sub.right
    ensures xs.node in Members(p, sub) && xs.node != sub.node
    ensures sub.left.Fork? ==> sub.left.node in Members(p, sub) && sub.left.node != sub.node
    ensures xs.right.Fork? ==> xs.right.node in Members(p, sub) && xs.right.node != sub.node
    ensures !r.Top? ==> r.node in Members(p, sub) && r.node != sub.node
    ensures !r.Top? ==> Outermost(r) in Members(p, sub) && Outermost(r) != xs.node && Outermost(r) != sub.node
    ensures !p.Top? ==> p.node in Members(p, sub) && p.node != sub.node
  {
    hide Plug, ParentsWithin, Outermost;
    SubtreeParts(p, sub, nil);
    SuccessorParts(r, xs);
  }

  /** A node with two children leaves the tree: its successor takes its place. */
  method RemoveInner(elem: Node, leftNode: Node, rightNode: Node, parentNode: Node, nil: Node,
                     ghost p: Path, ghost sub: Tree, ghost h: int)
      returns (balanced: bool, node: Node, newParent: Node, ghost q: Path, ghost t: Tree, ghost k: int)
    requires Loose(p, sub, nil) && Sound(p, sub, h) && sub.node == elem && sub.left.Fork? && sub.right.Fork?
    requires parentNode == ParentOf(p, nil) && leftNode == sub.left.node && rightNode == sub.right.node
    modifies (Members(p, sub) - {elem})`left, (Members(p, sub) - {elem})`right
    modifies (Members(p, sub) - {elem})`parent, Members(p, sub)`color, nil`left, nil`parent
    ensures Focus(q, t, nil) && Members(q, t) == Members(p, sub) - {elem}
    ensures node == RootOf(t, nil) && newParent == ParentOf(q, nil)
    ensures if balanced then Sound(q, t, k) else ShortAt(q, t, k)
    ensures Inorder(Plug(q, t)) == Front(p) + (Inorder(sub.left) + Inorder(sub.right)) + Back(p)
    ensures elem.color == null
  {
    hide PathHung, Hung, WayHung, Nodes, PathNodes, Plug, Sound, ShortAt, Inorder, Front, Back, Outermost, Disjoint;
    var x, parentX;
    ghost var r, xs;
    x, parentX, r, xs := FindSuccessor(rightNode, elem, nil, p, sub);
    q, t := Append(r, GoRight(p, x, sub.black, sub.left)), xs.right;
    k := InnerRemoved(p, sub, h, r, xs, nil);
    hide Loose;
    node, newParent := Promote(elem, x, leftNode, rightNode, parentNode, parentX, nil, p, sub, r, xs);
    balanced := elem.color == null;
    elem.color := null;
  }

  /** Removing an inner node costs the colour of its successor. */
  lemma InnerRemoved(p: Path, sub: Tree, h: int, r: Path, xs: Tree, nil: Node) returns (k: int)
    requires Disjoint(p, sub, nil) && Sound(p, sub, h) && sub.Fork?
    requires xs.Fork? && xs.left.Leaf? && Plug(r, xs) == sub.right && AllLeft(r)
    ensures var q := Append(r, GoRight(p, xs.node, sub.black, sub.left));
      && (if xs.black then ShortAt(q, xs.right, k) else Sound(q, xs.right, k))
      && Members(q, xs.right) == Members(p, sub) - {sub.node}
      && Inorder(Plug(q, xs.right)) == Front(p) + (Inorder(sub.left) + Inorder(sub.right)) + Back(p)
    ensures sub.node in Members(p, sub) && sub.node !in PathNodes(Append(r, GoRight(p, xs.node, sub.black, sub.left)))
    ensures sub.node !in Nodes(xs.right) && sub.node != nil
  {
    var base := GoRight(p, xs.node, sub.black, sub.left);
    SoundBelow(false, p, sub, h);
    k := SoundAppend(r, base, xs, if sub.black then h - 1 else h);
    hide Plug, Sound, ShortAt, Inorder, Front, Back;
    OuterRemoved(Append(r, base), xs, xs.right, k);
    assert sub == Fork(sub.left, sub.node, sub.black, Plug(r, xs));
    ReplacedDisjoint(p, xs.node, sub.black, sub.left, r, xs, sub.node, nil);
    ReplacedInorder(p, xs.node, sub.black, sub.left, r, xs);
  }
}
