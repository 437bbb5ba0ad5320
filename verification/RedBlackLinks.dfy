/** How the red-black queue of include/queue.h holds a tree in its nodes. The queue's own node is the
    sentinel: it is every missing child, it is the root's parent, its left field
    is the root, and it is black. */
module RedBlackLinks {
  import opened QueueNode
  import opened RedBlackTree

  // ------------------------------------------------- the tree in the heap

  function RootOf(t: Tree, nil: Node): Node { if t.Leaf? then nil else t.node }

  function ParentOf(p: Path, nil: Node): Node { if p.Top? then nil else p.node }

  function ColorOf(black: bool, nil: Node): Node? { if black then nil else null }

  ghost function Inner(t: Tree): set<Node>
  {
    if t.Leaf? then {} else Nodes(t.left) + Nodes(t.right)
  }

  ghost predicate Below(t: Tree, parent: Node)
    reads if t.Leaf? then {} else {t.node}`parent
  {
    t.Fork? ==> t.node.parent == parent
  }

  /** The links of t's nodes are those of t, leaving open what t hangs from. */
  ghost predicate Hung(t: Tree, nil: Node)
    reads Nodes(t)`color, Nodes(t)`left, Nodes(t)`right, Inner(t)`parent
  {
    t.Fork? ==>
      && t.node != nil
      && t.node.color == ColorOf(t.black, nil)
      && t.node.left == RootOf(t.left, nil)
      && t.node.right == RootOf(t.right, nil)
      && Below(t.left, t.node) && Hung(t.left, nil)
      && Below(t.right, t.node) && Hung(t.right, nil)
  }

  /** The child field that p's hole is. */
  ghost function HoleOf(p: Path, nil: Node): Node?
    reads (if p.GoRight? then {} else {ParentOf(p, nil)})`left
    reads (if p.GoRight? then {p.node} else {})`right
  {
    if p.Top? then nil.left else if p.GoLeft? then p.node.left else p.node.right
  }

  ghost function Beyond(p: Path): set<Node>
  {
    if p.Top? then {} else PathNodes(p.up) + Nodes(p.other)
  }

  /** The links along p up to the sentinel, leaving open what fills the hole. */
  ghost predicate PathHung(p: Path, nil: Node)
    reads PathNodes(p)`color, PathNodes(p)`parent
    reads (if p.Top? then {} else Beyond(p) + {nil})`left, Beyond(p)`right
    reads (if p.GoRight? then {p.node} else {})`left
    reads (if p.GoLeft? then {p.node} else {})`right
  {
    !p.Top? ==>
      && p.node != nil
      && p.node.color == ColorOf(p.black, nil)
      && p.node.parent == ParentOf(p.up, nil)
      && RootOf(p.other, nil) == (if p.GoLeft? then p.node.right else p.node.left)
      && Below(p.other, p.node) && Hung(p.other, nil)
      && HoleOf(p.up, nil) == p.node && PathHung(p.up, nil)
  }

  ghost predicate Disjoint(p: Path, t: Tree, nil: Node)
  {
    && PathApart(p) && Apart(t) && PathNodes(p) !! Nodes(t)
    && nil !in PathNodes(p) && nil !in Nodes(t)
  }

  /** The heap holds the tree Plug(p, t), seen from the place p leads to. */
  ghost predicate Focus(p: Path, t: Tree, nil: Node)
    reads PathNodes(p)`color, PathNodes(p)`parent, PathNodes(p)`left, PathNodes(p)`right
    reads Nodes(t)`color, Nodes(t)`parent, Nodes(t)`left, Nodes(t)`right
    reads nil`left, nil`color
  {
    && Disjoint(p, t, nil)
    && nil.color == nil
    && PathHung(p, nil) && HoleOf(p, nil) == RootOf(t, nil)
    && Hung(t, nil) && Below(t, ParentOf(p, nil))
  }

  ghost function Members(p: Path, t: Tree): set<Node> { PathNodes(p) + Nodes(t) }

  lemma ZipUp(p: Path, t: Tree, nil: Node)
    requires Focus(p, t, nil) && !p.Top?
    ensures Focus(p.up, Fill(p, t), nil)
    ensures Members(p.up, Fill(p, t)) == Members(p, t)
  {}

  lemma ZipDown(p: Path, t: Tree, nil: Node)
    requires Focus(p, t, nil) && t.Fork?
    ensures Focus(GoLeft(p, t.node, t.black, t.right), t.left, nil)
    ensures Focus(GoRight(p, t.node, t.black, t.left), t.right, nil)
    ensures Members(GoLeft(p, t.node, t.black, t.right), t.left) == Members(p, t)
    ensures Members(GoRight(p, t.node, t.black, t.left), t.right) == Members(p, t)
  {}

  /** What the code sees when it looks at the node above the hole. */
  lemma ParentSeen(p: Path, t: Tree, nil: Node)
    requires Focus(p, t, nil)
    ensures t.Fork? ==> t.node.parent == ParentOf(p, nil)
    ensures ParentOf(p, nil).color == null <==> EndsRed(p)
  {}

  /** What it sees when it looks at the grandparent and the uncle. */
  lemma UncleSeen(p: Path, t: Tree, nil: Node)
    requires Focus(p, t, nil) && !p.Top? && !p.up.Top?
    ensures p.node.parent == p.up.node
    ensures p.up.GoLeft? ==> p.up.node.left == p.node && p.up.node.right == RootOf(p.up.other, nil)
    ensures p.up.GoRight? ==> p.up.node.left == RootOf(p.up.other, nil) != p.node
    ensures RootOf(p.up.other, nil).color == null <==> IsRed(p.up.other)
  {
    ZipUp(p, t, nil);
    OnlyOneHole(p.up, Fill(p, t), nil);
  }

  // ------------------------------------------------------------ rotations

  /** A tree's root is not one of its inner nodes. */
  ghost predicate RootApart(t: Tree)
  {
    Inner(t) <= Nodes(t) && (t.Fork? ==> t.node in Nodes(t) && t.node !in Inner(t))
  }

  ghost predicate EndApart(p: Path)
  {
    Beyond(p) <= PathNodes(p) && (!p.Top? ==> p.node in PathNodes(p) && p.node !in Beyond(p))
  }

  lemma RootIsApart(t: Tree)
    requires Apart(t)
    ensures RootApart(t)
  {}

  lemma EndIsApart(p: Path)
    requires PathApart(p)
    ensures EndApart(p)
  {}

  /** The two nodes a rotation turns, the three subtrees it moves and the path
      above it share no node. */
  ghost predicate Cut(p: Path, x: Node, y: Node, a: Tree, b: Tree, c: Tree, nil: Node)
  {
    && PathApart(p) && Apart(a) && Apart(b) && Apart(c)
    && RootApart(a) && RootApart(b) && RootApart(c) && EndApart(p)
    && x != y && nil != x && nil != y
    && {nil, x, y} !! Nodes(a) !! Nodes(b) !! Nodes(c) !! PathNodes(p)
  }

  lemma CutRight(p: Path, t: Tree, nil: Node)
    requires Disjoint(p, t, nil) && t.Fork? && t.right.Fork?
    ensures Cut(p, t.node, t.right.node, t.left, t.right.left, t.right.right, nil)
    ensures Nodes(t) == {t.node, t.right.node} + Nodes(t.left) + Nodes(t.right.left) + Nodes(t.right.right)
  {
    assert Apart(t.right);
    assert Nodes(t.right) == {t.right.node} + Nodes(t.right.left) + Nodes(t.right.right);
  }

  lemma CutLeft(p: Path, t: Tree, nil: Node)
    requires Disjoint(p, t, nil) && t.Fork? && t.left.Fork?
    ensures Cut(p, t.node, t.left.node, t.right, t.left.right, t.left.left, nil)
    ensures Nodes(t) == {t.node, t.left.node} + Nodes(t.right) + Nodes(t.left.right) + Nodes(t.left.left)
  {
    assert Apart(t.left);
    assert Nodes(t.left) == {t.left.node} + Nodes(t.left.left) + Nodes(t.left.right);
  }

  lemma DisjointRotated(left: bool, p: Path, t: Tree, nil: Node)
    requires Disjoint(p, t, nil) && t.Fork? && Far(left, t).Fork?
    ensures Disjoint(p, Rotated(left, t), nil) && Nodes(Rotated(left, t)) == Nodes(t)
  {
    if left { CutRight(p, t, nil); } else { CutLeft(p, t, nil); }
  }

  /** ROTATE_LEFT about x, write by write. */
  method RotateLinksLeft(x: Node, ghost y: Node, ghost p: Path, ghost a: Tree, ghost b: Tree, ghost c: Tree,
                         ghost nil: Node)
    requires Cut(p, x, y, a, b, c, nil)
    requires Hung(a, nil) && Hung(b, nil) && Hung(c, nil) && PathHung(p, nil)
    requires HoleOf(p, nil) == x && x.parent == ParentOf(p, nil)
    requires x.right == y && y.left == RootOf(b, nil) && Below(a, x) && Below(c, y)
    requires p.GoRight? ==> p.node.left != x
    modifies PathNodes(p)`left, PathNodes(p)`right, {x, y}`left, {x, y}`right, ({x, y} + Nodes(b))`parent
    modifies nil`left, nil`parent
    ensures Hung(a, nil) && Hung(b, nil) && Hung(c, nil) && PathHung(p, nil)
    ensures HoleOf(p, nil) == y && y.parent == ParentOf(p, nil)
    ensures y.left == x && x.right == RootOf(b, nil) && x.parent == y && Below(b, x)
    ensures x.left == old(x.left) && y.right == old(y.right) && Below(a, x) && Below(c, y)
  {
    hide Hung, PathHung, Apart, PathApart, Nodes, PathNodes, Inner, Beyond;
    var rightX := x.right;
    var leftRightX := rightX.left;
    x.right := leftRightX;
    leftRightX.parent := x;
    var parentX := x.parent;
    rightX.left := x;
    x.parent := rightX;
    rightX.parent := parentX;
    if x == parentX.left {
      parentX.left := rightX;
    } else {
      parentX.right := rightX;
    }
  }

  lemma OnlyOneHole(p: Path, t: Tree, nil: Node)
    requires Focus(p, t, nil) && t.Fork?
    ensures p.GoRight? ==> p.node.left != t.node
    ensures p.GoLeft? ==> p.node.right != t.node
  {}

  method RotateLeft(x: Node, ghost p: Path, ghost t: Tree, ghost nil: Node)
    requires Focus(p, t, nil) && t.Fork? && t.right.Fork? && t.node == x
    modifies Members(p, t)`left, Members(p, t)`right, Members(p, t)`parent, nil`left, nil`parent
    ensures Focus(p, Rotated(true, t), nil) && Members(p, Rotated(true, t)) == Members(p, t)
  {
    hide Disjoint, Cut, PathHung, Nodes, PathNodes, Inner, Beyond;
    ghost var y, b := t.right.node, t.right.left;
    CutRight(p, t, nil);
    DisjointRotated(true, p, t, nil);
    OnlyOneHole(p, t, nil);
    assert Hung(t.right, nil);
    RotateLinksLeft(x, y, p, t.left, b, t.right.right, nil);
    assert Hung(Fork(t.left, x, t.black, b), nil);
  }

  /** ROTATE_RIGHT about x, write by write. */
  method RotateLinksRight(x: Node, ghost y: Node, ghost p: Path, ghost a: Tree, ghost b: Tree, ghost c: Tree,
                          ghost nil: Node)
    requires Cut(p, x, y, a, b, c, nil)
    requires Hung(a, nil) && Hung(b, nil) && Hung(c, nil) && PathHung(p, nil)
    requires HoleOf(p, nil) == x && x.parent == ParentOf(p, nil)
    requires x.left == y && y.right == RootOf(b, nil) && Below(a, x) && Below(c, y)
    requires p.GoRight? ==> p.node.left != x
    modifies PathNodes(p)`left, PathNodes(p)`right, {x, y}`left, {x, y}`right, ({x, y} + Nodes(b))`parent
    modifies nil`left, nil`parent
    ensures Hung(a, nil) && Hung(b, nil) && Hung(c, nil) && PathHung(p, nil)
    ensures HoleOf(p, nil) == y && y.parent == ParentOf(p, nil)
    ensures y.right == x && x.left == RootOf(b, nil) && x.parent == y && Below(b, x)
    ensures x.right == old(x.right) && y.left == old(y.left) && Below(a, x) && Below(c, y)
  {
    hide Hung, PathHung, Apart, PathApart, Nodes, PathNodes, Inner, Beyond;
    var leftX := x.left;
    var rightLeftX := leftX.right;
    x.left := rightLeftX;
    rightLeftX.parent := x;
    var parentX := x.parent;
    leftX.right := x;
    x.parent := leftX;
    leftX.parent := parentX;
    if x == parentX.left {
      parentX.left := leftX;
    } else {
      parentX.right := leftX;
    }
  }

  method RotateRight(x: Node, ghost p: Path, ghost t: Tree, ghost nil: Node)
    requires Focus(p, t, nil) && t.Fork? && t.left.Fork? && t.node == x
    modifies Members(p, t)`left, Members(p, t)`right, Members(p, t)`parent, nil`left, nil`parent
    ensures Focus(p, Rotated(false, t), nil) && Members(p, Rotated(false, t)) == Members(p, t)
  {
    hide Disjoint, Cut, PathHung, Nodes, PathNodes, Inner, Beyond;
    ghost var y, b := t.left.node, t.left.right;
    CutLeft(p, t, nil);
    DisjointRotated(false, p, t, nil);
    OnlyOneHole(p, t, nil);
    assert Hung(t.left, nil);
    RotateLinksRight(x, y, p, t.right, b, t.left.left, nil);
    assert Hung(Fork(b, x, t.black, t.right), nil);
  }

  method Rotate(left: bool, x: Node, ghost p: Path, ghost t: Tree, ghost nil: Node)
    requires Focus(p, t, nil) && t.Fork? && Far(left, t).Fork? && t.node == x
    modifies Members(p, t)`left, Members(p, t)`right, Members(p, t)`parent, nil`left, nil`parent
    ensures Focus(p, Rotated(left, t), nil) && Members(p, Rotated(left, t)) == Members(p, t)
  {
    if left {
      RotateLeft(x, p, t, nil);
    } else {
      RotateRight(x, p, t, nil);
    }
  }

  // -------------------------------------------------------------- colours

  method SetColor(n: Node, color: Node?, ghost p: Path, ghost t: Tree, ghost nil: Node)
    requires Focus(p, t, nil) && t.Fork? && t.node == n
    requires color == null || color == nil
    modifies Members(p, t)`color
    ensures Focus(p, t.(black := color != null), nil) && Members(p, t.(black := color != null)) == Members(p, t)
  {
    assert n !in PathNodes(p) && n !in Nodes(t.left) && n !in Nodes(t.right) && n != nil;
    hide PathHung, PathNodes, Beyond, Disjoint;
    DisjointRecolored(p, t, color != null, nil);
    n.color := color;
  }

  lemma DisjointRecolored(p: Path, t: Tree, black: bool, nil: Node)
    requires Disjoint(p, t, nil) && t.Fork?
    ensures Disjoint(p, t.(black := black), nil) && Members(p, t.(black := black)) == Members(p, t)
    ensures t.node in Members(p, t)
  {
    assert Nodes(t) == Nodes(t.(black := black));
  }

  /** The whole tree, seen from the root. */
  lemma {:induction false} ZipUpAll(p: Path, t: Tree, nil: Node)
    requires Focus(p, t, nil)
    ensures Focus(Top, Plug(p, t), nil)
    decreases p
  {
    match p
    case Top =>
    case _ =>
      ZipUp(p, t, nil);
      ZipUpAll(p.up, Fill(p, t), nil);
  }
}
