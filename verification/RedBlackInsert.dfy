/** The repair loop of the red-black insert. */
module RedBlackInsert {
  import opened QueueNode
  import opened RedBlackTree
  import opened RedBlackLinks

  /** A red subtree t fills p's hole; only the link to its parent may break the
      colour rules. */
  ghost predicate RedAt(p: Path, t: Tree, h: int)
  {
    IsRed(t) && Balanced(t, h) && PathBalanced(p, h) && RootIsBlack(p)
  }

  /** A red parent has a black parent of its own. */
  lemma RedParent(p: Path, h: int)
    requires PathBalanced(p, h) && RootIsBlack(p) && EndsRed(p)
    ensures !p.up.Top? && p.up.black && !IsRed(p.other)
    ensures Balanced(p.other, h) && Balanced(p.up.other, h) && PathBalanced(p.up.up, h + 1) && RootIsBlack(p.up.up)
  {}

  /** The tree at the grandparent after the black-uncle case. */
  function Turned(p: Path, t: Tree): Tree
    requires t.Fork? && !p.Top? && !p.up.Top?
  {
    var g, left := p.up, p.up.GoLeft?;
    var pt := if p.GoLeft? == left then Fill(p, t) else Rotated(left, Fill(p, t));
    Rotated(!left, Join(left, pt.(black := true), g.node, false, g.other))
  }

  lemma TurnedBalanced(p: Path, t: Tree, h: int)
    requires RedAt(p, t, h) && EndsRed(p) && !p.up.Top? && !IsRed(p.up.other)
    ensures Balanced(Turned(p, t), h + 1)
    ensures Inorder(Plug(p.up.up, Turned(p, t))) == Inorder(Plug(p, t))
  {
    RedParent(p, h);
    var g, left := p.up, p.up.GoLeft?;
    var pt := if p.GoLeft? == left then Fill(p, t) else Rotated(left, Fill(p, t));
    if p.GoLeft? != left { RotatedInorder(left, Fill(p, t)); }
    assert Balanced(pt.left, h) && Balanced(pt.right, h) && !IsRed(Far(left, pt));
    assert Balanced(Join(left, Far(left, pt), g.node, false, g.other), h);
    RotatedInorder(!left, Join(left, pt.(black := true), g.node, false, g.other));
    PlugSameInorder(g.up, Turned(p, t), Fill(g, Fill(p, t)));
  }

  /** INSERT_BODY, black uncle: at most two rotations and done. */
  method Turn(left: bool, x: Node, parentX: Node, nil: Node, ghost p: Path, ghost t: Tree)
    requires Focus(p, t, nil) && t.Fork? && t.node == x
    requires !p.Top? && !p.up.Top? && p.node == parentX && left == p.up.GoLeft?
    modifies Members(p, t)`left, Members(p, t)`right, Members(p, t)`parent, Members(p, t)`color
    modifies nil`left, nil`parent
    ensures Focus(p.up.up, Turned(p, t), nil)
    ensures Members(p.up.up, Turned(p, t)) == Members(p, t)
  {
    hide PathHung, PathNodes, Nodes, Disjoint;
    ghost var up, pt := p.up, Fill(p, t);
    OnlyOneHole(p, t, nil);
    ZipUp(p, t, nil);
    var y;
    if x == (if left then parentX.right else parentX.left) {
      Rotate(left, parentX, up, pt, nil);
      pt := Rotated(left, pt);
      y := parentX.parent;
    } else {
      y := x.parent;
    }
    SetColor(y, nil, up, pt, nil);
    pt := pt.(black := true);
    var parentY := y.parent;
    ZipUp(up, pt, nil);
    SetColor(parentY, null, up.up, Fill(up, pt), nil);
    Rotate(!left, parentY, up.up, Fill(up, pt).(black := false), nil);
  }

  /** The tree at the grandparent after the red-uncle case, on either side. */
  function PushedUp(p: Path, t: Tree): Tree
    requires !p.Top? && !p.up.Top?
  {
    Fill(p.up.(other := Blacken(p.up.other), black := false), Blacken(Fill(p, t)))
  }

  lemma PushedUpIsRedAt(p: Path, t: Tree, h: int)
    requires RedAt(p, t, h) && EndsRed(p) && !p.up.Top? && IsRed(p.up.other)
    ensures RedAt(p.up.up, PushedUp(p, t), h + 1)
    ensures Inorder(Plug(p.up.up, PushedUp(p, t))) == Inorder(Plug(p, t))
  {
    RedParent(p, h);
    assert Balanced(Blacken(Fill(p, t)), h + 1);
    BlackenBalanced(p.up.other, h);
    PlugSameInorder(p.up.up, PushedUp(p, t), Fill(p.up, Fill(p, t)));
  }

  /** INSERT_BODY, red uncle: the violation moves two levels up. */
  method PushUp(parentX: Node, uncle: Node, grandparent: Node, nil: Node, ghost p: Path, ghost t: Tree)
    requires Focus(p, t, nil) && !p.Top? && p.node == parentX
    requires !p.up.Top? && p.up.node == grandparent && p.up.other.Fork? && p.up.other.node == uncle
    modifies Members(p, t)`color
    ensures Focus(p.up.up, PushedUp(p, t), nil)
    ensures Members(p.up.up, PushedUp(p, t)) == Members(p, t)
  {
    hide PathHung, PathNodes, Nodes, Disjoint;
    ghost var up, pt := p.up, Fill(p, t);
    ZipUp(p, t, nil);
    SetColor(parentX, nil, up, pt, nil);
    pt := pt.(black := true);

    ZipUp(up, pt, nil);
    ghost var side := Step(!up.GoLeft?, up.up, up.node, up.black, pt);
    ZipDown(up.up, Fill(up, pt), nil);
    SetColor(uncle, nil, side, up.other, nil);
    ghost var ut := up.other.(black := true);

    ZipUp(side, ut, nil);
    SetColor(grandparent, null, up.up, Fill(side, ut), nil);
  }

  /** The repair loop: afterwards no rule is broken at the place reached. */
  method RepairAfterInsert(node: Node, nil: Node, ghost p0: Path, ghost t0: Tree, ghost h0: int)
      returns (ghost p: Path, ghost t: Tree, ghost h: int)
    requires Focus(p0, t0, nil) && RedAt(p0, t0, h0) && t0.node == node
    modifies Members(p0, t0)`left, Members(p0, t0)`right, Members(p0, t0)`parent, Members(p0, t0)`color
    modifies nil`left, nil`parent
    ensures Focus(p, t, nil) && Members(p, t) == Members(p0, t0)
    ensures t.Fork? && Balanced(t, h) && PathBalanced(p, h) && (IsRed(t) ==> !EndsRed(p))
    ensures Inorder(Plug(p, t)) == Inorder(Plug(p0, t0))
  {
    hide PathNodes, Nodes, Disjoint, PathHung, Hung, Balanced, RootIsBlack, PathBalanced, Inorder, Plug;
    var x := node;
    p, t, h := p0, t0, h0;
    while true
      invariant Focus(p, t, nil) && Members(p, t) == Members(p0, t0)
      invariant RedAt(p, t, h) && t.node == x
      invariant Inorder(Plug(p, t)) == Inorder(Plug(p0, t0))
      decreases p
    {
      ParentSeen(p, t, nil);
      var parentX := x.parent;
      if parentX.color != null {
        break;
      }
      RedParent(p, h);
      UncleSeen(p, t, nil);
      var grandparent := parentX.parent;
      var left := parentX == grandparent.left;
      var uncle := if left then grandparent.right else grandparent.left;
      if uncle.color != null {
        TurnedBalanced(p, t, h);
        Turn(left, x, parentX, nil, p, t);
        p, t, h := p.up.up, Turned(p, t), h + 1;
        break;
      }
      PushedUpIsRedAt(p, t, h);
      PushUp(parentX, uncle, grandparent, nil, p, t);
      p, t, h, x := p.up.up, PushedUp(p, t), h + 1, grandparent;
    }
  }
}
