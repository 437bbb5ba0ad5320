/** The repair loop of the red-black remove. */
module RedBlackRemove {
  import opened QueueNode
  import opened RedBlackTree
  import opened RedBlackLinks

  /** The subtree t in p's hole is one black level short of the h levels the
      rest of the tree has there, or it is red and blackening it makes up. */
  ghost predicate ShortAt(p: Path, t: Tree, h: int)
  {
    && PathBalanced(p, h) && RootIsBlack(p)
    && if IsRed(t) then Balanced(Blacken(t), h) else Balanced(t, h - 1)
  }

  lemma BalancedIsNonnegative(t: Tree, h: int)
    requires Balanced(t, h)
    ensures h >= 0
  {
    BalancedBounds(t, h);
  }

  /** The sibling of a short black subtree is a real node. */
  lemma SiblingExists(p: Path, t: Tree, h: int)
    requires ShortAt(p, t, h) && !p.Top? && !IsRed(t)
    ensures h >= 1 && p.other.Fork? && Balanced(p.other, h)
    ensures IsRed(p.other) ==> p.black && p.other.left.Fork? && p.other.right.Fork?
  {
    BalancedIsNonnegative(t, h - 1);
    assert IsRed(p.other) ==> Balanced(p.other.left, h) && Balanced(p.other.right, h);
  }

  // ------------------------------------------------ red sibling

  function Lowered(p: Path): Path
    requires !p.Top? && p.other.Fork?
  {
    var left, s := p.GoLeft?, p.other;
    Step(left, Step(left, p.up, s.node, true, Far(left, s)), p.node, false, Near(left, s))
  }

  lemma LoweredIsShortAt(p: Path, t: Tree, h: int)
    requires ShortAt(p, t, h) && !p.Top? && !IsRed(t) && IsRed(p.other)
    ensures ShortAt(Lowered(p), t, h) && !IsRed(Lowered(p).other)
    ensures Inorder(Plug(Lowered(p), t)) == Inorder(Plug(p, t))
  {
    SiblingExists(p, t, h);
    var left, s, l := p.GoLeft?, p.other, Lowered(p);
    assert PathBalanced(l.up, h);
    var before := Join(left, t, p.node, p.black, s);
    RotatedInorder(left, before);
    assert Fill(l.up, Fill(l, t)) ==
      Join(left, Join(left, t, p.node, false, Near(left, s)), s.node, true, Far(left, s));
    assert Inorder(Fill(l.up, Fill(l, t))) == Inorder(Rotated(left, before));
    PlugSameInorder(p.up, Fill(l.up, Fill(l, t)), Fill(p, t));
  }

  /** REMOVE_BODY's first step: a red sibling is rotated out of the way. */
  method Lower(left: bool, parentNode: Node, sibling: Node, nil: Node, ghost p: Path, ghost t: Tree)
    requires Focus(p, t, nil) && !p.Top? && p.node == parentNode && left == p.GoLeft?
    requires p.other.Fork? && p.other.node == sibling
    modifies Members(p, t)`left, Members(p, t)`right, Members(p, t)`parent, Members(p, t)`color
    modifies nil`left, nil`parent
    ensures Focus(Lowered(p), t, nil) && Members(Lowered(p), t) == Members(p, t)
  {
    hide PathHung, PathNodes, Nodes, Disjoint;
    ZipUp(p, t, nil);
    ZipDown(p.up, Fill(p, t), nil);
    ghost var side := Step(!left, p.up, p.node, p.black, t);
    SetColor(sibling, nil, side, p.other, nil);
    ghost var s := p.other.(black := true);
    ZipUp(side, s, nil);
    SetColor(parentNode, null, p.up, Fill(side, s), nil);
    ghost var w := Fill(side, s).(black := false);
    Rotate(left, parentNode, p.up, w, nil);
    ghost var r := Rotated(left, w);
    ZipDown(p.up, r, nil);
    ghost var q := Step(left, p.up, s.node, true, Far(left, s));
    ZipDown(q, Near(left, r), nil);
  }

  // ------------------------------------------------ far nephew red

  /** The tree at the parent after COMMON_CASE has set its three colours. */
  function Repainted(p: Path, t: Tree): Tree
    requires !p.Top? && p.other.Fork?
  {
    var left, s := p.GoLeft?, p.other;
    Join(left, t, p.node, true, Join(left, Near(left, s), s.node, p.black, Blacken(Far(left, s))))
  }

  /** The same tree after its rotation. */
  function Settled(p: Path, t: Tree): Tree
    requires !p.Top? && p.other.Fork? && Far(p.GoLeft?, p.other).Fork?
  {
    Rotated(p.GoLeft?, Repainted(p, t))
  }

  lemma SettledBalanced(p: Path, t: Tree, h: int)
    requires ShortAt(p, t, h) && !p.Top? && !IsRed(t)
    requires p.other.Fork? && p.other.black && IsRed(Far(p.GoLeft?, p.other))
    ensures Balanced(Settled(p, t), if p.black then h + 1 else h)
    ensures IsRed(Settled(p, t)) ==> !EndsRed(p.up)
    ensures Inorder(Plug(p.up, Settled(p, t))) == Inorder(Plug(p, t))
  {
    var left, s := p.GoLeft?, p.other;
    BlackenBalanced(Far(left, s), h - 1);
    assert Balanced(Join(left, t, p.node, true, Near(left, s)), h);
    RotatedInorder(left, Repainted(p, t));
    PlugSameInorder(p.up, Settled(p, t), Fill(p, t));
  }

  lemma RootSeen(p: Path, t: Tree, nil: Node)
    requires Focus(p, t, nil) && RootIsBlack(p)
    requires p.Top? ==> t.Fork? && t.black
    ensures nil.left != null && nil.left in Members(p, t) && nil.left.color == nil
  {
    ZipUpAll(p, t, nil);
    PlugNodes(p, t);
    if !p.Top? { PlugRoot(p, t); }
  }

  method Repaint(left: bool, y: Node, parentNode: Node, nil: Node, ghost p: Path, ghost t: Tree)
    requires Focus(p, t, nil) && !p.Top? && p.node == parentNode && left == p.GoLeft?
    requires p.other.Fork? && p.other.node == y && Far(left, p.other).Fork?
    modifies Members(p, t)`color
    ensures Focus(p.up, Repainted(p, t), nil) && Members(p.up, Repainted(p, t)) == Members(p, t)
  {
    hide PathHung, PathNodes, Nodes, Disjoint;
    ghost var s := p.other;
    ZipUp(p, t, nil);
    ZipDown(p.up, Fill(p, t), nil);
    ghost var side := Step(!left, p.up, p.node, p.black, t);
    SetColor(y, parentNode.color, side, s, nil);
    s := s.(black := p.black);

    ZipUp(side, s, nil);
    SetColor(parentNode, nil, p.up, Fill(side, s), nil);
    ghost var w := Fill(side, s).(black := true);

    ZipDown(p.up, w, nil);
    side := Step(!left, p.up, p.node, true, t);
    ZipDown(side, s, nil);
    ghost var deep := Step(!left, side, s.node, s.black, Near(left, s));
    SetColor(if left then y.right else y.left, nil, deep, Far(left, s), nil);
    ZipUp(deep, Blacken(Far(left, s)), nil);
    ZipUp(side, Fill(deep, Blacken(Far(left, s))), nil);
  }

  /** COMMON_CASE with the sibling y: one rotation about the parent and done. */
  method Settle(left: bool, y: Node, parentNode: Node, nil: Node, ghost p: Path, ghost t: Tree)
    requires Focus(p, t, nil) && !p.Top? && p.node == parentNode && left == p.GoLeft? && RootIsBlack(p)
    requires p.other.Fork? && p.other.node == y && Far(left, p.other).Fork?
    modifies Members(p, t)`left, Members(p, t)`right, Members(p, t)`parent, Members(p, t)`color
    modifies nil`left, nil`parent
    ensures Focus(p.up, Settled(p, t), nil) && Members(p.up, Settled(p, t)) == Members(p, t)
  {
    hide PathHung, Hung, PathNodes, Nodes, Disjoint;
    Repaint(left, y, parentNode, nil, p, t);
    Rotate(left, parentNode, p.up, Repainted(p, t), nil);
    RootSeen(p.up, Settled(p, t), nil);
    nil.left.color := nil;
  }

  // ------------------------------------------------ only the near nephew red

  /** The path after the near nephew was turned into the sibling's place. */
  function Swung(p: Path): Path
    requires !p.Top? && p.other.Fork? && Near(p.GoLeft?, p.other).Fork?
  {
    var left, s := p.GoLeft?, p.other;
    var n := Near(left, s);
    p.(other := Join(left, Near(left, n), n.node, true, Join(left, Far(left, n), s.node, false, Far(left, s))))
  }

  lemma SwungIsShortAt(p: Path, t: Tree, h: int)
    requires ShortAt(p, t, h) && !p.Top? && !IsRed(t) && p.other.Fork? && p.other.black
    requires IsRed(Near(p.GoLeft?, p.other)) && !IsRed(Far(p.GoLeft?, p.other))
    ensures ShortAt(Swung(p), t, h) && IsRed(Far(p.GoLeft?, Swung(p).other))
    ensures Inorder(Plug(Swung(p), t)) == Inorder(Plug(p, t))
  {
    var left, s := p.GoLeft?, p.other;
    var n, w := Near(left, s), Swung(p).other;
    assert Balanced(n, h - 1) && Balanced(Near(left, n), h - 1) && Balanced(Far(left, n), h - 1);
    assert Balanced(Far(left, w), h - 1);
    RotatedInorder(!left, s);
    assert Inorder(Rotated(!left, s)) == Inorder(w);
    PlugSameInorder(p.up, Fill(p, t), Fill(Swung(p), t));
  }

  method Swing(left: bool, x: Node, side1X: Node, parentNode: Node, nil: Node, ghost p: Path, ghost t: Tree)
    requires Focus(p, t, nil) && !p.Top? && p.node == parentNode && left == p.GoLeft?
    requires p.other.Fork? && p.other.node == x && Near(left, p.other).Fork? && Near(left, p.other).node == side1X
    modifies Members(p, t)`left, Members(p, t)`right, Members(p, t)`parent, Members(p, t)`color
    modifies nil`left, nil`parent
    ensures Focus(Swung(p), t, nil) && Members(Swung(p), t) == Members(p, t)
  {
    hide PathHung, PathNodes, Nodes, Disjoint;
    ghost var s := p.other;
    ZipUp(p, t, nil);
    ZipDown(p.up, Fill(p, t), nil);
    ghost var side := Step(!left, p.up, p.node, p.black, t);
    ZipDown(side, s, nil);
    ghost var deep := Step(left, side, s.node, s.black, Far(left, s));
    SetColor(side1X, nil, deep, Near(left, s), nil);
    ghost var n := Near(left, s).(black := true);
    ZipUp(deep, n, nil);
    SetColor(x, null, side, Fill(deep, n), nil);
    s := Fill(deep, n).(black := false);
    Rotate(!left, x, side, s, nil);
    ZipUp(side, Rotated(!left, s), nil);
    ZipDown(p.up, Fill(side, Rotated(!left, s)), nil);
  }

  // ------------------------------------------------ no red nephew

  /** The subtree at the parent after its other child was reddened. */
  function Faded(p: Path, t: Tree): Tree
    requires !p.Top? && p.other.Fork?
  {
    Fill(p.(other := p.other.(black := false)), t)
  }

  lemma FadedIsShortAt(p: Path, t: Tree, h: int)
    requires ShortAt(p, t, h) && !p.Top? && !IsRed(t)
    requires p.other.Fork? && p.other.black && !IsRed(p.other.left) && !IsRed(p.other.right)
    ensures ShortAt(p.up, Faded(p, t), if p.black then h + 1 else h)
    ensures Inorder(Plug(p.up, Faded(p, t))) == Inorder(Plug(p, t))
  {
    assert Balanced(p.other.(black := false), h - 1);
    PlugSameInorder(p.up, Faded(p, t), Fill(p, t));
  }

  method Fade(x: Node, nil: Node, ghost p: Path, ghost t: Tree)
    requires Focus(p, t, nil) && !p.Top? && p.other.Fork? && p.other.node == x
    modifies Members(p, t)`color
    ensures Focus(p.up, Faded(p, t), nil) && Members(p.up, Faded(p, t)) == Members(p, t)
  {
    hide PathHung, PathNodes, Nodes, Disjoint;
    ghost var side := Step(!p.GoLeft?, p.up, p.node, p.black, t);
    ZipUp(p, t, nil);
    ZipDown(p.up, Fill(p, t), nil);
    SetColor(x, null, side, p.other, nil);
    ZipUp(side, p.other.(black := false), nil);
  }

  // ------------------------------------------------ the loop

  /** What the code sees when it looks at the sibling and the nephews. */
  lemma SiblingSeen(p: Path, t: Tree, nil: Node)
    requires Focus(p, t, nil) && !p.Top? && p.other.Fork?
    ensures p.node != nil
    ensures p.GoLeft? ==> p.node.left == RootOf(t, nil) && p.node.right == p.other.node
    ensures p.GoRight? ==> p.node.right == RootOf(t, nil) != p.node.left == p.other.node
    ensures p.other.node.color == null <==> IsRed(p.other)
    ensures p.other.node.left == RootOf(p.other.left, nil) && p.other.node.right == RootOf(p.other.right, nil)
    ensures RootOf(p.other.left, nil).color == null <==> IsRed(p.other.left)
    ensures RootOf(p.other.right, nil).color == null <==> IsRed(p.other.right)
  {
    assert Hung(p.other, nil) && Hung(p.other.left, nil) && Hung(p.other.right, nil);
  }

  lemma NodeSeen(p: Path, t: Tree, nil: Node)
    requires Focus(p, t, nil)
    ensures ParentOf(p, nil) == nil <==> p.Top?
    ensures RootOf(t, nil).color == null <==> IsRed(t)
    ensures !p.Top? ==> p.node.parent == ParentOf(p.up, nil)
  {}

  lemma SettledIsSound(p: Path, t: Tree, h: int)
    requires ShortAt(p, t, h) && !p.Top? && !IsRed(t)
    requires p.other.Fork? && p.other.black && IsRed(Far(p.GoLeft?, p.other))
    ensures Sound(p.up, Settled(p, t), if p.black then h + 1 else h)
  {
    SettledBalanced(p, t, h);
  }

  lemma BlackenedIsSound(p: Path, t: Tree, h: int)
    requires ShortAt(p, t, h) && (p.Top? || IsRed(t))
    ensures exists h' :: Sound(p, Blacken(t), h')
    ensures Inorder(Plug(p, Blacken(t))) == Inorder(Plug(p, t))
  {
    PlugSameInorder(p, Blacken(t), t);
    assert Sound(p, Blacken(t), if IsRed(t) then h else h - 1);
  }

  method BlackenRoot(node: Node, nil: Node, ghost p: Path, ghost t: Tree)
    requires Focus(p, t, nil) && node == RootOf(t, nil)
    modifies Members(p, t)`color, nil`color
    ensures Focus(p, Blacken(t), nil) && Members(p, Blacken(t)) == Members(p, t)
  {
    if node == nil {
      assert t.Leaf?;
      node.color := nil;
    } else {
      SetColor(node, nil, p, t, nil);
    }
  }

  method RepairAfterRemove(start: Node, startParent: Node, nil: Node, ghost p0: Path, ghost t0: Tree, ghost h0: int)
      returns (ghost p: Path, ghost t: Tree, ghost h: int)
    requires Focus(p0, t0, nil) && ShortAt(p0, t0, h0)
    requires start == RootOf(t0, nil) && startParent == ParentOf(p0, nil)
    modifies Members(p0, t0)`left, Members(p0, t0)`right, Members(p0, t0)`parent, Members(p0, t0)`color
    modifies nil`left, nil`parent, nil`color
    ensures Focus(p, t, nil) && Members(p, t) == Members(p0, t0)
    ensures Sound(p, t, h)
    ensures Inorder(Plug(p, t)) == Inorder(Plug(p0, t0))
  {
    hide PathNodes, Nodes, Disjoint, PathHung, Hung, Balanced, RootIsBlack, PathBalanced, Inorder, Plug, Sound;
    hide Settled, Blacken, Apart, PathApart, Inner, Beyond, Members;
    var node, parentNode := start, startParent;
    p, t, h := p0, t0, h0;
    while true
      invariant Focus(p, t, nil) && Members(p, t) == Members(p0, t0)
      invariant ShortAt(p, t, h)
      invariant node == RootOf(t, nil) && parentNode == ParentOf(p, nil)
      invariant Inorder(Plug(p, t)) == Inorder(Plug(p0, t0))
      decreases !IsRed(t), p  // a lowered path is longer, but its next node is red
    {
      NodeSeen(p, t, nil);
      if parentNode == nil || node.color == null {
        BlackenedIsSound(p, t, h);
        BlackenRoot(node, nil, p, t);
        t := Blacken(t);
        h :| Sound(p, t, h);
        break;
      }
      SiblingExists(p, t, h);
      SiblingSeen(p, t, nil);
      var left := node == parentNode.left;
      var x := if left then parentNode.right else parentNode.left;
      ghost var q := p;
      if x.color == null {
        LoweredIsShortAt(p, t, h);
        Lower(left, parentNode, x, nil, p, t);
        q := Lowered(p);
        SiblingExists(q, t, h);
        SiblingSeen(q, t, nil);
        x := if left then parentNode.right else parentNode.left;
      }
      var far := if left then x.right else x.left;
      var near := if left then x.left else x.right;
      if far.color == null {
        SettledIsSound(q, t, h);
        SettledBalanced(q, t, h);
        Settle(left, x, parentNode, nil, q, t);
        p, t, h := q.up, Settled(q, t), if q.black then h + 1 else h;
        break;
      }
      if near.color == null {
        SwungIsShortAt(q, t, h);
        Swing(left, x, near, parentNode, nil, q, t);
        q := Swung(q);
        SettledIsSound(q, t, h);
        SettledBalanced(q, t, h);
        SiblingSeen(q, t, nil);
        Settle(left, if left then parentNode.right else parentNode.left, parentNode, nil, q, t);
        p, t, h := q.up, Settled(q, t), if q.black then h + 1 else h;
        break;
      }
      FadedIsShortAt(q, t, h);
      Fade(x, nil, q, t);
      NodeSeen(q.up, Faded(q, t), nil);
      ParentSeen(q.up, Faded(q, t), nil);
      p, t, h := q.up, Faded(q, t), if q.black then h + 1 else h;
      node := parentNode;
      parentNode := parentNode.parent;
    }
  }
}
