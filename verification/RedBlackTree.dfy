/** The mathematical side of the red-black queue: trees, the way down to a place
    in a tree, and the colour rules. Nothing here reads the heap. */
module RedBlackTree {
  import opened QueueNode

  datatype Tree = Leaf | Fork(left: Tree, node: Node, black: bool, right: Tree)

  /** A place in a tree: the frames from the hole up to the root. A frame keeps
      the node passed and the subtree on the side not taken. */
  datatype Path =
    | Top
    | GoLeft(up: Path, node: Node, black: bool, other: Tree)
    | GoRight(up: Path, node: Node, black: bool, other: Tree)

  /** The subtree one frame up, with t in the hole. */
  function Fill(p: Path, t: Tree): (r: Tree)
    requires !p.Top?
    ensures r.Fork? && r.node == p.node && r.black == p.black
  {
    Join(p.GoLeft?, t, p.node, p.black, p.other)
  }

  // The macros of include/queue.h take the two sides as arguments; left says
  // which side is side1.

  function Near(left: bool, t: Tree): Tree
    requires t.Fork?
  {
    if left then t.left else t.right
  }

  function Far(left: bool, t: Tree): Tree
    requires t.Fork?
  {
    if left then t.right else t.left
  }

  function Join(left: bool, near: Tree, n: Node, black: bool, far: Tree): Tree
  {
    if left then Fork(near, n, black, far) else Fork(far, n, black, near)
  }

  function Step(left: bool, up: Path, n: Node, black: bool, other: Tree): Path
  {
    if left then GoLeft(up, n, black, other) else GoRight(up, n, black, other)
  }

  /** ROTATE: the far child comes up, its near child changes sides. */
  function Rotated(left: bool, t: Tree): (r: Tree)
    requires t.Fork? && Far(left, t).Fork?
    ensures r.Fork?
  {
    var f := Far(left, t);
    Join(left, Join(left, Near(left, t), t.node, t.black, Near(left, f)), f.node, f.black, Far(left, f))
  }

  lemma RotatedInorder(left: bool, t: Tree)
    requires t.Fork? && Far(left, t).Fork?
    ensures Inorder(Rotated(left, t)) == Inorder(t)
  {
    if left {
      var r := t.right;
      assert Inorder(t) == Inorder(t.left) + [t.node] + Inorder(r.left) + [r.node] + Inorder(r.right);
      assert Inorder(Fork(t.left, t.node, t.black, r.left)) == Inorder(t.left) + [t.node] + Inorder(r.left);
    } else {
      var l := t.left;
      assert Inorder(t) == Inorder(l.left) + [l.node] + Inorder(l.right) + [t.node] + Inorder(t.right);
      assert Inorder(Fork(l.right, t.node, t.black, t.right)) == Inorder(l.right) + [t.node] + Inorder(t.right);
    }
  }

  function Plug(p: Path, t: Tree): Tree
    decreases p
  {
    if p.Top? then t else Plug(p.up, Fill(p, t))
  }

  // ---------------------------------------------------------------- order

  function Inorder(t: Tree): seq<Node>
  {
    if t.Leaf? then [] else Inorder(t.left) + [t.node] + Inorder(t.right)
  }

  /** The elements in front of the hole. */
  function Front(p: Path): seq<Node>
  {
    match p
    case Top => []
    case GoLeft(up, _, _, _) => Front(up)
    case GoRight(up, n, _, other) => Front(up) + Inorder(other) + [n]
  }

  /** The elements behind the hole. */
  function Back(p: Path): seq<Node>
  {
    match p
    case Top => []
    case GoLeft(up, n, _, other) => [n] + Inorder(other) + Back(up)
    case GoRight(up, _, _, _) => Back(up)
  }

  lemma Regrouped(f: seq<Node>, m: seq<Node>, n: seq<Node>, o: seq<Node>, b: seq<Node>)
    ensures f + (m + n + o) + b == f + m + (n + o + b)
    ensures f + (o + n + m) + b == (f + o + n) + m + b
  {}

  lemma FillInorder(p: Path, t: Tree)
    requires !p.Top?
    ensures Inorder(Fill(p, t)) ==
      if p.GoLeft? then Inorder(t) + [p.node] + Inorder(p.other) else Inorder(p.other) + [p.node] + Inorder(t)
  {}

  lemma {:induction false} PlugInorder(p: Path, t: Tree)
    ensures Inorder(Plug(p, t)) == Front(p) + Inorder(t) + Back(p)
    decreases p
  {
    if !p.Top? {
      hide Fill, Inorder;
      PlugInorder(p.up, Fill(p, t));
      FillInorder(p, t);
      var mine, other, up, down := Inorder(t), Inorder(p.other), Front(p.up), Back(p.up);
      Regrouped(up, mine, [p.node], other, down);
    }
  }

  lemma PlugSameInorder(p: Path, t: Tree, t': Tree)
    requires Inorder(t) == Inorder(t')
    ensures Inorder(Plug(p, t)) == Inorder(Plug(p, t'))
  {
    PlugInorder(p, t);
    PlugInorder(p, t');
  }

  // ---------------------------------------------------------------- nodes

  ghost function Nodes(t: Tree): set<Node>
  {
    if t.Leaf? then {} else Nodes(t.left) + {t.node} + Nodes(t.right)
  }

  ghost function PathNodes(p: Path): set<Node>
  {
    if p.Top? then {} else PathNodes(p.up) + {p.node} + Nodes(p.other)
  }

  lemma FrontInPath(p: Path)
    ensures forall n :: n in Front(p) ==> n in PathNodes(p)
  {
    if !p.Top? { NodesAreInorder(p.other); }
  }

  /** No node occurs twice. */
  ghost predicate Apart(t: Tree)
  {
    t.Fork? ==>
      && Apart(t.left) && Apart(t.right)
      && t.node !in Nodes(t.left) && t.node !in Nodes(t.right)
      && Nodes(t.left) !! Nodes(t.right)
  }

  ghost predicate PathApart(p: Path)
  {
    !p.Top? ==>
      && PathApart(p.up) && Apart(p.other)
      && p.node !in PathNodes(p.up) && p.node !in Nodes(p.other)
      && Nodes(p.other) !! PathNodes(p.up)
  }

  lemma NodesAreInorder(t: Tree)
    ensures Nodes(t) == set n | n in Inorder(t)
  {}

  lemma {:induction false} PlugNodes(p: Path, t: Tree)
    ensures Nodes(Plug(p, t)) == PathNodes(p) + Nodes(t)
    ensures Apart(Plug(p, t)) <==> PathApart(p) && Apart(t) && PathNodes(p) !! Nodes(t)
    decreases p
  {
    if !p.Top? {
      PlugNodes(p.up, Fill(p, t));
    }
  }

  lemma JoinDistinct(a: seq<Node>, n: Node, b: seq<Node>, inA: set<Node>, inB: set<Node>)
    requires NoDuplicates(a) && NoDuplicates(b) && inA !! inB
    requires inA == (set x | x in a) && inB == (set x | x in b) && n !in inA && n !in inB
    ensures NoDuplicates(a + [n] + b)
  {
    var s := a + [n] + b;
    forall i, j | 0 <= i < j < |s| ensures s[i] != s[j] {
      assert i < |a| ==> s[i] == a[i] && s[i] in inA;
      assert j < |a| ==> s[j] == a[j];
      assert i > |a| ==> s[i] == b[i - |a| - 1];
      assert j > |a| ==> s[j] == b[j - |a| - 1] && s[j] in inB;
    }
  }

  lemma {:induction false} InorderDistinct(t: Tree)
    requires Apart(t)
    ensures NoDuplicates(Inorder(t))
  {
    if t.Fork? {
      InorderDistinct(t.left);
      InorderDistinct(t.right);
      NodesAreInorder(t.left);
      NodesAreInorder(t.right);
      JoinDistinct(Inorder(t.left), t.node, Inorder(t.right), Nodes(t.left), Nodes(t.right));
    }
  }

  // --------------------------------------------------------------- colours

  predicate IsRed(t: Tree) { t.Fork? && !t.black }

  predicate EndsRed(p: Path) { !p.Top? && !p.black }

  /** Every way down meets h black nodes and no red node has a red child. */
  ghost predicate Balanced(t: Tree, h: int)
  {
    match t
    case Leaf => h == 0
    case Fork(l, _, b, r) =>
      var k := if b then h - 1 else h;
      Balanced(l, k) && Balanced(r, k) && (b || (!IsRed(l) && !IsRed(r)))
  }

  /** A balanced tree with h black levels may fill the hole, and with a black
      root it always may. */
  ghost predicate PathBalanced(p: Path, h: int)
  {
    !p.Top? ==>
    && Balanced(p.other, h)
    && (p.black || (!IsRed(p.other) && !EndsRed(p.up)))
    && PathBalanced(p.up, if p.black then h + 1 else h)
  }

  predicate RootIsBlack(p: Path)
  {
    p.Top? || (if p.up.Top? then p.black else RootIsBlack(p.up))
  }

  function BlackLevels(p: Path): nat
  {
    if p.Top? then 0 else BlackLevels(p.up) + if p.black then 1 else 0
  }

  lemma {:induction false} PlugBalanced(p: Path, t: Tree, h: int)
    requires PathBalanced(p, h) && Balanced(t, h)
    requires IsRed(t) ==> !EndsRed(p)
    ensures Balanced(Plug(p, t), h + BlackLevels(p))
    decreases p
  {
    if !p.Top? {
      PlugBalanced(p.up, Fill(p, t), if p.black then h + 1 else h);
    }
  }

  lemma {:induction false} PlugRoot(p: Path, t: Tree)
    requires RootIsBlack(p) && !p.Top?
    ensures Plug(p, t).Fork? && Plug(p, t).black
    decreases p
  {
    if !p.up.Top? {
      PlugRoot(p.up, Fill(p, t));
    }
  }

  /** The colour rules hold for all of Plug(p, t), seen from the hole. */
  ghost predicate Sound(p: Path, t: Tree, h: int)
  {
    && Balanced(t, h) && PathBalanced(p, h) && RootIsBlack(p)
    && (IsRed(t) ==> !p.Top? && !EndsRed(p))
  }

  lemma SoundIsRedBlack(p: Path, t: Tree, h: int)
    requires Sound(p, t, h)
    ensures RedBlack(Plug(p, t))
  {
    PlugBalanced(p, t, h);
    if !p.Top? { PlugRoot(p, t); }
  }

  lemma SoundBelow(left: bool, p: Path, t: Tree, h: int)
    requires Sound(p, t, h) && t.Fork?
    ensures Sound(Step(left, p, t.node, t.black, Far(left, t)), Near(left, t), if t.black then h - 1 else h)
  {}

  function Blacken(t: Tree): Tree
  {
    if t.Leaf? then t else t.(black := true)
  }

  lemma BlackenBalanced(t: Tree, h: int)
    requires Balanced(t, h)
    ensures Balanced(Blacken(t), if IsRed(t) then h + 1 else h)
    ensures Inorder(Blacken(t)) == Inorder(t)
  {}

  /** A red-black tree: balanced for some number of black levels, black root. */
  ghost predicate RedBlack(t: Tree)
  {
    !IsRed(t) && exists h :: Balanced(t, h)
  }

  lemma BlackenIsRedBlack(p: Path, t: Tree, h: int)
    requires Balanced(t, h) && PathBalanced(p, h) && (IsRed(t) ==> !EndsRed(p))
    ensures RedBlack(Blacken(Plug(p, t)))
    ensures Inorder(Blacken(Plug(p, t))) == Inorder(Plug(p, t))
  {
    PlugBalanced(p, t, h);
    BlackenBalanced(Plug(p, t), h + BlackLevels(p));
  }

  // ---------------------------------------------------------------- height

  function Height(t: Tree): nat
  {
    if t.Leaf? then 0 else 1 + if Height(t.left) > Height(t.right) then Height(t.left) else Height(t.right)
  }

  function Pow2(n: nat): nat { if n == 0 then 1 else 2 * Pow2(n - 1) }

  lemma {:induction false} BalancedBounds(t: Tree, h: int)
    requires Balanced(t, h)
    ensures h >= 0
    ensures Pow2(h) <= |Inorder(t)| + 1
    ensures Height(t) <= 2 * h + if IsRed(t) then 1 else 0
    decreases t
  {
    if t.Fork? {
      var k := if t.black then h - 1 else h;
      BalancedBounds(t.left, k);
      BalancedBounds(t.right, k);
    }
  }

  lemma {:induction false} Pow2Monotone(a: nat, b: nat)
    requires a <= b
    ensures Pow2(a) <= Pow2(b)
  {
    if a < b { Pow2Monotone(a, b - 1); }
  }

  lemma {:induction false} Pow2Double(a: nat)
    ensures Pow2(2 * a) == Pow2(a) * Pow2(a)
  {
    if a > 0 {
      Pow2Double(a - 1);
      var x := Pow2(a - 1);
      assert Pow2(2 * a) == 2 * (2 * Pow2(2 * a - 2));
      assert (2 * x) * (2 * x) == 4 * (x * x);
    }
  }

  /** Height is at most 2 log2(n + 1): no walk from the root is longer. */
  lemma HeightBound(t: Tree)
    requires RedBlack(t)
    ensures Pow2(Height(t)) <= (|Inorder(t)| + 1) * (|Inorder(t)| + 1)
  {
    var h :| Balanced(t, h);
    BalancedBounds(t, h);
    Pow2Monotone(Height(t), 2 * h);
    Pow2Double(h);
    SquareMonotone(Pow2(h), |Inorder(t)| + 1);
  }

  lemma SquareMonotone(a: nat, b: nat)
    requires a <= b
    ensures a * a <= b * b
  {}
}
