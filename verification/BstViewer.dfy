/** The binary search tree viewer: children stand `width` to either side of their parent and the width is
    halved (rounding down) at each level, so that it reaches zero on deep trees. */
module BstViewer {
  import opened Geometry
  import opened Sequences

  const ROOT_Y := 50
  const ROOT_WIDTH: nat := 330
  const NO_COLOR := -1

  /** A node of BinaryTree.h as far as the viewer looks at it; `Null` is the null pointer. */
  datatype Tree = Null | Node(left: Tree, key: int, right: Tree)

  // ---------------------------------------------------------------- the layout as a function

  function Place(t: Tree, x: int, y: int, width: nat): Placed {
    match t
    case Null => Tip
    case Node(l, key, r) =>
      Spot(Place(l, x - width, y + LEVEL_HEIGHT, width / 2), NodeInfo(x, y, key, NO_COLOR),
           Place(r, x + width, y + LEVEL_HEIGHT, width / 2))
  }

  /** Number of levels of nodes. */
  function Levels(t: Tree): nat {
    if t.Null? then 0 else 1 + if Levels(t.left) < Levels(t.right) then Levels(t.right) else Levels(t.left)
  }

  lemma LeafLists(info: NodeInfo, p: Placed)
    requires p.Tip?
    ensures PreOrder(p) == [] && Edges(p, DownwardsBetween) == [] && Own(info, p, DownwardsBetween) == []
  {
  }

  /** What CalculateTree pushes for one child amounts to the child's lines and the line leading to it. */
  lemma JoinLines(l0: seq<LineSegment>, child: Placed, info: NodeInfo, l1: seq<LineSegment>)
    requires child.Spot? && l1 == l0 + Edges(child, DownwardsBetween) + [LineSegment(At(info), At(child.info))]
    ensures l1 == l0 + (Edges(child, DownwardsBetween) + Own(info, child, DownwardsBetween))
  {
  }

  lemma JoinSides(l0: seq<LineSegment>, p: Placed, l1: seq<LineSegment>, l2: seq<LineSegment>)
    requires p.Spot? && l1 == l0 + (Edges(p.left, DownwardsBetween) + Own(p.info, p.left, DownwardsBetween))
    requires l2 == l1 + (Edges(p.right, DownwardsBetween) + Own(p.info, p.right, DownwardsBetween))
    ensures l2 == l0 + Edges(p, DownwardsBetween)
  {
    var el, er, ol, or := Edges(p.left, DownwardsBetween), Edges(p.right, DownwardsBetween),
                          Own(p.info, p.left, DownwardsBetween), Own(p.info, p.right, DownwardsBetween);
    Associate(l0, el + ol, er + or);
    Associate(el + ol, er, or);
  }

  lemma JoinNodes(n0: seq<NodeInfo>, p: Placed, n1: seq<NodeInfo>, n2: seq<NodeInfo>, n3: seq<NodeInfo>)
    requires p.Spot? && n1 == n0 + [p.info] && n2 == n1 + PreOrder(p.left) && n3 == n2 + PreOrder(p.right)
    ensures n3 == n0 + PreOrder(p)
  {
  }

  // ---------------------------------------------------------------- the viewer

  class Viewer {
    var nodes: seq<NodeInfo>
    var lines: seq<LineSegment>

    constructor ()
      ensures nodes == [] && lines == []
    {
      nodes, lines := [], [];
    }

    method CalculateTree(node: Tree, x: int, y: int, width: nat)
      modifies this
      ensures nodes == old(nodes) + PreOrder(Place(node, x, y, width))
      ensures lines == old(lines) + Edges(Place(node, x, y, width), DownwardsBetween)
      decreases node
    {
      if node.Null? {
        return;
      }
      ghost var p := Place(node, x, y, width);
      nodes := nodes + [NodeInfo(x, y, node.key, NO_COLOR)];
      var childY := y + LEVEL_HEIGHT;
      var childWidth := width / 2;
      assert p.left == Place(node.left, x - width, childY, childWidth);
      assert p.right == Place(node.right, x + width, childY, childWidth);
      ghost var n1 := nodes;

      if node.left.Node? {
        var leftX := x - width;
        CalculateTree(node.left, leftX, childY, childWidth);
        lines := lines + [LineSegment(Point(x, y), Point(leftX, childY))];
        JoinLines(old(lines), p.left, p.info, lines);
      } else {
        LeafLists(p.info, p.left);
      }
      ghost var n2, l2 := nodes, lines;

      if node.right.Node? {
        var rightX := x + width;
        CalculateTree(node.right, rightX, childY, childWidth);
        lines := lines + [LineSegment(Point(x, y), Point(rightX, childY))];
        JoinLines(l2, p.right, p.info, lines);
      } else {
        LeafLists(p.info, p.right);
      }
      JoinNodes(old(nodes), p, n1, n2, nodes);
      JoinSides(old(lines), p, l2, lines);
    }

    /** The paint handler's calculation phase. */
    method Paint(root: Tree, centerX: int)
      modifies this
      ensures root.Node? ==> nodes == PreOrder(Place(root, centerX, ROOT_Y, ROOT_WIDTH))
      ensures root.Node? ==> lines == Edges(Place(root, centerX, ROOT_Y, ROOT_WIDTH), DownwardsBetween)
      ensures root.Null? ==> nodes == old(nodes) && lines == old(lines)
    {
      if root.Node? {
        nodes, lines := [], [];
        CalculateTree(root, centerX, ROOT_Y, ROOT_WIDTH);
      }
    }
  }

  // ---------------------------------------------------------------- halving arithmetic

  /** Number of binary digits: floor(log2 w) + 1 for w >= 1, and 0 for 0. */
  function BitLength(w: nat): nat {
    if w == 0 then 0 else 1 + BitLength(w / 2)
  }

  /** Number of one bits. */
  function PopCount(w: nat): nat {
    if w == 0 then 0 else w % 2 + PopCount(w / 2)
  }

  /** w + w/2 + w/4 + ..., the first `d` terms. */
  function Reach(w: nat, d: nat): nat {
    if d == 0 then 0 else w + Reach(w / 2, d - 1)
  }

  lemma {:induction false} PopCountBounds(w: nat)
    ensures PopCount(w) <= w && (0 < w ==> 0 < PopCount(w))
  {
    if w > 0 {
      PopCountBounds(w / 2);
    }
  }

  /** The halving sums stay within 2w - popcount(w), and attain it exactly from the number of binary digits on. */
  lemma {:induction false} ReachBound(w: nat, d: nat)
    ensures Reach(w, d) <= 2 * w - PopCount(w)
    ensures Reach(w, d) == 2 * w - PopCount(w) <==> BitLength(w) <= d
  {
    PopCountBounds(w);
    if d > 0 {
      ReachBound(w / 2, d - 1);
    }
  }

  // ---------------------------------------------------------------- extent

  lemma {:induction false} WithinReach(t: Tree, x: int, y: int, w: nat, d: nat, n: NodeInfo)
    requires Levels(t) <= d + 1 && n in InOrder(Place(t, x, y, w))
    ensures x - Reach(w, d) <= n.x <= x + Reach(w, d)
  {
    var p := Place(t, x, y, w);
    if n in InOrder(p.left) {
      WithinReach(t.left, x - w, y + LEVEL_HEIGHT, w / 2, d - 1, n);
    } else if n in InOrder(p.right) {
      WithinReach(t.right, x + w, y + LEVEL_HEIGHT, w / 2, d - 1, n);
    }
  }

  /** Every node of a tree of any depth stands within 2w - popcount(w) of the root. */
  lemma Extent(t: Tree, x: int, y: int, w: nat)
    ensures forall n :: n in InOrder(Place(t, x, y, w)) ==>
              x - (2 * w - PopCount(w)) <= n.x <= x + (2 * w - PopCount(w))
    ensures 0 < w ==> 2 * w - PopCount(w) <= 2 * w - 1
  {
    PopCountBounds(w);
    forall n | n in InOrder(Place(t, x, y, w)) ensures x - (2 * w - PopCount(w)) <= n.x <= x + (2 * w - PopCount(w)) {
      WithinReach(t, x, y, w, Levels(t), n);
      ReachBound(w, Levels(t));
    }
  }

  /** A tree that only ever goes right. */
  function RightChain(d: nat): Tree {
    Node(Null, d, if d == 0 then Null else RightChain(d - 1))
  }

  lemma {:induction false} ChainReaches(d: nat, x: int, y: int, w: nat)
    ensures exists n :: n in InOrder(Place(RightChain(d), x, y, w)) && n.x == x + Reach(w, d)
    ensures Levels(RightChain(d)) == d + 1
  {
    var p := Place(RightChain(d), x, y, w);
    if d == 0 {
      assert p.info in InOrder(p);
    } else {
      ChainReaches(d - 1, x + w, y + LEVEL_HEIGHT, w / 2);
      var n :| n in InOrder(p.right) && n.x == x + w + Reach(w / 2, d - 1);
      assert n in InOrder(p);
    }
  }

  /** The bound is attained, and by no tree shallower than the number of binary digits. */
  lemma ExtentIsTight(x: int, y: int, w: nat)
    ensures exists t, n :: n in InOrder(Place(t, x, y, w)) && n.x == x + (2 * w - PopCount(w))
    ensures forall t, n :: Levels(t) <= BitLength(w) && n in InOrder(Place(t, x, y, w)) ==>
              n.x < x + (2 * w - PopCount(w)) || w == 0
  {
    ChainReaches(BitLength(w), x, y, w);
    ReachBound(w, BitLength(w));
    forall t, n | Levels(t) <= BitLength(w) && n in InOrder(Place(t, x, y, w)) && 0 < w
      ensures n.x < x + (2 * w - PopCount(w))
    {
      WithinReach(t, x, y, w, BitLength(w) - 1, n);
      ReachBound(w, BitLength(w) - 1);
    }
  }

  // ---------------------------------------------------------------- order

  /** Around a node of positive width, its subtrees keep strictly to their sides, however deep they are. */
  lemma SubtreesKeepSides(t: Tree, x: int, y: int, w: nat)
    requires t.Node? && 0 < w
    ensures var p := Place(t, x, y, w);
            && (forall n :: n in InOrder(p.left) ==> n.x < x)
            && (forall n :: n in InOrder(p.right) ==> x < n.x)
  {
    PopCountBounds(w);
    Extent(t.left, x - w, y + LEVEL_HEIGHT, w / 2);
    Extent(t.right, x + w, y + LEVEL_HEIGHT, w / 2);
  }

  /** A child in its parent's column spoils the order. */
  lemma NotIncreasing(p: Placed, child: Placed)
    requires p.Spot? && child.Spot? && (child == p.left || child == p.right) && child.info.x == p.info.x
    ensures !XIncreasing(InOrder(p))
  {
    IncreasingSplits(InOrder(p.left), p.info, InOrder(p.right));
    assert child.info in InOrder(child);
  }

  lemma OrderedAtRoot(t: Tree, x: int, y: int, w: nat)
    requires t.Node? && 0 < w
    ensures var p := Place(t, x, y, w);
            XIncreasing(InOrder(p)) <==> XIncreasing(InOrder(p.left)) && XIncreasing(InOrder(p.right))
  {
    var p := Place(t, x, y, w);
    IncreasingSplits(InOrder(p.left), p.info, InOrder(p.right));
    SubtreesKeepSides(t, x, y, w);
  }

  /** x strictly increases in in-order exactly for the trees with at most one more level than the root width has
      binary digits; one level deeper some node of width 0 stands in the same column as its child. */
  lemma {:induction false} OrderedIffShallow(t: Tree, x: int, y: int, w: nat)
    ensures XIncreasing(InOrder(Place(t, x, y, w))) <==> Levels(t) <= BitLength(w) + 1
  {
    if t.Null? {
    } else if w > 0 {
      OrderedAtRoot(t, x, y, w);
      OrderedIffShallow(t.left, x - w, y + LEVEL_HEIGHT, w / 2);
      OrderedIffShallow(t.right, x + w, y + LEVEL_HEIGHT, w / 2);
    } else if t.left.Node? {
      NotIncreasing(Place(t, x, y, w), Place(t.left, x, y + LEVEL_HEIGHT, 0));
    } else if t.right.Node? {
      NotIncreasing(Place(t, x, y, w), Place(t.right, x, y + LEVEL_HEIGHT, 0));
    } else {
      assert InOrder(Place(t, x, y, w)) == [NodeInfo(x, y, t.key, NO_COLOR)];
    }
  }

  // ---------------------------------------------------------------- keys

  function KeysInOrder(t: Tree): (keys: seq<int>) {
    if t.Null? then [] else KeysInOrder(t.left) + [t.key] + KeysInOrder(t.right)
  }

  function KeysPreOrder(t: Tree): (keys: seq<int>) {
    if t.Null? then [] else [t.key] + KeysPreOrder(t.left) + KeysPreOrder(t.right)
  }

  /** The entries show these keys, and the color that stands for none. */
  predicate Shows(ns: seq<NodeInfo>, keys: seq<int>) {
    |ns| == |keys| && forall k :: 0 <= k < |ns| ==> ns[k].key == keys[k] && ns[k].color == -1
  }

  lemma ShowsBoth(a: seq<NodeInfo>, ka: seq<int>, b: seq<NodeInfo>, kb: seq<int>)
    requires Shows(a, ka) && Shows(b, kb)
    ensures Shows(a + b, ka + kb)
  {
  }

  /** The node list shows the keys of the tree in pre-order, and read from left to right its keys in in-order. */
  lemma {:induction false} KeysAreDrawn(t: Tree, x: int, y: int, w: nat)
    ensures Shows(PreOrder(Place(t, x, y, w)), KeysPreOrder(t))
    ensures Shows(InOrder(Place(t, x, y, w)), KeysInOrder(t))
  {
    if t.Node? {
      var p := Place(t, x, y, w);
      KeysAreDrawn(t.left, x - w, y + LEVEL_HEIGHT, w / 2);
      KeysAreDrawn(t.right, x + w, y + LEVEL_HEIGHT, w / 2);
      ShowsBoth([p.info], [t.key], PreOrder(p.left), KeysPreOrder(t.left));
      ShowsBoth([p.info] + PreOrder(p.left), [t.key] + KeysPreOrder(t.left), PreOrder(p.right), KeysPreOrder(t.right));
      ShowsBoth(InOrder(p.left), KeysInOrder(t.left), [p.info], [t.key]);
      ShowsBoth(InOrder(p.left) + [p.info], KeysInOrder(t.left) + [t.key], InOrder(p.right), KeysInOrder(t.right));
    }
  }

  predicate Increasing(keys: seq<int>) { forall i, j :: 0 <= i < j < |keys| ==> keys[i] < keys[j] }

  lemma KeysFollowX(ns: seq<NodeInfo>, keys: seq<int>)
    requires XIncreasing(ns) && Shows(ns, keys) && Increasing(keys)
    ensures forall m, n :: m in ns && n in ns ==> (m.x < n.x <==> m.key < n.key)
  {
    forall m, n | m in ns && n in ns ensures m.x < n.x <==> m.key < n.key {
      var i :| 0 <= i < |ns| && ns[i] == m;
      var j :| 0 <= j < |ns| && ns[j] == n;
    }
  }

  /** In a search tree with at most one level more than w has binary digits, keys and x increase together: of two
      drawn nodes the one further left has the smaller key. */
  lemma KeysIncreaseLeftToRight(t: Tree, x: int, y: int, w: nat)
    requires Increasing(KeysInOrder(t)) && Levels(t) <= BitLength(w) + 1
    ensures var ns := PreOrder(Place(t, x, y, w));
            forall m, n :: m in ns && n in ns ==> (m.x < n.x <==> m.key < n.key)
  {
    var p := Place(t, x, y, w);
    KeysAreDrawn(t, x, y, w);
    OrderedIffShallow(t, x, y, w);
    PreOrderIsInOrder(p);
    hide Place, PreOrder, InOrder, XIncreasing, Shows, Increasing;
    KeysFollowX(InOrder(p), KeysInOrder(t));
    forall n | n in PreOrder(p) ensures n in InOrder(p) {
      assert n in multiset(PreOrder(p));
    }
  }

  // ---------------------------------------------------------------- planarity

  /** Every node with two children lies at a depth below `d`. */
  predicate ForksAbove(t: Tree, d: nat) {
    t.Node? ==>
      && (t.left.Node? && t.right.Node? ==> 0 < d)
      && ForksAbove(t.left, if d == 0 then 0 else d - 1)
      && ForksAbove(t.right, if d == 0 then 0 else d - 1)
  }

  lemma {:induction false} PlaceLayered(t: Tree, x: int, y: int, w: nat)
    ensures Layered(Place(t, x, y, w), y)
  {
    if t.Node? {
      PlaceLayered(t.left, x - w, y + LEVEL_HEIGHT, w / 2);
      PlaceLayered(t.right, x + w, y + LEVEL_HEIGHT, w / 2);
    }
  }

  lemma {:induction false} WideForksSeparate(t: Tree, x: int, y: int, w: nat)
    requires ForksAbove(t, BitLength(w))
    ensures ForksSeparate(Place(t, x, y, w))
  {
    if t.Node? {
      var p := Place(t, x, y, w);
      WideForksSeparate(t.left, x - w, y + LEVEL_HEIGHT, w / 2);
      WideForksSeparate(t.right, x + w, y + LEVEL_HEIGHT, w / 2);
      if w > 0 {
        SubtreesKeepSides(t, x, y, w);
        SidesFromMembers(p.left, x);
        SidesFromMembers(p.right, x);
      }
    }
  }

  /** Some node has both of its children in the same place. */
  predicate DoubledFork(p: Placed) {
    p.Spot? &&
      ((p.left.Spot? && p.right.Spot? && At(p.left.info) == At(p.right.info))
       || DoubledFork(p.left) || DoubledFork(p.right))
  }

  lemma {:induction false} NarrowForkIsDoubled(t: Tree, x: int, y: int, w: nat)
    requires !ForksAbove(t, BitLength(w))
    ensures DoubledFork(Place(t, x, y, w))
  {
    var p := Place(t, x, y, w);
    assert p.left == Place(t.left, x - w, y + LEVEL_HEIGHT, w / 2);
    assert p.right == Place(t.right, x + w, y + LEVEL_HEIGHT, w / 2);
    if w == 0 && t.left.Node? && t.right.Node? {
    } else if !ForksAbove(t.left, BitLength(w / 2)) {
      NarrowForkIsDoubled(t.left, x - w, y + LEVEL_HEIGHT, w / 2);
    } else {
      NarrowForkIsDoubled(t.right, x + w, y + LEVEL_HEIGHT, w / 2);
    }
  }

  /** A doubled fork draws the same line twice. */
  lemma {:induction false} DoubledForkDoublesLine(p: Placed, y: int) returns (i: nat, j: nat)
    requires Layered(p, y) && DoubledFork(p)
    ensures var lines := Edges(p, DownwardsBetween);
            i < j < |lines| && lines[i] == lines[j] && lines[i].end.y == lines[i].start.y + LEVEL_HEIGHT
  {
    var Spot(l, info, r) := p;
    var el, er, ol := Edges(l, DownwardsBetween), Edges(r, DownwardsBetween), Own(info, l, DownwardsBetween);
    if DoubledFork(l) {
      i, j := DoubledForkDoublesLine(l, y + LEVEL_HEIGHT);
    } else if DoubledFork(r) {
      i, j := DoubledForkDoublesLine(r, y + LEVEL_HEIGHT);
      i, j := |el| + |ol| + i, |el| + |ol| + j;
    } else {
      i, j := |el|, |el| + 1 + |er|;
    }
  }

  lemma MiddleIsNoEnd(s: LineSegment, py: real)
    requires s.end.y == s.start.y + LEVEL_HEIGHT && py == s.start.y as real + 0.5 * (s.end.y - s.start.y) as real
    ensures py != s.start.y as real && py != s.end.y as real
  {
    assert py == s.start.y as real + 37.5;
  }

  lemma DoubledLineIsNotPlanar(nodes: seq<NodeInfo>, lines: seq<LineSegment>, i: nat, j: nat)
    requires i < j < |lines| && lines[i] == lines[j] && lines[i].end.y == lines[i].start.y + LEVEL_HEIGHT
    ensures !Planar(nodes, lines)
  {
    var s := lines[i];
    var px := s.start.x as real + 0.5 * (s.end.x - s.start.x) as real;
    var py := s.start.y as real + 0.5 * (s.end.y - s.start.y) as real;
    assert IsAt(0.5, px, py, s);
    assert On(px, py, lines[i]) && On(px, py, lines[j]);
    MiddleIsNoEnd(s, py);
    assert !MeetAtNodes(lines[i], lines[j], nodes);
  }

  /** The drawing is planar exactly when every node with two children lies at a depth smaller than the number
      of binary digits of the root width. */
  lemma PlanarIffForksWide(t: Tree, x: int, y: int, w: nat)
    ensures var p := Place(t, x, y, w);
            Planar(PreOrder(p), Edges(p, DownwardsBetween)) <==> ForksAbove(t, BitLength(w))
  {
    var p := Place(t, x, y, w);
    if ForksAbove(t, BitLength(w)) {
      PlaceLayered(t, x, y, w);
      WideForksSeparate(t, x, y, w);
      PreOrderIsInOrder(p);
      PlanarWhenForksSeparate(p, DownwardsBetween, y, PreOrder(p));
    } else {
      PlaceLayered(t, x, y, w);
      NarrowForkIsDoubled(t, x, y, w);
      var i, j := DoubledForkDoublesLine(p, y);
      DoubledLineIsNotPlanar(PreOrder(p), Edges(p, DownwardsBetween), i, j);
    }
  }

  lemma {:induction false} ShallowForks(t: Tree, d: nat)
    requires Levels(t) <= d + 1
    ensures ForksAbove(t, d)
  {
    if t.Node? && d > 0 {
      ShallowForks(t.left, d - 1);
      ShallowForks(t.right, d - 1);
    }
  }

  lemma DigitsOfRootWidth()
    ensures BitLength(ROOT_WIDTH) == 9 && PopCount(ROOT_WIDTH) == 4
  {
    assert BitLength(1) == 1 && PopCount(1) == 1;
    assert BitLength(2) == 2 && PopCount(2) == 1;
    assert BitLength(5) == 3 && PopCount(5) == 2;
    assert BitLength(10) == 4 && PopCount(10) == 2;
    assert BitLength(20) == 5 && PopCount(20) == 2;
    assert BitLength(41) == 6 && PopCount(41) == 3;
    assert BitLength(82) == 7 && PopCount(82) == 3;
    assert BitLength(165) == 8 && PopCount(165) == 4;
  }

  /** The results for the width the viewer starts with: the root stands where the window's middle is, at height 50; ten
      levels are drawn in order and without crossings, and no node of any tree strays further than 656 from the root. */
  lemma StartingWidth(t: Tree, x: int)
    ensures var p := Place(t, x, ROOT_Y, ROOT_WIDTH);
            && (t.Node? ==> PreOrder(p)[0] == NodeInfo(x, 50, t.key, -1))
            && (XIncreasing(InOrder(p)) <==> Levels(t) <= 10)
            && (Planar(PreOrder(p), Edges(p, DownwardsBetween)) <==> ForksAbove(t, 9))
            && (Levels(t) <= 10 ==> Planar(PreOrder(p), Edges(p, DownwardsBetween)))
            && (forall n :: n in PreOrder(p) ==> x - 656 <= n.x <= x + 656)
  {
    var p := Place(t, x, ROOT_Y, ROOT_WIDTH);
    DigitsOfRootWidth();
    OrderedIffShallow(t, x, ROOT_Y, ROOT_WIDTH);
    PlanarIffForksWide(t, x, ROOT_Y, ROOT_WIDTH);
    if Levels(t) <= 10 {
      ShallowForks(t, 9);
    }
    Extent(t, x, ROOT_Y, ROOT_WIDTH);
    PreOrderIsInOrder(p);
    forall n | n in PreOrder(p) ensures n in InOrder(p) {
      assert n in multiset(PreOrder(p));
    }
  }

  /** Every node but the root is the lower end of one line, which comes from a drawn node 75 above. */
  lemma LinesComeFromAbove(t: Tree, x: int, y: int, w: nat)
    requires t.Node?
    ensures var p := Place(t, x, y, w); var lines := Edges(p, DownwardsBetween);
            && |lines| == |PreOrder(p)| - 1
            && multiset(LowerEnds(lines, DownwardsBetween)) + multiset{Point(x, y)} == multiset(Points(InOrder(p)))
            && forall s :: s in lines ==> s.start in Points(InOrder(p)) && s.end.y == s.start.y + 75
  {
    var p := Place(t, x, y, w);
    PlaceLayered(t, x, y, w);
    PreOrderIsInOrder(p);
    OneLineToEachNode(p, DownwardsBetween);
    assert |PreOrder(p)| == |multiset(PreOrder(p))| == |InOrder(p)|;
    forall s | s in Edges(p, DownwardsBetween) ensures s.start in Points(InOrder(p)) && s.end.y == s.start.y + 75 {
      EdgesLeadUp(p, y, s, DownwardsBetween);
    }
  }
}
