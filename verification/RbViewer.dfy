/** The red-black tree viewer: an in-order walk that threads a cursor through the tree, records a node at
    each stop and a line for each child, and in "show nil" mode also draws the sentinel leaves. */
module RbViewer {
  import opened Geometry
  import opened Sequences
  import opened Trees

  const X_WIDTH := 25
  const NIL_CHECK_COLOR := 100
  const START_X := 100
  const START_Y := 120

  // ---------------------------------------------------------------- the layout as a function

  /** How many entries a subtree occupies on the x axis. */
  function Slots(t: Tree, showNil: bool): nat {
    match t
    case Nil => if showNil then 1 else 0
    case Node(l, _, _, r) => Slots(l, showNil) + 1 + Slots(r, showNil)
  }

  /** The places of a subtree whose leftmost entry stands at x = `c`: a node stands after all of its left subtree. */
  function Place(t: Tree, c: int, y: int, showNil: bool): Placed {
    match t
    case Nil => if showNil then Spot(Tip, NodeInfo(c, y, 0, NIL_CHECK_COLOR), Tip) else Tip
    case Node(l, e, color, r) =>
      var x := c + X_WIDTH * Slots(l, showNil);
      Spot(Place(l, c, y + LEVEL_HEIGHT, showNil), NodeInfo(x, y, e.key, color.Code()),
           Place(r, x + X_WIDTH, y + LEVEL_HEIGHT, showNil))
  }

  lemma PlaceOfNode(t: Tree, c: int, y: int, showNil: bool)
    requires t.Node?
    ensures var x := c + X_WIDTH * Slots(t.left, showNil);
            Place(t, c, y, showNil)
            == Spot(Place(t.left, c, y + LEVEL_HEIGHT, showNil), NodeInfo(x, y, t.entry.key, t.color.Code()),
                    Place(t.right, x + X_WIDTH, y + LEVEL_HEIGHT, showNil))
    ensures X_WIDTH * Slots(t, showNil)
            == X_WIDTH * Slots(t.left, showNil) + X_WIDTH + X_WIDTH * Slots(t.right, showNil)
  {
  }

  /** The whole drawing; the empty tree draws nothing, in either mode. */
  function Drawing(t: Tree, showNil: bool): Placed {
    if t.Nil? then Tip else Place(t, START_X, START_Y, showNil)
  }

  function DrawnNodes(t: Tree, showNil: bool): seq<NodeInfo> { InOrder(Drawing(t, showNil)) }

  function DrawnLines(t: Tree, showNil: bool): seq<LineSegment> { Edges(Drawing(t, showNil), UpwardsLast) }

  lemma LeafLists(p: Placed)
    ensures p.Spot? && p.left.Tip? && p.right.Tip? ==> InOrder(p) == [p.info] && Edges(p, UpwardsLast) == []
    ensures p.Tip? ==> InOrder(p) == [] && Edges(p, UpwardsLast) == []
  {
  }

  /** The node pushes of CalculateTree around its two children amount to the in-order list of the placed node. */
  lemma JoinNodes(n0: seq<NodeInfo>, l: Placed, n1: seq<NodeInfo>, info: NodeInfo, r: Placed, n2: seq<NodeInfo>)
    requires n1 == n0 + InOrder(l) && n2 == n1 + [info] + InOrder(r)
    ensures n2 == n0 + InOrder(Spot(l, info, r))
  {
    Associate(n0, InOrder(l), [info]);
    Associate(n0, InOrder(l) + [info], InOrder(r));
  }

  /** Likewise for its line pushes. */
  lemma JoinLines(l0: seq<LineSegment>, l: Placed, l1: seq<LineSegment>, info: NodeInfo, r: Placed,
                  l2: seq<LineSegment>, l3: seq<LineSegment>, l4: seq<LineSegment>)
    requires l1 == l0 + Edges(l, UpwardsLast) && l2 == l1 + Edges(r, UpwardsLast)
    requires l3 == if l.Spot? then l2 + [LineSegment(At(l.info), At(info))] else l2
    requires l4 == if r.Spot? then l3 + [LineSegment(At(r.info), At(info))] else l3
    ensures l4 == l0 + Edges(Spot(l, info, r), UpwardsLast)
  {
    var el, er := Edges(l, UpwardsLast), Edges(r, UpwardsLast);
    var ol, or := Own(info, l, UpwardsLast), Own(info, r, UpwardsLast);
    assert l3 == l2 + ol && l4 == l3 + or;
    Associate(l0, el, er);
    Associate(l0, el + er, ol);
    Associate(l0, el + er + ol, or);
  }

  // ---------------------------------------------------------------- the viewer

  class Viewer {
    var gNodePosX: int
    var nodes: seq<NodeInfo>
    var lines: seq<LineSegment>
    var showNilNodes: bool

    constructor ()
      ensures nodes == [] && lines == [] && !showNilNodes
    {
      gNodePosX, nodes, lines, showNilNodes := 0, [], [], false;
    }

    /** Lays out `node` and everything below it, and returns where `node` was put; -1 stands for "not drawn",
        which a real position never equals because the cursor starts right of it. */
    method CalculateTree(node: Tree, y: int) returns (x: int)
      requires 0 <= gNodePosX
      modifies this`gNodePosX, this`nodes, this`lines
      ensures node.Nil? ==> x == -1 && gNodePosX == old(gNodePosX) && nodes == old(nodes) && lines == old(lines)
      ensures node.Node? ==>
                var p := Place(node, old(gNodePosX), y, showNilNodes);
                && x == p.info.x && 0 <= x
                && nodes == old(nodes) + InOrder(p)
                && lines == old(lines) + Edges(p, UpwardsLast)
                && gNodePosX == old(gNodePosX) + X_WIDTH * Slots(node, showNilNodes)
      decreases node, 0
    {
      if node.Nil? {
        return -1;
      }
      PlaceOfNode(node, gNodePosX, y, showNilNodes);
      hide InOrder, Edges, Place, Slots;
      var childY := y + LEVEL_HEIGHT;
      ghost var l := Place(node.left, gNodePosX, childY, showNilNodes);

      var leftX := CalculateChild(node.left, childY);
      ghost var n1, l1 := nodes, lines;

      var currX := gNodePosX;
      nodes := nodes + [NodeInfo(currX, y, node.entry.key, node.color.Code())];
      gNodePosX := gNodePosX + X_WIDTH;
      ghost var r := Place(node.right, gNodePosX, childY, showNilNodes);

      var rightX := CalculateChild(node.right, childY);
      ghost var l2 := lines;

      if leftX != -1 {
        lines := lines + [LineSegment(Point(leftX, childY), Point(currX, y))];
      }
      ghost var l3 := lines;
      if rightX != -1 {
        lines := lines + [LineSegment(Point(rightX, childY), Point(currX, y))];
      }
      ghost var info := NodeInfo(currX, y, node.entry.key, node.color.Code());
      assert l3 == if l.Spot? then l2 + [LineSegment(At(l.info), At(info))] else l2;
      assert lines == if r.Spot? then l3 + [LineSegment(At(r.info), At(info))] else l3;
      JoinNodes(old(nodes), l, n1, info, r, nodes);
      JoinLines(old(lines), l, l1, info, r, l2, l3, lines);
      return currX;
    }

    /** The treatment CalculateTree gives to each child: draw it, or its sentinel if those are shown. */
    method CalculateChild(child: Tree, childY: int) returns (x: int)
      requires 0 <= gNodePosX
      modifies this`gNodePosX, this`nodes, this`lines
      ensures var p := Place(child, old(gNodePosX), childY, showNilNodes);
              && x == (if p.Spot? then p.info.x else -1) && (p.Spot? ==> p.info.y == childY && 0 <= x)
              && nodes == old(nodes) + InOrder(p)
              && lines == old(lines) + Edges(p, UpwardsLast)
              && gNodePosX == old(gNodePosX) + X_WIDTH * Slots(child, showNilNodes)
      decreases child, 1
    {
      x := -1;
      LeafLists(Place(child, gNodePosX, childY, showNilNodes));
      if child.Node? {
        x := CalculateTree(child, childY);
      } else if showNilNodes {
        nodes := nodes + [NodeInfo(gNodePosX, childY, 0, NIL_CHECK_COLOR)];
        x := gNodePosX;
        gNodePosX := gNodePosX + X_WIDTH;
      }
    }

    /** The paint handler's calculation phase. */
    method Paint(root: Tree)
      modifies this`gNodePosX, this`nodes, this`lines
      ensures nodes == DrawnNodes(root, showNilNodes)
      ensures lines == DrawnLines(root, showNilNodes)
    {
      gNodePosX, nodes, lines := START_X, [], [];
      var _ := CalculateTree(root, START_Y);
    }
  }

  // ---------------------------------------------------------------- exact cursor accounting

  lemma {:induction false} CursorSteps(t: Tree, c: int, y: int, showNil: bool)
    ensures var ns := InOrder(Place(t, c, y, showNil));
            && |ns| == Slots(t, showNil)
            && forall k :: 0 <= k < |ns| ==> ns[k].x == c + X_WIDTH * k
  {
    if t.Node? {
      CursorSteps(t.left, c, y + LEVEL_HEIGHT, showNil);
      CursorSteps(t.right, c + X_WIDTH * Slots(t.left, showNil) + X_WIDTH, y + LEVEL_HEIGHT, showNil);
    }
  }

  lemma {:induction false} SlotsCount(t: Tree)
    ensures Slots(t, false) == Size(t) && Slots(t, true) == 2 * Size(t) + 1
  {
    if t.Node? {
      SlotsCount(t.left);
      SlotsCount(t.right);
    }
  }

  lemma {:induction false} PlaceLayered(t: Tree, c: int, y: int, showNil: bool)
    ensures Layered(Place(t, c, y, showNil), y)
  {
    if t.Node? {
      PlaceLayered(t.left, c, y + LEVEL_HEIGHT, showNil);
      PlaceLayered(t.right, c + X_WIDTH * Slots(t.left, showNil) + X_WIDTH, y + LEVEL_HEIGHT, showNil);
    }
  }

  /** The k-th entry stands at 100 + 25k, the root at height 120; n nodes give n entries and n-1 lines, or 2n+1 entries
      and 2n lines with the sentinels drawn; and every entry but the root starts exactly one line, which goes up one
      level, by 75. */
  lemma CursorAccounting(t: Tree, showNil: bool)
    requires t.Node?
    ensures var (ns, ls) := (DrawnNodes(t, showNil), DrawnLines(t, showNil));
            && |ns| == (if showNil then 2 * Size(t) + 1 else Size(t))
            && |ls| == |ns| - 1
            && (forall k :: 0 <= k < |ns| ==> ns[k].x == 100 + 25 * k)
            && multiset(LowerEnds(ls, UpwardsLast)) + multiset{At(Drawing(t, showNil).info)} == multiset(Points(ns))
            && Drawing(t, showNil).info.y == 120
            && (forall s :: s in ls ==> s.end in Points(ns) && s.end.y == s.start.y - 75)
  {
    var p := Drawing(t, showNil);
    CursorSteps(t, START_X, START_Y, showNil);
    SlotsCount(t);
    PlaceLayered(t, START_X, START_Y, showNil);
    OneLineToEachNode(p, UpwardsLast);
    forall s | s in Edges(p, UpwardsLast) ensures s.end in Points(InOrder(p)) && s.end.y == s.start.y - 75 {
      EdgesLeadUp(p, START_Y, s, UpwardsLast);
    }
  }

  // ---------------------------------------------------------------- planarity

  /** The drawing is planar, with or without the sentinels. */
  lemma DrawingIsPlanar(t: Tree, showNil: bool)
    ensures Planar(DrawnNodes(t, showNil), DrawnLines(t, showNil))
  {
    var p := Drawing(t, showNil);
    PlaceLayered(t, START_X, START_Y, showNil);
    CursorSteps(t, START_X, START_Y, showNil);
    IncreasingSeparates(p);
    PlanarWhenForksSeparate(p, UpwardsLast, START_Y, DrawnNodes(t, showNil));
  }

  // ---------------------------------------------------------------- the sentinels refine the plain drawing

  /** A list entry with its x coordinate disregarded. */
  datatype Mark = Mark(y: int, key: int, color: int)

  function MarkOf(n: NodeInfo): Mark { Mark(n.y, n.key, n.color) }

  function Marks(ns: seq<NodeInfo>): seq<Mark> {
    seq(|ns|, i requires 0 <= i < |ns| => MarkOf(ns[i]))
  }

  function WithoutNil(ms: seq<Mark>): seq<Mark> {
    if ms == [] then []
    else (if ms[0].color == NIL_CHECK_COLOR then [] else [ms[0]]) + WithoutNil(ms[1..])
  }

  lemma MarksConcat(a: seq<NodeInfo>, b: seq<NodeInfo>)
    ensures Marks(a + b) == Marks(a) + Marks(b)
  {
  }

  lemma {:induction false} WithoutNilConcat(a: seq<Mark>, b: seq<Mark>)
    ensures WithoutNil(a + b) == WithoutNil(a) + WithoutNil(b)
  {
    if a == [] {
      assert a + b == b;
    } else {
      assert (a + b)[1..] == a[1..] + b;
      WithoutNilConcat(a[1..], b);
    }
  }

  lemma MarksOfSpot(l: seq<NodeInfo>, m: NodeInfo, r: seq<NodeInfo>)
    ensures Marks(l + [m] + r) == Marks(l) + [MarkOf(m)] + Marks(r)
  {
    MarksConcat(l, [m]);
    MarksConcat(l + [m], r);
    assert Marks([m]) == [MarkOf(m)];
  }

  lemma FilteredSpot(l: seq<NodeInfo>, m: NodeInfo, r: seq<NodeInfo>)
    ensures WithoutNil(Marks(l + [m] + r))
         == WithoutNil(Marks(l)) + (if m.color == NIL_CHECK_COLOR then [] else [MarkOf(m)]) + WithoutNil(Marks(r))
  {
    MarksOfSpot(l, m, r);
    WithoutNilConcat(Marks(l) + [MarkOf(m)], Marks(r));
    WithoutNilConcat(Marks(l), [MarkOf(m)]);
    assert [MarkOf(m)][1..] == [];
  }

  lemma {:induction false} NilMarksDropOut(t: Tree, c: int, d: int, y: int)
    ensures WithoutNil(Marks(InOrder(Place(t, c, y, true)))) == Marks(InOrder(Place(t, d, y, false)))
  {
    var p, q := Place(t, c, y, true), Place(t, d, y, false);
    if t.Node? {
      NilMarksDropOut(t.left, c, d, y + LEVEL_HEIGHT);
      NilMarksDropOut(t.right, p.info.x + X_WIDTH, q.info.x + X_WIDTH, y + LEVEL_HEIGHT);
      FilteredSpot(InOrder(p.left), p.info, InOrder(p.right));
      MarksOfSpot(InOrder(q.left), q.info, InOrder(q.right));
    } else {
      FilteredSpot([], p.info, []);
    }
  }

  /** An odd number of entries, exactly every other one (from the first) a sentinel. */
  predicate Alternates(ns: seq<NodeInfo>) {
    && |ns| % 2 == 1
    && forall k :: 0 <= k < |ns| ==> (ns[k].color == NIL_CHECK_COLOR <==> k % 2 == 0)
  }

  lemma AlternatesJoin(a: seq<NodeInfo>, m: NodeInfo, b: seq<NodeInfo>)
    requires Alternates(a) && m.color != NIL_CHECK_COLOR && Alternates(b)
    ensures Alternates(a + [m] + b)
  {
    var ns := a + [m] + b;
    forall k | 0 <= k < |ns| ensures ns[k].color == NIL_CHECK_COLOR <==> k % 2 == 0 {
      if |a| < k {
        var j := k - |a| - 1;
        assert ns[k] == b[j] && j % 2 == k % 2;
      }
    }
  }

  /** In nil mode exactly the odd entries are nodes of the tree. */
  lemma {:induction false} NilsAlternate(t: Tree, c: int, y: int)
    ensures Alternates(InOrder(Place(t, c, y, true)))
  {
    var p := Place(t, c, y, true);
    if t.Node? {
      NilsAlternate(t.left, c, y + LEVEL_HEIGHT);
      NilsAlternate(t.right, p.info.x + X_WIDTH, y + LEVEL_HEIGHT);
      AlternatesJoin(InOrder(p.left), p.info, InOrder(p.right));
    } else {
      assert InOrder(p) == [p.info];
    }
  }

  lemma {:induction false} OddEntries(ms: seq<Mark>)
    requires |ms| % 2 == 1
    requires forall k :: 0 <= k < |ms| ==> (ms[k].color == NIL_CHECK_COLOR <==> k % 2 == 0)
    ensures |WithoutNil(ms)| == |ms| / 2
    ensures forall k :: 0 <= k < |ms| / 2 ==> WithoutNil(ms)[k] == ms[2 * k + 1]
  {
    if |ms| > 1 {
      var rest := ms[2..];
      assert ms[1..][1..] == rest;
      assert WithoutNil(ms) == [ms[1]] + WithoutNil(rest);
      OddEntries(rest);
    } else {
      assert WithoutNil(ms) == [];
    }
  }

  /** Deleting the sentinels from the nil-mode list gives the plain list, the k-th plain entry moving
      from 100 + 25k to 100 + 25(2k+1). */
  lemma NilModeRefinesPlain(t: Tree)
    requires t.Node?
    ensures var (full, plain) := (DrawnNodes(t, true), DrawnNodes(t, false));
            && WithoutNil(Marks(full)) == Marks(plain)
            && |full| == 2 * |plain| + 1
            && forall k :: 0 <= k < |plain| ==>
                 MarkOf(full[2 * k + 1]) == MarkOf(plain[k])
                 && plain[k].x == 100 + 25 * k && full[2 * k + 1].x == 100 + 25 * (2 * k + 1)
  {
    var full, plain := DrawnNodes(t, true), DrawnNodes(t, false);
    NilMarksDropOut(t, START_X, START_X, START_Y);
    NilsAlternate(t, START_X, START_Y);
    CursorSteps(t, START_X, START_Y, true);
    CursorSteps(t, START_X, START_Y, false);
    SlotsCount(t);
    OddEntries(Marks(full));
    forall k | 0 <= k < |plain| ensures MarkOf(full[2 * k + 1]) == MarkOf(plain[k]) {
      assert Marks(plain)[k] == Marks(full)[2 * k + 1];
    }
  }

  lemma {:induction false} PlainListsEntries(t: Tree, c: int, y: int)
    ensures var ns := InOrder(Place(t, c, y, false));
            && |ns| == |Entries(t)|
            && forall k :: 0 <= k < |ns| ==> ns[k].key == Entries(t)[k].key
  {
    if t.Node? {
      PlainListsEntries(t.left, c, y + LEVEL_HEIGHT);
      PlainListsEntries(t.right, c + X_WIDTH * Slots(t.left, false) + X_WIDTH, y + LEVEL_HEIGHT);
    }
  }

  /** For a search tree the drawn keys (those of the odd entries, in nil mode) increase from left to right. */
  lemma KeysIncreaseLeftToRight(t: Tree)
    requires t.Node? && KeysIncrease(Entries(t))
    ensures var ns := DrawnNodes(t, false);
            forall i, j :: 0 <= i < j < |ns| ==> ns[i].key < ns[j].key && ns[i].x < ns[j].x
    ensures var ns := DrawnNodes(t, true);
            forall i, j :: 0 <= i < j < |ns| && i % 2 == 1 && j % 2 == 1 ==> ns[i].key < ns[j].key && ns[i].x < ns[j].x
  {
    PlainListsEntries(t, START_X, START_Y);
    NilModeRefinesPlain(t);
    CursorSteps(t, START_X, START_Y, true);
    var full, plain := DrawnNodes(t, true), DrawnNodes(t, false);
    forall i, j | 0 <= i < j < |full| && i % 2 == 1 && j % 2 == 1 ensures full[i].key < full[j].key {
      OddIsPlain(t, i);
      OddIsPlain(t, j);
    }
  }

  lemma OddIsPlain(t: Tree, i: nat)
    requires t.Node? && i < |DrawnNodes(t, true)| && i % 2 == 1
    ensures i / 2 < |DrawnNodes(t, false)| && DrawnNodes(t, true)[i].key == DrawnNodes(t, false)[i / 2].key
  {
    NilModeRefinesPlain(t);
    assert MarkOf(DrawnNodes(t, true)[2 * (i / 2) + 1]) == MarkOf(DrawnNodes(t, false)[i / 2]);
  }

  // ---------------------------------------------------------------- colors

  function Colors(t: Tree): (colors: seq<Color>)
    ensures |colors| == Size(t)
  {
    if t.Nil? then [] else Colors(t.left) + [t.color] + Colors(t.right)
  }

  lemma {:induction false} PlainShowsColors(t: Tree, c: int, y: int)
    ensures var ns := InOrder(Place(t, c, y, false));
            && |ns| == Size(t)
            && forall k :: 0 <= k < |ns| ==> ns[k].color == if Colors(t)[k].Black? then 0 else 1
  {
    if t.Node? {
      PlainShowsColors(t.left, c, y + LEVEL_HEIGHT);
      PlainShowsColors(t.right, c + X_WIDTH * Slots(t.left, false) + X_WIDTH, y + LEVEL_HEIGHT);
    }
  }

  /** A drawn entry without a node. */
  predicate IsSentinel(n: NodeInfo) { n.color == 100 && n.key == 0 }

  lemma {:induction false} NilsAreSentinels(t: Tree, c: int, y: int)
    ensures forall n :: n in InOrder(Place(t, c, y, true)) && n.color == NIL_CHECK_COLOR ==> IsSentinel(n)
  {
    if t.Node? {
      NilsAreSentinels(t.left, c, y + LEVEL_HEIGHT);
      NilsAreSentinels(t.right, c + X_WIDTH * Slots(t.left, true) + X_WIDTH, y + LEVEL_HEIGHT);
    }
  }

  /** In numbers: the k-th node is drawn with color 0 if it is black and 1 if it is red, and in nil mode every other
      entry, from the first, is a sentinel with color 100 and key 0; so 100 occurs nowhere else. */
  lemma ColorsAreDrawn(t: Tree)
    requires t.Node?
    ensures var (full, plain) := (DrawnNodes(t, true), DrawnNodes(t, false));
            && |plain| == Size(t) && |full| == 2 * Size(t) + 1
            && (forall k :: 0 <= k < |plain| ==>
                  && (plain[k].color == 0 <==> Colors(t)[k].Black?) && (plain[k].color == 1 <==> Colors(t)[k].Red?)
                  && full[2 * k + 1].color == plain[k].color)
            && (forall k :: 0 <= k < |full| ==> (full[k].color == 100 <==> k % 2 == 0))
            && (forall k :: 0 <= k < |full| && k % 2 == 0 ==> IsSentinel(full[k]))
  {
    PlainShowsColors(t, START_X, START_Y);
    NilModeRefinesPlain(t);
    NilsAlternate(t, START_X, START_Y);
    NilsAreSentinels(t, START_X, START_Y);
    var full, plain := DrawnNodes(t, true), DrawnNodes(t, false);
    forall k | 0 <= k < |plain| ensures full[2 * k + 1].color == plain[k].color {
      assert MarkOf(full[2 * k + 1]) == MarkOf(plain[k]);
    }
  }

  // ---------------------------------------------------------------- the drawing determines the tree

  /** What a drawing shows of a tree. */
  datatype Outline = Empty | Branch(left: Outline, key: int, color: Color, right: Outline)

  function OutlineOf(t: Tree): Outline {
    if t.Nil? then Empty else Branch(OutlineOf(t.left), t.entry.key, t.color, OutlineOf(t.right))
  }

  /** NODE_COLOR read back. */
  function ColorOf(code: int): Color { if code == 0 then Black else Red }

  /** The first entry of least y. */
  function TopIndex(ms: seq<Mark>): (k: nat)
    requires ms != []
    ensures k < |ms| && forall i :: 0 <= i < |ms| ==> ms[k].y <= ms[i].y
  {
    if |ms| == 1 then 0
    else
      var k := TopIndex(ms[1..]);
      if ms[0].y <= ms[1..][k].y then 0 else k + 1
  }

  /** Rebuilds a tree from list order, y, key and color alone: the topmost entry is the root, what comes before
      it is the left subtree and what comes after it the right one. */
  function DecodePlain(ms: seq<Mark>): Outline
    decreases |ms|
  {
    if ms == [] then Empty
    else
      var k := TopIndex(ms);
      Branch(DecodePlain(ms[..k]), ms[k].key, ColorOf(ms[k].color), DecodePlain(ms[k + 1..]))
  }

  function Decode(ms: seq<Mark>): Outline { DecodePlain(WithoutNil(ms)) }

  lemma {:induction false} DeeperMarks(p: Placed, y: int)
    requires Layered(p, y)
    ensures forall m :: m in Marks(InOrder(p)) ==> y <= m.y
  {
    if p.Spot? {
      DeeperMarks(p.left, y + LEVEL_HEIGHT);
      DeeperMarks(p.right, y + LEVEL_HEIGHT);
      MarksOfSpot(InOrder(p.left), p.info, InOrder(p.right));
    }
  }

  lemma TopIndexBetween(a: seq<Mark>, m: Mark, b: seq<Mark>)
    requires forall n :: n in a || n in b ==> m.y < n.y
    ensures TopIndex(a + [m] + b) == |a|
  {
    var ms := a + [m] + b;
    forall i | 0 <= i < |ms| && i != |a| ensures ms[|a|].y < ms[i].y {
      assert ms[i] == if i < |a| then a[i] else b[i - |a| - 1];
    }
  }

  lemma DecodeSplit(a: seq<Mark>, m: Mark, b: seq<Mark>)
    requires forall n :: n in a || n in b ==> m.y < n.y
    ensures DecodePlain(a + [m] + b) == Branch(DecodePlain(a), m.key, ColorOf(m.color), DecodePlain(b))
  {
    TopIndexBetween(a, m, b);
    assert (a + [m] + b)[..|a|] == a && (a + [m] + b)[|a| + 1..] == b;
  }

  function PlacedOutline(p: Placed): Outline {
    if p.Tip? then Empty
    else Branch(PlacedOutline(p.left), p.info.key, ColorOf(p.info.color), PlacedOutline(p.right))
  }

  lemma {:induction false} DecodePlaced(p: Placed, y: int)
    requires Layered(p, y)
    ensures DecodePlain(Marks(InOrder(p))) == PlacedOutline(p)
  {
    if p.Spot? {
      DeeperMarks(p.left, y + LEVEL_HEIGHT);
      DeeperMarks(p.right, y + LEVEL_HEIGHT);
      MarksOfSpot(InOrder(p.left), p.info, InOrder(p.right));
      DecodeSplit(Marks(InOrder(p.left)), MarkOf(p.info), Marks(InOrder(p.right)));
      DecodePlaced(p.left, y + LEVEL_HEIGHT);
      DecodePlaced(p.right, y + LEVEL_HEIGHT);
    } else {
      assert Marks(InOrder(p)) == [];
    }
  }

  lemma {:induction false} PlaceKeepsOutline(t: Tree, c: int, y: int)
    ensures PlacedOutline(Place(t, c, y, false)) == OutlineOf(t)
  {
    if t.Node? {
      PlaceKeepsOutline(t.left, c, y + LEVEL_HEIGHT);
      PlaceKeepsOutline(t.right, c + X_WIDTH * Slots(t.left, false) + X_WIDTH, y + LEVEL_HEIGHT);
    }
  }

  lemma {:induction false} PlainHasNoNil(t: Tree, c: int, y: int)
    ensures WithoutNil(Marks(InOrder(Place(t, c, y, false)))) == Marks(InOrder(Place(t, c, y, false)))
  {
    if t.Node? {
      var p := Place(t, c, y, false);
      PlainHasNoNil(t.left, c, y + LEVEL_HEIGHT);
      PlainHasNoNil(t.right, p.info.x + X_WIDTH, y + LEVEL_HEIGHT);
      FilteredSpot(InOrder(p.left), p.info, InOrder(p.right));
      MarksOfSpot(InOrder(p.left), p.info, InOrder(p.right));
    }
  }

  /** The node list of the drawing, in either mode, gives back exactly the tree that was laid out. */
  lemma DrawingDeterminesTree(t: Tree, showNil: bool)
    ensures Decode(Marks(DrawnNodes(t, showNil))) == OutlineOf(t)
  {
    if t.Node? {
      if showNil {
        NilMarksDropOut(t, START_X, START_X, START_Y);
      } else {
        PlainHasNoNil(t, START_X, START_Y);
      }
      PlaceLayered(t, START_X, START_Y, false);
      DecodePlaced(Place(t, START_X, START_Y, false), START_Y);
      PlaceKeepsOutline(t, START_X, START_Y);
    } else {
      assert Marks(DrawnNodes(t, showNil)) == [];
    }
  }
}
