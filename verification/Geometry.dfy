/** Drawings shared by the two tree viewers: nodes at integer points, straight edges between them,
    and the one condition under which no two edges cross. */
module Geometry {

  datatype Point = Point(x: int, y: int)

  /** A drawn line, with both ends as the viewers record them. */
  datatype LineSegment = LineSegment(start: Point, end: Point)

  /** One entry of a viewer's node list. */
  datatype NodeInfo = NodeInfo(x: int, y: int, key: int, color: int)

  /** Vertical distance between a node and its children. */
  const LEVEL_HEIGHT := 75

  // ---------------------------------------------------------------- points of a segment

  /** (px, py) is the point a fraction `t` of the way along `s`. */
  ghost predicate IsAt(t: real, px: real, py: real, s: LineSegment) {
    && 0.0 <= t <= 1.0
    && px == s.start.x as real + t * (s.end.x - s.start.x) as real
    && py == s.start.y as real + t * (s.end.y - s.start.y) as real
  }

  ghost predicate On(px: real, py: real, s: LineSegment) {
    exists t: real :: IsAt(t, px, py, s)
  }

  ghost predicate IsEnd(px: real, py: real, s: LineSegment) {
    || (px == s.start.x as real && py == s.start.y as real)
    || (px == s.end.x as real && py == s.end.y as real)
  }

  /** Whatever two segments have in common is an end of both. */
  ghost predicate MeetAtEnds(s: LineSegment, t: LineSegment) {
    forall px: real, py: real :: On(px, py, s) && On(px, py, t) ==> IsEnd(px, py, s) && IsEnd(px, py, t)
  }

  ghost predicate PairwiseMeetAtEnds(lines: seq<LineSegment>) {
    forall i, j :: 0 <= i < j < |lines| ==> MeetAtEnds(lines[i], lines[j])
  }

  ghost predicate IsDrawn(px: real, py: real, nodes: seq<NodeInfo>) {
    exists n :: n in nodes && px == n.x as real && py == n.y as real
  }

  /** Whatever two segments have in common is a drawn node and an end of both. */
  ghost predicate MeetAtNodes(s: LineSegment, t: LineSegment, nodes: seq<NodeInfo>) {
    forall px: real, py: real ::
      On(px, py, s) && On(px, py, t) ==> IsEnd(px, py, s) && IsEnd(px, py, t) && IsDrawn(px, py, nodes)
  }

  /** A planar drawing: any two of its lines meet only at drawn nodes that are ends of both. */
  ghost predicate Planar(nodes: seq<NodeInfo>, lines: seq<LineSegment>) {
    forall i, j :: 0 <= i < j < |lines| ==> MeetAtNodes(lines[i], lines[j], nodes)
  }

  // ---------------------------------------------------------------- placed trees

  /** A tree whose nodes have been given their places. */
  datatype Placed = Tip | Spot(left: Placed, info: NodeInfo, right: Placed)

  function At(n: NodeInfo): Point { Point(n.x, n.y) }

  /** The order in which a viewer records lines, and the direction it gives them. */
  datatype Style = UpwardsLast | DownwardsBetween

  function InOrder(p: Placed): seq<NodeInfo> {
    if p.Tip? then [] else InOrder(p.left) + [p.info] + InOrder(p.right)
  }

  function PreOrder(p: Placed): seq<NodeInfo> {
    if p.Tip? then [] else [p.info] + PreOrder(p.left) + PreOrder(p.right)
  }

  /** The line between a node and one of its children, if that child is drawn. */
  function Own(info: NodeInfo, child: Placed, style: Style): seq<LineSegment> {
    match (child, style)
    case (Tip, _) => []
    case (Spot(_, c, _), UpwardsLast) => [LineSegment(At(c), At(info))]
    case (Spot(_, c, _), DownwardsBetween) => [LineSegment(At(info), At(c))]
  }

  function Edges(p: Placed, style: Style): seq<LineSegment> {
    match p
    case Tip => []
    case Spot(l, info, r) =>
      match style
      case UpwardsLast => Edges(l, style) + Edges(r, style) + Own(info, l, style) + Own(info, r, style)
      case DownwardsBetween => Edges(l, style) + Own(info, l, style) + Edges(r, style) + Own(info, r, style)
  }

  /** Every node stands one level below its parent. */
  predicate Layered(p: Placed, y: int) {
    p.Spot? ==> p.info.y == y && Layered(p.left, y + LEVEL_HEIGHT) && Layered(p.right, y + LEVEL_HEIGHT)
  }

  predicate LeftOf(p: Placed, c: int) {
    p.Spot? ==> p.info.x < c && LeftOf(p.left, c) && LeftOf(p.right, c)
  }

  predicate RightOf(p: Placed, c: int) {
    p.Spot? ==> c < p.info.x && RightOf(p.left, c) && RightOf(p.right, c)
  }

  /** Each node with two children has its left subtree strictly to its left and its right subtree strictly to its
      right. */
  predicate ForksSeparate(p: Placed) {
    p.Spot? ==>
      && (p.left.Spot? && p.right.Spot? ==> LeftOf(p.left, p.info.x) && RightOf(p.right, p.info.x))
      && ForksSeparate(p.left) && ForksSeparate(p.right)
  }

  /** x strictly increases along the list. */
  predicate XIncreasing(ns: seq<NodeInfo>) {
    forall i, j :: 0 <= i < j < |ns| ==> ns[i].x < ns[j].x
  }

  // ---------------------------------------------------------------- facts about one segment

  /** `s` runs between `a` and `b`, in either direction. */
  predicate Joins(s: LineSegment, a: Point, b: Point) {
    s == LineSegment(a, b) || s == LineSegment(b, a)
  }

  lemma ScaleInUnit(t: real, d: real)
    requires 0.0 <= t <= 1.0
    ensures 0.0 <= d ==> 0.0 <= t * d <= d
    ensures d <= 0.0 ==> d <= t * d <= 0.0
    ensures 0.0 < t && 0.0 < d ==> 0.0 < t * d
    ensures 0.0 < t && d < 0.0 ==> t * d < 0.0
    ensures t < 1.0 && 0.0 < d ==> t * d < d
  {
    if t < 1.0 && 0.0 < d { assert (1.0 - t) * d > 0.0; }
    if 0.0 <= d { assert (1.0 - t) * d >= 0.0; }
    if d <= 0.0 { assert (1.0 - t) * d <= 0.0; }
  }

  /** Points of a segment that descends one level stay in its bounding box, and meet the top, the bottom
      or (for a slanted segment) the upper end's column only at the ends. */
  lemma SlopeBox(px: real, py: real, s: LineSegment, a: Point, b: Point)
    requires Joins(s, a, b) && b.y == a.y + LEVEL_HEIGHT && On(px, py, s)
    ensures a.y as real <= py <= b.y as real
    ensures a.x <= b.x ==> a.x as real <= px <= b.x as real
    ensures b.x <= a.x ==> b.x as real <= px <= a.x as real
    ensures py == a.y as real ==> px == a.x as real
    ensures py == b.y as real ==> px == b.x as real
    ensures a.x != b.x && px == a.x as real ==> py == a.y as real
  {
    var t :| IsAt(t, px, py, s);
    var u := if s == LineSegment(a, b) then t else 1.0 - t;
    var dx, dy := (b.x - a.x) as real, (b.y - a.y) as real;
    assert px == a.x as real + u * dx && py == a.y as real + u * dy;
    ScaleInUnit(u, dx);
    ScaleInUnit(u, dy);
  }

  // ---------------------------------------------------------------- where the edges of a subtree are

  /** Both ends of every edge of `p` lie strictly left of `c` when the nodes do. */
  lemma {:induction false} EdgesShape(p: Placed, style: Style, y: int, s: LineSegment)
    returns (a: NodeInfo, b: NodeInfo)
    requires Layered(p, y) && s in Edges(p, style)
    ensures p.Spot? && Joins(s, At(a), At(b)) && b.y == a.y + LEVEL_HEIGHT
    ensures y <= a.y && (a.y == y ==> a == p.info)
    ensures a in InOrder(p) && b in InOrder(p)
  {
    var Spot(l, info, r) := p;
    if s in Own(info, l, style) {
      a, b := info, l.info;
    } else if s in Own(info, r, style) {
      a, b := info, r.info;
    } else if s in Edges(l, style) {
      a, b := EdgesShape(l, style, y + LEVEL_HEIGHT, s);
    } else {
      a, b := EdgesShape(r, style, y + LEVEL_HEIGHT, s);
    }
  }

  lemma {:induction false} SideOfMember(p: Placed, c: int, n: NodeInfo)
    requires n in InOrder(p)
    ensures LeftOf(p, c) ==> n.x < c
    ensures RightOf(p, c) ==> c < n.x
  {
    if n in InOrder(p.left) {
      SideOfMember(p.left, c, n);
    } else if n in InOrder(p.right) {
      SideOfMember(p.right, c, n);
    }
  }

  // ---------------------------------------------------------------- pairs of edges

  ghost predicate AllMeetAtEnds(ss: seq<LineSegment>, ts: seq<LineSegment>) {
    forall s, t :: s in ss && t in ts ==> MeetAtEnds(s, t)
  }

  /** Two children of the same node: the lines to them meet only at that node. */
  lemma OwnOwn(info: NodeInfo, l: Placed, r: Placed, style: Style)
    requires l.Spot? && r.Spot? ==> LeftOf(l, info.x) && RightOf(r, info.x)
    requires Layered(l, info.y + LEVEL_HEIGHT) && Layered(r, info.y + LEVEL_HEIGHT)
    ensures AllMeetAtEnds(Own(info, l, style), Own(info, r, style))
  {
    forall s, t | s in Own(info, l, style) && t in Own(info, r, style) ensures MeetAtEnds(s, t) {
      forall px: real, py: real | On(px, py, s) && On(px, py, t) ensures IsEnd(px, py, s) && IsEnd(px, py, t) {
        SlopeBox(px, py, s, At(info), At(l.info));
        SlopeBox(px, py, t, At(info), At(r.info));
      }
    }
  }

  /** The line to a child meets the lines below that child only at the child. */
  lemma OwnBelow(info: NodeInfo, child: Placed, style: Style)
    requires Layered(child, info.y + LEVEL_HEIGHT)
    ensures AllMeetAtEnds(Own(info, child, style), Edges(child, style))
    ensures AllMeetAtEnds(Edges(child, style), Own(info, child, style))
  {
    forall s, t | s in Own(info, child, style) && t in Edges(child, style)
      ensures MeetAtEnds(s, t) && MeetAtEnds(t, s)
    {
      var a, b := EdgesShape(child, style, info.y + LEVEL_HEIGHT, t);
      forall px: real, py: real | On(px, py, s) && On(px, py, t) ensures IsEnd(px, py, s) && IsEnd(px, py, t) {
        SlopeBox(px, py, s, At(info), At(child.info));
        SlopeBox(px, py, t, At(a), At(b));
      }
    }
  }

  /** Points on the left side of a fork, the line leading there included, do not pass the fork's column. */
  lemma LeftSide(info: NodeInfo, l: Placed, style: Style, s: LineSegment, px: real, py: real)
    requires Layered(l, info.y + LEVEL_HEIGHT) && LeftOf(l, info.x) && On(px, py, s)
    ensures s in Own(info, l, style) ==> px <= info.x as real
    ensures s in Edges(l, style) ==> px < info.x as real
  {
    if s in Edges(l, style) {
      var a, b := EdgesShape(l, style, info.y + LEVEL_HEIGHT, s);
      SideOfMember(l, info.x, a);
      SideOfMember(l, info.x, b);
      SlopeBox(px, py, s, At(a), At(b));
    } else if s in Own(info, l, style) {
      SlopeBox(px, py, s, At(info), At(l.info));
    }
  }

  lemma RightSide(info: NodeInfo, r: Placed, style: Style, s: LineSegment, px: real, py: real)
    requires Layered(r, info.y + LEVEL_HEIGHT) && RightOf(r, info.x) && On(px, py, s)
    ensures s in Own(info, r, style) ==> info.x as real <= px
    ensures s in Edges(r, style) ==> info.x as real < px
  {
    if s in Edges(r, style) {
      var a, b := EdgesShape(r, style, info.y + LEVEL_HEIGHT, s);
      SideOfMember(r, info.x, a);
      SideOfMember(r, info.x, b);
      SlopeBox(px, py, s, At(a), At(b));
    } else if s in Own(info, r, style) {
      SlopeBox(px, py, s, At(info), At(r.info));
    }
  }

  /** Nothing of the left side, with the line leading to it, touches the edges inside the right side, or conversely. */
  lemma AcrossFork(info: NodeInfo, l: Placed, r: Placed, style: Style)
    requires l.Spot? && r.Spot? ==> LeftOf(l, info.x) && RightOf(r, info.x)
    requires Layered(l, info.y + LEVEL_HEIGHT) && Layered(r, info.y + LEVEL_HEIGHT)
    ensures AllMeetAtEnds(Edges(l, style), Edges(r, style))
    ensures AllMeetAtEnds(Own(info, l, style), Edges(r, style))
    ensures AllMeetAtEnds(Edges(l, style), Own(info, r, style))
    ensures AllMeetAtEnds(Edges(r, style), Own(info, l, style))
  {
    if l.Spot? && r.Spot? {
      forall s, px: real, py: real | On(px, py, s)
        ensures s in Own(info, l, style) ==> px <= info.x as real
        ensures s in Edges(l, style) ==> px < info.x as real
        ensures s in Own(info, r, style) ==> info.x as real <= px
        ensures s in Edges(r, style) ==> info.x as real < px
      {
        LeftSide(info, l, style, s, px, py);
        RightSide(info, r, style, s, px, py);
      }
    }
  }

  lemma PairwiseConcat(ss: seq<LineSegment>, ts: seq<LineSegment>)
    requires PairwiseMeetAtEnds(ss) && PairwiseMeetAtEnds(ts) && AllMeetAtEnds(ss, ts)
    ensures PairwiseMeetAtEnds(ss + ts)
  {
    forall i, j | 0 <= i < j < |ss + ts| ensures MeetAtEnds((ss + ts)[i], (ss + ts)[j]) {
      if j < |ss| {
      } else if |ss| <= i {
        assert MeetAtEnds(ts[i - |ss|], ts[j - |ss|]);
      } else {
        assert ss[i] in ss && ts[j - |ss|] in ts;
      }
    }
  }

  lemma AllConcat(ss: seq<LineSegment>, ts: seq<LineSegment>, us: seq<LineSegment>)
    requires AllMeetAtEnds(ss, us) && AllMeetAtEnds(ts, us)
    ensures AllMeetAtEnds(ss + ts, us)
  {
  }

  lemma {:induction false} EdgesMeetAtEnds(p: Placed, style: Style, y: int)
    requires Layered(p, y) && ForksSeparate(p)
    ensures PairwiseMeetAtEnds(Edges(p, style))
  {
    if p.Spot? {
      var Spot(l, info, r) := p;
      var el, er, ol, or := Edges(l, style), Edges(r, style), Own(info, l, style), Own(info, r, style);
      EdgesMeetAtEnds(l, style, y + LEVEL_HEIGHT);
      EdgesMeetAtEnds(r, style, y + LEVEL_HEIGHT);
      OwnOwn(info, l, r, style);
      OwnBelow(info, l, style);
      OwnBelow(info, r, style);
      AcrossFork(info, l, r, style);
      match style
      case UpwardsLast =>
        PairwiseConcat(el, er);
        AllConcat(el, er, ol);
        PairwiseConcat(el + er, ol);
        AllConcat(el, er, or);
        AllConcat(el + er, ol, or);
        PairwiseConcat(el + er + ol, or);
      case DownwardsBetween =>
        PairwiseConcat(el, ol);
        AllConcat(el, ol, er);
        PairwiseConcat(el + ol, er);
        AllConcat(el, ol, or);
        AllConcat(el + ol, er, or);
        PairwiseConcat(el + ol + er, or);
    }
  }

  /** The shared planarity theorem: on levels, with every fork separating its two sides, lines meet only at
      drawn nodes that are ends of both. `nodes` may list the nodes in any order. */
  lemma PlanarWhenForksSeparate(p: Placed, style: Style, y: int, nodes: seq<NodeInfo>)
    requires Layered(p, y) && ForksSeparate(p)
    requires multiset(nodes) == multiset(InOrder(p))
    ensures Planar(nodes, Edges(p, style))
  {
    EdgesMeetAtEnds(p, style, y);
    var lines := Edges(p, style);
    forall i, j | 0 <= i < j < |lines| ensures MeetAtNodes(lines[i], lines[j], nodes) {
      assert MeetAtEnds(lines[i], lines[j]);
      var a, b := EdgesShape(p, style, y, lines[i]);
      assert a in multiset(InOrder(p)) && b in multiset(InOrder(p));
      assert a in nodes && b in nodes;
    }
  }

  // ---------------------------------------------------------------- consequences of an in-order increasing x

  lemma {:induction false} SidesFromMembers(p: Placed, c: int)
    ensures (forall n :: n in InOrder(p) ==> n.x < c) ==> LeftOf(p, c)
    ensures (forall n :: n in InOrder(p) ==> c < n.x) ==> RightOf(p, c)
  {
    if p.Spot? {
      SidesFromMembers(p.left, c);
      SidesFromMembers(p.right, c);
    }
  }

  lemma IncreasingSplits(l: seq<NodeInfo>, m: NodeInfo, r: seq<NodeInfo>)
    ensures XIncreasing(l + [m] + r) <==>
              && XIncreasing(l) && XIncreasing(r)
              && (forall n :: n in l ==> n.x < m.x) && (forall n :: n in r ==> m.x < n.x)
  {
    var all := l + [m] + r;
    if XIncreasing(all) {
      assert all[|l|] == m;
      assert forall i :: 0 <= i < |l| ==> l[i] == all[i];
      assert forall i :: 0 <= i < |r| ==> r[i] == all[|l| + 1 + i];
    }
  }

  /** When x strictly increases in in-order, every fork separates. */
  lemma {:induction false} IncreasingSeparates(p: Placed)
    requires XIncreasing(InOrder(p))
    ensures ForksSeparate(p)
  {
    if p.Spot? {
      IncreasingSplits(InOrder(p.left), p.info, InOrder(p.right));
      SidesFromMembers(p.left, p.info.x);
      SidesFromMembers(p.right, p.info.x);
      IncreasingSeparates(p.left);
      IncreasingSeparates(p.right);
    }
  }

  lemma {:induction false} PreOrderIsInOrder(p: Placed)
    ensures multiset(PreOrder(p)) == multiset(InOrder(p))
  {
    if p.Spot? {
      PreOrderIsInOrder(p.left);
      PreOrderIsInOrder(p.right);
    }
  }

  // ---------------------------------------------------------------- one line for each node but the root

  /** The ends at which the lines meet the lower nodes. */
  function LowerEnds(lines: seq<LineSegment>, style: Style): seq<Point> {
    seq(|lines|, i requires 0 <= i < |lines| => if style.UpwardsLast? then lines[i].start else lines[i].end)
  }

  function Points(ns: seq<NodeInfo>): seq<Point> {
    seq(|ns|, i requires 0 <= i < |ns| => At(ns[i]))
  }

  lemma LowerEndsConcat(a: seq<LineSegment>, b: seq<LineSegment>, style: Style)
    ensures LowerEnds(a + b, style) == LowerEnds(a, style) + LowerEnds(b, style)
  {
  }

  lemma PointsConcat(a: seq<NodeInfo>, b: seq<NodeInfo>)
    ensures Points(a + b) == Points(a) + Points(b)
  {
  }

  lemma PointsOfSpot(p: Placed)
    requires p.Spot?
    ensures Points(InOrder(p)) == Points(InOrder(p.left)) + [At(p.info)] + Points(InOrder(p.right))
  {
    PointsConcat(InOrder(p.left), [p.info]);
    PointsConcat(InOrder(p.left) + [p.info], InOrder(p.right));
    assert Points([p.info]) == [At(p.info)];
  }

  lemma FourEnds(a: seq<LineSegment>, b: seq<LineSegment>, c: seq<LineSegment>, d: seq<LineSegment>, style: Style)
    ensures LowerEnds(a + b + c + d, style)
         == LowerEnds(a, style) + LowerEnds(b, style) + LowerEnds(c, style) + LowerEnds(d, style)
  {
    LowerEndsConcat(a, b, style);
    LowerEndsConcat(a + b, c, style);
    LowerEndsConcat(a + b + c, d, style);
  }

  lemma EndsOfSpot(p: Placed, style: Style)
    requires p.Spot?
    ensures multiset(LowerEnds(Edges(p, style), style))
         == multiset(LowerEnds(Edges(p.left, style), style)) + multiset(LowerEnds(Edges(p.right, style), style))
          + multiset(LowerEnds(Own(p.info, p.left, style), style))
          + multiset(LowerEnds(Own(p.info, p.right, style), style))
  {
    var el, er, ol, or := Edges(p.left, style), Edges(p.right, style),
                          Own(p.info, p.left, style), Own(p.info, p.right, style);
    if style.UpwardsLast? {
      FourEnds(el, er, ol, or, style);
    } else {
      FourEnds(el, ol, er, or, style);
    }
  }

  /** With the line to its parent, every node of a subtree is the lower end of one line. */
  lemma {:induction false} OneLineToEachChild(info: NodeInfo, child: Placed, style: Style)
    ensures multiset(LowerEnds(Edges(child, style), style)) + multiset(LowerEnds(Own(info, child, style), style))
         == multiset(Points(InOrder(child)))
    decreases child, 1
  {
    if child.Spot? {
      OneLineToEachNode(child, style);
      assert LowerEnds(Own(info, child, style), style) == [At(child.info)];
    } else {
      assert LowerEnds(Own(info, child, style), style) == [] == LowerEnds(Edges(child, style), style);
      assert Points(InOrder(child)) == [];
    }
  }

  /** The nodes other than the root are the lower ends of the lines, one each. */
  lemma {:induction false} OneLineToEachNode(p: Placed, style: Style)
    requires p.Spot?
    ensures multiset(LowerEnds(Edges(p, style), style)) + multiset{At(p.info)} == multiset(Points(InOrder(p)))
    ensures |Edges(p, style)| == |InOrder(p)| - 1
    decreases p, 0
  {
    PointsOfSpot(p);
    EndsOfSpot(p, style);
    OneLineToEachChild(p.info, p.left, style);
    OneLineToEachChild(p.info, p.right, style);
    assert |LowerEnds(Edges(p, style), style)| + 1 == |Points(InOrder(p))| by {
      assert |multiset(LowerEnds(Edges(p, style), style)) + multiset{At(p.info)}| == |multiset(Points(InOrder(p)))|;
    }
  }

  /** The line goes one level up, to a drawn node. */
  predicate LeadsUp(s: LineSegment, style: Style, ns: seq<NodeInfo>) {
    var (lower, upper) := if style.UpwardsLast? then (s.start, s.end) else (s.end, s.start);
    upper in Points(ns) && lower.y == upper.y + LEVEL_HEIGHT
  }

  lemma {:induction false} EdgesLeadUp(p: Placed, y: int, s: LineSegment, style: Style)
    requires Layered(p, y) && s in Edges(p, style)
    ensures LeadsUp(s, style, InOrder(p))
  {
    var Spot(l, info, r) := p;
    PointsOfSpot(p);
    if s in Edges(l, style) {
      EdgesLeadUp(l, y + LEVEL_HEIGHT, s, style);
    } else if s in Edges(r, style) {
      EdgesLeadUp(r, y + LEVEL_HEIGHT, s, style);
    } else {
      assert s in Own(info, l, style) || s in Own(info, r, style);
    }
  }
}
