/** The red-black tree: insertion and deletion with their rebalancing loops.
    A position in the tree is a zipper: the subtree in focus (the source's `curr` or `child`) and the path of
    its ancestors, nearest first, each with the color, entry and other subtree it had (the source's Parent links). */
module RbTree {
  import opened Sequences
  import opened Trees
  import opened SortedEntries

  datatype Path = Top | Under(isLeft: bool, entry: Entry, color: Color, sibling: Tree, up: Path)

  predicate IsRed(t: Tree) { t.Node? && t.color.Red? }

  predicate PathIsRed(p: Path) { p.Under? && p.color.Red? }

  function Paint(t: Tree, c: Color): Tree { if t.Nil? then t else t.(color := c) }

  /** A node with `near` on the given side. */
  function Make(isLeft: bool, near: Tree, e: Entry, c: Color, far: Tree): Tree {
    if isLeft then Node(near, e, c, far) else Node(far, e, c, near)
  }

  function Near(isLeft: bool, t: Tree): Tree
    requires t.Node?
  {
    if isLeft then t.left else t.right
  }

  function Far(isLeft: bool, t: Tree): Tree
    requires t.Node?
  {
    if isLeft then t.right else t.left
  }

  /** The subtree at the parent. */
  function Join(f: Tree, p: Path): Tree
    requires p.Under?
  {
    Make(p.isLeft, f, p.entry, p.color, p.sibling)
  }

  function Depth(p: Path): nat { if p.Top? then 0 else 1 + Depth(p.up) }

  /** Black ancestors. */
  function BlackDepth(p: Path): nat {
    if p.Top? then 0 else BlackDepth(p.up) + if p.color.Black? then 1 else 0
  }

  /** The whole tree. */
  function Plug(f: Tree, p: Path): Tree
    decreases p
  {
    if p.Top? then f else Plug(Join(f, p), p.up)
  }

  function RotateLeft(t: Tree): Tree
    requires t.Node? && t.right.Node?
  {
    Node(Node(t.left, t.entry, t.color, t.right.left), t.right.entry, t.right.color, t.right.right)
  }

  function RotateRight(t: Tree): Tree
    requires t.Node? && t.left.Node?
  {
    Node(t.left.left, t.left.entry, t.left.color, Node(t.left.right, t.entry, t.color, t.right))
  }

  /** Rotates towards the given side: its node sinks to that side, the opposite child rises. */
  function Rotate(isLeft: bool, t: Tree): Tree
    requires t.Node? && Far(isLeft, t).Node?
  {
    if isLeft then RotateLeft(t) else RotateRight(t)
  }

  // ---------------------------------------------------------------- the red-black conditions

  /** Black nodes on the leftmost way down. */
  function BlackHeight(t: Tree): nat {
    if t.Nil? then 0 else BlackHeight(t.left) + if t.color.Black? then 1 else 0
  }

  /** Every way down has the same number of black nodes. */
  predicate Balanced(t: Tree) {
    t.Node? ==> BlackHeight(t.left) == BlackHeight(t.right) && Balanced(t.left) && Balanced(t.right)
  }

  /** A red node has black children. */
  predicate NoRedRed(t: Tree) {
    t.Node? ==>
      (t.color.Red? ==> !IsRed(t.left) && !IsRed(t.right)) && NoRedRed(t.left) && NoRedRed(t.right)
  }

  predicate RedBlack(t: Tree) { !IsRed(t) && Balanced(t) && NoRedRed(t) }

  lemma Made(isLeft: bool, near: Tree, e: Entry, c: Color, far: Tree)
    ensures var t := Make(isLeft, near, e, c, far);
            && (Balanced(t) <==> BlackHeight(near) == BlackHeight(far) && Balanced(near) && Balanced(far))
            && (NoRedRed(t) <==> (c.Red? ==> !IsRed(near) && !IsRed(far)) && NoRedRed(near) && NoRedRed(far))
            && (BlackHeight(near) == BlackHeight(far) ==>
                  BlackHeight(t) == BlackHeight(near) + if c.Black? then 1 else 0)
  {
  }

  lemma Painted(t: Tree, c: Color)
    ensures Balanced(Paint(t, c)) <==> Balanced(t)
    ensures NoRedRed(t) ==> NoRedRed(Paint(t, Black))
    ensures t.Node? ==> BlackHeight(Paint(t, c)) == BlackHeight(t.left) + if c.Black? then 1 else 0
    ensures t.Node? ==> BlackHeight(t) == BlackHeight(t.left) + if t.color.Black? then 1 else 0
  {
  }

  // ---------------------------------------------------------------- the same, seen from a position

  /** What surrounds the focus is balanced if the focus has black height `h`. */
  predicate PathBalanced(p: Path, h: nat) {
    p.Under? ==>
      Balanced(p.sibling) && BlackHeight(p.sibling) == h && PathBalanced(p.up, h + if p.color.Black? then 1 else 0)
  }

  /** No red ancestor has a red parent, is the root, or has a red child off the path. */
  predicate PathNoRedRed(p: Path) {
    p.Under? ==>
      NoRedRed(p.sibling) && PathNoRedRed(p.up)
      && (p.color.Red? ==> !IsRed(p.sibling) && p.up.Under? && p.up.color.Black?)
  }

  function Before(p: Path): seq<Entry> {
    if p.Top? then [] else Before(p.up) + if p.isLeft then [] else Entries(p.sibling) + [p.entry]
  }

  function After(p: Path): seq<Entry> {
    if p.Top? then [] else (if p.isLeft then [p.entry] + Entries(p.sibling) else []) + After(p.up)
  }

  /** All entries of the whole tree. */
  function Around(f: Tree, p: Path): seq<Entry> { Before(p) + Entries(f) + After(p) }

  lemma JoinKeepsEntries(f: Tree, p: Path)
    requires p.Under?
    ensures Around(Join(f, p), p.up) == Around(f, p)
  {
  }

  lemma {:induction false} EntriesOfPlug(f: Tree, p: Path)
    ensures Entries(Plug(f, p)) == Around(f, p)
    decreases p
  {
    if p.Under? {
      JoinKeepsEntries(f, p);
      EntriesOfPlug(Join(f, p), p.up);
    } else {
      assert Around(f, p) == Entries(f);
    }
  }

  lemma RotateKeepsEntries(isLeft: bool, t: Tree)
    requires t.Node? && Far(isLeft, t).Node?
    ensures Entries(Rotate(isLeft, t)) == Entries(t)
  {
  }

  /** The conditions hold of the whole tree. */
  predicate Sound(f: Tree, p: Path) {
    && Balanced(f) && NoRedRed(f) && PathBalanced(p, BlackHeight(f)) && PathNoRedRed(p)
    && (IsRed(f) ==> p.Under? && p.color.Black?)
  }

  lemma {:induction false} SoundPlug(f: Tree, p: Path)
    requires Sound(f, p)
    ensures RedBlack(Plug(f, p))
    decreases p
  {
    if p.Under? {
      SoundPlug(Join(f, p), p.up);
    }
  }

  /** The conditions hold except that the red focus may have a red parent, or be the root. */
  predicate RedFocus(f: Tree, p: Path) {
    IsRed(f) && Balanced(f) && NoRedRed(f) && PathBalanced(p, BlackHeight(f)) && PathNoRedRed(p)
  }

  /** The conditions hold except that the focus is one black node short, and may itself be red below a red parent
      or above red children. */
  predicate Deficient(f: Tree, p: Path) {
    && Balanced(f) && NoRedRed(Paint(f, Black)) && PathBalanced(p, BlackHeight(f) + 1) && PathNoRedRed(p)
    && (p.Top? ==> !IsRed(f))
  }

  // ---------------------------------------------------------------- one round of the insertion loop

  lemma RecolorUncle(f: Tree, p: Path, g: Tree)
    requires RedFocus(f, p) && PathIsRed(p) && IsRed(p.up.sibling)
    requires g == Make(p.up.isLeft, Paint(Join(f, p), Black), p.up.entry, Red, Paint(p.up.sibling, Black))
    ensures RedFocus(g, p.up.up)
    ensures Around(g, p.up.up) == Around(f, p) && Depth(p.up.up) < Depth(p)
  {
    assert PathBalanced(p.up, BlackHeight(f)) && PathNoRedRed(p.up);
    JoinKeepsEntries(f, p);
    JoinKeepsEntries(Join(f, p), p.up);
    EntriesOfPaint(Join(f, p), Black);
    EntriesOfPaint(p.up.sibling, Black);
    Made(p.isLeft, f, p.entry, Black, p.sibling);
    Painted(p.up.sibling, Black);
    Made(p.up.isLeft, Paint(Join(f, p), Black), p.up.entry, Red, Paint(p.up.sibling, Black));
  }

  lemma EntriesOfPaint(t: Tree, c: Color)
    ensures Entries(Paint(t, c)) == Entries(t)
  {
  }

  /** An inner red child is turned outwards. */
  lemma TurnOutwards(f: Tree, p: Path, t: Tree, q: Path)
    requires RedFocus(f, p) && PathIsRed(p) && p.isLeft != p.up.isLeft
    requires t == Rotate(p.up.isLeft, Join(f, p))
    requires q == Under(p.up.isLeft, t.entry, t.color, Far(p.up.isLeft, t), p.up)
    ensures RedFocus(Near(p.up.isLeft, t), q) && PathIsRed(q) && q.isLeft == q.up.isLeft
    ensures Around(Near(p.up.isLeft, t), q) == Around(f, p) && Depth(q) == Depth(p)
  {
    JoinKeepsEntries(f, p);
    RotateKeepsEntries(p.up.isLeft, Join(f, p));
    assert Join(Near(p.up.isLeft, t), q) == t;
    JoinKeepsEntries(Near(p.up.isLeft, t), q);
  }

  /** An outer red child below a red parent and a black uncle: rotating the grandparent ends the violation. */
  lemma RotateGrandparent(f: Tree, p: Path, t: Tree)
    requires RedFocus(f, p) && PathIsRed(p) && p.isLeft == p.up.isLeft && !IsRed(p.up.sibling)
    requires t == Rotate(!p.up.isLeft, Make(p.up.isLeft, Paint(Join(f, p), Black), p.up.entry, Red, p.up.sibling))
    ensures Sound(t, p.up.up) && !IsRed(t)
    ensures Around(t, p.up.up) == Around(f, p)
  {
    assert PathBalanced(p.up, BlackHeight(f)) && PathNoRedRed(p.up);
    JoinKeepsEntries(f, p);
    JoinKeepsEntries(Join(f, p), p.up);
    EntriesOfPaint(Join(f, p), Black);
    RotateKeepsEntries(!p.up.isLeft, Make(p.up.isLeft, Paint(Join(f, p), Black), p.up.entry, Red, p.up.sibling));
    Made(p.up.isLeft, p.sibling, p.up.entry, Red, p.up.sibling);
    Made(p.up.isLeft, f, p.entry, Black, Make(p.up.isLeft, p.sibling, p.up.entry, Red, p.up.sibling));
  }

  // ---------------------------------------------------------------- one round of the deletion loop

  lemma SiblingIsNode(f: Tree, p: Path)
    requires Deficient(f, p) && p.Under?
    ensures p.sibling.Node?
  {
  }

  /** A red focus makes up for the missing black node. */
  lemma PaintRedFocus(f: Tree, p: Path)
    requires Deficient(f, p) && IsRed(f)
    ensures Sound(Paint(f, Black), p)
    ensures Around(Paint(f, Black), p) == Around(f, p)
  {
    EntriesOfPaint(f, Black);
  }

  /** A red sibling is rotated above the parent, which turns red. */
  lemma RotateRedSibling(f: Tree, p: Path, q: Path)
    requires Deficient(f, p) && !IsRed(f) && p.Under? && IsRed(p.sibling)
    requires var s := p.sibling;
             q == Under(p.isLeft, p.entry, Red, Near(p.isLeft, s),
                        Under(p.isLeft, s.entry, Black, Far(p.isLeft, s), p.up))
    ensures Deficient(f, q)
    ensures Around(f, q) == Around(f, p)
    ensures !PathIsRed(p) && BlackDepth(q) == BlackDepth(p)
  {
    assert BlackDepth(q) == BlackDepth(q.up) == BlackDepth(p);
    JoinKeepsEntries(f, p);
    JoinKeepsEntries(f, q);
    JoinKeepsEntries(Join(f, q), q.up);
    var recolored := Make(p.isLeft, f, p.entry, Red, Paint(p.sibling, Black));
    RotateKeepsEntries(p.isLeft, recolored);
    assert Rotate(p.isLeft, recolored) == Join(Join(f, q), q.up);
  }

  /** A black sibling without red children turns red, and the parent inherits the deficit. */
  lemma PaintSibling(f: Tree, p: Path, g: Tree)
    requires Deficient(f, p) && !IsRed(f) && p.Under? && p.sibling.Node? && p.sibling.color.Black?
    requires !IsRed(p.sibling.left) && !IsRed(p.sibling.right)
    requires g == Make(p.isLeft, f, p.entry, p.color, Paint(p.sibling, Red))
    ensures Deficient(g, p.up)
    ensures Around(g, p.up) == Around(f, p)
  {
    JoinKeepsEntries(f, p);
    EntriesOfPaint(p.sibling, Red);
  }

  /** A black sibling whose red child is the inner one is rotated to make it the outer one. */
  lemma RotateSibling(f: Tree, p: Path, q: Path)
    requires Deficient(f, p) && !IsRed(f) && p.Under? && p.sibling.Node? && p.sibling.color.Black?
    requires IsRed(Near(p.isLeft, p.sibling)) && !IsRed(Far(p.isLeft, p.sibling))
    requires var s := p.sibling;
             q == p.(sibling := Rotate(!p.isLeft, Make(p.isLeft, Paint(Near(p.isLeft, s), Black), s.entry, Red,
                                                       Far(p.isLeft, s))))
    ensures Deficient(f, q) && q.sibling.Node? && q.sibling.color.Black? && IsRed(Far(p.isLeft, q.sibling))
    ensures Around(f, q) == Around(f, p)
  {
    var s := p.sibling;
    EntriesOfPaint(Near(p.isLeft, s), Black);
    RotateKeepsEntries(!p.isLeft, Make(p.isLeft, Paint(Near(p.isLeft, s), Black), s.entry, Red, Far(p.isLeft, s)));
    var n := Near(p.isLeft, s);
    assert s == Make(p.isLeft, n, s.entry, Black, Far(p.isLeft, s));
    assert n == Make(p.isLeft, Near(p.isLeft, n), n.entry, Red, Far(p.isLeft, n));
    Made(p.isLeft, n, s.entry, Black, Far(p.isLeft, s));
    Made(p.isLeft, Near(p.isLeft, n), n.entry, Red, Far(p.isLeft, n));
    Made(p.isLeft, Far(p.isLeft, n), s.entry, Red, Far(p.isLeft, s));
    Made(p.isLeft, Near(p.isLeft, n), n.entry, Black, Make(p.isLeft, Far(p.isLeft, n), s.entry, Red, Far(p.isLeft, s)));
    assert q.sibling == Make(p.isLeft, Near(p.isLeft, n), n.entry, Black,
                             Make(p.isLeft, Far(p.isLeft, n), s.entry, Red, Far(p.isLeft, s)));
  }

  /** A black sibling whose outer child is red: rotating the parent restores the missing black node. */
  lemma RotateParent(f: Tree, p: Path, t: Tree)
    requires Deficient(f, p) && !IsRed(f) && p.Under? && p.sibling.Node? && p.sibling.color.Black?
    requires IsRed(Far(p.isLeft, p.sibling))
    requires var s := p.sibling;
             t == Rotate(p.isLeft, Make(p.isLeft, f, p.entry, Black,
                                        Make(p.isLeft, Near(p.isLeft, s), s.entry, p.color,
                                             Paint(Far(p.isLeft, s), Black))))
    ensures Sound(t, p.up)
    ensures Around(t, p.up) == Around(f, p)
  {
    assert Balanced(p.sibling) && NoRedRed(p.sibling);
    Made(p.isLeft, Near(p.isLeft, p.sibling), p.sibling.entry, Black, Far(p.isLeft, p.sibling));
    var s := p.sibling;
    var s' := Make(p.isLeft, Near(p.isLeft, s), s.entry, p.color, Paint(Far(p.isLeft, s), Black));
    JoinKeepsEntries(f, p);
    EntriesOfPaint(Far(p.isLeft, s), Black);
    assert Entries(s') == Entries(s);
    RotateKeepsEntries(p.isLeft, Make(p.isLeft, f, p.entry, Black, s'));
    Painted(Far(p.isLeft, s), Black);
    Made(p.isLeft, f, p.entry, Black, Near(p.isLeft, s));
    Made(p.isLeft, Make(p.isLeft, f, p.entry, Black, Near(p.isLeft, s)), s.entry, p.color,
         Paint(Far(p.isLeft, s), Black));
  }

  // ---------------------------------------------------------------- finding a key

  /** Everything left of the focus is smaller than the key looked for, everything right of it larger. */
  predicate Searching(f: Tree, p: Path, key: int) {
    AllBelow(Before(p), key) && AllAbove(After(p), key)
  }

  /** One step down keeps the conditions, the entries and, on the key's side, the search. */
  lemma StepDown(f: Tree, p: Path, isLeft: bool)
    requires f.Node? && Sound(f, p)
    ensures var q := Under(isLeft, f.entry, f.color, Far(isLeft, f), p);
            && Sound(Near(isLeft, f), q)
            && Join(Near(isLeft, f), q) == f
            && Around(Near(isLeft, f), q) == Around(f, p)
  {
    var q := Under(isLeft, f.entry, f.color, Far(isLeft, f), p);
    JoinKeepsEntries(Near(isLeft, f), q);
  }

  lemma AroundSplit(f: Tree, p: Path)
    requires f.Node?
    ensures Around(f, p) == (Before(p) + Entries(f.left)) + [f.entry] + (Entries(f.right) + After(p))
  {
  }

  lemma SearchDown(f: Tree, p: Path, isLeft: bool, key: int)
    requires f.Node? && Searching(f, p, key) && KeysIncrease(Around(f, p))
    requires if isLeft then key < f.entry.key else f.entry.key < key
    ensures Searching(Near(isLeft, f), Under(isLeft, f.entry, f.color, Far(isLeft, f), p), key)
  {
    AroundSplit(f, p);
    OrderSplit(Before(p) + Entries(f.left), f.entry, Entries(f.right) + After(p));
    var q := Under(isLeft, f.entry, f.color, Far(isLeft, f), p);
    if isLeft {
      assert After(q) == [f.entry] + (Entries(f.right) + After(p));
      assert Before(q) == Before(p);
    } else {
      assert Before(q) == (Before(p) + Entries(f.left)) + [f.entry];
      assert After(q) == After(p);
    }
  }

  // ---------------------------------------------------------------- removing a node

  /** The node a search for `key` ends at. */
  function NodeAt(t: Tree, key: int): Tree {
    if t.Nil? || t.entry.key == key then t else if key < t.entry.key then NodeAt(t.left, key) else NodeAt(t.right, key)
  }

  /** What Delete returns: 0 for an absent key, the key's own count, or that of the next larger key. */
  function DeleteReport(t: Tree, key: int): int {
    var n := NodeAt(t, key);
    var i := Rank(Entries(t), key);
    if n.Nil? then 0
    else if n.left.Node? && n.right.Node? && i + 1 < |Entries(t)| then Entries(t)[i + 1].count
    else CountOf(Entries(t), key)
  }

  /** A node with at most one child is replaced by that child. */
  lemma RemoveNode(f: Tree, p: Path, child: Tree)
    requires f.Node? && Sound(f, p)
    requires (f.left.Nil? && child == f.right) || (f.right.Nil? && child == f.left)
    ensures f.color.Red? ==> Sound(child, p)
    ensures f.color.Black? && p.Under? ==> Deficient(child, p)
    ensures f.color.Black? && p.Top? ==> Deficient(Paint(child, Black), p)
    ensures p.Top? ==> f.color.Black?
  {
    Painted(child, Black);
  }

  lemma FoundEntry(f: Tree, p: Path, es: seq<Entry>)
    requires f.Node? && Around(f, p) == es && KeysIncrease(es)
    ensures Has(es, f.entry.key) && Rank(es, f.entry.key) == |Before(p)| + |Entries(f.left)|
    ensures CountOf(es, f.entry.key) == f.entry.count
    ensures Deleted(es, f.entry.key) == Before(p) + Entries(f.left) + (Entries(f.right) + After(p))
    ensures |Deleted(es, f.entry.key)| == |es| - 1
  {
    AroundSplit(f, p);
    OrderSplit(Before(p) + Entries(f.left), f.entry, Entries(f.right) + After(p));
    InsertedAt(Before(p) + Entries(f.left), f.entry, Entries(f.right) + After(p), 0);
  }

  lemma Absent(p: Path, es: seq<Entry>, key: int)
    requires Searching(Nil, p, key) && Around(Nil, p) == es
    ensures Deleted(es, key) == es
  {
    assert es == Before(p) + After(p);
    InsertedBetween(Before(p), After(p), key, 0);
  }

  lemma ReportAt(root: Tree, f: Tree, p: Path, key: int)
    requires f == NodeAt(root, key) && f.Node? && f.entry.key == key
    requires Around(f, p) == Entries(root) && KeysIncrease(Entries(root))
    ensures DeleteReport(root, key) == if f.left.Node? && f.right.Node? then First(f.right).count else f.entry.count
    ensures |Deleted(Entries(root), key)| == |Entries(root)| - 1
  {
    FoundEntry(f, p, Entries(root));
    if f.right.Node? {
      FirstIsNext(f, p, Entries(root));
    }
  }

  lemma TakeNode(f: Tree, p: Path, child: Tree, es: seq<Entry>)
    requires f.Node? && Around(f, p) == es && KeysIncrease(es)
    requires (f.left.Nil? && child == f.right) || (f.right.Nil? && child == f.left)
    ensures Around(child, p) == Deleted(es, f.entry.key)
  {
    FoundEntry(f, p, es);
    if f.left.Nil? {
      assert Before(p) + Entries(f.left) == Before(p);
      Associate(Before(p), Entries(f.right), After(p));
    } else {
      assert Entries(f.right) + After(p) == After(p);
    }
  }

  // ---------------------------------------------------------------- taking the successor instead

  function Append(p: Path, base: Path): Path {
    if p.Top? then base else p.(up := Append(p.up, base))
  }

  predicate OnlyLeft(p: Path) { p.Under? ==> p.isLeft && OnlyLeft(p.up) }

  function First(t: Tree): Entry
    requires t.Node?
  {
    if t.left.Nil? then t.entry else First(t.left)
  }

  lemma {:induction false} FirstIsHead(t: Tree)
    requires t.Node?
    ensures Entries(t) != [] && Entries(t)[0] == First(t)
  {
    if t.left.Node? {
      FirstIsHead(t.left);
    }
  }

  lemma FirstIsNext(f: Tree, p: Path, es: seq<Entry>)
    requires f.Node? && f.right.Node? && Around(f, p) == es && KeysIncrease(es)
    ensures var i := Rank(es, f.entry.key); i + 1 < |es| && es[i + 1] == First(f.right)
  {
    FoundEntry(f, p, es);
    AroundSplit(f, p);
    FirstIsHead(f.right);
  }

  /** The entry stored far up the path does not matter to the red-black conditions. */
  lemma {:induction false} SwapEntry(walk: Path, base: Path, e: Entry, h: nat)
    requires base.Under? && !base.isLeft && OnlyLeft(walk)
    ensures var (p, q) := (Append(walk, base), Append(walk, base.(entry := e)));
            && (PathBalanced(p, h) ==> PathBalanced(q, h))
            && (PathNoRedRed(p) ==> PathNoRedRed(q))
            && p.Under? && q.Under? && p.color == q.color && (p.Under? ==> q.up.Under? == p.up.Under?)
            && (p.up.Under? ==> p.up.color == q.up.color)
            && Before(p) == Before(base) && Before(q) == Before(base.up) + (Entries(base.sibling) + [e])
            && After(q) == After(p)
  {
    if walk.Under? {
      SwapEntry(walk.up, base, e, h + if walk.color.Black? then 1 else 0);
      assert Append(walk, base).up == Append(walk.up, base);
    }
  }

  lemma SuccessorEntries(a: seq<Entry>, e: Entry, b: seq<Entry>, s: Entry, c: seq<Entry>, d: seq<Entry>)
    requires a + [e] + b == (a + [e]) + ([s] + c) + d
    ensures a + b == (a + [s]) + c + d
  {
    var es := a + [e] + b;
    assert b == es[|a| + 1..];
    assert ((a + [e]) + ([s] + c) + d)[|a| + 1..] == [s] + c + d;
  }

  /** The smallest node of the right subtree gives its entry to the node to delete and is removed in its stead. */
  lemma TakeSuccessor(f: Tree, path: Path, walk: Path, s: Tree, es: seq<Entry>)
    requires f.Node? && s.Node? && s.left.Nil? && OnlyLeft(walk)
    requires var base := Under(false, f.entry, f.color, f.left, path);
             Sound(s, Append(walk, base)) && Around(s, Append(walk, base)) == es
    requires Around(f, path) == es && KeysIncrease(es)
    ensures var p := Append(walk, Under(false, s.entry, f.color, f.left, path));
            && p.Under? && (s.color.Red? ==> Sound(s.right, p)) && (s.color.Black? ==> Deficient(s.right, p))
            && Around(s.right, p) == Deleted(es, f.entry.key)
  {
    var base := Under(false, f.entry, f.color, f.left, path);
    var p, q := Append(walk, base), Append(walk, base.(entry := s.entry));
    SwapEntry(walk, base, s.entry, BlackHeight(s));
    assert Sound(s, q);
    RemoveNode(s, q, s.right);
    FoundEntry(f, path, es);
    SuccessorAround(f, path, s, es, After(p));
  }

  lemma SuccessorAround(f: Tree, path: Path, s: Tree, es: seq<Entry>, after: seq<Entry>)
    requires f.Node? && s.Node? && s.left.Nil? && Around(f, path) == es
    requires es == Before(path) + (Entries(f.left) + [f.entry]) + Entries(s) + after
    ensures Before(path) + (Entries(f.left) + [s.entry]) + Entries(s.right) + after
         == Before(path) + Entries(f.left) + (Entries(f.right) + After(path))
  {
    AroundSplit(f, path);
    var a, b := Before(path) + Entries(f.left), Entries(f.right) + After(path);
    Associate(Before(path), Entries(f.left), [f.entry]);
    Associate(Before(path), Entries(f.left), [s.entry]);
    assert Entries(s) == [s.entry] + Entries(s.right);
    SuccessorEntries(a, f.entry, b, s.entry, Entries(s.right), after);
  }

  /** A repeated key only changes the count of its node. */
  lemma RaiseCount(f: Tree, p: Path, value: int, es: seq<Entry>)
    requires f.Node? && Sound(f, p) && Searching(f, p, f.entry.key) && Around(f, p) == es && KeysIncrease(es)
    ensures var g := Plug(f.(entry := f.entry.(count := f.entry.count + 1)), p);
            RedBlack(g) && Entries(g) == Inserted(es, f.entry.key, value) && |Entries(g)| == |es|
  {
    var f' := f.(entry := f.entry.(count := f.entry.count + 1));
    SoundPlug(f', p);
    EntriesOfPlug(f', p);
    AroundSplit(f, p);
    AroundSplit(f', p);
    RaisedEntries(Before(p) + Entries(f.left), f.entry, Entries(f.right) + After(p), value);
  }

  lemma RaisedEntries(a: seq<Entry>, e: Entry, b: seq<Entry>, value: int)
    requires KeysIncrease(a + [e] + b)
    ensures a + [e.(count := e.count + 1)] + b == Inserted(a + [e] + b, e.key, value)
  {
    OrderSplit(a, e, b);
    InsertedAt(a, e, b, value);
  }

  lemma NewLeaf(p: Path, key: int, value: int, es: seq<Entry>)
    requires Sound(Nil, p) && Searching(Nil, p, key) && Around(Nil, p) == es
    ensures var f := Node(Nil, Entry(key, value, 1), Red, Nil);
            RedFocus(f, p) && Around(f, p) == Inserted(es, key, value) && |Inserted(es, key, value)| == |es| + 1
  {
    assert es == Before(p) + After(p);
    InsertedBetween(Before(p), After(p), key, value);
  }

  // ---------------------------------------------------------------- the tree

  class RBtree {
    var root: Tree
    var count: int

    ghost predicate Valid()
      reads this
    {
      RedBlack(root) && KeysIncrease(Entries(root)) && count == |Entries(root)|
    }

    constructor ()
      ensures Valid() && Entries(root) == []
    {
      root, count := Nil, 0;
    }

    method Insert(key: int, value: int)
      requires Valid()
      modifies this
      ensures Valid()
      ensures Entries(root) == Inserted(old(Entries(root)), key, value)
    {
      var curr, path := root, Top;
      ghost var es := Entries(root);
      InsertKeepsOrder(es, key, value);
      if curr.Nil? {
        root := Node(Nil, Entry(key, value, 1), Black, Nil);
        count := count + 1;
        InsertedBetween([], [], key, value);
        assert es == [] + [] && Entries(root) == [] + [Entry(key, value, 1)] + [];
        return;
      }

      curr, path := Search(root, key);
      if curr.Node? {
        RaiseCount(curr, path, value, es);
        root := Plug(curr.(entry := curr.entry.(count := curr.entry.count + 1)), path);
        return;
      }

      curr := Node(Nil, Entry(key, value, 1), Red, Nil);
      count := count + 1;
      ghost var es' := Inserted(es, key, value);
      NewLeaf(path, key, value, es);

      while PathIsRed(path)
        invariant RedFocus(curr, path) || (Sound(curr, path) && !IsRed(curr) && !PathIsRed(path))
        invariant Around(curr, path) == es' && count == |es'|
        decreases Depth(path), if PathIsRed(path) && path.isLeft != path.up.isLeft then 1 else 0
      {
        var parent := Join(curr, path);
        var isLeft := path.up.isLeft;
        var uncle := path.up.sibling;
        if IsRed(uncle) {
          var grand := Make(isLeft, Paint(parent, Black), path.up.entry, Red, Paint(uncle, Black));
          RecolorUncle(curr, path, grand);
          curr, path := grand, path.up.up;
        } else if path.isLeft != isLeft {
          var turned := Rotate(isLeft, parent);
          ghost var q := Under(isLeft, turned.entry, turned.color, Far(isLeft, turned), path.up);
          TurnOutwards(curr, path, turned, q);
          curr, path := Near(isLeft, turned), Under(isLeft, turned.entry, turned.color, Far(isLeft, turned), path.up);
        } else {
          var top := Rotate(!isLeft, Make(isLeft, Paint(parent, Black), path.up.entry, Red, uncle));
          RotateGrandparent(curr, path, top);
          curr, path := top, path.up.up;
          break;
        }
      }
      if path.Top? {
        EntriesOfPaint(curr, Black);
        curr := Paint(curr, Black);
      }
      SoundPlug(curr, path);
      EntriesOfPlug(curr, path);
      root := Plug(curr, path);
    }

    /** Removes `key` with all its insertions. The value returned is the count of the key removed, except that a
        node with two children reports the count of the next larger key, which has by then been copied into it. */
    method Delete(key: int) returns (r: int)
      requires Valid()
      modifies this
      ensures Valid()
      ensures Entries(root) == Deleted(old(Entries(root)), key)
      ensures r == DeleteReport(old(root), key)
    {
      var curr, path := Search(root, key);
      ghost var es := Entries(root);
      DeleteKeepsOrder(es, key);

      if curr.Nil? {
        Absent(path, es, key);
        return 0;
      }
      ReportAt(root, curr, path, key);
      var rebalanced: Tree;
      if curr.left.Node? && curr.right.Node? {
        rebalanced, r := ReplaceBySuccessor(curr, path, es);
      } else {
        rebalanced, r := ReplaceByChild(curr, path, es);
      }
      root, count := rebalanced, count - 1;
    }
  }

  method Do(tree: RBtree, op: Op)
    requires tree.Valid()
    modifies tree
    ensures tree.Valid() && Entries(tree.root) == Apply(old(Entries(tree.root)), op)
  {
    match op
    case Insert(key, value) => tree.Insert(key, value);
    case Delete(key) => var _ := tree.Delete(key);
  }

  /** A tree that has gone through the operations: its entries are those of the history, so that each key's count is
      the number of its insertions since it was last deleted. */
  method Replay(ops: seq<Op>) returns (tree: RBtree)
    ensures fresh(tree) && tree.Valid() && Entries(tree.root) == Run(ops)
    ensures forall key :: CountOf(Entries(tree.root), key) == LiveInserts(ops, key)
                          && (Has(Entries(tree.root), key) <==> 0 < LiveInserts(ops, key))
                          && ValueOf(Entries(tree.root), key) == LiveValue(ops, key)
  {
    hide Apply, RedBlack, Entries, CountOf, Has;
    tree := new RBtree();
    var i := 0;
    while i < |ops|
      invariant 0 <= i <= |ops| && fresh(tree) && tree.Valid() && Entries(tree.root) == Run(ops[..i])
    {
      assert ops[..i + 1][..i] == ops[..i];
      Do(tree, ops[i]);
      i := i + 1;
    }
    assert ops[..i] == ops;
    forall key
      ensures CountOf(Entries(tree.root), key) == LiveInserts(ops, key)
              && (Has(Entries(tree.root), key) <==> 0 < LiveInserts(ops, key))
              && ValueOf(Entries(tree.root), key) == LiveValue(ops, key)
    {
      CountsFollowHistory(ops, key);
    }
  }

  /** Deletion, case 1: the node has two children. */
  method ReplaceBySuccessor(curr: Tree, path: Path, ghost es: seq<Entry>) returns (t: Tree, r: int)
    requires curr.Node? && curr.left.Node? && curr.right.Node?
    requires Sound(curr, path) && Around(curr, path) == es && KeysIncrease(es)
    ensures RedBlack(t) && Entries(t) == Deleted(es, curr.entry.key)
    ensures r == First(curr.right).count
  {
    var toDelete, walk := Successor(curr, path, es);
    TakeSuccessor(curr, path, walk, toDelete, es);
    var replaced := Append(walk, Under(false, toDelete.entry, curr.color, curr.left, path));
    t := RedBlackBalancing(toDelete.color, toDelete.right, replaced);
    r := toDelete.entry.count;
  }

  /** Deletion, case 2: the node has at most one child. */
  method ReplaceByChild(curr: Tree, path: Path, ghost es: seq<Entry>) returns (t: Tree, r: int)
    requires curr.Node? && (curr.left.Nil? || curr.right.Nil?)
    requires Sound(curr, path) && Around(curr, path) == es && KeysIncrease(es)
    ensures RedBlack(t) && Entries(t) == Deleted(es, curr.entry.key)
    ensures r == curr.entry.count
  {
    var child := if curr.left.Node? then curr.left else curr.right;
    RemoveNode(curr, path, child);
    TakeNode(curr, path, child, es);
    if path.Top? {
      EntriesOfPaint(child, Black);
      child := Paint(child, Black);
    }
    t := RedBlackBalancing(curr.color, child, path);
    r := curr.entry.count;
  }

  /** The search loop of Insert and Delete. */
  method Search(root: Tree, key: int) returns (curr: Tree, path: Path)
    requires RedBlack(root) && KeysIncrease(Entries(root))
    ensures Sound(curr, path) && Searching(curr, path, key) && Around(curr, path) == Entries(root)
    ensures curr == NodeAt(root, key) && (curr.Node? ==> curr.entry.key == key)
    ensures path.Top? ==> curr == root
  {
    curr, path := root, Top;
    assert Around(curr, path) == Entries(root);
    while curr.Node? && curr.entry.key != key
      invariant Sound(curr, path) && Searching(curr, path, key) && Around(curr, path) == Entries(root)
      invariant NodeAt(curr, key) == NodeAt(root, key) && (path.Top? ==> curr == root)
      decreases curr
    {
      if key < curr.entry.key {
        StepDown(curr, path, true);
        SearchDown(curr, path, true, key);
        curr, path := curr.left, Under(true, curr.entry, curr.color, curr.right, path);
      } else {
        StepDown(curr, path, false);
        SearchDown(curr, path, false, key);
        curr, path := curr.right, Under(false, curr.entry, curr.color, curr.left, path);
      }
    }
  }

  /** The loop of Delete that goes down to the smallest node of the right subtree; `walk` is the way from there. */
  method Successor(curr: Tree, path: Path, ghost es: seq<Entry>) returns (toDelete: Tree, walk: Path)
    requires curr.Node? && curr.right.Node? && Sound(curr, path) && Around(curr, path) == es
    ensures toDelete.Node? && toDelete.left.Nil? && OnlyLeft(walk)
    ensures var base := Under(false, curr.entry, curr.color, curr.left, path);
            Sound(toDelete, Append(walk, base)) && Around(toDelete, Append(walk, base)) == es
    ensures toDelete.entry == First(curr.right)
  {
    toDelete, walk := curr.right, Top;
    ghost var base := Under(false, curr.entry, curr.color, curr.left, path);
    StepDown(curr, path, false);
    while toDelete.left.Node?
      invariant toDelete.Node? && OnlyLeft(walk)
      invariant Sound(toDelete, Append(walk, base)) && Around(toDelete, Append(walk, base)) == es
      invariant First(toDelete) == First(curr.right)
      decreases toDelete
    {
      StepDown(toDelete, Append(walk, base), true);
      toDelete, walk := toDelete.left, Under(true, toDelete.entry, toDelete.color, toDelete.right, walk);
    }
  }

  /** The rebalancing after a node of color `removed` was replaced by its only child. */
  method RedBlackBalancing(removed: Color, removedChild: Tree, childPath: Path) returns (t: Tree)
    requires removed.Red? ==> Sound(removedChild, childPath)
    requires removed.Black? ==> Deficient(removedChild, childPath)
    ensures RedBlack(t) && Entries(t) == Around(removedChild, childPath)
  {
    var child, path := removedChild, childPath;
    ghost var es := Around(child, path);
    if removed.Red? {
      SoundPlug(child, path);
      EntriesOfPlug(child, path);
      return Plug(child, path);
    }
    while true
      invariant Deficient(child, path) && Around(child, path) == es
      decreases if IsRed(child) || path.Top? then 0 else 1,
                BlackDepth(path),
                if path.Under? && path.color.Black? then 1 else 0,
                if path.Under? && path.sibling.Node? && !IsRed(Far(path.isLeft, path.sibling)) then 1 else 0
    {
      if path.Top? {
        EntriesOfPlug(child, path);
        return child;
      }
      if IsRed(child) {
        PaintRedFocus(child, path);
        SoundPlug(Paint(child, Black), path);
        EntriesOfPlug(Paint(child, Black), path);
        return Plug(Paint(child, Black), path);
      }
      SiblingIsNode(child, path);
      var isLeft, sibling := path.isLeft, path.sibling;
      var inner, outer := Near(isLeft, sibling), Far(isLeft, sibling);
      if IsRed(sibling) {
        var above := Under(isLeft, sibling.entry, Black, outer, path.up);
        RotateRedSibling(child, path, Under(isLeft, path.entry, Red, inner, above));
        path := Under(isLeft, path.entry, Red, inner, above);
      } else if !IsRed(sibling.left) && !IsRed(sibling.right) {
        var parent := Make(isLeft, child, path.entry, path.color, Paint(sibling, Red));
        PaintSibling(child, path, parent);
        child, path := parent, path.up;
      } else if IsRed(inner) && !IsRed(outer) {
        var turned := Rotate(!isLeft, Make(isLeft, Paint(inner, Black), sibling.entry, Red, outer));
        RotateSibling(child, path, path.(sibling := turned));
        path := path.(sibling := turned);
      } else {
        var top := Rotate(isLeft, Make(isLeft, child, path.entry, Black,
                                       Make(isLeft, inner, sibling.entry, path.color, Paint(outer, Black))));
        RotateParent(child, path, top);
        SoundPlug(top, path.up);
        EntriesOfPlug(top, path.up);
        return Plug(top, path.up);
      }
    }
  }

  // ---------------------------------------------------------------- when Delete reports the deleted key's count

  /** The search ends at a node exactly when the key is there. */
  lemma {:induction false} SearchFinds(t: Tree, key: int)
    requires KeysIncrease(Entries(t))
    ensures NodeAt(t, key).Node? <==> Has(Entries(t), key)
  {
    if t.Node? {
      var l, r := Entries(t.left), Entries(t.right);
      OrderSplit(l, t.entry, r);
      SidesIncrease(l, t.entry, r);
      if t.entry.key == key {
        InsertedAt(l, t.entry, r, 0);
      } else if key < t.entry.key {
        SearchFinds(t.left, key);
        HasOnLeft(l, t.entry, r, key);
      } else {
        SearchFinds(t.right, key);
        HasOnRight(l, t.entry, r, key);
      }
    }
  }

  /** For a key with one child or none, Delete reports how often the key was inserted; with two children exactly
      if the next larger key happens to have the same count. */
  lemma ReportsOwnCountIff(t: Tree, key: int)
    requires KeysIncrease(Entries(t))
    ensures var (n, es) := (NodeAt(t, key), Entries(t));
            var twoChildren := n.Node? && n.left.Node? && n.right.Node?;
            && (twoChildren ==> Rank(es, key) + 1 < |es|)
            && (DeleteReport(t, key) == CountOf(es, key) <==>
                  !twoChildren || es[Rank(es, key) + 1].count == CountOf(es, key))
  {
    SearchFinds(t, key);
    TwoChildrenHaveNext(t, key);
  }

  lemma {:induction false} TwoChildrenHaveNext(t: Tree, key: int)
    requires KeysIncrease(Entries(t))
    ensures var n := NodeAt(t, key); n.Node? && n.right.Node? ==> Rank(Entries(t), key) + 1 < |Entries(t)|
  {
    if t.Node? && t.entry.key != key {
      var l, r := Entries(t.left), Entries(t.right);
      OrderSplit(l, t.entry, r);
      SidesIncrease(l, t.entry, r);
      if key < t.entry.key {
        TwoChildrenHaveNext(t.left, key);
        HasOnLeft(l, t.entry, r, key);
      } else {
        TwoChildrenHaveNext(t.right, key);
        HasOnRight(l, t.entry, r, key);
      }
    } else if t.Node? && t.right.Node? {
      FirstIsHead(t.right);
      OrderSplit(Entries(t.left), t.entry, Entries(t.right));
      InsertedAt(Entries(t.left), t.entry, Entries(t.right), 0);
    }
  }

  /** A tree reached by inserting 2, 1, 3 and 3: deleting 2, which was inserted once, reports 2. */
  lemma ReportOfSuccessor()
    ensures var l, r := Node(Nil, Entry(1, 0, 1), Red, Nil), Node(Nil, Entry(3, 0, 2), Red, Nil);
            var t := Node(l, Entry(2, 0, 1), Black, r);
            RedBlack(t) && KeysIncrease(Entries(t)) && CountOf(Entries(t), 2) == 1 && DeleteReport(t, 2) == 2
  {
    var l, r := Node(Nil, Entry(1, 0, 1), Red, Nil), Node(Nil, Entry(3, 0, 2), Red, Nil);
    assert Entries(l) == [Entry(1, 0, 1)] && Entries(r) == [Entry(3, 0, 2)];
    var t := Node(l, Entry(2, 0, 1), Black, r);
    assert Entries(t) == [Entry(1, 0, 1), Entry(2, 0, 1), Entry(3, 0, 2)];
    RankUnique(Entries(t), 2, 1);
  }

  // ---------------------------------------------------------------- depth

  function Levels(t: Tree): nat {
    if t.Nil? then 0 else 1 + if Levels(t.left) < Levels(t.right) then Levels(t.right) else Levels(t.left)
  }

  function Pow2(n: nat): nat { if n == 0 then 1 else 2 * Pow2(n - 1) }

  lemma {:induction false} BlackHeightBounds(t: Tree)
    requires Balanced(t) && NoRedRed(t)
    ensures Levels(t) <= 2 * BlackHeight(t) + if IsRed(t) then 1 else 0
    ensures Pow2(BlackHeight(t)) <= Size(t) + 1
  {
    if t.Node? {
      BlackHeightBounds(t.left);
      BlackHeightBounds(t.right);
    }
  }

  lemma {:induction false} Pow2Grows(m: nat, n: nat)
    requires m <= n
    ensures Pow2(m) <= Pow2(n)
  {
    if m < n {
      Pow2Grows(m, n - 1);
    }
  }

  lemma {:induction false} Pow2Square(n: nat)
    ensures Pow2(2 * n) == Pow2(n) * Pow2(n)
  {
    if n > 0 {
      Pow2Square(n - 1);
      assert Pow2(2 * n) == 2 * Pow2(2 * n - 1) == 4 * Pow2(2 * (n - 1));
    }
  }

  lemma SquareGrows(a: nat, b: nat)
    requires a <= b
    ensures a * a <= b * b
  {
    assert (b - a) * (b + a) >= 0;
  }

  /** A red-black tree of n nodes has at most 2 * log2(n + 1) levels. */
  lemma DepthIsLogarithmic(t: Tree)
    requires RedBlack(t)
    ensures Pow2(Levels(t)) <= (Size(t) + 1) * (Size(t) + 1)
  {
    var h := BlackHeight(t);
    BlackHeightBounds(t);
    Pow2Grows(Levels(t), 2 * h);
    Pow2Square(h);
    SquareGrows(Pow2(h), Size(t) + 1);
  }

  lemma {:induction false} SizeIsLength(t: Tree)
    ensures Size(t) == |Entries(t)|
  {
    if t.Node? {
      SizeIsLength(t.left);
      SizeIsLength(t.right);
    }
  }

  /** The same bound in terms of the tree object's own counter. */
  lemma TreeIsShallow(tree: RBtree)
    requires tree.Valid()
    ensures Pow2(Levels(tree.root)) <= (tree.count + 1) * (tree.count + 1)
  {
    SizeIsLength(tree.root);
    DepthIsLogarithmic(tree.root);
  }
}
