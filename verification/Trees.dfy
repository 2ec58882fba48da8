/** The trees of RBtree.h as values: `Nil` is the shared sentinel node, a `Node` owns its two subtrees. */
module Trees {

  /** The numbering is that of NODE_COLOR. */
  datatype Color = Black | Red
  {
    function Code(): int { if Black? then 0 else 1 }
  }

  /** What a node carries besides its links and its color; `count` is how often the key was inserted. */
  datatype Entry = Entry(key: int, value: int, count: int)

  datatype Tree = Nil | Node(left: Tree, entry: Entry, color: Color, right: Tree)

  /** The entries from left to right. */
  function Entries(t: Tree): seq<Entry> {
    if t.Nil? then [] else Entries(t.left) + [t.entry] + Entries(t.right)
  }

  function Size(t: Tree): nat {
    if t.Nil? then 0 else Size(t.left) + 1 + Size(t.right)
  }

  /** A search tree with distinct keys. */
  predicate KeysIncrease(es: seq<Entry>) {
    forall i, j :: 0 <= i < j < |es| ==> es[i].key < es[j].key
  }
}
