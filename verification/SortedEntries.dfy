/** What insertion and deletion mean for the entries of a search tree, read from left to right. */
module SortedEntries {
  import opened Trees
  import opened Wrappers

  /** How many entries come before the place of `key`. */
  function Rank(es: seq<Entry>, key: int): (i: nat)
    ensures i <= |es|
    ensures forall j :: 0 <= j < i ==> es[j].key < key
    ensures i < |es| ==> key <= es[i].key
  {
    if es == [] || key <= es[0].key then 0 else 1 + Rank(es[1..], key)
  }

  predicate Has(es: seq<Entry>, key: int) {
    var i := Rank(es, key);
    i < |es| && es[i].key == key
  }

  /** How often `key` counts as inserted; 0 if it is absent. */
  function CountOf(es: seq<Entry>, key: int): int {
    if Has(es, key) then es[Rank(es, key)].count else 0
  }

  /** The value stored for `key`, if it is there. */
  function ValueOf(es: seq<Entry>, key: int): (v: Option<int>)
    ensures v.Some? <==> Has(es, key)
  {
    if Has(es, key) then Some(es[Rank(es, key)].value) else None
  }

  /** A repeated key only raises the count of its entry; a new one gets an entry of its own. */
  function Inserted(es: seq<Entry>, key: int, value: int): seq<Entry> {
    var i := Rank(es, key);
    if Has(es, key) then es[i := es[i].(count := es[i].count + 1)]
    else es[..i] + [Entry(key, value, 1)] + es[i..]
  }

  function Deleted(es: seq<Entry>, key: int): seq<Entry> {
    var i := Rank(es, key);
    if Has(es, key) then es[..i] + es[i + 1..] else es
  }

  predicate AllBelow(es: seq<Entry>, key: int) { forall i :: 0 <= i < |es| ==> es[i].key < key }

  predicate AllAbove(es: seq<Entry>, key: int) { forall i :: 0 <= i < |es| ==> key < es[i].key }

  lemma RankUnique(es: seq<Entry>, key: int, i: nat)
    requires i <= |es|
    requires forall j :: 0 <= j < i ==> es[j].key < key
    requires i < |es| ==> key <= es[i].key
    ensures Rank(es, key) == i
  {
    var r := Rank(es, key);
  }

  lemma RankSplit(a: seq<Entry>, b: seq<Entry>, key: int)
    requires AllBelow(a, key) && (b != [] ==> key <= b[0].key)
    ensures Rank(a + b, key) == |a|
  {
    RankUnique(a + b, key, |a|);
  }

  /** Insertion of a key that falls between two parts of the sequence. */
  lemma InsertedBetween(a: seq<Entry>, b: seq<Entry>, key: int, value: int)
    requires AllBelow(a, key) && AllAbove(b, key)
    ensures Inserted(a + b, key, value) == a + [Entry(key, value, 1)] + b
    ensures Deleted(a + b, key) == a + b && !Has(a + b, key)
  {
    RankSplit(a, b, key);
    assert (a + b)[..|a|] == a && (a + b)[|a|..] == b;
  }

  /** Insertion and deletion of a key that is there. */
  lemma InsertedAt(a: seq<Entry>, e: Entry, b: seq<Entry>, value: int)
    requires AllBelow(a, e.key)
    ensures var es := a + [e] + b;
            && Inserted(es, e.key, value) == a + [e.(count := e.count + 1)] + b
            && Deleted(es, e.key) == a + b
            && Has(es, e.key) && Rank(es, e.key) == |a| && CountOf(es, e.key) == e.count
  {
    var es := a + [e] + b;
    assert es == a + ([e] + b);
    RankSplit(a, [e] + b, e.key);
    assert es[..|a|] == a && es[|a| + 1..] == b;
  }

  lemma OrderSplit(a: seq<Entry>, e: Entry, b: seq<Entry>)
    requires KeysIncrease(a + [e] + b)
    ensures AllBelow(a, e.key) && AllAbove(b, e.key)
  {
    var es := a + [e] + b;
    assert es[|a|] == e;
    assert forall i :: 0 <= i < |a| ==> a[i] == es[i];
    assert forall i :: 0 <= i < |b| ==> b[i] == es[|a| + 1 + i];
  }

  lemma SidesIncrease(a: seq<Entry>, e: Entry, b: seq<Entry>)
    requires KeysIncrease(a + [e] + b)
    ensures KeysIncrease(a) && KeysIncrease(b)
  {
    var es := a + [e] + b;
    assert forall i :: 0 <= i < |a| ==> a[i] == es[i];
    assert forall i :: 0 <= i < |b| ==> b[i] == es[|a| + 1 + i];
  }

  /** A key smaller than `e` is to be looked for before it. */
  lemma HasOnLeft(a: seq<Entry>, e: Entry, b: seq<Entry>, key: int)
    requires key < e.key
    ensures Rank(a + [e] + b, key) == Rank(a, key)
    ensures Has(a + [e] + b, key) == Has(a, key)
  {
    var es := a + [e] + b;
    assert es[|a|] == e && forall i :: 0 <= i < |a| ==> a[i] == es[i];
    RankUnique(es, key, Rank(a, key));
  }

  lemma HasOnRight(a: seq<Entry>, e: Entry, b: seq<Entry>, key: int)
    requires AllBelow(a, e.key) && e.key < key
    ensures Rank(a + [e] + b, key) == |a| + 1 + Rank(b, key)
    ensures Has(a + [e] + b, key) == Has(b, key)
  {
    var es := a + [e] + b;
    assert forall i :: 0 <= i < |b| ==> b[i] == es[|a| + 1 + i];
    RankUnique(es, key, |a| + 1 + Rank(b, key));
  }

  lemma InsertKeepsOrder(es: seq<Entry>, key: int, value: int)
    requires KeysIncrease(es)
    ensures KeysIncrease(Inserted(es, key, value))
  {
  }

  lemma DeleteKeepsOrder(es: seq<Entry>, key: int)
    requires KeysIncrease(es)
    ensures KeysIncrease(Deleted(es, key))
  {
  }

  lemma InsertMeaning(es: seq<Entry>, key: int, value: int)
    requires KeysIncrease(es)
    ensures Has(Inserted(es, key, value), key)
    ensures CountOf(Inserted(es, key, value), key) == CountOf(es, key) + 1
    ensures ValueOf(Inserted(es, key, value), key) == if Has(es, key) then ValueOf(es, key) else Some(value)
  {
    RankUnique(Inserted(es, key, value), key, Rank(es, key));
  }

  lemma DeleteMeaning(es: seq<Entry>, key: int)
    requires KeysIncrease(es)
    ensures !Has(Deleted(es, key), key)
  {
    RankUnique(Deleted(es, key), key, Rank(es, key));
  }

  /** An operation on one key leaves the others alone. */
  lemma InsertElsewhere(es: seq<Entry>, key: int, value: int, other: int)
    requires KeysIncrease(es) && other != key
    ensures Has(Inserted(es, key, value), other) == Has(es, other)
    ensures CountOf(Inserted(es, key, value), other) == CountOf(es, other)
    ensures ValueOf(Inserted(es, key, value), other) == ValueOf(es, other)
  {
    InsertKeepsOrder(es, key, value);
    var i, j := Rank(es, key), Rank(es, other);
    RankUnique(Inserted(es, key, value), other, if Has(es, key) || other < key then j else j + 1);
  }

  lemma DeleteElsewhere(es: seq<Entry>, key: int, other: int)
    requires KeysIncrease(es) && other != key
    ensures Has(Deleted(es, key), other) == Has(es, other)
    ensures CountOf(Deleted(es, key), other) == CountOf(es, other)
    ensures ValueOf(Deleted(es, key), other) == ValueOf(es, other)
  {
    DeleteKeepsOrder(es, key);
    var i, j := Rank(es, key), Rank(es, other);
    RankUnique(Deleted(es, key), other, if Has(es, key) && key < other then j - 1 else j);
  }

  // ---------------------------------------------------------------- runs

  datatype Op = Insert(key: int, value: int) | Delete(key: int)

  function Apply(es: seq<Entry>, op: Op): seq<Entry> {
    match op
    case Insert(k, v) => Inserted(es, k, v)
    case Delete(k) => Deleted(es, k)
  }

  function Run(ops: seq<Op>): seq<Entry> {
    if ops == [] then [] else Apply(Run(ops[..|ops| - 1]), ops[|ops| - 1])
  }

  /** Insertions of `key` since it was last deleted. */
  function LiveInserts(ops: seq<Op>, key: int): nat {
    if ops == [] then 0
    else
      var last := ops[|ops| - 1];
      if last == Delete(key) then 0
      else LiveInserts(ops[..|ops| - 1], key) + if last.Insert? && last.key == key then 1 else 0
  }

  /** What the first of those insertions stored. */
  function LiveValue(ops: seq<Op>, key: int): Option<int> {
    if LiveInserts(ops, key) == 0 then None
    else
      var before, last := ops[..|ops| - 1], ops[|ops| - 1];
      if LiveInserts(before, key) == 0 && last.Insert? then Some(last.value) else LiveValue(before, key)
  }

  /** After any run from the empty tree the keys are sorted and distinct, each key's count is the number of its
      insertions since it was last deleted, and its value what the first of those stored. */
  lemma {:induction false} CountsFollowHistory(ops: seq<Op>, key: int)
    ensures KeysIncrease(Run(ops))
    ensures CountOf(Run(ops), key) == LiveInserts(ops, key)
    ensures Has(Run(ops), key) <==> 0 < LiveInserts(ops, key)
    ensures ValueOf(Run(ops), key) == LiveValue(ops, key)
  {
    if ops != [] {
      var before, last := ops[..|ops| - 1], ops[|ops| - 1];
      CountsFollowHistory(before, key);
      match last
      case Insert(k, v) =>
        InsertKeepsOrder(Run(before), k, v);
        if k == key {
          InsertMeaning(Run(before), k, v);
        } else {
          InsertElsewhere(Run(before), k, v, key);
        }
      case Delete(k) =>
        DeleteKeepsOrder(Run(before), k);
        if k == key {
          DeleteMeaning(Run(before), k);
        } else {
          DeleteElsewhere(Run(before), k, key);
        }
    }
  }
}
