/** Packet definitions and the sheets they are written in: column one opens a packet, columns two and three hold a
    field. Cells are trimmed; the first row of a sheet holds headings. */
module PacketSheet {
  import opened Sequences

  datatype Field = Field(typ: string, name: string)

  datatype Packet = Packet(caseName: string, fields: seq<Field>)

  datatype Row = Row(caseCell: string, typ: string, name: string)

  predicate Opens(r: Row) { r.caseCell != "" }

  predicate HoldsField(r: Row) { r.typ != "" && r.name != "" }

  /** The field a row holds, as a list. */
  function Own(r: Row): seq<Field> { if HoldsField(r) then [Field(r.typ, r.name)] else [] }

  /** The fields on the rows before the first that opens a packet. */
  function Carried(rows: seq<Row>): seq<Field> {
    if rows == [] || Opens(rows[0]) then [] else Own(rows[0]) + Carried(rows[1..])
  }

  /** What a sheet means: every row that opens a packet stands for one, with the field it holds itself and the
      fields on the rows from there to the next that opens one. */
  function Meaning(rows: seq<Row>): seq<Packet> {
    if rows == [] then []
    else if !Opens(rows[0]) then Meaning(rows[1..])
    else [Packet(rows[0].caseCell, Own(rows[0]) + Carried(rows[1..]))] + Meaning(rows[1..])
  }

  /** The packets with more fields for the last of them; without a packet they are lost. */
  function MoreFields(packets: seq<Packet>, fields: seq<Field>): seq<Packet> {
    if packets == [] then []
    else
      var last := packets[|packets| - 1];
      packets[..|packets| - 1] + [last.(fields := last.fields + fields)]
  }

  // ---------------------------------------------------------------- sheets put one below the other

  lemma {:induction false} CarriedOfBoth(a: seq<Row>, b: seq<Row>)
    ensures Carried(a + b) == Carried(a) + if Meaning(a) == [] then Carried(b) else []
  {
    if a == [] {
      assert a + b == b;
    } else {
      hide Own;
      CarriedOfBoth(a[1..], b);
      assert (a + b)[1..] == a[1..] + b;
      var rest := if Meaning(a[1..]) == [] then Carried(b) else [];
      Associate(Own(a[0]), Carried(a[1..]), rest);
    }
  }

  lemma MoreFieldsBehind(p: Packet, tail: seq<Packet>, more: seq<Field>, y: seq<Packet>)
    ensures var q := if tail == [] then p.(fields := p.fields + more) else p;
            MoreFields([p] + tail, more) + y == [q] + (MoreFields(tail, more) + y)
  {
    if tail != [] {
      assert ([p] + tail)[..|tail|] == [p] + tail[..|tail| - 1];
    } else {
      assert [p] + tail == [p];
    }
  }

  /** Both sheets mean what they meant alone, but the fields that come before the first case of the second go to the
      last packet of the first. */
  lemma {:induction false} MeaningOfBoth(a: seq<Row>, b: seq<Row>)
    ensures Meaning(a + b) == MoreFields(Meaning(a), Carried(b)) + Meaning(b)
  {
    if a == [] {
      assert a + b == b;
    } else {
      var rest := a[1..];
      hide Own, MoreFields;
      MeaningOfBoth(rest, b);
      assert (a + b)[1..] == rest + b;
      if Opens(a[0]) {
        CarriedOfBoth(rest, b);
        var p := Packet(a[0].caseCell, Own(a[0]) + Carried(rest));
        MoreFieldsBehind(p, Meaning(rest), Carried(b), Meaning(b));
        Associate(Own(a[0]), Carried(rest), Carried(b));
        assert Carried(rest) + [] == Carried(rest);
        assert Meaning(a + b) == [Packet(a[0].caseCell, Own(a[0]) + Carried(rest + b))] + Meaning(rest + b);
      }
    }
  }

  lemma SameAfterMoreFields(packets: seq<Packet>, fields: seq<Field>)
    ensures MoreFields(packets, fields) == packets <==> packets == [] || fields == []
  {
    if packets != [] {
      var last := packets[|packets| - 1];
      assert MoreFields(packets, fields)[|packets| - 1] == last.(fields := last.fields + fields);
      if fields != [] {
        assert |last.fields + fields| > |last.fields|;
      } else {
        assert last.fields + fields == last.fields;
      }
    }
  }

  /** Reading distributes over putting one sheet below another exactly when no field is carried over the seam; that
      is so if the second starts with a case row. */
  lemma DistributesIff(a: seq<Row>, b: seq<Row>)
    ensures Meaning(a + b) == Meaning(a) + Meaning(b) <==> Meaning(a) == [] || Carried(b) == []
    ensures b != [] && Opens(b[0]) ==> Meaning(a + b) == Meaning(a) + Meaning(b)
  {
    var x, y, more := Meaning(a), Meaning(b), Carried(b);
    MeaningOfBoth(a, b);
    SameAfterMoreFields(x, more);
    assert (MoreFields(x, more) + y)[..|x|] == MoreFields(x, more);
    assert (x + y)[..|x|] == x;
  }

  // ---------------------------------------------------------------- writing a sheet

  function FieldRows(fields: seq<Field>): (rows: seq<Row>)
    ensures |rows| == |fields| && forall i :: 0 <= i < |rows| ==> !Opens(rows[i])
  {
    if fields == [] then [] else [Row("", fields[0].typ, fields[0].name)] + FieldRows(fields[1..])
  }

  /** The rows of one packet; its first field may stand beside the case. */
  function PacketRows(p: Packet, beside: bool): seq<Row> {
    if beside && p.fields != [] then
      [Row(p.caseName, p.fields[0].typ, p.fields[0].name)] + FieldRows(p.fields[1..])
    else [Row(p.caseName, "", "")] + FieldRows(p.fields)
  }

  /** The sheet of a packet list, the i-th packet laid out as beside[i] says. */
  function Sheet(packets: seq<Packet>, beside: seq<bool>): seq<Row>
    requires |beside| == |packets|
  {
    if packets == [] then [] else PacketRows(packets[0], beside[0]) + Sheet(packets[1..], beside[1..])
  }

  predicate Nonblank(p: Packet) {
    p.caseName != "" && forall i :: 0 <= i < |p.fields| ==> p.fields[i].typ != "" && p.fields[i].name != ""
  }

  lemma {:induction false} FieldRowsAreRead(fields: seq<Field>)
    requires forall i :: 0 <= i < |fields| ==> fields[i].typ != "" && fields[i].name != ""
    ensures Carried(FieldRows(fields)) == fields && Meaning(FieldRows(fields)) == []
  {
    if fields != [] {
      FieldRowsAreRead(fields[1..]);
      assert FieldRows(fields)[1..] == FieldRows(fields[1..]);
    }
  }

  lemma PacketRowsAreRead(p: Packet, beside: bool)
    requires Nonblank(p)
    ensures Meaning(PacketRows(p, beside)) == [p]
  {
    var rows := PacketRows(p, beside);
    if beside && p.fields != [] {
      assert rows[1..] == FieldRows(p.fields[1..]);
      FieldRowsAreRead(p.fields[1..]);
      assert Own(rows[0]) + p.fields[1..] == p.fields;
    } else {
      assert rows[1..] == FieldRows(p.fields);
      FieldRowsAreRead(p.fields);
      assert [] + p.fields == p.fields;
    }
  }

  /** A packet list written as a sheet, in any of the layouts, is read back. */
  lemma {:induction false} SheetIsReadBack(packets: seq<Packet>, beside: seq<bool>)
    requires |beside| == |packets| && forall i :: 0 <= i < |packets| ==> Nonblank(packets[i])
    ensures Meaning(Sheet(packets, beside)) == packets
    decreases |packets|
  {
    if packets != [] {
      var a, b := PacketRows(packets[0], beside[0]), Sheet(packets[1..], beside[1..]);
      SheetIsReadBack(packets[1..], beside[1..]);
      PacketRowsAreRead(packets[0], beside[0]);
      assert b != [] ==> Opens(b[0]);
      DistributesIff(a, b);
      if b == [] {
        assert a + b == a;
      }
    }
  }

  lemma {:induction false} CarriedIsNonblank(rows: seq<Row>)
    ensures forall f :: f in Carried(rows) ==> f.typ != "" && f.name != ""
  {
    if rows != [] {
      CarriedIsNonblank(rows[1..]);
    }
  }

  /** Whatever the sheet, what is read from it can be written as a sheet. */
  lemma {:induction false} MeaningIsNonblank(rows: seq<Row>)
    ensures forall p :: p in Meaning(rows) ==> Nonblank(p)
  {
    if rows != [] {
      CarriedIsNonblank(rows[1..]);
      MeaningIsNonblank(rows[1..]);
    }
  }

  // ---------------------------------------------------------------- the reader

  /** A list of packets that is filled in place. */
  class PacketList {
    var items: seq<Packet>

    constructor ()
      ensures items == []
    {
      items := [];
    }

    method Add(p: Packet)
      modifies this
      ensures items == old(items) + [p]
    {
      items := items + [p];
    }

    /** current.Fields.Add, where `current` is the packet at place `at`. */
    method AddField(at: nat, f: Field)
      requires at < |items|
      modifies this
      ensures items == old(items)[at := old(items)[at].(fields := old(items)[at].fields + [f])]
    {
      items := items[at := items[at].(fields := items[at].fields + [f])];
    }
  }

  lemma OneMoreRow(rows: seq<Row>, r: Row)
    ensures Meaning(rows + [r]) ==
            if Opens(r) then Meaning(rows) + [Packet(r.caseCell, Own(r))] else MoreFields(Meaning(rows), Own(r))
  {
    MeaningOfBoth(rows, [r]);
    assert [r][1..] == [];
    if Opens(r) {
      SameAfterMoreFields(Meaning(rows), []);
      assert Own(r) + [] == Own(r);
    } else {
      assert Own(r) + [] == Own(r);
    }
  }

  /** What one row does to the list: perhaps a new packet, then perhaps a field for the last one. */
  lemma RowAdded(was: seq<Packet>, rows: seq<Row>, r: Row)
    ensures var added := was + Meaning(rows) + if Opens(r) then [Packet(r.caseCell, [])] else [];
            var at := |added| - 1;
            was + Meaning(rows + [r]) ==
            if (Opens(r) || Meaning(rows) != []) && HoldsField(r) then
              added[at := added[at].(fields := added[at].fields + [Field(r.typ, r.name)])]
            else added
    ensures Meaning(rows + [r]) == [] <==> !Opens(r) && Meaning(rows) == []
  {
    OneMoreRow(rows, r);
    SameAfterMoreFields(Meaning(rows), Own(r));
    assert Opens(r) ==> [] + Own(r) == Own(r);
  }

  method ProcessSheet(sheet: seq<Row>, packets: PacketList)
    modifies packets
    ensures packets.items == old(packets.items) + (if |sheet| <= 1 then [] else Meaning(sheet[1..]))
  {
    if |sheet| <= 1 {
      return;
    }
    ghost var was := packets.items;
    var current := -1;
    var i := 1;
    assert sheet[1..1] == [];
    while i < |sheet|
      invariant 1 <= i <= |sheet|
      invariant packets.items == was + Meaning(sheet[1..i])
      invariant current == if Meaning(sheet[1..i]) == [] then -1 else |packets.items| - 1
    {
      var row := sheet[i];
      RowAdded(was, sheet[1..i], row);
      assert sheet[1..i] + [row] == sheet[1..i + 1];
      if row.caseCell != "" {
        packets.Add(Packet(row.caseCell, []));
        current := |packets.items| - 1;
      }
      if current != -1 && row.typ != "" && row.name != "" {
        packets.AddField(current, Field(row.typ, row.name));
      }
      i := i + 1;
    }
    assert sheet[1..|sheet|] == sheet[1..];
  }
}
