/** The code generated for a packet, as statements with a meaning: the maker that writes a packet into a buffer and
    the dispatcher that reads it back and calls the handler. Values are the bytes of the C++ objects. */
module PacketCode {
  import opened Bytes
  import opened CPacketBuffer
  import opened PacketSheet
  import opened Wrappers

  /** sizeof, for the types the packet buffer has operators for. */
  function SizeOf(typ: string): Option<nat> {
    if typ in ["char", "unsigned char", "uint8_t"] then Some(1)
    else if typ in ["short", "unsigned short", "int16_t", "uint16_t", "__int16"] then Some(2)
    else if typ in ["int", "unsigned int", "long", "unsigned long", "float", "DWORD", "int32_t", "uint32_t", "__int32"]
    then Some(4)
    else if typ in ["long long", "double", "int64_t", "__int64"] then Some(8)
    else None
  }

  function Width(typ: string): nat { if SizeOf(typ).Some? then SizeOf(typ).value else 0 }

  function Payload(fields: seq<Field>): nat {
    if fields == [] then 0 else Width(fields[0].typ) + Payload(fields[1..])
  }

  type Value = seq<Byte>

  /** The values are values of the fields' types. */
  predicate Typed(fields: seq<Field>, values: seq<Value>) {
    |values| == |fields| && forall i :: 0 <= i < |fields| ==> SizeOf(fields[i].typ) == Some(|values[i]|)
  }

  /** Without this the generated functions declare a name twice and do not compile. */
  predicate DistinctNames(fields: seq<Field>) {
    forall i, j :: 0 <= i < j < |fields| ==> fields[i].name != fields[j].name
  }

  function Bound(fields: seq<Field>, values: seq<Value>, env: map<string, Value>): map<string, Value>
    requires |values| == |fields|
  {
    if fields == [] then env else Bound(fields[1..], values[1..], env[fields[0].name := values[0]])
  }

  function ValueOf(env: map<string, Value>, name: string): Value { if name in env then env[name] else [] }

  function NamesOf(fields: seq<Field>): (names: seq<string>)
    ensures |names| == |fields| && forall i :: 0 <= i < |names| ==> names[i] == fields[i].name
  {
    if fields == [] then [] else [fields[0].name] + NamesOf(fields[1..])
  }

  function TypesOf(fields: seq<Field>): (types: seq<string>)
    ensures |types| == |fields| && forall i :: 0 <= i < |types| ==> types[i] == fields[i].typ
  {
    if fields == [] then [] else [fields[0].typ] + TypesOf(fields[1..])
  }

  function Joined(values: seq<Value>): seq<Byte> {
    if values == [] then [] else values[0] + Joined(values[1..])
  }

  lemma {:induction false} BoundKeeps(fields: seq<Field>, values: seq<Value>, env: map<string, Value>, name: string)
    requires |values| == |fields| && name in env
    requires forall i :: 0 <= i < |fields| ==> fields[i].name != name
    ensures name in Bound(fields, values, env) && Bound(fields, values, env)[name] == env[name]
  {
    if fields != [] {
      BoundKeeps(fields[1..], values[1..], env[fields[0].name := values[0]], name);
    }
  }

  lemma {:induction false} BoundAt(fields: seq<Field>, values: seq<Value>, env: map<string, Value>, i: nat)
    requires |values| == |fields| && DistinctNames(fields) && i < |fields|
    ensures fields[i].name in Bound(fields, values, env) && Bound(fields, values, env)[fields[i].name] == values[i]
  {
    var env' := env[fields[0].name := values[0]];
    if i == 0 {
      BoundKeeps(fields[1..], values[1..], env', fields[0].name);
    } else {
      BoundAt(fields[1..], values[1..], env', i - 1);
    }
  }

  lemma {:induction false} PayloadIsJoined(fields: seq<Field>, values: seq<Value>)
    requires Typed(fields, values)
    ensures |Joined(values)| == Payload(fields)
  {
    if fields != [] {
      PayloadIsJoined(fields[1..], values[1..]);
    }
  }

  // ---------------------------------------------------------------- the maker

  datatype MakerStmt =
    | DeclareHeader
    | SetCode
    | SetType(index: nat)
    | SetLen(types: seq<string>)
    | ClearPacket
    | PutHeader
    | ShiftIn(names: seq<string>)

  datatype Maker = Maker(caseName: string, params: seq<Field>, body: seq<MakerStmt>)

  function MakerOf(p: Packet, index: nat): Maker {
    Maker(p.caseName, p.fields,
          [DeclareHeader, SetCode, SetType(index), SetLen(TypesOf(p.fields)), ClearPacket, PutHeader,
           ShiftIn(NamesOf(p.fields))])
  }

  /** PktHeader: the members the generated code assigns. The struct of the server has Len alone, a 16-bit number, and
      so only that is sent. */
  datatype Header = Header(code: nat, index: nat, len: nat)

  const HEADER_SIZE: nat := 2

  function HeaderBytes(h: Header): seq<Byte> { Encoded(HEADER_SIZE, h.len) }

  function SumOfSizes(types: seq<string>): nat {
    if types == [] then 0 else Width(types[0]) + SumOfSizes(types[1..])
  }

  function PutAll(b: Buf, values: seq<Value>): (b': Buf)
    requires Fine(b)
    ensures Fine(b') && b'.capacity == b.capacity
    decreases |values|
  {
    if values == [] then b else PutAll(Put(b, values[0]), values[1..])
  }

  function LookUp(env: map<string, Value>, names: seq<string>): (values: seq<Value>)
    ensures |values| == |names| && forall i :: 0 <= i < |names| ==> values[i] == ValueOf(env, names[i])
  {
    if names == [] then [] else [ValueOf(env, names[0])] + LookUp(env, names[1..])
  }

  function MakerStep(s: MakerStmt, env: map<string, Value>, h: Header, b: Buf): (r: (Header, Buf))
    requires Fine(b)
    ensures Fine(r.1)
  {
    match s
    case DeclareHeader => (h, b)
    case SetCode => (h.(code := 0x98), b)
    case SetType(index) => (h.(index := index), b)
    case SetLen(types) => (h.(len := SumOfSizes(types) % 65536), b)
    case ClearPacket => (h, Empty(b.capacity))
    case PutHeader => (h, Put(b, HeaderBytes(h)))
    case ShiftIn(names) => (h, PutAll(b, LookUp(env, names)))
  }

  function RunMaker(body: seq<MakerStmt>, env: map<string, Value>, h: Header, b: Buf): Buf
    requires Fine(b)
    decreases |body|
  {
    if body == [] then b
    else
      var (h', b') := MakerStep(body[0], env, h, b);
      RunMaker(body[1..], env, h', b')
  }

  lemma {:induction false} PutAllFits(b: Buf, values: seq<Value>)
    requires Fine(b) && |b.written| + |Joined(values)| <= b.capacity
    ensures PutAll(b, values) == b.(written := b.written + Joined(values))
    decreases |values|
  {
    if values == [] {
      assert b.written + [] == b.written;
    } else {
      PutAllFits(Put(b, values[0]), values[1..]);
      assert (b.written + values[0]) + Joined(values[1..]) == b.written + Joined(values);
    }
  }

  lemma {:induction false} PutAllFull(b: Buf, values: seq<Value>)
    requires Fine(b) && (b.error == BUFFER_FULL || |b.written| + |Joined(values)| > b.capacity)
    ensures PutAll(b, values).error == BUFFER_FULL
    decreases |values|
  {
    if values != [] {
      PutAllFull(Put(b, values[0]), values[1..]);
    }
  }

  lemma {:induction false} SumIsPayload(fields: seq<Field>)
    ensures SumOfSizes(TypesOf(fields)) == Payload(fields)
  {
    if fields != [] {
      SumIsPayload(fields[1..]);
      assert TypesOf(fields)[1..] == TypesOf(fields[1..]);
    }
  }

  lemma ArgumentsAreFound(fields: seq<Field>, args: seq<Value>)
    requires |args| == |fields| && DistinctNames(fields)
    ensures LookUp(Bound(fields, args, map[]), NamesOf(fields)) == args
  {
    forall i | 0 <= i < |fields|
      ensures LookUp(Bound(fields, args, map[]), NamesOf(fields))[i] == args[i]
    {
      BoundAt(fields, args, map[], i);
    }
  }

  lemma OneStep(body: seq<MakerStmt>, k: nat, env: map<string, Value>, h: Header, b: Buf)
    requires Fine(b) && k < |body|
    ensures var (h', b') := MakerStep(body[k], env, h, b);
            RunMaker(body[k..], env, h, b) == RunMaker(body[k + 1..], env, h', b')
  {
    assert body[k..][1..] == body[k + 1..];
  }

  lemma BodyRuns(s: seq<MakerStmt>, env: map<string, Value>, h: Header, b: Buf)
    requires Fine(b) && |s| == 7
    requires s[0].DeclareHeader? && s[1].SetCode? && s[2].SetType? && s[3].SetLen?
    requires s[4].ClearPacket? && s[5].PutHeader? && s[6].ShiftIn?
    ensures RunMaker(s, env, h, b) ==
            PutAll(Put(Empty(b.capacity), Encoded(HEADER_SIZE, SumOfSizes(s[3].types) % 65536)),
                   LookUp(env, s[6].names))
  {
    var h2 := h.(code := 0x98);
    var h3 := h2.(index := s[2].index);
    var h4 := h3.(len := SumOfSizes(s[3].types) % 65536);
    assert s[0..] == s && s[7..] == [];
    OneStep(s, 0, env, h, b);
    OneStep(s, 1, env, h, b);
    OneStep(s, 2, env, h2, b);
    OneStep(s, 3, env, h3, b);
    LastSteps(s, env, h4, b);
  }

  lemma LastSteps(s: seq<MakerStmt>, env: map<string, Value>, h: Header, b: Buf)
    requires Fine(b) && |s| == 7 && s[4].ClearPacket? && s[5].PutHeader? && s[6].ShiftIn?
    ensures RunMaker(s[4..], env, h, b) == PutAll(Put(Empty(b.capacity), HeaderBytes(h)), LookUp(env, s[6].names))
  {
    OneStep(s, 4, env, h, b);
    OneStep(s, 5, env, h, Empty(b.capacity));
    OneStep(s, 6, env, h, Put(Empty(b.capacity), HeaderBytes(h)));
    assert s[7..] == [];
  }

  lemma MakerBody(p: Packet, index: nat, env: map<string, Value>, h: Header, b: Buf)
    requires Fine(b)
    ensures var len := Payload(p.fields) % 65536;
            RunMaker(MakerOf(p, index).body, env, h, b) ==
            PutAll(Put(Empty(b.capacity), Encoded(HEADER_SIZE, len)), LookUp(env, NamesOf(p.fields)))
  {
    SumIsPayload(p.fields);
    BodyRuns(MakerOf(p, index).body, env, h, b);
  }

  /** The maker leaves a full packet and no error exactly when header and payload fit, and then the packet is the
      length and the arguments in order, whatever was in the buffer before; else the buffer reports that it is
      full. */
  lemma MakerWrites(p: Packet, index: nat, args: seq<Value>, h: Header, b: Buf)
    requires Fine(b) && DistinctNames(p.fields) && Typed(p.fields, args)
    ensures var w := RunMaker(MakerOf(p, index).body, Bound(p.fields, args, map[]), h, b);
            && (HEADER_SIZE + Payload(p.fields) <= b.capacity ==>
                  w == Buf(b.capacity, Encoded(HEADER_SIZE, Payload(p.fields) % 65536) + Joined(args), 0, NONE))
            && (HEADER_SIZE + Payload(p.fields) > b.capacity ==> w.error == BUFFER_FULL)
  {
    MakerBody(p, index, Bound(p.fields, args, map[]), h, b);
    ArgumentsAreFound(p.fields, args);
    PayloadIsJoined(p.fields, args);
    var b6 := Put(Empty(b.capacity), Encoded(HEADER_SIZE, Payload(p.fields) % 65536));
    if HEADER_SIZE + Payload(p.fields) <= b.capacity {
      PutAllFits(b6, args);
    } else {
      PutAllFull(b6, args);
    }
  }

  /** A 16-bit signed number. */
  function AsShort(v: nat): (n: int)
    ensures -32768 <= n < 32768
  {
     if v % 65536 < 32768 then v % 65536 else v % 65536 - 65536
  }

  /** The length in the header is the number of bytes behind it exactly when that is below 2^15, and so for every
      packet that fits the default buffer. */
  lemma LengthIsExact(p: Packet, index: nat, args: seq<Value>, h: Header, b: Buf)
    requires Fine(b) && DistinctNames(p.fields) && Typed(p.fields, args)
    requires HEADER_SIZE + Payload(p.fields) <= b.capacity
    ensures var w := RunMaker(MakerOf(p, index).body, Bound(p.fields, args, map[]), h, b).written;
            && |w| >= HEADER_SIZE
            && (AsShort(Decoded(w[..HEADER_SIZE])) == |w| - HEADER_SIZE <==> |w| - HEADER_SIZE < 32768)
            && (b.capacity <= BUFFER_DEFAULT ==> AsShort(Decoded(w[..HEADER_SIZE])) == |w| - HEADER_SIZE)
  {
    hide RunMaker, MakerOf, Bound;
    MakerWrites(p, index, args, h, b);
    PayloadIsJoined(p.fields, args);
    HeaderDecodes(Payload(p.fields) % 65536, Joined(args));
  }

  lemma HeaderDecodes(len: nat, rest: seq<Byte>)
    requires len < 65536
    ensures Decoded((Encoded(HEADER_SIZE, len) + rest)[..HEADER_SIZE]) == len
  {
    assert (Encoded(HEADER_SIZE, len) + rest)[..HEADER_SIZE] == Encoded(HEADER_SIZE, len);
    assert Power256(1) == 256 && Power256(2) == 65536;
    DecodedEncoded(HEADER_SIZE, len);
  }

  /** mp_Echo on the wire: the length of its one argument, a 64-bit number, in two bytes, then the number. */
  lemma EchoOnTheWire(msg: Value, b: Buf)
    requires Fine(b) && |msg| == 8 && 10 <= b.capacity
    ensures var p := Packet("Echo", [Field("int64_t", "msg")]);
            RunMaker(MakerOf(p, 0).body, Bound(p.fields, [msg], map[]), Header(0, 0, 0), b)
            == Buf(b.capacity, [8, 0] + msg, 0, NONE)
  {
    hide RunMaker, MakerOf, Bound, Encoded, SizeOf;
    var fields := [Field("int64_t", "msg")];
    EightBytes();
    EightEncoded();
    assert fields[1..] == [];
    assert Payload(fields) == 8;
    assert [msg][1..] == [] && Joined([msg]) == msg;
    MakerWrites(Packet("Echo", fields), 0, [msg], Header(0, 0, 0), b);
  }

  lemma OneByte()
    ensures SizeOf("uint8_t") == Some(1)
  {
  }

  lemma TwoBytes()
    ensures SizeOf("int16_t") == SizeOf("uint16_t") == Some(2)
  {
  }

  lemma FourBytes()
    ensures SizeOf("int32_t") == SizeOf("uint32_t") == Some(4)
  {
  }

  lemma EightBytes()
    ensures SizeOf("int64_t") == Some(8)
  {
  }

  /** The types that are named by their width have it. */
  lemma NamedWidths()
    ensures SizeOf("uint8_t") == Some(1)
    ensures SizeOf("int16_t") == SizeOf("uint16_t") == Some(2)
    ensures SizeOf("int32_t") == SizeOf("uint32_t") == Some(4)
    ensures SizeOf("int64_t") == Some(8)
  {
    hide SizeOf;
    OneByte();
    TwoBytes();
    FourBytes();
    EightBytes();
  }

  lemma EightEncoded()
    ensures Encoded(HEADER_SIZE, 8) == [8, 0]
  {
    assert Encoded(1, 0) == [0];
  }

  // ---------------------------------------------------------------- the reader

  datatype ReaderStmt =
    | Declare(field: Field)
    | ShiftOut(name: string)
    | CallHandler(caseName: string, names: seq<string>)

  datatype Call = Call(caseName: string, args: seq<Value>)

  function Declares(fields: seq<Field>): seq<ReaderStmt> {
    if fields == [] then [] else [Declare(fields[0])] + Declares(fields[1..])
  }

  function ShiftOuts(fields: seq<Field>): seq<ReaderStmt> {
    if fields == [] then [] else [ShiftOut(fields[0].name)] + ShiftOuts(fields[1..])
  }

  /** The body of DispatchX. */
  function ReaderOf(p: Packet): seq<ReaderStmt> {
    Declares(p.fields) + (ShiftOuts(p.fields) + [CallHandler(p.caseName, NamesOf(p.fields))])
  }

  /** `junk` is what the variables still to be declared will hold at first. */
  datatype Reading = Reading(env: map<string, Value>, junk: seq<Value>, buf: Buf, calls: seq<Call>)

  function ReaderStep(s: ReaderStmt, r: Reading): (r': Reading)
    requires Fine(r.buf)
    ensures Fine(r'.buf)
  {
    match s
    case Declare(f) =>
      if r.junk == [] then r else r.(env := r.env[f.name := r.junk[0]], junk := r.junk[1..])
    case ShiftOut(name) =>
      var (b, v) := Get(r.buf, |ValueOf(r.env, name)|, ValueOf(r.env, name));
      r.(env := r.env[name := v], buf := b)
    case CallHandler(caseName, names) => r.(calls := r.calls + [Call(caseName, LookUp(r.env, names))])
  }

  function RunReader(body: seq<ReaderStmt>, r: Reading): (r': Reading)
    requires Fine(r.buf)
    ensures Fine(r'.buf)
    decreases |body|
  {
    if body == [] then r else RunReader(body[1..], ReaderStep(body[0], r))
  }

  lemma {:induction false} RunBoth(a: seq<ReaderStmt>, b: seq<ReaderStmt>, r: Reading)
    requires Fine(r.buf)
    ensures RunReader(a + b, r) == RunReader(b, RunReader(a, r))
    decreases |a|
  {
    if a == [] {
      assert a + b == b;
    } else {
      RunBoth(a[1..], b, ReaderStep(a[0], r));
      assert (a + b)[1..] == a[1..] + b;
    }
  }

  /** Reading values one after another; v[i] is what the i-th variable holds before. */
  function GetAll(b: Buf, v: seq<Value>): (r: (Buf, seq<Value>))
    requires Fine(b)
    ensures Fine(r.0) && |r.1| == |v|
    decreases |v|
  {
    if v == [] then (b, [])
    else
      var (b', x) := Get(b, |v[0]|, v[0]);
      var (b'', xs) := GetAll(b', v[1..]);
      (b'', [x] + xs)
  }

  lemma {:induction false} DeclaresRun(fields: seq<Field>, junk: seq<Value>, r: Reading)
    requires Fine(r.buf) && |junk| == |fields| && r.junk == junk
    ensures RunReader(Declares(fields), r) == r.(env := Bound(fields, junk, r.env), junk := [])
    decreases |fields|
  {
    if fields != [] {
      assert Declares(fields)[1..] == Declares(fields[1..]);
      DeclaresRun(fields[1..], junk[1..], ReaderStep(Declare(fields[0]), r));
    }
  }

  lemma {:induction false} ShiftOutsKeep(fields: seq<Field>, r: Reading, name: string)
    requires Fine(r.buf) && forall i :: 0 <= i < |fields| ==> fields[i].name != name
    ensures ValueOf(RunReader(ShiftOuts(fields), r).env, name) == ValueOf(r.env, name)
    decreases |fields|
  {
    if fields != [] {
      assert ShiftOuts(fields)[1..] == ShiftOuts(fields[1..]);
      ShiftOutsKeep(fields[1..], ReaderStep(ShiftOut(fields[0].name), r), name);
    }
  }

  predicate Hold(env: map<string, Value>, fields: seq<Field>, v: seq<Value>) {
    |v| == |fields| && forall i :: 0 <= i < |fields| ==> ValueOf(env, fields[i].name) == v[i]
  }

  lemma HoldCons(env: map<string, Value>, fields: seq<Field>, v: seq<Value>)
    requires fields != [] && v != []
    ensures Hold(env, fields, v) <==> ValueOf(env, fields[0].name) == v[0] && Hold(env, fields[1..], v[1..])
  {
    if ValueOf(env, fields[0].name) == v[0] && Hold(env, fields[1..], v[1..]) {
      forall i | 0 <= i < |fields| ensures ValueOf(env, fields[i].name) == v[i] {
        if i > 0 {
          assert fields[i] == fields[1..][i - 1] && v[i] == v[1..][i - 1];
        }
      }
    }
  }

  lemma HoldUpdated(env: map<string, Value>, fields: seq<Field>, v: seq<Value>, name: string, x: Value)
    requires Hold(env, fields, v) && forall i :: 0 <= i < |fields| ==> fields[i].name != name
    ensures Hold(env[name := x], fields, v)
  {
  }

  lemma {:induction false} ShiftOutsRun(fields: seq<Field>, v: seq<Value>, r: Reading)
    requires Fine(r.buf) && DistinctNames(fields) && Hold(r.env, fields, v)
    ensures var r' := RunReader(ShiftOuts(fields), r);
            r'.buf == GetAll(r.buf, v).0 && r'.calls == r.calls && Hold(r'.env, fields, GetAll(r.buf, v).1)
    decreases |fields|
  {
    if fields != [] {
      var name, tail := fields[0].name, fields[1..];
      assert ShiftOuts(fields)[1..] == ShiftOuts(tail);
      var r1 := ReaderStep(ShiftOut(name), r);
      HoldCons(r.env, fields, v);
      var (b, x) := Get(r.buf, |v[0]|, v[0]);
      assert r1 == r.(env := r.env[name := x], buf := b);
      HoldUpdated(r.env, tail, v[1..], name, x);
      ShiftOutsRun(tail, v[1..], r1);
      ShiftOutsKeep(tail, r1, name);
      HoldCons(RunReader(ShiftOuts(fields), r).env, fields, GetAll(r.buf, v).1);
    }
  }

  /** The dispatcher calls the handler once, with what reading the fields in order gives. */
  lemma ReaderCalls(p: Packet, junk: seq<Value>, b: Buf)
    requires Fine(b) && |junk| == |p.fields| && DistinctNames(p.fields)
    ensures var r := RunReader(ReaderOf(p), Reading(map[], junk, b, []));
            r.buf == GetAll(b, junk).0 && r.calls == [Call(p.caseName, GetAll(b, junk).1)]
  {
    var r0 := Reading(map[], junk, b, []);
    var call := [CallHandler(p.caseName, NamesOf(p.fields))];
    RunBoth(Declares(p.fields), ShiftOuts(p.fields) + call, r0);
    DeclaresRun(p.fields, junk, r0);
    var r1 := r0.(env := Bound(p.fields, junk, map[]), junk := []);
    forall i | 0 <= i < |p.fields| ensures ValueOf(r1.env, p.fields[i].name) == junk[i] {
      BoundAt(p.fields, junk, map[], i);
    }
    assert Hold(r1.env, p.fields, junk);
    RunBoth(ShiftOuts(p.fields), call, r1);
    ShiftOutsRun(p.fields, junk, r1);
    var r2 := RunReader(ShiftOuts(p.fields), r1);
    assert call[1..] == [];
    assert LookUp(r2.env, NamesOf(p.fields)) == GetAll(b, junk).1;
    assert RunReader(call, r2) == RunReader(call[1..], ReaderStep(call[0], r2));
  }

  lemma {:induction false} GetAllReads(b: Buf, junk: seq<Value>, args: seq<Value>, rest: seq<Byte>)
    requires Fine(b) && Unread(b) == Joined(args) + rest
    requires |junk| == |args| && forall i :: 0 <= i < |args| ==> |junk[i]| == |args[i]|
    ensures GetAll(b, junk).1 == args && GetAll(b, junk).0 == b.(read := b.read + |Joined(args)|)
    ensures Unread(GetAll(b, junk).0) == rest
    decreases |args|
  {
    if args != [] {
      var tail := Joined(args[1..]) + rest;
      assert Unread(b) == args[0] + tail;
      var b' := b.(read := b.read + |args[0]|);
      assert Get(b, |args[0]|, junk[0]) == (b', args[0]);
      assert Unread(b') == Unread(b)[|args[0]|..] == tail;
      GetAllReads(b', junk[1..], args[1..], rest);
    } else {
      assert Joined(args) + rest == rest;
    }
  }

  lemma {:induction false} GetAllShort(b: Buf, junk: seq<Value>)
    requires Fine(b) && (b.error == BUFFER_EMPTY || |Joined(junk)| > |Unread(b)|)
    ensures GetAll(b, junk).0.error == BUFFER_EMPTY
    decreases |junk|
  {
    if junk != [] {
      GetAllShort(Get(b, |junk[0]|, junk[0]).0, junk[1..]);
    }
  }

  lemma {:induction false} GetAllEnough(b: Buf, junk: seq<Value>)
    requires Fine(b) && |Joined(junk)| <= |Unread(b)|
    ensures GetAll(b, junk).0.error == b.error
    decreases |junk|
  {
    if junk != [] {
      GetAllEnough(Get(b, |junk[0]|, junk[0]).0, junk[1..]);
    }
  }

  function BehindHeader(message: seq<Byte>): seq<Byte> {
    if |message| < HEADER_SIZE then [] else message[HEADER_SIZE..]
  }

  /** Writer and reader are inverse: what the maker writes behind the header makes the dispatcher call the handler
      once, with the arguments the maker was given, whatever follows in the buffer and whatever the variables held;
      the bytes that follow stay unread. */
  lemma ReaderInvertsMaker(p: Packet, index: nat, args: seq<Value>, h: Header, b: Buf,
                           junk: seq<Value>, r: Buf, rest: seq<Byte>)
    requires Fine(b) && DistinctNames(p.fields) && Typed(p.fields, args) && Typed(p.fields, junk)
    requires HEADER_SIZE + Payload(p.fields) <= b.capacity
    requires Fine(r)
    requires Unread(r) ==
             BehindHeader(RunMaker(MakerOf(p, index).body, Bound(p.fields, args, map[]), h, b).written) + rest
    ensures var end := RunReader(ReaderOf(p), Reading(map[], junk, r, []));
            end.calls == [Call(p.caseName, args)] && Unread(end.buf) == rest && end.buf.error == r.error
  {
    MakerWrites(p, index, args, h, b);
    var len := Encoded(HEADER_SIZE, Payload(p.fields) % 65536);
    assert BehindHeader(len + Joined(args)) == Joined(args);
    ReaderCalls(p, junk, r);
    GetAllReads(r, junk, args, rest);
  }

  /** The dispatcher does not look at the buffer's error: the handler is called once, and the error tells exactly
      whether the bytes sufficed. */
  lemma ReaderErrorIff(p: Packet, junk: seq<Value>, r: Buf)
    requires Fine(r) && r.error == NONE && DistinctNames(p.fields) && Typed(p.fields, junk)
    ensures var end := RunReader(ReaderOf(p), Reading(map[], junk, r, []));
            && |end.calls| == 1 && end.calls[0].caseName == p.caseName
            && (end.buf.error == BUFFER_EMPTY <==> |Unread(r)| < Payload(p.fields))
  {
    ReaderCalls(p, junk, r);
    PayloadIsJoined(p.fields, junk);
    if |Unread(r)| < Payload(p.fields) {
      GetAllShort(r, junk);
    } else {
      GetAllEnough(r, junk);
    }
  }

  // ---------------------------------------------------------------- the switch

  predicate DistinctCases(packets: seq<Packet>) {
    forall i, j :: 0 <= i < j < |packets| ==> packets[i].caseName != packets[j].caseName
  }

  /** The function named DispatchX, among those generated for the packets. */
  function Dispatcher(packets: seq<Packet>, caseName: string): seq<ReaderStmt> {
    if packets == [] then []
    else if packets[0].caseName == caseName then ReaderOf(packets[0])
    else Dispatcher(packets[1..], caseName)
  }

  /** Process: the case for a type calls by name; other types call nothing. */
  function Process(packets: seq<Packet>, typ: nat, junk: seq<Value>, b: Buf): seq<Call>
    requires Fine(b)
  {
    if typ < |packets| then RunReader(Dispatcher(packets, packets[typ].caseName), Reading(map[], junk, b, [])).calls
    else []
  }

  lemma {:induction false} DispatcherOf(packets: seq<Packet>, k: nat)
    requires DistinctCases(packets) && k < |packets|
    ensures Dispatcher(packets, packets[k].caseName) == ReaderOf(packets[k])
  {
    if k > 0 {
      DispatcherOf(packets[1..], k - 1);
    }
  }

  /** A message made from the k-th packet and processed under type t reaches the k-th handler, with its arguments,
      exactly when t is k. The session processes every message under type 0. */
  lemma ReachesItsHandlerIff(packets: seq<Packet>, k: nat, t: nat, args: seq<Value>, junk: seq<Value>, r: Buf)
    requires DistinctCases(packets) && k < |packets| && DistinctNames(packets[k].fields) && Fine(r)
    requires Typed(packets[k].fields, args) && Unread(r) == Joined(args)
    requires t < |packets| ==> Typed(packets[t].fields, junk) && DistinctNames(packets[t].fields)
    ensures Process(packets, t, junk, r) == [Call(packets[k].caseName, args)] <==> t == k
  {
    if t < |packets| {
      DispatcherOf(packets, t);
      ReaderCalls(packets[t], junk, r);
      if t == k {
        assert Joined(args) + [] == Joined(args);
        GetAllReads(r, junk, args, []);
      }
    }
  }
}
