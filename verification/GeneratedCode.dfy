/** The generated functions at work on a packet object: a maker, a dispatcher, and the message handler of a session
    that puts received bytes into a packet of its own and dispatches it. */
module GeneratedCode {
  import opened Bytes
  import opened CPacketBuffer
  import opened PacketSheet
  import opened PacketCode

  /** mp_X for packet p, the index-th of the table. */
  method Make(p: Packet, index: nat, args: seq<Value>, packet: CPacket)
    requires packet.Valid() && DistinctNames(p.fields) && Typed(p.fields, args)
    modifies packet, packet.buffer
    ensures packet.Valid()
    ensures packet.Now() ==
            RunMaker(MakerOf(p, index).body, Bound(p.fields, args, map[]), Header(0, 0, 0), old(packet.Now()))
  {
    hide RunMaker, MakerOf, Bound, LookUp;
    MakerBody(p, index, Bound(p.fields, args, map[]), Header(0, 0, 0), packet.Now());
    ArgumentsAreFound(p.fields, args);
    var len := Payload(p.fields) % 65536;
    packet.Clear();
    var n := packet.PutData(Encoded(HEADER_SIZE, len));
    ghost var start := packet.Now();
    var i := 0;
    while i < |args|
      invariant 0 <= i <= |args| && packet.Valid()
      invariant PutAll(packet.Now(), args[i..]) == PutAll(start, args)
    {
      assert args[i..][0] == args[i] && args[i..][1..] == args[i + 1..];
      n := packet.PutData(args[i]);
      i := i + 1;
    }
    assert args[i..] == [];
  }

  /** DispatchX for packet p; `junk` is what its variables hold at first. */
  method Dispatch(p: Packet, junk: seq<Value>, packet: CPacket) returns (call: Call)
    requires packet.Valid() && |junk| == |p.fields| && DistinctNames(p.fields)
    modifies packet
    ensures packet.Valid()
    ensures var end := RunReader(ReaderOf(p), Reading(map[], junk, old(packet.Now()), []));
            end.calls == [call] && end.buf == packet.Now()
  {
    hide RunReader, ReaderOf;
    ReaderCalls(p, junk, packet.Now());
    ghost var start := packet.Now();
    var values: seq<Value> := [];
    var i := 0;
    assert junk[i..] == junk && values + GetAll(start, junk).1 == GetAll(start, junk).1;
    while i < |junk|
      invariant 0 <= i <= |junk| && packet.Valid()
      invariant GetAll(start, junk)
             == (GetAll(packet.Now(), junk[i..]).0, values + GetAll(packet.Now(), junk[i..]).1)
    {
      assert junk[i..][0] == junk[i] && junk[i..][1..] == junk[i + 1..];
      ghost var before := packet.Now();
      var v := packet.ShiftOut(junk[i]);
      ghost var rest := GetAll(packet.Now(), junk[i + 1..]).1;
      assert GetAll(before, junk[i..]).1 == [v] + rest;
      assert values + ([v] + rest) == (values + [v]) + rest;
      values := values + [v];
      i := i + 1;
    }
    assert junk[i..] == [] && values + [] == values;
    call := Call(p.caseName, values);
  }

  /** What OnRecv does with the payload of a message: a packet of its own, filled from outside, processed under
      type 0. */
  method OnMessage(packets: seq<Packet>, junk: seq<Value>, bytes: seq<Byte>) returns (calls: seq<Call>)
    requires |bytes| <= BUFFER_DEFAULT && DistinctCases(packets)
    requires packets != [] ==> |junk| == |packets[0].fields| && DistinctNames(packets[0].fields)
    ensures calls == Process(packets, 0, junk, Put(Empty(BUFFER_DEFAULT), bytes))
  {
    var packet := new CPacket(BUFFER_DEFAULT);
    packet.Receive(bytes);
    if packets == [] {
      return [];
    }
    DispatcherOf(packets, 0);
    var call := Dispatch(packets[0], junk, packet);
    return [call];
  }
}
