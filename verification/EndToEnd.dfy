/** Both ends of a connection at work on their objects: packets filled by a maker and sent one after the other, and a
    session that receives the bytes in pieces and has each message handled as it comes. */
module EndToEnd {
  import opened Bytes
  import opened CPacketBuffer
  import opened PacketSheet
  import opened PacketCode
  import opened Framing
  import opened GeneratedCode

  /** The bytes of packet p made for each of the calls. */
  method SendAll(p: Packet, calls: seq<seq<Value>>) returns (stream: seq<Byte>)
    requires DistinctNames(p.fields) && forall i :: 0 <= i < |calls| ==> Typed(p.fields, calls[i])
    requires forall i :: 0 <= i < |calls| ==> |calls[i]| == |p.fields|
    ensures stream == SentAll(p, calls)
  {
    stream := [];
    var i := 0;
    assert calls[i..] == calls;
    while i < |calls|
      invariant 0 <= i <= |calls|
      invariant stream + SentAll(p, calls[i..]) == SentAll(p, calls)
    {
      assert calls[i..][0] == calls[i] && calls[i..][1..] == calls[i + 1..];
      var packet := new CPacket(BUFFER_DEFAULT);
      Make(p, 0, calls[i], packet);
      ghost var rest := SentAll(p, calls[i + 1..]);
      assert stream + (Sent(p, calls[i]) + rest) == (stream + Sent(p, calls[i])) + rest;
      stream := stream + packet.buffer[..packet.writePos];
      i := i + 1;
    }
    assert stream + [] == stream;
  }

  /** What arrives before the other side closes the connection: a receive of no bytes is the end. */
  function UntilClosed(chunks: seq<seq<Byte>>): seq<seq<Byte>> {
    if chunks == [] || chunks[0] == [] then [] else [chunks[0]] + UntilClosed(chunks[1..])
  }

  lemma {:induction false} NeverClosed(chunks: seq<seq<Byte>>)
    requires forall i :: 0 <= i < |chunks| ==> chunks[i] != []
    ensures UntilClosed(chunks) == chunks
  {
    if chunks != [] {
      NeverClosed(chunks[1..]);
    }
  }

  lemma {:induction false} HandledOfMore(packets: seq<Packet>, junk: seq<Value>, ms: seq<Message>, more: seq<Message>)
    ensures Handled(packets, junk, ms + more) == Handled(packets, junk, ms) + Handled(packets, junk, more)
    decreases |ms|
  {
    if ms == [] {
      assert [] + more == more;
    } else {
      HandledOfMore(packets, junk, ms[1..], more);
      assert (ms + more)[1..] == ms[1..] + more;
    }
  }

  predicate CanHandle(packets: seq<Packet>, junk: seq<Value>) {
    DistinctCases(packets)
    && (packets != [] ==> |junk| == |packets[0].fields| && DistinctNames(packets[0].fields))
  }

  /** No message is longer than the packet it is put in. */
  predicate FitPackets(ms: seq<Message>) { forall m :: m in ms && m.Body? ==> |m.bytes| <= BUFFER_DEFAULT }

  method HandleAll(packets: seq<Packet>, junk: seq<Value>, ms: seq<Message>) returns (calls: seq<Call>)
    requires CanHandle(packets, junk) && FitPackets(ms)
    ensures calls == Handled(packets, junk, ms)
  {
    hide DistinctCases, DistinctNames, Process;
    calls := [];
    var i := 0;
    while i < |ms|
      invariant 0 <= i <= |ms|
      invariant calls == Handled(packets, junk, ms[..i])
    {
      assert ms[..i + 1] == ms[..i] + [ms[i]];
      HandledOfMore(packets, junk, ms[..i], [ms[i]]);
      OneMessage(packets, junk, ms[i]);
      if ms[i].Body? {
        assert ms[i] in ms;
        var made := OnMessage(packets, junk, ms[i].bytes);
        calls := calls + made;
      }
      i := i + 1;
    }
    assert ms[..i] == ms;
  }

  lemma OneMessage(packets: seq<Packet>, junk: seq<Value>, m: Message)
    ensures Handled(packets, junk, [m])
            == if m.Body? then Process(packets, 0, junk, Put(Empty(BUFFER_DEFAULT), m.bytes)) else []
  {
    assert [m][1..] == [];
  }

  /** All receives of a session up to the end of the connection, its queue having room for each: the handler calls made
      are those of the messages in the stream, and the queue keeps the bytes after the last one. */
  method ReceiveAll(session: Session, packets: seq<Packet>, junk: seq<Value>, chunks: seq<seq<Byte>>)
    returns (calls: seq<Call>)
    requires session.recvQ.Valid() && session.recvQ.buffer.Length <= MAX_INT && CanHandle(packets, junk)
    requires Fits(session.recvQ.Contents(), UntilClosed(chunks), session.recvQ.buffer.Length - 1)
    requires FitPackets(Received(session.recvQ.Contents(), UntilClosed(chunks)).0)
    modifies session.recvQ, session.recvQ.buffer
    ensures session.recvQ.Valid()
    ensures var (ms, left) := Received(old(session.recvQ.Contents()), UntilClosed(chunks));
            calls == Handled(packets, junk, ms) && session.recvQ.Contents() == left
  {
    hide Messages, Cut, Handled, CanHandle, Blocked;
    ghost var all := Received(session.recvQ.Contents(), UntilClosed(chunks));
    ghost var done: seq<Message> := [];
    calls := [];
    NothingHandled(packets, junk);
    var i := 0;
    assert chunks[i..] == chunks && [] + all.0 == all.0;
    while i < |chunks|
      invariant 0 <= i <= |chunks| && session.recvQ.Valid() && calls == Handled(packets, junk, done)
      invariant Fits(session.recvQ.Contents(), UntilClosed(chunks[i..]), session.recvQ.buffer.Length - 1)
      invariant var (more, left) := Received(session.recvQ.Contents(), UntilClosed(chunks[i..]));
                all == (done + more, left)
    {
      ghost var rest := UntilClosed(chunks[i + 1..]);
      assert chunks[i..][0] == chunks[i] && chunks[i..][1..] == chunks[i + 1..];
      if chunks[i] == [] {
        break;
      }
      assert ([chunks[i]] + rest)[1..] == rest;
      var ok, handed := session.OnRecv(chunks[i]);
      ghost var more := Received(session.recvQ.Contents(), rest).0;
      assert done + (handed + more) == (done + handed) + more;
      assert forall m :: m in handed ==> m in all.0;
      var made := HandleAll(packets, junk, handed);
      HandledOfMore(packets, junk, done, handed);
      calls, done := calls + made, done + handed;
      i := i + 1;
    }
    assert done + [] == done;
  }

  lemma NothingHandled(packets: seq<Packet>, junk: seq<Value>)
    ensures Handled(packets, junk, []) == []
  {
  }

  /** A new session that receives, in any pieces its queue has room for, what was sent for `calls` makes exactly these
      calls of the first packet's handler, in order. */
  method Exchange(packets: seq<Packet>, junk: seq<Value>, calls: seq<seq<Value>>, chunks: seq<seq<Byte>>,
                  maxRecvQ: nat) returns (sent: seq<Byte>, handled: seq<Call>)
    requires packets != [] && DistinctCases(packets) && maxRecvQ < MAX_INT
    requires var p := packets[0];
             && p.fields != [] && DistinctNames(p.fields) && HEADER_SIZE + Payload(p.fields) <= BUFFER_DEFAULT
             && Typed(p.fields, junk) && |junk| == |p.fields|
             && (forall i :: 0 <= i < |calls| ==> |calls[i]| == |p.fields| && Typed(p.fields, calls[i]))
             && Stream(chunks) == SentAll(p, calls)
    requires Fits([], chunks, maxRecvQ) && forall i :: 0 <= i < |chunks| ==> chunks[i] != []
    ensures sent == Stream(chunks) && handled == Calls(packets[0], calls)
  {
    hide Messages, Cut, Handled, Calls, Fits, Received;
    sent := SendAll(packets[0], calls);
    MessagesReachTheHandler(packets, junk, calls, chunks);
    NeverClosed(chunks);
    var session := new Session(maxRecvQ);
    handled := ReceiveAll(session, packets, junk, chunks);
  }
}
