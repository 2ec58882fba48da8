/** How a session cuts the bytes it receives into messages, and the way of a message from the maker that wrote it,
    through any splitting of the stream, to the handler. */
module Framing {
  import opened Bytes
  import opened CPacketBuffer
  import opened PacketSheet
  import opened PacketCode
  import opened RingBuffer
  import opened Wrappers

  /** What is handed on: the payload of a message, or, for the lengths -1 and -2, a packet whose write position has
      been moved in front of its buffer. */
  datatype Message = Body(bytes: seq<Byte>) | Damaged

  /** The length in the header. */
  function LengthOf(s: seq<Byte>): (len: int)
    requires HEADER_SIZE <= |s|
  {
    AsShort(Decoded(s[..HEADER_SIZE]))
  }

  /** One round of the loop in OnRecv: the message and the bytes after it, or None if the loop ends. It asks for more
      bytes than a header. The sum of the header's size and a negative length is taken modulo 2^64. */
  function Cut(s: seq<Byte>): (r: Option<(Message, seq<Byte>)>)
    ensures r.Some? ==> |r.value.1| < |s|
  {
    if |s| <= HEADER_SIZE then None
    else
      var len := LengthOf(s);
      if len == -1 || len == -2 then Some((Damaged, s[HEADER_SIZE..]))
      else if len < 0 || |s| < HEADER_SIZE + len then None
      else Some((Body(s[HEADER_SIZE..HEADER_SIZE + len]), s[HEADER_SIZE + len..]))
  }

  /** The messages in s and the bytes left over. */
  function Messages(s: seq<Byte>): (r: (seq<Message>, seq<Byte>))
    decreases |s|
  {
    match Cut(s)
    case None => ([], s)
    case Some((m, rest)) => var (ms, left) := Messages(rest); ([m] + ms, left)
  }

  lemma OneMore(s: seq<Byte>)
    ensures Cut(s).None? ==> Messages(s) == ([], s)
    ensures Cut(s).Some? ==>
              var (m, rest) := Cut(s).value;
              Messages(s) == ([m] + Messages(rest).0, Messages(rest).1)
  {
  }

  /** How many bytes of the stream the messages take. */
  function Taken(ms: seq<Message>): nat {
    if ms == [] then 0 else HEADER_SIZE + (if ms[0].Body? then |ms[0].bytes| else 0) + Taken(ms[1..])
  }

  /** Every byte is used once: each message takes its header and payload, or its header alone, and the rest stays. */
  lemma {:induction false} EveryByteIsUsed(s: seq<Byte>)
    ensures var (ms, left) := Messages(s); Taken(ms) + |left| == |s| && left == s[Taken(ms)..]
    decreases |s|
  {
    OneMore(s);
    if Cut(s).Some? {
      CutUses(s);
      EveryByteIsUsed(Cut(s).value.1);
      hide Messages, Cut;
      assert Messages(s).0[1..] == Messages(Cut(s).value.1).0;
    }
  }

  lemma CutUses(s: seq<Byte>)
    requires Cut(s).Some?
    ensures var (m, rest) := Cut(s).value;
            var n := HEADER_SIZE + if m.Body? then |m.bytes| else 0;
            n <= |s| && rest == s[n..]
  {
  }

  // ---------------------------------------------------------------- splitting the stream

  lemma CutStays(s: seq<Byte>, t: seq<Byte>)
    requires Cut(s).Some?
    ensures Cut(s + t) == Some((Cut(s).value.0, Cut(s).value.1 + t))
  {
    assert (s + t)[..HEADER_SIZE] == s[..HEADER_SIZE];
    var len := LengthOf(s);
    assert LengthOf(s + t) == len;
    if len >= 0 {
      assert HEADER_SIZE + len <= |s|;
      assert (s + t)[HEADER_SIZE..HEADER_SIZE + len] == s[HEADER_SIZE..HEADER_SIZE + len];
      assert (s + t)[HEADER_SIZE + len..] == s[HEADER_SIZE + len..] + t;
    } else {
      assert (s + t)[HEADER_SIZE..] == s[HEADER_SIZE..] + t;
    }
  }

  lemma {:induction false} MessagesOfMore(s: seq<Byte>, t: seq<Byte>)
    ensures var (ms, left) := Messages(s);
            var (more, left') := Messages(left + t);
            Messages(s + t) == (ms + more, left')
    decreases |s|
  {
    if Cut(s).Some? {
      var (m, rest) := Cut(s).value;
      CutStays(s, t);
      MessagesOfMore(rest, t);
      var (ms, left) := Messages(rest);
      var (more, left') := Messages(left + t);
      assert Messages(s) == ([m] + ms, left);
      assert [m] + ms + more == [m] + (ms + more);
    } else {
      var (more, left') := Messages(s + t);
      assert [] + more == more;
    }
  }

  function Stream(chunks: seq<seq<Byte>>): seq<Byte> {
    if chunks == [] then [] else chunks[0] + Stream(chunks[1..])
  }

  /** Receiving chunk by chunk, each time taking all messages there are. */
  function Received(kept: seq<Byte>, chunks: seq<seq<Byte>>): (r: (seq<Message>, seq<Byte>))
    decreases |chunks|
  {
    if chunks == [] then ([], kept)
    else
      var (ms, left) := Messages(kept + chunks[0]);
      var (more, left') := Received(left, chunks[1..]);
      (ms + more, left')
  }

  /** However the stream arrives, the same messages are taken from it in the same order, and the same bytes stay. */
  lemma {:induction false} ChunkingDoesNotMatter(kept: seq<Byte>, chunks: seq<seq<Byte>>)
    requires Cut(kept).None?
    ensures Received(kept, chunks) == Messages(kept + Stream(chunks))
    decreases |chunks|
  {
    hide Messages, Cut;
    if chunks == [] {
      assert kept + [] == kept;
      OneMore(kept);
    } else {
      var first, rest := kept + chunks[0], Stream(chunks[1..]);
      LeftIsUncut(first);
      ChunkingDoesNotMatter(Messages(first).1, chunks[1..]);
      MessagesOfMore(first, rest);
      assert kept + (chunks[0] + rest) == first + rest;
    }
  }

  lemma {:induction false} LeftIsUncut(s: seq<Byte>)
    ensures Cut(Messages(s).1).None?
    decreases |s|
  {
    if Cut(s).Some? {
      LeftIsUncut(Cut(s).value.1);
    }
  }

  // ---------------------------------------------------------------- a queue that is too small

  /** The queue has room for each chunk when it comes. */
  predicate Fits(kept: seq<Byte>, chunks: seq<seq<Byte>>, capacity: nat)
    decreases |chunks|
  {
    chunks == []
    || (|kept| + |chunks[0]| <= capacity && Fits(Messages(kept + chunks[0]).1, chunks[1..], capacity))
  }

  /** The queue never holds more than a header; or the length is known and is below -2 or more than the queue can hold;
      or only its low byte is, and every length with that low byte is such. */
  predicate Blocked(kept: seq<Byte>, capacity: nat) {
    && |kept| <= capacity && Cut(kept).None?
    && (|| capacity <= HEADER_SIZE
        || (HEADER_SIZE <= |kept| && (LengthOf(kept) < -2 || HEADER_SIZE + LengthOf(kept) > capacity))
        || (|kept| == 1 && kept[0] < 254 && HEADER_SIZE + kept[0] > capacity))
  }

  lemma LengthOfTwo(low: Byte, high: Byte, rest: seq<Byte>)
    ensures LengthOf([low, high] + rest) == if high < 128 then low + 256 * high else low + 256 * high - 65536
  {
    assert ([low, high] + rest)[..HEADER_SIZE] == [low, high];
    assert [low, high][1..] == [high] && [high][1..] == [];
    assert Decoded([high]) == high;
  }

  lemma StaysBlocked(kept: seq<Byte>, bytes: seq<Byte>, capacity: nat)
    requires Blocked(kept, capacity) && |kept| + |bytes| <= capacity
    ensures Messages(kept + bytes) == ([], kept + bytes) && Blocked(kept + bytes, capacity)
  {
    if HEADER_SIZE <= |kept| {
      assert (kept + bytes)[..HEADER_SIZE] == kept[..HEADER_SIZE];
    } else if |kept| == 1 && |bytes| > 0 {
      assert kept + bytes == [kept[0], bytes[0]] + bytes[1..];
      LengthOfTwo(kept[0], bytes[0], bytes[1..]);
    } else if |kept| == 1 {
      assert kept + bytes == kept;
    }
  }

  lemma {:induction false} BlockedDeliversNothing(kept: seq<Byte>, chunks: seq<seq<Byte>>, capacity: nat)
    requires Blocked(kept, capacity) && Fits(kept, chunks, capacity)
    ensures Received(kept, chunks).0 == []
    decreases |chunks|
  {
    if chunks != [] {
      StaysBlocked(kept, chunks[0], capacity);
      BlockedDeliversNothing(kept + chunks[0], chunks[1..], capacity);
    }
  }

  function Zeros(n: nat): (s: seq<Byte>)
    ensures |s| == n
  {
    seq(n, _ => 0)
  }

  /** Bytes that complete a message within the queue. */
  lemma Completed(kept: seq<Byte>, capacity: nat) returns (missing: seq<Byte>)
    requires |kept| <= capacity && Cut(kept).None? && !Blocked(kept, capacity)
    ensures |kept| + |missing| <= capacity && Cut(kept + missing).Some?
  {
    if HEADER_SIZE <= |kept| {
      var len := LengthOf(kept);
      missing := Zeros(if len < 1 then 1 else HEADER_SIZE + len - |kept|);
      assert (kept + missing)[..HEADER_SIZE] == kept[..HEADER_SIZE];
    } else if |kept| == 1 {
      var high: Byte := if kept[0] < 254 then 0 else 255;
      var rest := Zeros(if high == 255 || kept[0] == 0 then 1 else kept[0]);
      missing := [high] + rest;
      assert kept + missing == [kept[0], high] + rest;
      LengthOfTwo(kept[0], high, rest);
    } else {
      missing := [0, 0] + [0];
      assert kept + missing == missing;
      LengthOfTwo(0, 0, [0]);
    }
  }

  lemma OneChunk(kept: seq<Byte>, chunk: seq<Byte>, capacity: nat)
    ensures Received(kept, [chunk]) == Messages(kept + chunk)
    ensures |kept| + |chunk| <= capacity ==> Fits(kept, [chunk], capacity)
  {
    var (ms, left) := Messages(kept + chunk);
    assert [chunk][1..] == [] && ms + [] == ms;
  }

  /** With no message in the queue, no sequence of receives the queue has room for ever delivers another message if
      and only if the queue is too small for the next one or its length is below -2, as far as its header is there. A
      queue that is full without a message is always in that case. */
  lemma QueueBlockedIff(kept: seq<Byte>, capacity: nat)
    requires |kept| <= capacity && Cut(kept).None?
    ensures (forall chunks :: Fits(kept, chunks, capacity) ==> Received(kept, chunks).0 == [])
            <==> Blocked(kept, capacity)
    ensures |kept| == capacity ==> Blocked(kept, capacity)
  {
    if Blocked(kept, capacity) {
      forall chunks | Fits(kept, chunks, capacity) ensures Received(kept, chunks).0 == [] {
        BlockedDeliversNothing(kept, chunks, capacity);
      }
    } else {
      var missing := Completed(kept, capacity);
      OneChunk(kept, missing, capacity);
      OneMore(kept + missing);
      assert Fits(kept, [missing], capacity) && Received(kept, [missing]).0 != [];
    }
  }

  /** Taking a message into a packet of the default size stays inside the packet exactly for lengths from 0 to that
      size. */
  lemma PacketHoldsIff(s: seq<Byte>)
    requires Cut(s).Some?
    ensures var len := AsShort(Decoded(s[..HEADER_SIZE]));
            CountTaken(len, |s| - HEADER_SIZE) <= BUFFER_DEFAULT
            && 0 <= WrittenTo(0, len, BUFFER_DEFAULT) <= BUFFER_DEFAULT
            <==> 0 <= len <= BUFFER_DEFAULT
  {
  }

  // ---------------------------------------------------------------- messages on the wire

  /** A message as a maker writes it. */
  function Framed(payload: seq<Byte>): seq<Byte> { Encoded(HEADER_SIZE, |payload| % 65536) + payload }

  function Wire(payloads: seq<seq<Byte>>): seq<Byte> {
    if payloads == [] then [] else Framed(payloads[0]) + Wire(payloads[1..])
  }

  function Payloads(payloads: seq<seq<Byte>>): (ms: seq<Message>)
    ensures |ms| == |payloads| && forall i :: 0 <= i < |ms| ==> ms[i] == Body(payloads[i])
  {
    if payloads == [] then [] else [Body(payloads[0])] + Payloads(payloads[1..])
  }

  lemma CutFramed(payload: seq<Byte>, rest: seq<Byte>)
    requires |payload| < 32768
    ensures Cut(Framed(payload) + rest) ==
            if payload == [] && rest == [] then None else Some((Body(payload), rest))
  {
    var s := Framed(payload) + rest;
    assert s == Encoded(HEADER_SIZE, |payload|) + (payload + rest);
    HeaderDecodes(|payload|, payload + rest);
    assert s[HEADER_SIZE..HEADER_SIZE + |payload|] == payload && s[HEADER_SIZE + |payload|..] == rest;
  }

  predicate Short(payloads: seq<seq<Byte>>) { forall i :: 0 <= i < |payloads| ==> |payloads[i]| < 32768 }

  /** All messages of a stream are taken from it, in order, and nothing stays, exactly when the last one has a
      payload: since more than a header is asked for, an empty message waits for the next byte. */
  lemma {:induction false} WireIsCutIff(payloads: seq<seq<Byte>>)
    requires Short(payloads)
    ensures var waits := payloads != [] && payloads[|payloads| - 1] == [];
            && (Messages(Wire(payloads)) == (Payloads(payloads), []) <==> !waits)
            && (waits ==> Messages(Wire(payloads)) == (Payloads(payloads[..|payloads| - 1]), Framed([])))
    decreases |payloads|
  {
    if payloads != [] {
      var p, tail := payloads[0], payloads[1..];
      CutFramed(p, Wire(tail));
      if |payloads| == 1 {
        assert tail == [] && Wire(tail) == [];
        assert Wire(payloads) == Framed(p);
        if p != [] {
          assert Cut([]).None?;
          assert Messages([]) == ([], []);
          assert Payloads(payloads) == [Body(p)];
        } else {
          assert payloads[..0] == [];
          assert Messages(Framed(p)) == ([], Framed(p));
        }
      } else {
        WireIsCutIff(tail);
        assert Wire(tail) != [];
        assert payloads[..|payloads| - 1] == [p] + tail[..|tail| - 1];
        assert tail[|tail| - 1] == payloads[|payloads| - 1];
        var (ms, left) := Messages(Wire(tail));
        assert Messages(Wire(payloads)) == ([Body(p)] + ms, left);
        assert ([p] + tail[..|tail| - 1])[1..] == tail[..|tail| - 1];
      }
    }
  }

  // ---------------------------------------------------------------- from maker to handler

  /** What a maker for p sends for some arguments. */
  function Sent(p: Packet, args: seq<Value>): seq<Byte>
    requires |args| == |p.fields|
  {
    RunMaker(MakerOf(p, 0).body, Bound(p.fields, args, map[]), Header(0, 0, 0), Empty(BUFFER_DEFAULT)).written
  }

  function SentAll(p: Packet, calls: seq<seq<Value>>): seq<Byte>
    requires forall i :: 0 <= i < |calls| ==> |calls[i]| == |p.fields|
  {
    if calls == [] then [] else Sent(p, calls[0]) + SentAll(p, calls[1..])
  }

  /** The handler calls for messages received: each is put in a fresh packet and processed under type 0. */
  function Handled(packets: seq<Packet>, junk: seq<Value>, messages: seq<Message>): seq<Call> {
    if messages == [] then []
    else
      (if messages[0].Body? then Process(packets, 0, junk, Put(Empty(BUFFER_DEFAULT), messages[0].bytes)) else [])
      + Handled(packets, junk, messages[1..])
  }

  function Calls(p: Packet, calls: seq<seq<Value>>): seq<Call> {
    if calls == [] then [] else [Call(p.caseName, calls[0])] + Calls(p, calls[1..])
  }

  function PayloadsOf(calls: seq<seq<Value>>): (payloads: seq<seq<Byte>>)
    ensures |payloads| == |calls| && forall i :: 0 <= i < |calls| ==> payloads[i] == Joined(calls[i])
  {
    if calls == [] then [] else [Joined(calls[0])] + PayloadsOf(calls[1..])
  }

  lemma {:induction false} SentIsWire(p: Packet, calls: seq<seq<Value>>)
    requires DistinctNames(p.fields) && HEADER_SIZE + Payload(p.fields) <= BUFFER_DEFAULT
    requires forall i :: 0 <= i < |calls| ==> |calls[i]| == |p.fields| && Typed(p.fields, calls[i])
    ensures SentAll(p, calls) == Wire(PayloadsOf(calls)) && Short(PayloadsOf(calls))
    ensures forall i :: 0 <= i < |calls| ==> |PayloadsOf(calls)[i]| == Payload(p.fields)
    decreases |calls|
  {
    if calls != [] {
      MakerWrites(p, 0, calls[0], Header(0, 0, 0), Empty(BUFFER_DEFAULT));
      PayloadIsJoined(p.fields, calls[0]);
      SentIsWire(p, calls[1..]);
      assert PayloadsOf(calls)[1..] == PayloadsOf(calls[1..]);
    }
  }

  lemma OneHandled(packets: seq<Packet>, junk: seq<Value>, args: seq<Value>)
    requires packets != [] && DistinctCases(packets) && DistinctNames(packets[0].fields)
    requires HEADER_SIZE + Payload(packets[0].fields) <= BUFFER_DEFAULT
    requires Typed(packets[0].fields, junk) && Typed(packets[0].fields, args)
    ensures Process(packets, 0, junk, Put(Empty(BUFFER_DEFAULT), Joined(args))) == [Call(packets[0].caseName, args)]
  {
    PayloadIsJoined(packets[0].fields, args);
    var r := Put(Empty(BUFFER_DEFAULT), Joined(args));
    assert [] + Joined(args) == Joined(args);
    assert Unread(r) == Joined(args);
    ReachesItsHandlerIff(packets, 0, 0, args, junk, r);
  }

  lemma {:induction false} AllHandled(packets: seq<Packet>, junk: seq<Value>, calls: seq<seq<Value>>)
    requires packets != [] && DistinctCases(packets) && DistinctNames(packets[0].fields)
    requires HEADER_SIZE + Payload(packets[0].fields) <= BUFFER_DEFAULT
    requires Typed(packets[0].fields, junk) && forall i :: 0 <= i < |calls| ==> Typed(packets[0].fields, calls[i])
    ensures Handled(packets, junk, Payloads(PayloadsOf(calls))) == Calls(packets[0], calls)
    decreases |calls|
  {
    if calls != [] {
      OneHandled(packets, junk, calls[0]);
      AllHandled(packets, junk, calls[1..]);
      assert Payloads(PayloadsOf(calls))[1..] == Payloads(PayloadsOf(calls)[1..]);
      assert PayloadsOf(calls)[1..] == PayloadsOf(calls[1..]);
    }
  }

  /** From one end to the other: messages made for the first packet of the table, sent one after another and received
      in any chunks, call its handler once each, in order, with the arguments they were made from. */
  lemma MessagesReachTheHandler(packets: seq<Packet>, junk: seq<Value>, calls: seq<seq<Value>>,
                                chunks: seq<seq<Byte>>)
    requires packets != [] && DistinctCases(packets)
    requires var p := packets[0];
             && p.fields != [] && DistinctNames(p.fields) && HEADER_SIZE + Payload(p.fields) <= BUFFER_DEFAULT
             && Typed(p.fields, junk)
             && (forall i :: 0 <= i < |calls| ==> |calls[i]| == |p.fields| && Typed(p.fields, calls[i]))
             && Stream(chunks) == SentAll(p, calls)
    ensures Handled(packets, junk, Received([], chunks).0) == Calls(packets[0], calls)
    ensures Received([], chunks).1 == []
    ensures forall m :: m in Received([], chunks).0 ==> m.Body? && |m.bytes| <= BUFFER_DEFAULT
  {
    var p := packets[0];
    ChunkingDoesNotMatter([], chunks);
    assert [] + Stream(chunks) == Stream(chunks);
    SentIsWire(p, calls);
    AtLeastOneByte(p.fields, junk);
    AllHandled(packets, junk, calls);
    hide Handled, Calls, Messages, Received, SentAll, Wire, Typed, DistinctCases, DistinctNames;
    WireIsCutIff(PayloadsOf(calls));
    EachFits(PayloadsOf(calls), Payload(p.fields));
  }

  lemma EachFits(payloads: seq<seq<Byte>>, size: nat)
    requires forall i :: 0 <= i < |payloads| ==> |payloads[i]| == size
    ensures forall m :: m in Payloads(payloads) ==> m.Body? && |m.bytes| == size
  {
    forall m | m in Payloads(payloads) ensures m.Body? && |m.bytes| == size {
      var i :| 0 <= i < |payloads| && m == Body(payloads[i]);
    }
  }

  lemma AtLeastOneByte(fields: seq<Field>, values: seq<Value>)
    requires fields != [] && Typed(fields, values)
    ensures Payload(fields) >= 1
  {
    assert SizeOf(fields[0].typ).Some?;
  }

  // ---------------------------------------------------------------- the session

  /** The size of the queue's array is a 32-bit int. */
  const MAX_INT: nat := 0x7fff_ffff

  /** Header and length are added as unsigned 64-bit numbers. */
  lemma NeededBytes(len: int)
    requires -32768 <= len < 32768
    ensures var needed := (HEADER_SIZE + len) % 0x1_0000_0000_0000_0000;
            if len < -2 then needed > MAX_INT else needed == HEADER_SIZE + len
  {
  }

  class Session {
    const recvQ: CRingBuffer

    constructor (maxRecvQ: nat)
      ensures fresh(recvQ) && fresh(recvQ.buffer) && recvQ.Valid() && recvQ.buffer.Length == maxRecvQ + 1
      ensures recvQ.Contents() == []
    {
      recvQ := new CRingBuffer(maxRecvQ);
    }

    /** The receive queue's part of Init: a slot used again starts without bytes of the connection before. */
    method Init()
      requires recvQ.Valid()
      modifies recvQ
      ensures recvQ.Valid() && recvQ.Contents() == []
    {
      recvQ.ClearBuffer();
    }

    /** The receive queue's part of OnRecv; the kernel has filled the free part of the queue with `bytes`. `handed` is
        what goes to OnMessage, in order; without bytes the session gives up its reference instead. */
    method OnRecv(bytes: seq<Byte>) returns (ok: bool, handed: seq<Message>)
      requires recvQ.Valid() && |bytes| <= recvQ.GetFreeSize() && recvQ.buffer.Length <= MAX_INT
      modifies recvQ, recvQ.buffer
      ensures recvQ.Valid() && ok == (bytes != [])
      ensures ok ==> (handed, recvQ.Contents()) == Messages(old(recvQ.Contents()) + bytes)
      ensures ok ==> Cut(recvQ.Contents()).None?
      ensures !ok ==> handed == [] && recvQ.Contents() == old(recvQ.Contents())
      ensures var capacity := recvQ.buffer.Length - 1;
              Blocked(old(recvQ.Contents()), capacity) ==>
                handed == [] && recvQ.Contents() == old(recvQ.Contents()) + bytes && Blocked(recvQ.Contents(), capacity)
    {
      hide Messages, Cut, Blocked, Decoded, AsShort, LengthOf;
      ghost var stream, capacity := recvQ.Contents() + bytes, recvQ.buffer.Length - 1;
      if Blocked(recvQ.Contents(), capacity) {
        StaysBlocked(recvQ.Contents(), bytes, capacity);
      }
      LeftIsUncut(stream);
      var recved := Transferred(bytes);
      handed := [];
      if recved == 0 {
        assert bytes == [] && stream == old(recvQ.Contents());
        return false, [];
      }
      assert [] + Messages(stream).0 == Messages(stream).0;
      while true
        invariant recvQ.Valid()
        invariant var (ms, left) := Messages(recvQ.Contents()); Messages(stream) == (handed + ms, left)
        decreases |recvQ.Contents()|
      {
        OneMore(recvQ.Contents());
        var next := TakeMessage();
        if next.None? {
          break;
        }
        ghost var ms := Messages(recvQ.Contents()).0;
        assert handed + ([next.value] + ms) == (handed + [next.value]) + ms;
        handed := handed + [next.value];
      }
      assert handed + [] == handed;
      return true, handed;
    }

    /** The completion of the receive: the bytes are in the buffer, and MoveRear takes them in. */
    method Transferred(bytes: seq<Byte>) returns (recved: int)
      requires recvQ.Valid() && |bytes| <= recvQ.GetFreeSize()
      modifies recvQ, recvQ.buffer
      ensures recvQ.Valid() && recved == |bytes| && recvQ.Contents() == old(recvQ.Contents()) + bytes
    {
      ScatterAppends(recvQ.buffer[..], recvQ.front, recvQ.rear, bytes);
      recvQ.KernelReceives(bytes);
      recved := recvQ.MoveRear(|bytes|);
    }

    /** One round of the loop. */
    method TakeMessage() returns (m: Option<Message>)
      requires recvQ.Valid() && recvQ.buffer.Length <= MAX_INT
      modifies recvQ
      ensures recvQ.Valid()
      ensures Cut(old(recvQ.Contents())).None? ==> m.None? && recvQ.Contents() == old(recvQ.Contents())
      ensures Cut(old(recvQ.Contents())).Some? ==>
                m == Some(Cut(old(recvQ.Contents())).value.0) && recvQ.Contents() == Cut(old(recvQ.Contents())).value.1
    {
      hide Ring, Decoded, AsShort;
      ghost var s := recvQ.Contents();
      if recvQ.GetUseSize() <= HEADER_SIZE {
        return None;
      }
      var header, n := recvQ.Peek(HEADER_SIZE);
      assert header == s[..HEADER_SIZE];
      var len := AsShort(Decoded(header));
      NeededBytes(len);
      if recvQ.GetUseSize() < (HEADER_SIZE + len) % 0x1_0000_0000_0000_0000 {
        return None;
      }
      var moved := recvQ.MoveFront(HEADER_SIZE);
      assert recvQ.Contents() == s[HEADER_SIZE..];
      var bytes := recvQ.Dequeue(len);
      if len < 0 {
        return Some(Damaged);
      }
      Parts(bytes, recvQ.Contents());
      assert s[HEADER_SIZE..][..len] == s[HEADER_SIZE..HEADER_SIZE + len];
      assert s[HEADER_SIZE..][len..] == s[HEADER_SIZE + len..];
      return Some(Body(bytes));
    }
  }

  lemma Parts(a: seq<Byte>, b: seq<Byte>)
    ensures (a + b)[..|a|] == a && (a + b)[|a|..] == b
  {
  }
}
