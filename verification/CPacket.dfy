/** The packet buffer: a fixed array written at one end and read at the other. */
module CPacketBuffer {
  import opened Bytes

  datatype Error = NONE | BUFFER_FULL | BUFFER_EMPTY | COPY_INSTANCE_FAIL

  const BUFFER_DEFAULT: nat := 1400

  /** The buffer as a value: what has been written since it was cleared, and how much of that has been read. */
  datatype Buf = Buf(capacity: nat, written: seq<Byte>, read: nat, error: Error)

  predicate Fine(b: Buf) { b.read <= |b.written| <= b.capacity }

  function Unread(b: Buf): seq<Byte>
    requires Fine(b)
  {
    b.written[b.read..]
  }

  function Empty(capacity: nat): Buf { Buf(capacity, [], 0, NONE) }

  /** Writing: reading makes no room, and what does not fit leaves only the error behind. */
  function Put(b: Buf, src: seq<Byte>): (b': Buf)
    requires Fine(b)
    ensures Fine(b') && b'.capacity == b.capacity
  {
    if |b.written| + |src| > b.capacity then b.(error := BUFFER_FULL) else b.(written := b.written + src)
  }

  /** Reading n bytes; `operand` stays where there are not n. */
  function Get(b: Buf, n: nat, operand: seq<Byte>): (r: (Buf, seq<Byte>))
    requires Fine(b)
    ensures Fine(r.0) && r.0.capacity == b.capacity
  {
    if n > |Unread(b)| then (b.(error := BUFFER_EMPTY), operand) else (b.(read := b.read + n), Unread(b)[..n])
  }

  /** First in, first out: what is written comes behind the bytes still to be read, and writing that does not fit leaves
      them, and the room that is left, as they are. */
  lemma PutIsLast(b: Buf, src: seq<Byte>)
    requires Fine(b)
    ensures var b' := Put(b, src);
            if |b.written| + |src| <= b.capacity then
              Unread(b') == Unread(b) + src && |b'.written| == |b.written| + |src| && b'.error == b.error
            else
              Unread(b') == Unread(b) && |b'.written| == |b.written| && b'.error == BUFFER_FULL
  {
  }

  /** What is read is the first of them, and reading more than there are takes none and gives the operand back. */
  lemma GetIsFirst(b: Buf, n: nat, operand: seq<Byte>)
    requires Fine(b)
    ensures var (b', value) := Get(b, n, operand);
            && |b'.written| == |b.written|
            && if n <= |Unread(b)| then
                 value + Unread(b') == Unread(b) && |value| == n && b'.error == b.error
               else
                 value == operand && Unread(b') == Unread(b) && b'.error == BUFFER_EMPTY
  {
  }

  /** Where a write position goes when it is moved by `size`, which nothing keeps from being negative. */
  function WrittenTo(from: int, size: int, capacity: nat): int { if size > capacity - from then from else from + size }

  class CPacket {
    const buffer: array<Byte>
    var dataSize: int
    var readPos: nat
    var writePos: int
    var lastError: Error

    ghost predicate Valid()
      reads this
    {
      0 <= readPos <= writePos <= buffer.Length && dataSize == writePos - readPos
    }

    ghost function Now(): (b: Buf)
      requires Valid()
      reads this, buffer
      ensures Fine(b)
    {
      Buf(buffer.Length, buffer[..writePos], readPos, lastError)
    }

    constructor (bufferSize: nat)
      ensures Valid() && fresh(buffer) && Now() == Empty(bufferSize)
    {
      buffer := new Byte[bufferSize];
      dataSize, readPos, writePos, lastError := 0, 0, 0, NONE;
    }

    method Clear()
      modifies this
      ensures Valid() && Now() == Empty(buffer.Length)
    {
      dataSize, readPos, writePos, lastError := 0, 0, 0, NONE;
    }

    /** PutData, and operator<< for the bytes of its operand; PutData returns the number of bytes written. */
    method PutData(src: seq<Byte>) returns (n: nat)
      requires Valid()
      modifies this, buffer
      ensures Valid() && Now() == Put(old(Now()), src)
      ensures n == if |old(Now()).written| + |src| > buffer.Length then 0 else |src|
    {
      if |src| > buffer.Length - writePos {
        lastError := BUFFER_FULL;
        return 0;
      }
      ghost var was := buffer[..];
      forall i | 0 <= i < |src| {
        buffer[writePos + i] := src[i];
      }
      assert buffer[..writePos + |src|] == was[..writePos] + src;
      writePos := writePos + |src|;
      dataSize := dataSize + |src|;
      return |src|;
    }

    /** operator>> on an operand of |operand| bytes. */
    method ShiftOut(operand: seq<Byte>) returns (value: seq<Byte>)
      requires Valid()
      modifies this
      ensures Valid() && (Now(), value) == Get(old(Now()), |operand|, operand)
    {
      if |operand| > dataSize {
        lastError := BUFFER_EMPTY;
        return operand;
      }
      value := buffer[readPos..readPos + |operand|];
      readPos := readPos + |operand|;
      dataSize := dataSize - |operand|;
      assert value == Unread(old(Now()))[..|operand|];
    }

    /** GetData; unlike operator>> it sets no error. */
    method GetData(size: nat) returns (dest: seq<Byte>)
      requires Valid()
      modifies this
      ensures Valid()
      ensures dest == if size <= |Unread(old(Now()))| then Unread(old(Now()))[..size] else []
      ensures Now() == old(Now()).(read := old(Now()).read + |dest|)
    {
      if size > dataSize {
        return [];
      }
      dest := buffer[readPos..readPos + size];
      readPos := readPos + size;
      dataSize := dataSize - size;
      assert dest == Unread(old(Now()))[..size];
    }

    /** What a session does with a received message: the bytes are put at the start of the array from outside, then
        the write position is moved over them. */
    method Receive(bytes: seq<Byte>)
      requires Valid() && Now() == Empty(buffer.Length) && |bytes| <= buffer.Length
      modifies this, buffer
      ensures Valid() && Now() == Put(Empty(buffer.Length), bytes)
    {
      forall i | 0 <= i < |bytes| {
        buffer[i] := bytes[i];
      }
      var moved := MoveWritePos(|bytes|);
      assert buffer[..|bytes|] == bytes;
    }

    method MoveWritePos(size: int) returns (moved: int)
      requires Valid()
      modifies this
      ensures writePos == WrittenTo(old(writePos), size, buffer.Length) && moved == writePos - old(writePos)
      ensures dataSize == old(dataSize) + moved && readPos == old(readPos) && lastError == old(lastError)
      ensures Valid() <==> readPos <= writePos
    {
      if size > buffer.Length - writePos {
        return 0;
      }
      writePos := writePos + size;
      dataSize := dataSize + size;
      return size;
    }

    /** operator=. */
    method Assign(other: CPacket)
      requires Valid() && other.Valid() && (other == this || other.buffer != buffer)
      modifies this, buffer
      ensures other == this ==> Valid() && Now() == old(Now())
      ensures other != this && buffer.Length < other.dataSize ==>
                Valid() && Now() == old(Now()).(error := COPY_INSTANCE_FAIL)
      ensures other != this && other.dataSize <= buffer.Length ==>
                && buffer[..] == Copied(other.buffer[..], other.dataSize, old(buffer[..]))
                && dataSize == other.dataSize && readPos == other.readPos && writePos == other.writePos
                && lastError == other.lastError
    {
      if this == other {
        return;
      }
      if buffer.Length < other.dataSize {
        lastError := COPY_INSTANCE_FAIL;
        return;
      }
      forall i | 0 <= i < other.dataSize {
        buffer[i] := other.buffer[i];
      }
      dataSize, readPos, writePos, lastError := other.dataSize, other.readPos, other.writePos, other.lastError;
    }
  }

  /** The destination's array after a copy: as many bytes as are unread, taken from the start of the source's. */
  function Copied(src: seq<Byte>, dataSize: nat, dest: seq<Byte>): seq<Byte>
    requires dataSize <= |src| && dataSize <= |dest|
  {
    src[..dataSize] + dest[dataSize..]
  }

  /** A copy is accepted when the unread bytes fit. They are there to be read afterwards, whatever the destination held,
      exactly when nothing has been read yet, or when nothing is left to read and the positions fit as well. */
  lemma CopyKeepsUnreadIff(src: seq<Byte>, read: nat, write: nat, capacity: nat)
    requires read <= write <= |src| && write - read <= capacity
    ensures (write <= capacity
             && forall dest: seq<Byte> :: |dest| == capacity ==>
                  Copied(src, write - read, dest)[read..write] == src[read..write])
            <==> read == 0 || read == write <= capacity
  {
    if read > 0 && read < write <= capacity {
      var dest: seq<Byte> := seq(capacity, i requires 0 <= i < capacity =>
        if i < |src| then (if src[i] == 0 then 1 else 0) else 0);
      assert Copied(src, write - read, dest)[read..write][write - 1 - read] == dest[write - 1];
      assert src[read..write][write - 1 - read] == src[write - 1];
    } else if write <= capacity {
      forall dest: seq<Byte> | |dest| == capacity
        ensures Copied(src, write - read, dest)[read..write] == src[read..write]
      {
      }
    }
  }
}
