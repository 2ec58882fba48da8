/** The ring buffer of the receive and send queues, refining a first-in first-out queue: byte by byte, and for the two
    stretches that are handed to the kernel at once. One place of the array always stays free. */
module RingBuffer {
  import opened Bytes

  /** The queue in an array b between front f and rear r. */
  function Ring(b: seq<Byte>, f: nat, r: nat): seq<Byte>
    requires f < |b| && r < |b|
  {
    if f <= r then b[f..r] else b[f..] + b[..r]
  }

  /** One place on. */
  function Next(i: nat, size: nat): (j: nat)
    requires i < size
    ensures j < size
  {
    if i + 1 == size then 0 else i + 1
  }

  lemma NextIsModulo(i: nat, size: nat)
    requires i < size
    ensures (i + 1) % size == Next(i, size)
  {
  }

  /** n places on. */
  function Ahead(i: nat, n: nat, size: nat): (j: nat)
    requires i < size && n < size
    ensures j < size
  {
    if i + n < size then i + n else i + n - size
  }

  lemma AheadIsModulo(i: nat, n: nat, size: nat)
    requires i < size && n < size
    ensures (i + n) % size == Ahead(i, n, size)
  {
    if i + n >= size {
      assert (i + n) / size == 1;
    }
  }

  lemma Pushed(b: seq<Byte>, f: nat, r: nat, x: Byte)
    requires f < |b| && r < |b| && Next(r, |b|) != f
    ensures Ring(b[r := x], f, Next(r, |b|)) == Ring(b, f, r) + [x]
  {
  }

  lemma Popped(b: seq<Byte>, f: nat, r: nat)
    requires f < |b| && r < |b| && f != r
    ensures Ring(b, f, r) == [b[f]] + Ring(b, Next(f, |b|), r)
  {
  }

  /** Taking one byte off, behind those already taken. */
  lemma Taken(dest: seq<Byte>, b: seq<Byte>, f: nat, r: nat)
    requires f < |b| && r < |b| && f != r
    ensures dest + Ring(b, f, r) == (dest + [b[f]]) + Ring(b, Next(f, |b|), r)
  {
    Popped(b, f, r);
    var rest := Ring(b, Next(f, |b|), r);
    assert dest + ([b[f]] + rest) == (dest + [b[f]]) + rest;
  }

  // ---------------------------------------------------------------- the stretches handed to the kernel

  function UseSize(f: nat, r: nat, size: nat): nat
    requires f < size && r < size
  {
    if f <= r then r - f else size - f + r
  }

  /** How many bytes fit behind the rear without a jump. */
  function DirectIn(f: nat, r: nat, size: nat): nat
    requires f < size && r < size
  {
    if f <= r then (if f == 0 then size - r - 1 else size - r) else f - r - 1
  }

  function DirectOut(f: nat, r: nat, size: nat): nat
    requires f < size && r < size
  {
    if f <= r then r - f else size - f
  }

  /** The array after the kernel has filled first the stretch at the rear, then the one at the start. */
  function Scattered(b: seq<Byte>, f: nat, r: nat, bytes: seq<Byte>): (b': seq<Byte>)
    requires f < |b| && r < |b| && |bytes| <= |b| - 1 - UseSize(f, r, |b|)
    ensures |b'| == |b|
  {
    var d := DirectIn(f, r, |b|);
    if |bytes| <= d then b[..r] + bytes + b[r + |bytes|..]
    else bytes[d..] + b[|bytes| - d..r] + bytes[..d]
  }

  lemma ScatterWithoutJump(b: seq<Byte>, f: nat, r: nat, bytes: seq<Byte>)
    requires f <= r < |b| && r + |bytes| <= |b|
    ensures (b[..r] + bytes + b[r + |bytes|..])[f..r + |bytes|] == b[f..r] + bytes
  {
  }

  lemma ScatterBelowFront(b: seq<Byte>, f: nat, r: nat, bytes: seq<Byte>)
    requires r + |bytes| < f < |b|
    ensures var c := b[..r] + bytes + b[r + |bytes|..];
            c[f..] == b[f..] && c[..r + |bytes|] == b[..r] + bytes
  {
    var c, n := b[..r] + bytes + b[r + |bytes|..], r + |bytes|;
    assert c[..n] == b[..r] + bytes;
    assert c == (b[..r] + bytes) + b[n..];
  }

  lemma ScatterWithJump(b: seq<Byte>, f: nat, r: nat, x: seq<Byte>, y: seq<Byte>)
    requires |y| < f <= r < |b| && r + |x| == |b|
    ensures var c := y + b[|y|..r] + x;
            c[f..] == b[f..r] + x && c[..|y|] == y
  {
  }

  /** Filling the two stretches and moving the rear is appending to the queue. */
  lemma ScatterAppends(b: seq<Byte>, f: nat, r: nat, bytes: seq<Byte>)
    requires f < |b| && r < |b| && |bytes| <= |b| - 1 - UseSize(f, r, |b|)
    ensures Ring(Scattered(b, f, r, bytes), f, Ahead(r, |bytes|, |b|)) == Ring(b, f, r) + bytes
  {
    var d, c, n := DirectIn(f, r, |b|), Scattered(b, f, r, bytes), |bytes|;
    if n > d {
      ScatterWithJump(b, f, r, bytes[..d], bytes[d..]);
      assert bytes[..d] + bytes[d..] == bytes;
      assert b[f..r] + bytes[..d] + bytes[d..] == b[f..r] + bytes;
    } else if f <= r {
      ScatterWithoutJump(b, f, r, bytes);
      if r + n == |b| {
        assert c[f..] == c[f..r + n] && c[..0] == [];
      }
    } else {
      ScatterBelowFront(b, f, r, bytes);
      assert b[f..] + (b[..r] + bytes) == (b[f..] + b[..r]) + bytes;
    }
  }

  /** The two stretches that PostSend hands over are the queue. */
  lemma GatherIsQueue(b: seq<Byte>, f: nat, r: nat)
    requires f < |b| && r < |b|
    ensures var d := DirectOut(f, r, |b|);
            && f + d <= |b| && d <= UseSize(f, r, |b|) && UseSize(f, r, |b|) - d <= |b|
            && b[f..f + d] + b[..UseSize(f, r, |b|) - d] == Ring(b, f, r)
  {
  }

  /** How many bytes Dequeue takes of `use` bytes. */
  function CountTaken(size: int, use: nat): nat {
    if size <= 0 then 0 else if size <= use then size else use
  }

  // ---------------------------------------------------------------- moving back

  /** The remainder as the source's language has it, with the sign of the dividend. */
  function Remainder(a: int, n: int): int
    requires n > 0
  {
    if a >= 0 then a % n else -((-a) % n)
  }

  /** Moving an end back by k places stays in the array exactly if it does not pass the start: the remainder of a
      negative number is not brought up to the size. */
  lemma MovesBackIff(i: nat, k: nat, size: nat)
    requires i < size && 0 < k < size
    ensures 0 <= Remainder(i - k, size) < size <==> k <= i
    ensures k <= i ==> Remainder(i - k, size) == i - k
  {
    if k > i {
      assert (k - i) % size == k - i;
    }
  }

  class CRingBuffer {
    const buffer: array<Byte>
    var front: int
    var rear: int

    ghost predicate Valid()
      reads this
    {
      0 <= front < buffer.Length && 0 <= rear < buffer.Length
    }

    ghost function Contents(): (s: seq<Byte>)
      requires Valid()
      reads this, buffer
      ensures |s| == UseSize(front, rear, buffer.Length)
    {
      Ring(buffer[..], front, rear)
    }

    constructor (bufferSize: nat)
      ensures Valid() && fresh(buffer) && buffer.Length == bufferSize + 1 && Contents() == []
    {
      buffer := new Byte[bufferSize + 1];
      front, rear := 0, 0;
    }

    function GetUseSize(): (n: int)
      requires Valid()
      reads this, buffer
      ensures n == |Contents()|
    {
      if rear >= front then rear - front else buffer.Length - front + rear
    }

    function GetFreeSize(): (n: int)
      requires Valid()
      reads this, buffer
      ensures n == buffer.Length - 1 - |Contents()|
    {
      if rear >= front then buffer.Length - (rear - front) - 1 else front - rear - 1
    }

    method Enqueue(data: seq<Byte>) returns (n: nat)
      requires Valid()
      modifies this, buffer
      ensures Valid() && front == old(front)
      ensures n == if |old(Contents())| + |data| <= buffer.Length - 1 then |data| else 0
      ensures Contents() == old(Contents()) + data[..n]
    {
      hide Ring;
      if |data| > GetFreeSize() {
        return 0;
      }
      var i := 0;
      while i < |data|
        invariant 0 <= i <= |data| && Valid() && front == old(front)
        invariant Contents() == old(Contents()) + data[..i]
      {
        Pushed(buffer[..], front, rear, data[i]);
        NextIsModulo(rear, buffer.Length);
        ghost var was := buffer[..];
        buffer[rear] := data[i];
        assert buffer[..] == was[rear := data[i]];
        rear := (rear + 1) % buffer.Length;
        assert data[..i + 1] == data[..i] + [data[i]];
        i := i + 1;
      }
      return |data|;
    }

    method Dequeue(size: int) returns (dest: seq<Byte>)
      requires Valid()
      modifies this
      ensures Valid() && rear == old(rear)
      ensures |dest| == CountTaken(size, |old(Contents())|)
      ensures dest + Contents() == old(Contents())
    {
      hide Ring;
      dest := [];
      var useSize := GetUseSize();
      if useSize == 0 || size <= 0 {
        return;
      }
      var count := if size > useSize then useSize else size;
      var i := 0;
      while i < count
        invariant 0 <= i <= count && Valid() && rear == old(rear) && |dest| == i
        invariant dest + Contents() == old(Contents())
      {
        Taken(dest, buffer[..], front, rear);
        NextIsModulo(front, buffer.Length);
        dest := dest + [buffer[front]];
        front := (front + 1) % buffer.Length;
        i := i + 1;
      }
    }

    /** The number returned for a negative size is that size, unless the queue is empty. */
    method Peek(size: int) returns (dest: seq<Byte>, n: int)
      requires Valid()
      ensures n == if |Contents()| == 0 then 0 else if size > |Contents()| then |Contents()| else size
      ensures dest == Contents()[..if n < 0 then 0 else n]
    {
      dest := [];
      var f := front;
      var useSize := GetUseSize();
      if useSize == 0 {
        return dest, 0;
      }
      n := if size > useSize then useSize else size;
      var i := 0;
      while i < n
        invariant 0 <= f < buffer.Length && 0 <= i && (i <= n || n < 0) && |dest| == i
        invariant dest + Ring(buffer[..], f, rear) == Contents()
        invariant n < 0 ==> i == 0
      {
        Taken(dest, buffer[..], f, rear);
        NextIsModulo(f, buffer.Length);
        dest := dest + [buffer[f]];
        f := (f + 1) % buffer.Length;
        i := i + 1;
      }
    }

    method ClearBuffer()
      requires Valid()
      modifies this`rear
      ensures Valid() && Contents() == []
    {
      rear := front;
    }

    function DirectEnqueueSize(): (n: int)
      requires Valid()
      reads this, buffer
      ensures n == DirectIn(front, rear, buffer.Length) && n <= GetFreeSize()
    {
      if rear >= front then (if front == 0 then buffer.Length - rear - 1 else buffer.Length - rear)
      else front - rear - 1
    }

    function DirectDequeueSize(): (n: int)
      requires Valid()
      reads this, buffer
      ensures n == DirectOut(front, rear, buffer.Length) && n <= GetUseSize()
    {
      if rear >= front then rear - front else buffer.Length - front
    }

    /** The kernel completes a receive that PostRecv has posted: it fills buf[0], then buf[1]. */
    method KernelReceives(bytes: seq<Byte>)
      requires Valid() && |bytes| <= GetFreeSize()
      modifies buffer
      ensures Valid() && buffer[..] == Scattered(old(buffer[..]), front, rear, bytes)
    {
      var d := DirectEnqueueSize();
      var inFirst := if |bytes| <= d then |bytes| else d;
      ghost var b := buffer[..];
      forall i | 0 <= i < inFirst {
        buffer[rear + i] := bytes[i];
      }
      forall i | inFirst <= i < |bytes| {
        buffer[i - inFirst] := bytes[i];
      }
      if |bytes| <= d {
        assert buffer[..] == b[..rear] + bytes + b[rear + |bytes|..];
      } else {
        assert buffer[..] == bytes[d..] + b[|bytes| - d..rear] + bytes[..d];
      }
    }

    /** The bytes WSASend is given, buf[0] before buf[1]. */
    method Gather() returns (bytes: seq<Byte>)
      requires Valid()
      ensures bytes == Contents()
    {
      var direct := DirectDequeueSize();
      bytes := buffer[front..front + direct] + buffer[..GetUseSize() - direct];
      GatherIsQueue(buffer[..], front, rear);
    }

    /** Moving forward by what there is room for, or what there is, stays valid. */
    method MoveRear(size: int) returns (n: int)
      requires Valid()
      modifies this`rear
      ensures (size > 0 && size > old(GetFreeSize())) || (size < 0 && -size > old(GetUseSize())) ==>
                n == 0 && rear == old(rear)
      ensures 0 <= size <= old(GetFreeSize()) ==> n == size && Valid() && rear == Ahead(old(rear), size, buffer.Length)
      ensures size < 0 && -size <= old(GetUseSize()) ==> n == size && (Valid() <==> -size <= old(rear))
    {
      if size > 0 && size > GetFreeSize() { return 0; }
      if size < 0 && -size > GetUseSize() { return 0; }
      if size >= 0 {
        AheadIsModulo(rear, size, buffer.Length);
      } else {
        MovesBackIff(rear, -size, buffer.Length);
      }
      rear := Remainder(rear + size, buffer.Length);
      return size;
    }

    method MoveFront(size: int) returns (n: int)
      requires Valid()
      modifies this`front
      ensures (size > 0 && size > old(GetUseSize())) || (size < 0 && -size > old(GetFreeSize())) ==>
                n == 0 && front == old(front)
      ensures 0 <= size <= old(GetUseSize()) ==> n == size && Valid() && Contents() == old(Contents())[size..]
      ensures size < 0 && -size <= old(GetFreeSize()) ==> n == size && (Valid() <==> -size <= old(front))
    {
      if size > 0 && size > GetUseSize() { return 0; }
      if size < 0 && -size > GetFreeSize() { return 0; }
      if size >= 0 {
        AheadIsModulo(front, size, buffer.Length);
        Skipped(buffer[..], front, rear, size);
      } else {
        MovesBackIff(front, -size, buffer.Length);
      }
      front := Remainder(front + size, buffer.Length);
      return size;
    }
  }

  lemma Skipped(b: seq<Byte>, f: nat, r: nat, n: nat)
    requires f < |b| && r < |b| && n <= UseSize(f, r, |b|)
    ensures Ring(b, Ahead(f, n, |b|), r) == Ring(b, f, r)[n..]
  {
  }
}
