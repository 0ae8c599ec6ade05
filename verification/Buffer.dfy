/** The byte buffer with two cursors over one array, as a queue of bytes. */
module Buffers {

  const DEFAULT_CAPACITY: nat := 16384

  /** The first capacity on the way of doublings that holds need; a grown buffer is at least half full. */
  function Doubled(capacity: nat, need: nat): (r: nat)
    requires capacity >= 1
    ensures r >= need && r >= capacity
    ensures r == capacity || r < 2 * need
    decreases need - capacity
  {
    if capacity >= need then capacity else Doubled(capacity * 2, need)
  }

  class Buffer {
    var data: array<char>
    var readPos: nat
    var writePos: nat

    ghost predicate Valid()
      reads this
    {
      readPos <= writePos <= data.Length
    }

    /** The bytes written and not yet consumed. */
    function Readable(): string
      requires Valid()
      reads this, data
    {
      data[readPos..writePos]
    }

    function WritableBytes(): nat
      requires Valid()
      reads this
    {
      data.Length - writePos
    }

    function Capacity(): nat
      reads this
    {
      data.Length
    }

    constructor (capacity: nat)
      ensures Valid() && fresh(data) && Readable() == "" && Capacity() == capacity == WritableBytes() && readPos == 0
    {
      data := new char[capacity](_ => '\0');
      readPos, writePos := 0, 0;
    }

    /** Copies bytes to the write pointer; they count as written once committed. */
    method CopyIn(bytes: string)
      requires Valid() && |bytes| <= WritableBytes()
      modifies data
      ensures data[..writePos] == old(data[..writePos])
      ensures data[writePos..writePos + |bytes|] == bytes
    {
      forall i | 0 <= i < |bytes| {
        data[writePos + i] := bytes[i];
      }
    }

    method CommitWrite(n: nat)
      requires Valid() && n <= WritableBytes()
      modifies this`writePos
      ensures Valid() && writePos == old(writePos) + n
      ensures Readable() == old(Readable()) + data[old(writePos)..old(writePos) + n]
    {
      writePos := writePos + n;
    }

    method Consume(n: nat)
      requires Valid() && n <= |Readable()|
      modifies this`readPos
      ensures Valid() && Readable() == old(Readable())[n..]
    {
      readPos := readPos + n;
    }

    method ConsumeAll()
      requires Valid()
      modifies this`readPos, this`writePos
      ensures Valid() && Readable() == "" && WritableBytes() == Capacity()
    {
      readPos, writePos := 0, 0;
    }

    /** Moves the unread bytes to the front; source and target may overlap. */
    method Compact() returns (recovered: nat)
      requires Valid()
      modifies this`readPos, this`writePos, data
      ensures Valid() && Readable() == old(Readable()) && readPos == 0
      ensures recovered == old(readPos)
      ensures WritableBytes() == old(WritableBytes()) + recovered
    {
      if readPos == 0 { return 0; }
      ghost var before := Readable();
      var unread := writePos - readPos;
      if unread > 0 {
        forall i | 0 <= i < unread {
          data[i] := data[readPos + i];
        }
      }
      recovered := readPos;
      readPos := 0;
      writePos := unread;
      assert Readable() == before;
    }

    /** Grows to newCapacity when that is more; the unread bytes survive. */
    method Reserve(newCapacity: nat)
      requires Valid()
      modifies this, data
      ensures Valid() && Readable() == old(Readable())
      ensures data == old(data) || fresh(data)
      ensures newCapacity <= old(Capacity()) ==>
          readPos == old(readPos) && writePos == old(writePos) && data == old(data)
      ensures newCapacity > old(Capacity()) ==> Capacity() == newCapacity && readPos == 0
    {
      if newCapacity <= data.Length { return; }
      var recovered := Compact();
      var resized := new char[newCapacity](_ => '\0');
      forall i | 0 <= i < data.Length {
        resized[i] := data[i];
      }
      ghost var before := Readable();
      data := resized;
      assert Readable() == before;
    }

    method Reset()
      requires Valid()
      modifies this`readPos, this`writePos
      ensures Valid() && Readable() == "" && WritableBytes() == Capacity()
    {
      readPos, writePos := 0, 0;
    }

    /**
     * The loop of enqueue_write: makes room by compacting, then by doubling, and appends. It ends for
     * every length because the capacity is at least one.
     */
    method Append(bytes: string)
      requires Valid() && Capacity() >= 1
      modifies this, data
      ensures Valid() && Capacity() >= old(Capacity())
      ensures Readable() == old(Readable()) + bytes
      ensures Capacity() == Doubled(old(Capacity()), |Readable()|)
      ensures data == old(data) || fresh(data)
      ensures Capacity() == old(Capacity()) ==> data == old(data)
    {
      while WritableBytes() < |bytes|
        invariant Valid() && Readable() == old(Readable())
        invariant data == old(data) || fresh(data)
        invariant Capacity() >= old(Capacity()) >= 1 && (Capacity() == old(Capacity()) ==> data == old(data))
        invariant var need := |Readable()| + |bytes|; Doubled(Capacity(), need) == Doubled(old(Capacity()), need)
        decreases |old(Readable())| + |bytes| - Capacity(), readPos
      {
        var recovered := Compact();
        if WritableBytes() < |bytes| {
          Reserve(Capacity() * 2);
        }
      }
      CopyIn(bytes);
      CommitWrite(|bytes|);
    }
  }

  // ---- Sequences of operations --------------------------------------------

  datatype Op = Write(bytes: string) | Take(n: nat) | TakeAll | Pack | Grow(capacity: nat)

  function Taken(q: string, op: Op): string {
    match op
    case Take(n) => if n <= |q| then q[..n] else ""
    case TakeAll => q
    case _ => ""
  }

  function Left(q: string, op: Op): string {
    match op
    case Write(bytes) => q + bytes
    case Take(n) => if n <= |q| then q[n..] else q
    case TakeAll => ""
    case _ => q
  }

  predicate Legal(q: string, ops: seq<Op>)
    decreases |ops|
  {
    ops == [] || ((ops[0].Take? ==> ops[0].n <= |q|) && Legal(Left(q, ops[0]), ops[1..]))
  }

  function LeftAfter(q: string, ops: seq<Op>): string
    decreases |ops|
  {
    if ops == [] then q else LeftAfter(Left(q, ops[0]), ops[1..])
  }

  function TakenBy(q: string, ops: seq<Op>): string
    decreases |ops|
  {
    if ops == [] then "" else Taken(q, ops[0]) + TakenBy(Left(q, ops[0]), ops[1..])
  }

  function WrittenBy(ops: seq<Op>): string
    decreases |ops|
  {
    if ops == [] then "" else (if ops[0].Write? then ops[0].bytes else "") + WrittenBy(ops[1..])
  }

  /** First in, first out: over any sequence of operations the bytes taken and the bytes left are the bytes written. */
  lemma {:induction false} FirstInFirstOut(q: string, ops: seq<Op>)
    ensures TakenBy(q, ops) + LeftAfter(q, ops) == q + WrittenBy(ops)
    decreases |ops|
  {
    hide Taken, Left;
    if ops == [] {
      assert "" + q == q + "";
    } else {
      var next, rest := Left(q, ops[0]), ops[1..];
      FirstInFirstOut(next, rest);
      OneOp(q, ops[0]);
      var took := Taken(q, ops[0]);
      assert took + TakenBy(next, rest) + LeftAfter(next, rest) == took + (TakenBy(next, rest) + LeftAfter(next, rest));
      assert took + (next + WrittenBy(rest)) == took + next + WrittenBy(rest);
      var wrote := if ops[0].Write? then ops[0].bytes else "";
      assert q + wrote + WrittenBy(rest) == q + (wrote + WrittenBy(rest));
    }
  }

  lemma OneOp(q: string, op: Op)
    ensures Taken(q, op) + Left(q, op) == q + if op.Write? then op.bytes else ""
  {
  }

  /** The array with its two cursors behaves as that queue. */
  method Perform(buffer: Buffer, ops: seq<Op>) returns (out: string)
    requires buffer.Valid() && buffer.Capacity() >= 1 && Legal(buffer.Readable(), ops)
    modifies buffer, buffer.data
    ensures buffer.Valid() && buffer.Readable() == LeftAfter(old(buffer.Readable()), ops)
    ensures out == TakenBy(old(buffer.Readable()), ops)
    ensures out + buffer.Readable() == old(buffer.Readable()) + WrittenBy(ops)
  {
    hide Legal, Taken, Left;
    FirstInFirstOut(buffer.Readable(), ops);
    out := "";
    var i := 0;
    while i < |ops|
      invariant i <= |ops| && buffer.Valid() && buffer.Capacity() >= 1
      invariant buffer.data == old(buffer.data) || fresh(buffer.data)
      invariant Legal(buffer.Readable(), ops[i..])
      invariant LeftAfter(buffer.Readable(), ops[i..]) == LeftAfter(old(buffer.Readable()), ops)
      invariant out + TakenBy(buffer.Readable(), ops[i..]) == TakenBy(old(buffer.Readable()), ops)
    {
      ghost var q, before := buffer.Readable(), out;
      Unfold(q, ops[i..]);
      assert ops[i..][1..] == ops[i + 1..];
      out := PerformOne(buffer, ops[i], out);
      assert before + Taken(q, ops[i]) + TakenBy(buffer.Readable(), ops[i + 1..]) == before + TakenBy(q, ops[i..]);
      i := i + 1;
    }
    assert ops[i..] == [];
  }

  lemma Unfold(q: string, ops: seq<Op>)
    requires ops != [] && Legal(q, ops)
    ensures (ops[0].Take? ==> ops[0].n <= |q|) && Legal(Left(q, ops[0]), ops[1..])
    ensures LeftAfter(q, ops) == LeftAfter(Left(q, ops[0]), ops[1..])
    ensures TakenBy(q, ops) == Taken(q, ops[0]) + TakenBy(Left(q, ops[0]), ops[1..])
  {
    hide Taken, Left;
  }

  method PerformOne(buffer: Buffer, op: Op, prefix: string) returns (out: string)
    requires buffer.Valid() && buffer.Capacity() >= 1 && (op.Take? ==> op.n <= |buffer.Readable()|)
    modifies buffer, buffer.data
    ensures buffer.Valid() && buffer.Capacity() >= 1 && (buffer.data == old(buffer.data) || fresh(buffer.data))
    ensures buffer.Readable() == Left(old(buffer.Readable()), op)
    ensures out == prefix + Taken(old(buffer.Readable()), op)
  {
    out := prefix;
    match op
    case Write(bytes) => buffer.Append(bytes);
    case Take(n) =>
      out := out + buffer.Readable()[..n];
      buffer.Consume(n);
    case TakeAll =>
      out := out + buffer.Readable();
      buffer.ConsumeAll();
    case Pack => var recovered := buffer.Compact();
    case Grow(capacity) => buffer.Reserve(capacity);
  }
}
