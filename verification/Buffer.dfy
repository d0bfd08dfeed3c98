/** The byte buffer: a queue kept in one array, with a reader index, a writer index and eight bytes in front. */
module Buffers {
  newtype byte = x: int | 0 <= x < 256

  const CHEAP_PREPEND: nat := 8
  const INITIAL_SIZE: nat := 1024
  const EXTRA: nat := 65536    // the area on the stack that takes what does not fit

  // What readv reports: an error, or the bytes it delivered.
  datatype ReadResult = Failed(errno: int) | Got(data: seq<byte>)

  class Buffer {
    var buffer: array<byte>
    var readerIndex: nat
    var writerIndex: nat

    ghost predicate Valid()
      reads this
    {
      CHEAP_PREPEND <= readerIndex <= writerIndex <= buffer.Length
    }

    // The bytes waiting to be read, oldest first.
    function Contents(): seq<byte>
      requires Valid()
      reads this, buffer
    {
      buffer[readerIndex..writerIndex]
    }

    constructor (initialSize: nat)
      ensures Valid() && fresh(buffer) && Contents() == [] && WritableBytes() == initialSize && PrependableBytes() == 8
    {
      buffer := new byte[CHEAP_PREPEND + initialSize](_ => 0);
      readerIndex, writerIndex := CHEAP_PREPEND, CHEAP_PREPEND;
    }

    function ReadableBytes(): (n: nat)
      requires Valid()
      reads this, buffer
      ensures n == |Contents()|
    {
      writerIndex - readerIndex
    }

    function WritableBytes(): nat
      requires Valid()
      reads this
    {
      buffer.Length - writerIndex
    }

    function PrependableBytes(): nat
      reads this
    {
      readerIndex
    }

    // What can be appended without a larger array, once the bytes are moved to the front.
    ghost function Room(): nat
      requires Valid()
      reads this
    {
      readerIndex - CHEAP_PREPEND + (buffer.Length - writerIndex)
    }

    method Retrieve(len: nat)
      requires Valid()
      modifies this
      ensures Valid() && buffer == old(buffer)
      ensures Contents() == if len < |old(Contents())| then old(Contents())[len..] else []
    {
      if len < ReadableBytes() {
        readerIndex := readerIndex + len;
      } else {
        RetrieveAll();
      }
    }

    method RetrieveAll()
      requires Valid()
      modifies this
      ensures Valid() && buffer == old(buffer) && Contents() == []
    {
      readerIndex := CHEAP_PREPEND;
      writerIndex := CHEAP_PREPEND;
    }

    // Asked for more than is readable, the copy runs on into bytes that were never appended, and the buffer is reset.
    method RetrieveAsString(len: nat) returns (result: seq<byte>)
      requires Valid() && readerIndex + len <= buffer.Length
      modifies this
      ensures Valid() && buffer == old(buffer)
      ensures |result| == len && result == old(buffer[readerIndex..readerIndex + len])
      ensures len <= |old(Contents())| ==> result + Contents() == old(Contents())
      ensures len > |old(Contents())| ==> result[..|old(Contents())|] == old(Contents()) && Contents() == []
    {
      ghost var all := Contents();
      result := buffer[readerIndex..readerIndex + len];
      if len <= |all| {
        assert result == all[..len] && all == all[..len] + all[len..];
      } else {
        assert result[..|all|] == all;
      }
      Retrieve(len);
    }

    method RetrieveAllAsString() returns (result: seq<byte>)
      requires Valid()
      modifies this
      ensures Valid() && buffer == old(buffer) && result == old(Contents()) && Contents() == []
    {
      result := RetrieveAsString(ReadableBytes());
    }

    method EnsureWritableBytes(len: nat)
      requires Valid()
      modifies this, buffer
      ensures Valid() && Contents() == old(Contents()) && WritableBytes() >= len
      ensures buffer == old(buffer) || fresh(buffer)
      ensures len <= old(Room()) ==> buffer == old(buffer)
    {
      if WritableBytes() < len {
        MakeSpace(len);
      }
    }

    // Either the array grows by exactly what is missing, or the bytes move to the front of it.
    method MakeSpace(len: nat)
      requires Valid() && WritableBytes() < len
      modifies this, buffer
      ensures Valid() && Contents() == old(Contents()) && WritableBytes() >= len
      ensures old(Room()) < len ==> fresh(buffer) && WritableBytes() == len && readerIndex == old(readerIndex)
      ensures old(Room()) >= len ==> buffer == old(buffer) && readerIndex == CHEAP_PREPEND && WritableBytes() == old(Room())
    {
      if WritableBytes() + PrependableBytes() < len + CHEAP_PREPEND {
        Resize(writerIndex + len);
      } else {
        var readable := ReadableBytes();
        Copy(readerIndex, writerIndex, CHEAP_PREPEND);
        readerIndex := CHEAP_PREPEND;
        writerIndex := readerIndex + readable;
      }
    }

    // std::vector::resize to a larger size.
    method Resize(size: nat)
      requires Valid() && buffer.Length <= size
      modifies this`buffer
      ensures fresh(buffer) && buffer.Length == size
      ensures buffer[..old(buffer).Length] == old(buffer[..])
      ensures Valid() && Contents() == old(Contents())
    {
      var larger := new byte[size](_ => 0);
      var smaller := buffer;
      for i := 0 to smaller.Length
        invariant larger[..i] == smaller[..i]
        invariant buffer == smaller && smaller[..] == old(buffer[..])
      {
        larger[i] := smaller[i];
      }
      buffer := larger;
      assert smaller[..] == smaller[..smaller.Length];
      SamePart(larger[..], smaller[..], readerIndex, writerIndex);
      assert larger[..][readerIndex..writerIndex] == larger[readerIndex..writerIndex];
      assert smaller[..][readerIndex..writerIndex] == smaller[readerIndex..writerIndex];
    }

    // std::copy within the array, front to back; source and destination may overlap.
    method Copy(first: nat, last: nat, dest: nat)
      requires dest <= first <= last <= buffer.Length
      modifies buffer
      ensures buffer[dest..dest + (last - first)] == old(buffer[first..last])
    {
      for i := 0 to last - first
        invariant buffer[dest..dest + i] == old(buffer[first..first + i])
        invariant forall k :: dest + i <= k < buffer.Length ==> buffer[k] == old(buffer[k])
      {
        buffer[dest + i] := buffer[first + i];
      }
    }

    method Append(data: seq<byte>)
      requires Valid()
      modifies this, buffer
      ensures Valid() && Contents() == old(Contents()) + data
      ensures buffer == old(buffer) || fresh(buffer)
      ensures |data| <= old(Room()) ==> buffer == old(buffer)
    {
      hide Contents;
      EnsureWritableBytes(|data|);
      Land(data);
    }

    // The bytes are put behind the writer index, and the index moves on past them.
    method Land(data: seq<byte>)
      requires Valid() && |data| <= WritableBytes()
      modifies this`writerIndex, buffer
      ensures Valid() && Contents() == old(Contents()) + data && writerIndex == old(writerIndex) + |data|
    {
      Fill(data);
      writerIndex := writerIndex + |data|;
      ghost var w := writerIndex - |data|;
      assert buffer[readerIndex..writerIndex] == buffer[readerIndex..w] + buffer[w..writerIndex];
    }

    // Puts data behind the writer index.
    method Fill(data: seq<byte>)
      requires Valid() && |data| <= WritableBytes()
      modifies buffer
      ensures Contents() == old(Contents())
      ensures buffer[writerIndex..writerIndex + |data|] == data
    {
      for i := 0 to |data|
        invariant buffer[writerIndex..writerIndex + i] == data[..i]
        invariant Contents() == old(Contents())
      {
        buffer[writerIndex + i] := data[i];
      }
    }

    // How many bytes one readv is offered: the free part of the array, and the extra area unless that part is as large.
    function Offered(): (n: nat)
      requires Valid()
      reads this
      ensures n >= 65536 && (n == WritableBytes() || (n == WritableBytes() + 65536 && WritableBytes() < 65536))
    {
      if WritableBytes() < EXTRA then WritableBytes() + EXTRA else WritableBytes()
    }

    /** Whatever arrives, split between the free part of the array and the extra area, ends up appended in order. */
    method ReadFd(r: ReadResult) returns (n: int, savedErrno: int)
      requires Valid() && (r.Got? ==> |r.data| <= Offered())
      modifies this, buffer
      ensures Valid() && (buffer == old(buffer) || fresh(buffer))
      ensures r.Failed? ==> n < 0 && savedErrno == r.errno && Contents() == old(Contents())
      ensures r.Got? ==> n == |r.data| && Contents() == old(Contents()) + r.data
    {
      hide Contents;
      var writable := WritableBytes();
      savedErrno := 0;
      if r.Failed? {
        return -1, r.errno;
      }
      n := |r.data|;
      if n <= writable {
        Land(r.data);
      } else {
        var extrabuf := r.data[writable..];
        Land(r.data[..writable]);
        Append(extrabuf);
        assert r.data[..writable] + extrabuf == r.data;
      }
    }
  }

  lemma SamePart(large: seq<byte>, small: seq<byte>, lo: nat, hi: nat)
    requires lo <= hi <= |small| <= |large| && large[..|small|] == small
    ensures large[lo..hi] == small[lo..hi]
  {
    assert large[..|small|][lo..hi] == large[lo..hi];
  }

  // ----- the buffer as a queue, over a whole run -----

  datatype QueueOp = Put(data: seq<byte>) | Take(n: nat)

  // The queue after a run, and everything taken out of it on the way.
  function RunQueue(q: seq<byte>, ops: seq<QueueOp>): (seq<byte>, seq<byte>) {
    if ops == [] then (q, [])
    else
      var n := |ops| - 1;
      var (rest, out) := RunQueue(q, ops[..n]);
      match ops[n]
      case Put(data) => (rest + data, out)
      case Take(k) => if k <= |rest| then (rest[k..], out + rest[..k]) else (rest, out)
  }

  function Puts(ops: seq<QueueOp>): seq<byte> {
    if ops == [] then []
    else
      var n := |ops| - 1;
      Puts(ops[..n]) + (if ops[n].Put? then ops[n].data else [])
  }

  /** First in, first out: what was taken, then what is left, is what was put. */
  lemma {:induction false} Fifo(q: seq<byte>, ops: seq<QueueOp>)
    ensures var (rest, out) := RunQueue(q, ops); out + rest == q + Puts(ops)
  {
    if ops != [] {
      var n := |ops| - 1;
      Fifo(q, ops[..n]);
      var (rest, out) := RunQueue(q, ops[..n]);
      match ops[n]
      case Put(data) =>
        assert out + (rest + data) == (out + rest) + data == q + Puts(ops[..n]) + data == q + (Puts(ops[..n]) + data);
      case Take(k) =>
        assert Puts(ops) == Puts(ops[..n]);
        if k <= |rest| {
          assert (out + rest[..k]) + rest[k..] == out + (rest[..k] + rest[k..]) && rest == rest[..k] + rest[k..];
        }
    }
  }

  /** A run on the real buffer is a run on the queue. */
  method Drive(b: Buffer, ops: seq<QueueOp>) returns (out: seq<byte>)
    requires b.Valid()
    modifies b, b.buffer
    ensures b.Valid() && (b.Contents(), out) == RunQueue(old(b.Contents()), ops)
  {
    out := [];
    for i := 0 to |ops|
      invariant b.Valid() && (b.buffer == old(b.buffer) || fresh(b.buffer))
      invariant (b.Contents(), out) == RunQueue(old(b.Contents()), ops[..i])
    {
      assert ops[..i + 1][..i] == ops[..i];
      match ops[i]
      case Put(data) => b.Append(data);
      case Take(n) =>
        if n <= b.ReadableBytes() {
          var taken := b.RetrieveAsString(n);
          out := out + taken;
        }
    }
    assert ops[..|ops|] == ops;
  }
}
