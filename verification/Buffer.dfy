/** `muduo::net::Buffer`: a byte queue in one array with room at both ends. */
module Buffers {
  import opened Bytes
  import opened Options

  const CHEAP_PREPEND: nat := 8
  const INITIAL_SIZE: nat := 1024
  const EXTRA_SIZE: nat := 65536

  /** `std::copy` of data into an array. */
  method CopyIn(dst: array<Byte>, at: nat, data: seq<Byte>)
    requires at + |data| <= dst.Length
    modifies dst
    ensures dst[..] == old(dst[..at]) + data + old(dst[at + |data|..])
  {
    var i := 0;
    while i < |data|
      invariant 0 <= i <= |data|
      invariant dst[..] == old(dst[..at]) + data[..i] + old(dst[at + i..])
    {
      dst[at + i] := data[i];
      i := i + 1;
    }
    assert data[..i] == data;
  }

  /** `std::copy` within one array toward lower indices, where source and destination may overlap. */
  method CopyDown(a: array<Byte>, from: nat, until: nat, to: nat)
    requires to <= from <= until <= a.Length
    modifies a
    ensures a[to..to + (until - from)] == old(a[from..until])
  {
    var i := 0;
    while from + i < until
      invariant 0 <= i <= until - from
      invariant a[to..to + i] == old(a[from..until])[..i]
      invariant a[from + i..until] == old(a[from..until])[i..]
    {
      assert a[from + i] == a[from + i..until][0];
      a[to + i] := a[from + i];
      i := i + 1;
    }
  }

  class Buffer {
    var buffer: array<Byte>
    var readerIndex: nat
    var writerIndex: nat

    ghost predicate Valid()
      reads this
    {
      CHEAP_PREPEND <= buffer.Length && readerIndex <= writerIndex <= buffer.Length
    }

    /** The bytes of the queue, first to last. */
    ghost function Contents(): seq<Byte>
      reads this, buffer
      requires Valid()
    {
      buffer[readerIndex..writerIndex]
    }

    constructor (initialSize: nat)
      ensures Valid() && fresh(buffer) && Contents() == []
      ensures WritableBytes() == initialSize && PrependableBytes() == CHEAP_PREPEND
    {
      buffer := new Byte[CHEAP_PREPEND + initialSize](_ => 0);
      readerIndex, writerIndex := CHEAP_PREPEND, CHEAP_PREPEND;
    }

    function ReadableBytes(): int
      reads this
    {
      writerIndex - readerIndex
    }

    function WritableBytes(): int
      reads this
    {
      buffer.Length - writerIndex
    }

    function PrependableBytes(): nat
      reads this
    {
      readerIndex
    }

    method RetrieveAll()
      requires Valid()
      modifies this`readerIndex, this`writerIndex
      ensures Valid() && Contents() == []
    {
      readerIndex, writerIndex := CHEAP_PREPEND, CHEAP_PREPEND;
    }

    method Retrieve(len: nat)
      requires Valid() && len <= |Contents()|
      modifies this`readerIndex, this`writerIndex
      ensures Valid() && Contents() == old(Contents())[len..]
    {
      if len < ReadableBytes() {
        readerIndex := readerIndex + len;
      } else {
        RetrieveAll();
      }
    }

    method RetrieveAsString(len: nat) returns (result: seq<Byte>)
      requires Valid() && len <= |Contents()|
      modifies this`readerIndex, this`writerIndex
      ensures Valid() && old(Contents()) == result + Contents() && |result| == len
    {
      ghost var whole := Contents();
      result := buffer[readerIndex..readerIndex + len];
      assert result == whole[..len] && whole == whole[..len] + whole[len..];
      Retrieve(len);
    }

    /** Takes back the last bytes written. */
    method Unwrite(len: nat)
      requires Valid() && len <= |Contents()|
      modifies this`writerIndex
      ensures Valid() && Contents() == old(Contents())[..|old(Contents())| - len]
    {
      writerIndex := writerIndex - len;
    }

    /** Room for len bytes, by growing or by moving the content to the front. */
    method MakeSpace(len: nat)
      requires Valid() && WritableBytes() < len
      modifies this, buffer
      ensures Valid() && Contents() == old(Contents()) && WritableBytes() >= len
      ensures buffer == old(buffer) || fresh(buffer)
      ensures readerIndex == old(readerIndex) || readerIndex == CHEAP_PREPEND
    {
      if WritableBytes() + PrependableBytes() < len + CHEAP_PREPEND {
        var grown := new Byte[writerIndex + len](_ => 0);
        CopyIn(grown, 0, buffer[..]);
        assert grown[..][..buffer.Length] == buffer[..];
        buffer := grown;
        assert buffer[readerIndex..writerIndex] == grown[..][..old(buffer.Length)][readerIndex..writerIndex];
      } else {
        assert CHEAP_PREPEND < readerIndex;
        var readable := ReadableBytes();
        CopyDown(buffer, readerIndex, writerIndex, CHEAP_PREPEND);
        readerIndex := CHEAP_PREPEND;
        writerIndex := readerIndex + readable;
        assert readable == ReadableBytes();
      }
    }

    method EnsureWritableBytes(len: nat)
      requires Valid()
      modifies this, buffer
      ensures Valid() && Contents() == old(Contents()) && WritableBytes() >= len
      ensures buffer == old(buffer) || fresh(buffer)
      ensures readerIndex == old(readerIndex) || readerIndex == CHEAP_PREPEND
      ensures old(WritableBytes()) >= len ==>
                buffer == old(buffer) && readerIndex == old(readerIndex) && writerIndex == old(writerIndex)
    {
      if WritableBytes() < len {
        MakeSpace(len);
      }
      assert WritableBytes() >= len;
    }

    method Append(data: seq<Byte>)
      requires Valid()
      modifies this, buffer
      ensures Valid() && Contents() == old(Contents()) + data
      ensures buffer == old(buffer) || fresh(buffer)
      ensures old(WritableBytes()) >= |data| ==>
                buffer == old(buffer) && readerIndex == old(readerIndex) && writerIndex == old(writerIndex) + |data|
    {
      EnsureWritableBytes(|data|);
      Deliver(data);
      writerIndex := writerIndex + |data|;
    }

    method Prepend(data: seq<Byte>)
      requires Valid() && |data| <= PrependableBytes()
      modifies this, buffer
      ensures Valid() && Contents() == data + old(Contents())
      ensures buffer == old(buffer)
    {
      ghost var before := buffer[..];
      readerIndex := readerIndex - |data|;
      CopyIn(buffer, readerIndex, data);
      ghost var after, mid := buffer[..], readerIndex + |data|;
      assert after[readerIndex..mid] == data;
      assert after[mid..] == before[mid..];
      assert after[mid..writerIndex] == after[mid..][..writerIndex - mid]
             == before[mid..][..writerIndex - mid] == before[mid..writerIndex];
      assert after[readerIndex..writerIndex] == after[readerIndex..mid] + after[mid..writerIndex];
    }

    method Swap(rhs: Buffer)
      requires rhs != this
      modifies this, rhs
      ensures buffer == old(rhs.buffer) && readerIndex == old(rhs.readerIndex) && writerIndex == old(rhs.writerIndex)
      ensures rhs.buffer == old(buffer) && rhs.readerIndex == old(readerIndex) && rhs.writerIndex == old(writerIndex)
    {
      buffer, rhs.buffer := rhs.buffer, buffer;
      readerIndex, rhs.readerIndex := rhs.readerIndex, readerIndex;
      writerIndex, rhs.writerIndex := rhs.writerIndex, writerIndex;
    }

    /** Moves the content to a new array with room for `reserve` more bytes. */
    method Shrink(reserve: nat)
      requires Valid()
      modifies this
      ensures Valid() && Contents() == old(Contents()) && fresh(buffer)
      ensures WritableBytes() >= reserve && PrependableBytes() == CHEAP_PREPEND
    {
      var other := new Buffer(INITIAL_SIZE);
      other.EnsureWritableBytes(ReadableBytes() + reserve);
      var content := buffer[readerIndex..writerIndex];
      other.Append(content);
      Swap(other);
    }

    /** `readFd`, with what readv(2) delivers: at most what fits behind the content and in the overflow area, which
        is offered only while the buffer has less room than that. */
    method ReadFd(input: Option<seq<Byte>>) returns (n: int)
      requires Valid()
      requires input.Some? ==>
                |input.value| <= WritableBytes() + (if WritableBytes() < EXTRA_SIZE then EXTRA_SIZE else 0)
      modifies this, buffer
      ensures Valid() && (buffer == old(buffer) || fresh(buffer))
      ensures input.None? ==> n < 0 && Contents() == old(Contents())
      ensures input.Some? ==> n == |input.value| && Contents() == old(Contents()) + input.value
    {
      if input.None? {
        return -1;
      }
      var data := input.value;
      var writable := WritableBytes();
      n := |data|;
      if n <= writable {
        Deliver(data);
        writerIndex := writerIndex + n;
      } else {
        Deliver(data[..writable]);
        writerIndex := buffer.Length;
        assert Contents() == old(Contents()) + data[..writable];
        Append(data[writable..]);
        assert data == data[..writable] + data[writable..];
      }
    }

    /** Bytes written behind the content, before `writerIndex_` moves. */
    method Deliver(data: seq<Byte>)
      requires Valid() && |data| <= WritableBytes()
      modifies buffer
      ensures buffer[readerIndex..writerIndex + |data|] == old(Contents()) + data
    {
      ghost var before := buffer[..];
      CopyIn(buffer, writerIndex, data);
      ghost var after, end := buffer[..], writerIndex + |data|;
      assert after[..writerIndex] == before[..writerIndex];
      assert after[writerIndex..end] == data;
      assert after[readerIndex..writerIndex] == after[..writerIndex][readerIndex..]
             == before[..writerIndex][readerIndex..] == before[readerIndex..writerIndex];
      assert after[readerIndex..end] == after[readerIndex..writerIndex] + after[writerIndex..end];
    }

    /** `appendInt8` to `appendInt64`, of an integer of n bytes. */
    method AppendInt(x: int, n: nat)
      requires Valid() && n in {1, 2, 4, 8} && FitsSigned(x, n)
      modifies this, buffer
      ensures Valid() && Contents() == old(Contents()) + EncodeInt(x, n)
      ensures buffer == old(buffer) || fresh(buffer)
    {
      Append(EncodeInt(x, n));
    }

    method PrependInt(x: int, n: nat)
      requires Valid() && n in {1, 2, 4, 8} && FitsSigned(x, n) && n <= PrependableBytes()
      modifies this, buffer
      ensures Valid() && Contents() == EncodeInt(x, n) + old(Contents())
    {
      Prepend(EncodeInt(x, n));
    }

    method PeekInt(n: nat) returns (x: int)
      requires Valid() && n in {1, 2, 4, 8} && n <= |Contents()|
      ensures x == DecodeInt(Contents()[..n])
    {
      ghost var whole := buffer[..];
      assert whole[readerIndex..writerIndex][..n] == whole[readerIndex..readerIndex + n];
      x := DecodeInt(buffer[readerIndex..readerIndex + n]);
    }

    /** Reading removes exactly the bytes whose integer it returns: put back, they restore the content. */
    method ReadInt(n: nat) returns (x: int)
      requires Valid() && n in {1, 2, 4, 8} && n <= |Contents()|
      modifies this`readerIndex, this`writerIndex
      ensures Valid() && FitsSigned(x, n) && old(Contents()) == EncodeInt(x, n) + Contents()
    {
      hide DecodeInt, EncodeInt, FitsSigned;
      ghost var content := Contents();
      x := PeekInt(n);
      BytesRoundTrip(content[..n]);
      assert content == content[..n] + content[n..];
      Retrieve(n);
    }
  }

  /** An integer at the front of the content, appended or prepended, reads back as itself. */
  lemma ReadBack(x: int, n: nat, rest: seq<Byte>)
    requires FitsSigned(x, n)
    ensures var bytes := EncodeInt(x, n) + rest;
            DecodeInt(bytes[..n]) == x && bytes[n..] == rest
  {
    IntRoundTrip(x, n);
    assert (EncodeInt(x, n) + rest)[..n] == EncodeInt(x, n);
  }

  datatype SizedInt = SizedInt(value: int, width: nat)

  predicate Storable(items: seq<SizedInt>) {
    forall i :: 0 <= i < |items| ==> items[i].width in {1, 2, 4, 8} && FitsSigned(items[i].value, items[i].width)
  }

  /** What appending the integers one after the other leaves in an empty buffer. */
  function EncodeAll(items: seq<SizedInt>): seq<Byte>
    requires Storable(items)
  {
    if items == [] then [] else EncodeInt(items[0].value, items[0].width) + EncodeAll(items[1..])
  }

  lemma NothingEncoded()
    ensures EncodeAll([]) == []
  {
  }

  lemma EncodeFirst(items: seq<SizedInt>, k: nat, rest: seq<Byte>)
    requires Storable(items) && k < |items|
    ensures EncodeAll(items[k..]) + rest
            == EncodeInt(items[k].value, items[k].width) + (EncodeAll(items[k + 1..]) + rest)
  {
    assert items[k..][1..] == items[k + 1..];
  }

  method ReadFront(b: Buffer, width: nat, ghost value: int, ghost tail: seq<Byte>) returns (x: int)
    requires b.Valid() && width in {1, 2, 4, 8} && FitsSigned(value, width)
    requires b.Contents() == EncodeInt(value, width) + tail
    modifies b`readerIndex, b`writerIndex
    ensures b.Valid() && b.Contents() == tail && x == value
  {
    hide FitsSigned, EncodeInt, DecodeInt;
    ReadBack(value, width, tail);
    x := b.PeekInt(width);
    b.Retrieve(width);
  }

  /** Any mixture of integers reads back in order, leaving what follows them. */
  method ReadInts(b: Buffer, ghost items: seq<SizedInt>, widths: seq<nat>,
        ghost rest: seq<Byte>) returns (values: seq<int>)
    requires b.Valid() && Storable(items) && |widths| == |items|
    requires forall i :: 0 <= i < |items| ==> widths[i] == items[i].width
    requires b.Contents() == EncodeAll(items) + rest
    modifies b`readerIndex, b`writerIndex
    ensures b.Valid() && b.Contents() == rest
    ensures |values| == |items| && forall i :: 0 <= i < |items| ==> values[i] == items[i].value
  {
    hide FitsSigned, EncodeInt, EncodeAll;
    values := [];
    var k := 0;
    assert items[0..] == items;
    while k < |widths|
      invariant 0 <= k <= |widths| && b.Valid() && b.buffer == old(b.buffer)
      invariant b.Contents() == EncodeAll(items[k..]) + rest
      invariant |values| == k && forall i :: 0 <= i < k ==> values[i] == items[i].value
    {
      ghost var tail := EncodeAll(items[k + 1..]) + rest;
      EncodeFirst(items, k, rest);
      var x := ReadFront(b, widths[k], items[k].value, tail);
      values := values + [x];
      k := k + 1;
    }
    assert items[k..] == [];
    NothingEncoded();
    assert [] + rest == rest;
  }

  // ------------------------------------------------------------------
  // Runs of operations: the queue of bytes the buffer stands for.

  datatype Op =
    | OpAppend(data: seq<Byte>)
    | OpPrepend(data: seq<Byte>)
    | OpRetrieve(len: nat)
    | OpUnwrite(len: nat)
    | OpReadFd(input: seq<Byte>)
    | OpReserve(len: nat)      // `ensureWritableBytes`
    | OpShrink(reserve: nat)

  /** The effect of an operation on the plain byte sequence. */
  function Apply(bytes: seq<Byte>, op: Op): seq<Byte> {
    match op
    case OpAppend(data) => bytes + data
    case OpPrepend(data) => data + bytes
    case OpRetrieve(len) => if len <= |bytes| then bytes[len..] else bytes
    case OpUnwrite(len) => if len <= |bytes| then bytes[..|bytes| - len] else bytes
    case OpReadFd(input) => bytes + input
    case OpReserve(_) => bytes
    case OpShrink(_) => bytes
  }

  function ApplyAll(bytes: seq<Byte>, ops: seq<Op>): seq<Byte> {
    if ops == [] then bytes else Apply(ApplyAll(bytes, ops[..|ops| - 1]), ops[|ops| - 1])
  }

  /** The operation's asserts and the system call's limits hold. */
  predicate Allowed(b: Buffer, op: Op)
    reads b
    requires b.Valid()
  {
    match op
    case OpPrepend(data) => |data| <= b.PrependableBytes()
    case OpRetrieve(len) => len <= b.ReadableBytes()
    case OpUnwrite(len) => len <= b.ReadableBytes()
    case OpReadFd(input) => |input| <= b.WritableBytes() + (if b.WritableBytes() < EXTRA_SIZE then EXTRA_SIZE else 0)
    case _ => true
  }

  method Perform(b: Buffer, op: Op)
    requires b.Valid() && Allowed(b, op)
    modifies b, b.buffer
    ensures b.Valid() && b.Contents() == Apply(old(b.Contents()), op)
    ensures b.buffer == old(b.buffer) || fresh(b.buffer)
  {
    match op
    case OpAppend(data) => b.Append(data);
    case OpPrepend(data) => b.Prepend(data);
    case OpRetrieve(len) => b.Retrieve(len);
    case OpUnwrite(len) => b.Unwrite(len);
    case OpReadFd(input) => var _ := b.ReadFd(Some(input));
    case OpReserve(len) => b.EnsureWritableBytes(len);
    case OpShrink(reserve) => b.Shrink(reserve);
  }

  /** Over any run the buffer agrees with the plain byte sequence, whatever moves and reallocations happen inside;
      an operation whose assert would fail ends the run. */
  method RunOps(b: Buffer, ops: seq<Op>) returns (done: nat)
    requires b.Valid()
    modifies b, b.buffer
    ensures done <= |ops| && b.Valid() && b.Contents() == ApplyAll(old(b.Contents()), ops[..done])
    ensures done < |ops| ==> !Allowed(b, ops[done])
  {
    done := 0;
    while done < |ops| && Allowed(b, ops[done])
      invariant 0 <= done <= |ops| && b.Valid()
      invariant b.buffer == old(b.buffer) || fresh(b.buffer)
      invariant b.Contents() == ApplyAll(old(b.Contents()), ops[..done])
    {
      Perform(b, ops[done]);
      assert ops[..done + 1][..done] == ops[..done];
      done := done + 1;
    }
  }
}
