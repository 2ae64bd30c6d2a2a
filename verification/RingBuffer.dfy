/**
 circularbuffer.h: an array with one slot that is never used, a read index and a write
 index that wrap around. Its contents refine the same byte sequence as LinearBuffer's.
 */
module RingBuffer {
  import opened Bytes

  // What lies between the two indices of a ring.
  function Readable(s: seq<Byte>, r: nat, w: nat): seq<Byte>
    requires r < |s| && w < |s|
  {
    if r <= w then s[r..w] else s[r..] + s[..w]
  }

  // (index + len) % size; an index goes around at most once per operation.
  function Wrap(x: nat, n: nat): (k: nat)
    requires x < 2 * n
    ensures k == if x < n then x else x - n
  {
    Around(x, n);
    x % n
  }

  lemma Around(x: nat, n: nat)
    requires x < 2 * n
    ensures x % n == if x < n then x else x - n
  {
  }

  // A ring after data was written at w: in one piece, or in two when it passes the end.
  function Placed(was: seq<Byte>, w: nat, data: seq<Byte>): seq<Byte>
    requires w < |was| && |data| < |was|
  {
    var tail := |was| - w;
    if |data| <= tail then was[..w] + data + was[w + |data|..]
    else data[tail..] + was[|data| - tail..w] + data[..tail]
  }

  lemma TwoPieces(was: seq<Byte>, first: seq<Byte>, second: seq<Byte>, at: nat, data: seq<Byte>)
    requires at < |was| && |was| - at < |data| < |was|
    requires first == was[..at] + data[..|was| - at] + was[|was|..]
    requires var left := data[|was| - at..]; second == first[..0] + left + first[|left|..]
    ensures second == Placed(was, at, data)
  {
    assert first == was[..at] + data[..|was| - at];
  }

  // The copying in append.
  method CopyAround(data: seq<Byte>, a: array<Byte>, at: nat)
    requires at < a.Length && |data| < a.Length
    modifies a
    ensures a[..] == Placed(old(a[..]), at, data)
  {
    var last := at + |data|;
    if last <= a.Length {
      CopyIn(data, a, at);
    } else {
      ghost var was := a[..];
      CopyIn(data[..a.Length - at], a, at);
      ghost var first := a[..];
      CopyIn(data[a.Length - at..], a, 0);
      TwoPieces(was, first, a[..], at, data);
    }
  }

  class Buffer {
    var size: nat
    var buffer: array<Byte>
    var writerIndex: nat
    var readerIndex: nat

    ghost predicate Valid()
      reads this
    {
      buffer.Length == size && readerIndex < size && writerIndex < size
    }

    ghost function Contents(): (s: seq<Byte>)
      requires Valid()
      reads this, buffer
    {
      Readable(buffer[..], readerIndex, writerIndex)
    }

    constructor (initialSize: nat)
      ensures Valid() && fresh(buffer) && Contents() == [] && WritableBytes() == initialSize
    {
      size := initialSize + 1;
      buffer := new Byte[initialSize + 1](_ => 0);
      writerIndex, readerIndex := 0, 0;
    }

    // The copy constructor: a buffer of its own with the same readable bytes at the same indices.
    constructor Copy(other: Buffer)
      requires other.Valid()
      ensures Valid() && fresh(buffer) && size == other.size && Contents() == other.Contents()
      ensures readerIndex == other.readerIndex && writerIndex == other.writerIndex
    {
      size := other.size;
      buffer := new Byte[other.size](_ => 0);
      writerIndex, readerIndex := other.writerIndex, other.readerIndex;
      new;
      ghost var wanted := other.Contents();
      if other.readerIndex > other.writerIndex {
        CopyIn(other.buffer[other.readerIndex..], buffer, readerIndex);
        CopyIn(other.buffer[..other.writerIndex], buffer, 0);
        assert buffer[..][readerIndex..] == other.buffer[other.readerIndex..];
        assert buffer[..][..writerIndex] == other.buffer[..other.writerIndex];
      } else {
        CopyIn(other.buffer[other.readerIndex..other.writerIndex], buffer, readerIndex);
        assert buffer[..][readerIndex..writerIndex] == other.buffer[other.readerIndex..other.writerIndex];
      }
    }

    function ReadableBytes(): (n: nat)
      requires Valid()
      reads this, buffer
      ensures n == |Contents()|
    {
      var diff := writerIndex - readerIndex;
      if diff < 0 then diff + size else diff
    }

    function WritableBytes(): nat
      requires Valid()
      reads this, buffer
    {
      size - 1 - ReadableBytes()
    }

    predicate NeedRewind()
      reads this
    {
      readerIndex > writerIndex
    }

    method Swap(other: Buffer)
      modifies this, other
      ensures size == old(other.size) && buffer == old(other.buffer)
      ensures readerIndex == old(other.readerIndex) && writerIndex == old(other.writerIndex)
      ensures other.size == old(size) && other.buffer == old(buffer)
      ensures other.readerIndex == old(readerIndex) && other.writerIndex == old(writerIndex)
    {
      size, other.size := other.size, size;
      buffer, other.buffer := other.buffer, buffer;
      writerIndex, other.writerIndex := other.writerIndex, writerIndex;
      readerIndex, other.readerIndex := other.readerIndex, readerIndex;
    }

    // operator=: copy and swap
    method Assign(other: Buffer)
      requires Valid() && other.Valid()
      modifies this
      ensures Valid() && fresh(buffer) && Contents() == old(other.Contents())
    {
      var tmp := new Buffer.Copy(other);
      tmp.Swap(this);
    }

    method Append(data: seq<Byte>)
      requires Valid()
      modifies this, buffer
      ensures Valid() && (buffer == old(buffer) || fresh(buffer))
      ensures Contents() == old(Contents()) + data
      ensures old(WritableBytes()) >= |data| ==> buffer == old(buffer) && size == old(size)
      decreases if WritableBytes() < |data| then 1 else 0, 2
    {
      EnsureWritableBytes(|data|);
      Write(data);
    }

    // append, once there is room.
    method Write(data: seq<Byte>)
      requires Valid() && WritableBytes() >= |data|
      modifies this`writerIndex, buffer
      ensures Valid() && Contents() == old(Contents()) + data
    {
      PlacedAppends(buffer[..], readerIndex, writerIndex, data);
      CopyAround(data, buffer, writerIndex);
      writerIndex := Wrap(writerIndex + |data|, size);
    }

    method EnsureWritableBytes(len: nat)
      requires Valid()
      modifies this
      ensures Valid() && (buffer == old(buffer) || fresh(buffer))
      ensures Contents() == old(Contents()) && WritableBytes() >= len
      ensures old(WritableBytes()) >= len ==> unchanged(this)
      decreases if WritableBytes() < len then 1 else 0, 1
    {
      if WritableBytes() < len {
        Extend(len);
      }
    }

    // Twice the room that is needed, in a new buffer; its appends do not extend again.
    method Extend(len: nat)
      requires Valid() && WritableBytes() < len
      modifies this
      ensures Valid() && fresh(buffer)
      ensures Contents() == old(Contents()) && WritableBytes() >= len
      ensures size == (len + |Contents()|) * 2 + 1
      decreases 1, 0
    {
      ghost var readable := Contents();
      var rlen := ReadableBytes();
      var tmp := new Buffer((len + rlen) * 2);
      if NeedRewind() {
        var first, second := buffer[readerIndex..], buffer[..writerIndex];
        assert readable == first + second;
        tmp.Append(first);
        assert tmp.Contents() == first && tmp.WritableBytes() >= |second|;
        tmp.Append(second);
      } else {
        assert readable == buffer[readerIndex..writerIndex];
        tmp.Append(buffer[readerIndex..writerIndex]);
      }
      assert tmp.Contents() == readable && tmp.WritableBytes() >= len;
      tmp.Swap(this);
    }

    method RetrieveAll()
      requires Valid()
      modifies this
      ensures Valid() && buffer == old(buffer) && Contents() == [] && readerIndex == 0 && writerIndex == 0
    {
      readerIndex, writerIndex := 0, 0;
    }

    // Asking for more than there is takes everything.
    method Retrieve(len: nat)
      requires Valid()
      modifies this
      ensures Valid() && buffer == old(buffer) && (Contents() == [] ==> readerIndex == 0 && writerIndex == 0)
      ensures Contents() == old(Contents())[if len < |old(Contents())| then len else |old(Contents())|..]
    {
      if len < ReadableBytes() {
        readerIndex := Wrap(readerIndex + len, size);
      } else {
        RetrieveAll();
      }
    }

    // The string has every readable byte whatever len is, while only len of them leave the buffer,
    // so it is the first len bytes exactly when len is not less than what there is.
    method RetrieveAsString(len: nat) returns (s: seq<Byte>)
      requires Valid()
      modifies this
      ensures Valid() && buffer == old(buffer)
      ensures s == old(Contents())
      ensures Contents() == old(Contents())[if len < |old(Contents())| then len else |old(Contents())|..]
      ensures s + Contents() == old(Contents()) <==> len >= |old(Contents())|
    {
      if NeedRewind() {
        s := buffer[readerIndex..] + buffer[..writerIndex];
      } else {
        s := buffer[readerIndex..writerIndex];
      }
      Retrieve(if len < ReadableBytes() then len else ReadableBytes());
    }

    method RetrieveAllAsString() returns (s: seq<Byte>)
      requires Valid()
      modifies this
      ensures Valid() && buffer == old(buffer) && s == old(Contents()) && Contents() == []
    {
      s := RetrieveAsString(ReadableBytes());
    }
  }

  // Writing data at the write index, short of the end, appends it to what is readable.
  lemma WriteInside(was: seq<Byte>, now: seq<Byte>, r: nat, w: nat, data: seq<Byte>)
    requires r < |was| && w + |data| < |was| && |Readable(was, r, w)| + |data| < |was|
    requires now == was[..w] + data + was[w + |data|..]
    ensures |now| == |was| && Readable(now, r, w + |data|) == Readable(was, r, w) + data
  {
  }

  // The same when the data reaches the end and continues at the front.
  lemma WriteAround(was: seq<Byte>, now: seq<Byte>, r: nat, w: nat, data: seq<Byte>)
    requires r <= w < |was| <= w + |data| && |Readable(was, r, w)| + |data| < |was|
    requires var tail := |was| - w; now == data[tail..] + was[|data| - tail..w] + data[..tail]
    ensures |now| == |was| && Readable(now, r, w + |data| - |was|) == Readable(was, r, w) + data
  {
  }

  /** Writing where there is room appends to what is readable, wherever the indices are. */
  lemma PlacedAppends(was: seq<Byte>, r: nat, w: nat, data: seq<Byte>)
    requires r < |was| && w < |was| && |Readable(was, r, w)| + |data| < |was|
    ensures |Placed(was, w, data)| == |was|
    ensures Readable(Placed(was, w, data), r, Wrap(w + |data|, |was|)) == Readable(was, r, w) + data
  {
    if w + |data| < |was| {
      WriteInside(was, Placed(was, w, data), r, w, data);
    } else {
      assert r <= w;
      WriteAround(was, Placed(was, w, data), r, w, data);
    }
  }
}
