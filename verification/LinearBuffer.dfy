/**
 buffer.h and buffer.cc: a vector with a read index and a write index, and some room
 before the data. Its contents are the readable bytes; every operation is a
 concatenation or a drop on them, whether or not it compacts or grows the vector.
 */
module LinearBuffer {
  import opened Bytes

  const CHEAP_PREPEND: nat := 8
  const EXTRA_SIZE: nat := 65536

  // What readv(2) does: it fails with an errno, or fills the buffers it was given in order.
  datatype ReadResult = Failed(errno: int) | Delivered(bytes: seq<Byte>)

  class Buffer {
    var buffer: array<Byte>
    var readerIndex: nat
    var writerIndex: nat

    ghost predicate Valid()
      reads this
    {
      readerIndex <= writerIndex <= buffer.Length && CHEAP_PREPEND <= buffer.Length
    }

    ghost function Contents(): (s: seq<Byte>)
      requires Valid()
      reads this, buffer
      ensures |s| == writerIndex - readerIndex
    {
      buffer[readerIndex..writerIndex]
    }

    constructor (initialSize: nat)
      ensures Valid() && fresh(buffer) && Contents() == []
      ensures PrependableBytes() == CHEAP_PREPEND && WritableBytes() == initialSize
    {
      buffer := new Byte[CHEAP_PREPEND + initialSize](_ => 0);
      readerIndex, writerIndex := CHEAP_PREPEND, CHEAP_PREPEND;
    }

    function PrependableBytes(): nat
      reads this
    {
      readerIndex
    }

    function ReadableBytes(): (n: nat)
      requires Valid()
      reads this, buffer
      ensures n == |Contents()|
    {
      writerIndex - readerIndex
    }

    function WritableBytes(): nat
      requires Valid()
      reads this
    {
      buffer.Length - writerIndex
    }

    method Prepend(data: seq<Byte>)
      requires Valid() && |data| <= PrependableBytes()
      modifies this, buffer
      ensures Valid() && buffer == old(buffer) && Contents() == data + old(Contents())
      ensures PrependableBytes() == old(PrependableBytes()) - |data|
    {
      ghost var was, r, w := buffer[..], readerIndex, writerIndex;
      readerIndex := readerIndex - |data|;
      CopyIn(data, buffer, readerIndex);
      PlacedBefore(was, buffer[..], r, w, data);
      assert Contents() == buffer[..][readerIndex..w];
    }

    method RetrieveAll()
      requires Valid()
      modifies this
      ensures Valid() && buffer == old(buffer) && Contents() == []
      ensures PrependableBytes() == CHEAP_PREPEND
    {
      readerIndex, writerIndex := CHEAP_PREPEND, CHEAP_PREPEND;
    }

    method Retrieve(len: nat)
      requires Valid() && len <= |Contents()|
      modifies this
      ensures Valid() && buffer == old(buffer) && Contents() == old(Contents())[len..]
      ensures PrependableBytes() == if len < |old(Contents())| then old(PrependableBytes()) + len else CHEAP_PREPEND
    {
      if len < ReadableBytes() {
        readerIndex := readerIndex + len;
      } else {
        RetrieveAll();
      }
    }

    method RetrieveAsString(len: nat) returns (s: seq<Byte>)
      requires Valid() && len <= |Contents()|
      modifies this
      ensures Valid() && buffer == old(buffer)
      ensures s == old(Contents())[..len] && Contents() == old(Contents())[len..]
      ensures PrependableBytes() == if len < |old(Contents())| then old(PrependableBytes()) + len else CHEAP_PREPEND
    {
      s := buffer[readerIndex..readerIndex + len];
      assert Contents() == s + buffer[readerIndex + len..writerIndex];
      Retrieve(len);
    }

    method Unwrite(len: nat)
      requires Valid() && len <= |Contents()|
      modifies this
      ensures Valid() && buffer == old(buffer) && Contents() == old(Contents())[..|old(Contents())| - len]
      ensures PrependableBytes() == old(PrependableBytes())
    {
      writerIndex := writerIndex - len;
    }

    // Bytes are put at the write index, which moves behind them: std::copy or the kernel, and hasWritten.
    method Write(data: seq<Byte>)
      requires Valid() && |data| <= WritableBytes()
      modifies this`writerIndex, buffer
      ensures Valid() && Contents() == old(Contents()) + data
      ensures writerIndex == old(writerIndex) + |data|
    {
      ghost var was, r, w := buffer[..], readerIndex, writerIndex;
      CopyIn(data, buffer, writerIndex);
      writerIndex := writerIndex + |data|;
      Placed(was, buffer[..], r, w, data);
      assert Contents() == buffer[..][r..w + |data|];
    }

    method Append(data: seq<Byte>)
      requires Valid()
      modifies this, buffer
      ensures Valid() && (buffer == old(buffer) || fresh(buffer))
      ensures Contents() == old(Contents()) + data
      ensures old(WritableBytes()) >= |data| ==> buffer == old(buffer) && PrependableBytes() == old(PrependableBytes())
      ensures old(WritableBytes() + PrependableBytes()) >= |data| + CHEAP_PREPEND ==> buffer == old(buffer)
    {
      EnsureWritableBytes(|data|);
      Write(data);
    }

    method EnsureWritableBytes(len: nat)
      requires Valid()
      modifies this, buffer
      ensures Valid() && (buffer == old(buffer) || fresh(buffer))
      ensures Contents() == old(Contents()) && WritableBytes() >= len
      ensures old(WritableBytes()) >= len ==> buffer == old(buffer) && unchanged(this)
      ensures old(WritableBytes() + PrependableBytes()) >= len + CHEAP_PREPEND ==> buffer == old(buffer)
    {
      if WritableBytes() < len {
        Extend(len);
      }
    }

    // Grow the vector to the size that is needed, or, when the room before the data is enough, move the data
    // to its front.
    method Extend(len: nat)
      requires Valid() && WritableBytes() < len
      modifies this, buffer
      ensures Valid() && (buffer == old(buffer) || fresh(buffer))
      ensures Contents() == old(Contents()) && WritableBytes() >= len
      ensures if old(WritableBytes() + PrependableBytes()) < len + CHEAP_PREPEND
              then buffer.Length == old(writerIndex) + len && PrependableBytes() == old(PrependableBytes())
              else buffer == old(buffer) && PrependableBytes() == CHEAP_PREPEND
    {
      if WritableBytes() + PrependableBytes() < len + CHEAP_PREPEND {
        Resize(writerIndex + len);
      } else {
        assert CHEAP_PREPEND < readerIndex;
        var readable := ReadableBytes();
        MoveDown(buffer, readerIndex, CHEAP_PREPEND, readable);
        readerIndex := CHEAP_PREPEND;
        writerIndex := readerIndex + readable;
      }
    }

    // std::vector::resize to a larger size
    method Resize(size: nat)
      requires Valid() && size > buffer.Length
      modifies this`buffer
      ensures Valid() && fresh(buffer) && buffer.Length == size
      ensures buffer[..old(buffer.Length)] == old(buffer[..])
      ensures Contents() == old(Contents())
    {
      var larger := new Byte[size](_ => 0);
      CopyIn(buffer[..], larger, 0);
      SamePrefix(buffer[..], larger[..], readerIndex, writerIndex);
      assert larger[..buffer.Length] == larger[..][..buffer.Length];
      assert larger[readerIndex..writerIndex] == larger[..][readerIndex..writerIndex];
      buffer := larger;
    }

    // readv(2) into the writable tail and then, if that is small, into an area on the stack.
    method ReadFd(result: ReadResult) returns (n: int, savedErrno: int)
      requires Valid()
      requires result.Delivered? ==>
                 |result.bytes| <= WritableBytes() + if WritableBytes() < EXTRA_SIZE then EXTRA_SIZE else 0
      modifies this, buffer
      ensures Valid() && (buffer == old(buffer) || fresh(buffer))
      ensures match result
              case Failed(errno) => n < 0 && savedErrno == errno && Contents() == old(Contents())
              case Delivered(bytes) => n == |bytes| && Contents() == old(Contents()) + bytes
    {
      savedErrno := 0;
      var writable := WritableBytes();
      match result {
        case Failed(errno) =>
          n := -1;
          savedErrno := errno;
        case Delivered(bytes) =>
          n := |bytes|;
          if n <= writable {
            Write(bytes);
          } else {
            InTwoParts(Contents(), bytes, writable);
            Write(bytes[..writable]);
            assert writerIndex == buffer.Length;
            var extrabuf := bytes[writable..];
            Append(extrabuf);
          }
      }
    }
  }

  lemma InTwoParts(before: seq<Byte>, bytes: seq<Byte>, n: nat)
    requires n <= |bytes|
    ensures before + bytes[..n] + bytes[n..] == before + bytes
  {
    assert bytes == bytes[..n] + bytes[n..];
  }

  lemma PlacedBefore(was: seq<Byte>, now: seq<Byte>, r: nat, w: nat, data: seq<Byte>)
    requires |data| <= r <= w <= |was|
    requires now == was[..r - |data|] + data + was[r..]
    ensures |now| == |was| && now[r - |data|..w] == data + was[r..w]
  {
  }

  lemma Placed(was: seq<Byte>, now: seq<Byte>, r: nat, w: nat, data: seq<Byte>)
    requires r <= w && w + |data| <= |was|
    requires now == was[..w] + data + was[w + |data|..]
    ensures |now| == |was| && now[r..w + |data|] == was[r..w] + data
  {
  }

  lemma SamePrefix(short: seq<Byte>, long: seq<Byte>, r: nat, w: nat)
    requires r <= w <= |short| <= |long| && long == short + long[|short|..]
    ensures long[..|short|] == short && long[r..w] == short[r..w]
  {
  }
}
