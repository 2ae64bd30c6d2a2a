/**
 Both buffers refine one byte sequence over whole operation sequences: a client that
 drives them with the operations they share cannot tell them apart, and the linear
 buffer's own operations act on the same sequence.
 */
module BufferRefinement {
  import opened Bytes
  import L = LinearBuffer
  import R = RingBuffer

  // Copying replaces a buffer by a copy of itself, which the linear one gets from std::vector.
  datatype Op =
    | Append(data: seq<Byte>) | Retrieve(len: nat) | RetrieveAll | Copy
    | Prepend(data: seq<Byte>) | Unwrite(len: nat) | ReadFd(result: L.ReadResult)

  predicate Shared(op: Op) {
    !op.Prepend? && !op.Unwrite? && !op.ReadFd?
  }

  function Min(a: nat, b: nat): nat { if a < b then a else b }

  function Apply(s: seq<Byte>, op: Op): seq<Byte> {
    match op
    case Append(data) => s + data
    case Retrieve(len) => s[Min(len, |s|)..]
    case RetrieveAll => []
    case Copy => s
    case Prepend(data) => data + s
    case Unwrite(len) => s[..|s| - Min(len, |s|)]
    case ReadFd(result) => if result.Delivered? then s + result.bytes else s
  }

  function ApplyAll(s: seq<Byte>, ops: seq<Op>): seq<Byte> {
    if ops == [] then s else Apply(ApplyAll(s, ops[..|ops| - 1]), ops[|ops| - 1])
  }

  // prepend's assert, and what readv(2) can deliver into the buffers it is given.
  predicate Possible(b: L.Buffer, op: Op)
    requires b.Valid()
    reads b, b.buffer
  {
    match op
    case Prepend(data) => |data| <= b.PrependableBytes()
    case ReadFd(Delivered(bytes)) =>
      |bytes| <= b.WritableBytes() + if b.WritableBytes() < L.EXTRA_SIZE then L.EXTRA_SIZE else 0
    case _ => true
  }

  method StepLinear(b: L.Buffer, op: Op)
    requires b.Valid() && Possible(b, op)
    modifies b, b.buffer
    ensures b.Valid() && (b.buffer == old(b.buffer) || fresh(b.buffer))
    ensures b.Contents() == Apply(old(b.Contents()), op)
  {
    match op
    case Append(data) => b.Append(data);
    case Retrieve(len) => b.Retrieve(Min(len, b.ReadableBytes()));
    case RetrieveAll => b.RetrieveAll();
    case Copy =>
    case Prepend(data) => b.Prepend(data);
    case Unwrite(len) => b.Unwrite(Min(len, b.ReadableBytes()));
    case ReadFd(result) => var _, _ := b.ReadFd(result);
  }

  method StepRing(b: R.Buffer, op: Op)
    requires b.Valid() && Shared(op)
    modifies b, b.buffer
    ensures b.Valid() && (b.buffer == old(b.buffer) || fresh(b.buffer))
    ensures b.Contents() == Apply(old(b.Contents()), op)
  {
    match op
    case Append(data) => b.Append(data);
    case Retrieve(len) => b.Retrieve(len);
    case RetrieveAll => b.RetrieveAll();
    case Copy => b.Assign(b);
  }

  /** Whatever the operations that both have, and the initial sizes. */
  method Lockstep(ops: seq<Op>, linearSize: nat, ringSize: nat) returns (linear: L.Buffer, ring: R.Buffer)
    requires forall op :: op in ops ==> Shared(op)
    ensures linear.Valid() && ring.Valid()
    ensures linear.Contents() == ring.Contents() == ApplyAll([], ops)
  {
    linear := new L.Buffer(linearSize);
    ring := new R.Buffer(ringSize);
    for i := 0 to |ops|
      invariant fresh(linear) && fresh(linear.buffer) && linear.Valid()
      invariant fresh(ring) && fresh(ring.buffer) && ring.Valid()
      invariant linear.buffer != ring.buffer
      invariant linear.Contents() == ring.Contents() == ApplyAll([], ops[..i])
    {
      assert ops[..i + 1][..i] == ops[..i] && ops[i] in ops;
      StepLinear(linear, ops[i]);
      StepRing(ring, ops[i]);
    }
    assert ops[..|ops|] == ops;
  }

  /** The linear buffer with all its operations: it acts on the byte sequence up to the first one that its
      caller may not ask for, and that can only be a prepend without room or a delivery that is too large. */
  method Drive(ops: seq<Op>, size: nat) returns (b: L.Buffer, n: nat)
    ensures b.Valid() && n <= |ops|
    ensures b.Contents() == ApplyAll([], ops[..n])
    ensures n < |ops| ==> !Possible(b, ops[n])
  {
    b := new L.Buffer(size);
    n := 0;
    while n < |ops| && Possible(b, ops[n])
      invariant n <= |ops|
      invariant fresh(b) && fresh(b.buffer) && b.Valid()
      invariant b.Contents() == ApplyAll([], ops[..n])
    {
      assert ops[..n + 1][..n] == ops[..n];
      StepLinear(b, ops[n]);
      n := n + 1;
    }
  }
}
