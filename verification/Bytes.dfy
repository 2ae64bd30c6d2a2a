/** Bytes, and std::copy on arrays of them: one element at a time, front to back. */
module Bytes {
  type Byte = b: int | 0 <= b < 256

  // Copy a sequence into the array.
  method CopyIn(data: seq<Byte>, a: array<Byte>, at: nat)
    requires at + |data| <= a.Length
    modifies a
    ensures a[..] == old(a[..at]) + data + old(a[at + |data|..])
  {
    for i := 0 to |data|
      invariant a[..at] == old(a[..at]) && a[at..at + i] == data[..i]
      invariant a[at + i..] == old(a[at + i..])
    {
      a[at + i] := data[i];
      assert a[at + i + 1..] == old(a[at + i..])[1..];
    }
  }

  // Copy n elements from one place of an array to an earlier one; the two may overlap.
  method MoveDown(a: array<Byte>, source: nat, dest: nat, n: nat)
    requires dest <= source && source + n <= a.Length
    modifies a
    ensures a[dest..dest + n] == old(a[source..source + n])
  {
    for i := 0 to n
      invariant a[dest..dest + i] == old(a[source..source + i])
      invariant forall k :: source + i <= k < a.Length ==> a[k] == old(a[k])
    {
      a[dest + i] := a[source + i];
      assert a[dest..dest + i + 1] == a[dest..dest + i] + [a[dest + i]];
    }
  }
}
