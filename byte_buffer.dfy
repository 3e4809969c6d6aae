/**
 * The part of `java.nio.ByteBuffer` the encoder uses: a buffer of fixed
 * capacity, allocated zero-filled, written by relative `put` calls that
 * advance its position.
 */
module ByteBuffers {
  import opened Tlv

  class ByteBuffer {
    /** The octets written so far: the public view of the buffer. */
    ghost var Written: seq<byte>

    /** The backing array; its length is the buffer's capacity. */
    const data: array<byte>
    /** The index of the next octet to be written. */
    var position: nat

    ghost predicate Valid()
      reads this, data
    {
      position <= data.Length && Written == data[..position]
    }

    /** `ByteBuffer.allocate(capacity)`: position 0 and every octet zero. */
    constructor Allocate(capacity: nat)
      ensures Valid() && fresh(data)
      ensures data.Length == capacity && Written == []
      ensures forall i :: 0 <= i < capacity ==> data[i] == 0
    {
      data := new byte[capacity](_ => 0);
      position := 0;
      Written := [];
    }

    /** Octets that can still be written. */
    function Remaining(): (r: nat)
      reads this, data
      requires Valid()
      ensures |Written| + r == data.Length
    {
      data.Length - position
    }

    /** `put(byte)`: appends one octet. */
    method Put(b: byte)
      requires Valid() && |Written| < data.Length
      modifies this, data
      ensures Valid() && Written == old(Written) + [b]
    {
      data[position] := b;
      position := position + 1;
      Written := Written + [b];
    }

    /** `put(byte[])`: appends the octets of `src` in order. */
    method PutBytes(src: seq<byte>)
      requires Valid() && |Written| + |src| <= data.Length
      modifies this, data
      ensures Valid() && Written == old(Written) + src
    {
      var i := 0;
      while i < |src|
        invariant 0 <= i <= |src|
        invariant Valid()
        invariant Written == old(Written) + src[..i]
      {
        Put(src[i]);
        i := i + 1;
      }
    }
  }
}
