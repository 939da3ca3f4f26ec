/** Octets, Java `int`s and the concatenation of byte chunks. */
module Bytes {

  /** An octet, held as its unsigned value (the bit pattern of a Java `byte`). */
  type Byte = x: int | 0 <= x < 256

  /** The range of a Java `int`. */
  type Int32 = x: int | -0x8000_0000 <= x < 0x8000_0000

  /** Java's narrowing cast `(byte) b`: the result keeps the low eight bits of `b`. */
  function ToByte(b: int): (r: Byte)
    ensures (b - r) % 256 == 0
  {
    b % 256
  }

  /** The bytes of a sequence of chunks, one chunk after the other. */
  function Flatten(chunks: seq<seq<Byte>>): seq<Byte>
  {
    if chunks == [] then [] else chunks[0] + Flatten(chunks[1..])
  }

  lemma {:induction false} FlattenAppend(a: seq<seq<Byte>>, b: seq<seq<Byte>>)
    ensures Flatten(a + b) == Flatten(a) + Flatten(b)
  {
    if a == [] {
      assert a + b == b;
    } else {
      assert (a + b)[1..] == a[1..] + b;
      FlattenAppend(a[1..], b);
    }
  }

  /** Every chunk holds at least one and at most `max` bytes. */
  predicate ChunksWithin(chunks: seq<seq<Byte>>, max: int)
  {
    chunks == [] || (0 < |chunks[0]| <= max && ChunksWithin(chunks[1..], max))
  }

  lemma {:induction false} ChunksWithinAppend(a: seq<seq<Byte>>, b: seq<seq<Byte>>, max: int)
    ensures ChunksWithin(a + b, max) <==> ChunksWithin(a, max) && ChunksWithin(b, max)
  {
    if a == [] {
      assert a + b == b;
    } else {
      assert (a + b)[1..] == a[1..] + b;
      ChunksWithinAppend(a[1..], b, max);
    }
  }
}
