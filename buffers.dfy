/**
 * The part of `java.nio.ByteBuffer` the stream uses: a fixed-capacity byte
 * array with a position and a limit.  In write mode the limit is the
 * capacity and `data[..position]` holds the bytes put so far; `Flip` switches
 * to read mode, where `data[..limit]` is what can be read.
 */
module Buffers {
  import opened Bytes

  class ChunkBuffer {
    const data: array<Byte>
    var position: nat
    var limit: nat

    ghost predicate Valid()
      reads this
    {
      position <= limit <= data.Length
    }

    /** `ByteBuffer.allocateDirect(capacity)`: empty, in write mode. */
    constructor (capacity: nat)
      ensures Valid() && fresh(data) && data.Length == capacity
      ensures position == 0 && limit == capacity
    {
      data := new Byte[capacity];
      position, limit := 0, capacity;
    }

    /** `put(b)`: store `b` at the position and advance it; there must be room before the limit. */
    method Put(b: Byte)
      requires Valid() && position < limit
      modifies this, data
      ensures Valid() && limit == old(limit)
      ensures position == old(position) + 1
      ensures data[..position] == old(data[..position]) + [b]
    {
      data[position] := b;
      position := position + 1;
    }

    /** `flip()`: the limit becomes the position and the position goes back to zero; the bytes stay. */
    method Flip()
      requires Valid()
      modifies this
      ensures Valid() && limit == old(position) && position == 0
    {
      limit := position;
      position := 0;
    }

    /** `clear()`: back to write mode with nothing put; the bytes are not erased. */
    method Clear()
      modifies this
      ensures Valid() && position == 0 && limit == data.Length
    {
      position := 0;
      limit := data.Length;
    }
  }

  /** Every buffer of `pool` lies in `repr`, with its array, and has room for exactly `size` bytes. */
  ghost predicate PoolWithin(pool: seq<ChunkBuffer>, repr: set<object>, size: nat)
  {
    pool == [] || (pool[0] in repr && pool[0].data in repr && pool[0].data.Length == size && PoolWithin(pool[1..], repr, size))
  }

  lemma {:induction false} PoolWithinAppend(pool: seq<ChunkBuffer>, b: ChunkBuffer, repr: set<object>, size: nat)
    requires PoolWithin(pool, repr, size) && b in repr && b.data in repr && b.data.Length == size
    ensures PoolWithin(pool + [b], repr, size)
  {
    if pool == [] {
      assert pool + [b] == [b];
      assert [b][1..] == [];
    } else {
      assert (pool + [b])[1..] == pool[1..] + [b];
      PoolWithinAppend(pool[1..], b, repr, size);
    }
  }
}
