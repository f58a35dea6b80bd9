/** The bounded byte queue both halves of AsyncTCPBuffer store bytes in.  It stands
    for the platform's `cbuf`, with capacity `cap` and a link to the next queue. */
module CbufObject {
  import opened Words

  class Cbuf {
    var data: bytes
    var cap: nat
    var next: Cbuf?

    constructor (size: nat)
      ensures data == [] && cap == size && next == null
    {
      data, cap, next := [], size, null;
    }

    function Room(): nat
      reads this
    {
      if |data| < cap then cap - |data| else 0
    }

    function IsFull(): bool
      reads this
    {
      Room() == 0
    }

    /** Appends what fits. */
    method Write(d: bytes) returns (n: nat)
      modifies this`data
      ensures n == Min(old(Room()), |d|)
      ensures data == old(data) + d[..n]
    {
      n := Min(Room(), |d|);
      data := data + d[..n];
    }

    /** The first `n` bytes, left where they are. */
    function Peek(n: nat): bytes
      requires n <= |data|
      reads this
    {
      data[..n]
    }

    /** Drops up to `n` bytes from the front. */
    method Remove(n: nat)
      modifies this`data
      ensures data == old(data)[Min(n, |old(data)|)..]
    {
      data := data[Min(n, |data|)..];
    }

    /** Takes up to `n` bytes from the front. */
    method Read(n: nat) returns (d: bytes)
      modifies this`data
      ensures d == old(data)[..Min(n, |old(data)|)]
      ensures data == old(data)[Min(n, |old(data)|)..]
    {
      d := data[..Min(n, |data|)];
      data := data[Min(n, |data|)..];
    }

    /** Changes the capacity, never dropping bytes; may be refused. */
    method Resize(size: nat, granted: bool)
      modifies this`cap
      ensures cap == if granted && size >= |data| then size else old(cap)
    {
      if granted && size >= |data| {
        cap := size;
      }
    }
  }
}
