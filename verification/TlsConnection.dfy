/** `tcp_ssl_read` on the real layout: a fixed array filled backwards from its end. */
module TlsConnectionObject {
  import opened Words
  import opened TlsAccumulator

  class TlsConnection {
    const accum: array<byte>     // recvrec_accum
    var pos: nat                 // recvrec_accum_pos
    ghost var fed: bytes         // everything handed to the engine
    ghost var received: bytes    // everything taken from TCP
    ghost var credits: seq<nat>  // the calls of tcp_recved

    ghost predicate Valid()
      reads this
    {
      pos <= accum.Length
    }

    /** What is retained. */
    ghost function Content(): bytes
      requires Valid()
      reads this, accum
    {
      accum[pos..]
    }

    ghost function View(): Accum<byte>
      requires Valid()
      reads this, accum
    {
      Accum(accum.Length, Content(), fed, received)
    }

    constructor (size: nat)
      ensures Valid() && View() == Accum(size, [], [], []) && credits == [] && fresh(accum)
    {
      accum := new byte[size];
      pos := size;
      fed, received, credits := [], [], [];
    }

    /** `pbuf_copy_partial` into the array, `n` bytes of `seg` from `offset`. */
    method CopyIn(seg: bytes, offset: nat, at: nat, n: nat)
      requires offset + n <= |seg| && at + n <= accum.Length
      modifies accum
      ensures accum[at..at + n] == seg[offset..offset + n]
      ensures accum[..at] == old(accum[..at]) && accum[at + n..] == old(accum[at + n..])
    {
      forall i | 0 <= i < n {
        accum[at + i] := seg[offset + i];
      }
    }

    /** Store `n` bytes of `seg` in front of what the array holds. */
    method StoreFront(seg: bytes, offset: nat, n: nat)
      requires Valid() && offset + n <= |seg| && n <= pos
      modifies this`pos, accum
      ensures Valid() && pos == old(pos) - n
      ensures Content() == seg[offset..offset + n] + old(Content())
    {
      ghost var before := Content();
      CopyIn(seg, offset, pos - n, n);
      assert accum[pos..] == before;
      pos := pos - n;
      assert accum[pos..] == accum[pos..pos + n] + accum[pos + n..];
    }

    /** The copy loop.  `overflow` is exactly a segment longer than the free space;
        otherwise the whole segment lies, in one piece, before what was retained. */
    method Accumulate(seg: bytes) returns (overflow: bool)
      requires Valid()
      modifies this`pos, accum
      ensures Valid()
      ensures overflow == (|seg| > old(pos))
      ensures !overflow ==> pos == old(pos) - |seg| && Content() == seg + old(Content())
      ensures overflow ==> pos == 0 && Content() == seg[..old(pos)] + old(Content())
    {
      var remaining, offset := |seg|, 0;
      ghost var before := Content();
      while remaining > 0
        invariant Valid() && offset + remaining == |seg|
        invariant offset == 0 ==> pos == old(pos) && Content() == before
        invariant offset > 0 ==> offset == Min(|seg|, old(pos)) && pos == old(pos) - offset
        invariant offset > 0 ==> Content() == seg[..offset] + before
        decreases remaining
      {
        var space := pos;
        if space == 0 {
          // The engine is given a turn here, which leaves the accumulator alone.
          break;
        }
        var toCopy := if remaining < space then remaining else space;
        StoreFront(seg, offset, toCopy);
        offset := offset + toCopy;
        remaining := remaining - toCopy;
        assert seg[0..toCopy] == seg[..toCopy];
      }
      overflow := remaining > 0;
      assert seg[..|seg|] == seg && seg[..0] + before == before;
    }

    /** The feed loop: at most ten rounds, each copying from the position onwards. */
    method Feed(rounds: seq<Round>) returns (consumed: nat)
      requires Valid()
      modifies this`fed
      ensures consumed == Consumed(|Content()|, rounds, 0)
      ensures fed == old(fed) + Content()[..consumed]
    {
      var length := accum.Length - pos;
      consumed := 0;
      var loops := 0;
      ghost var content, before := Content(), fed;
      assert before + content[..0] == before;
      while consumed < length && loops < MAX_FEED_LOOPS
        invariant 0 <= consumed <= length && 0 <= loops <= MAX_FEED_LOOPS
        invariant consumed + Consumed(length - consumed, rounds, loops) == Consumed(length, rounds, 0)
        invariant fed == before + content[..consumed]
      {
        // what the engine offers, after a turn of processing if at first nothing
        var available := Offer(rounds, loops);
        if available == 0 {
          break;
        }
        consumed := FeedRound(consumed, available, rounds, loops, content, before);
        loops := loops + 1;
      }
    }

    /** One round of it: copy as much as the engine takes from `consumed` on. */
    method FeedRound(consumed: nat, available: nat, ghost rounds: seq<Round>, ghost i: nat,
                     ghost content: bytes, ghost before: bytes)
      returns (more: nat)
      requires Valid() && content == Content() && consumed < |content|
      requires fed == before + content[..consumed] && i < MAX_FEED_LOOPS && available == Offer(rounds, i) > 0
      modifies this`fed
      ensures consumed < more <= |content| && fed == before + content[..more]
      ensures Consumed(|content| - consumed, rounds, i) ==
        more - consumed + Consumed(|content| - more, rounds, i + 1)
    {
      var left := accum.Length - pos - consumed;
      var toFeed := if left < available then left else available;
      more := consumed + toFeed;
      fed := fed + accum[pos + consumed..pos + more];
      assert content[..consumed] + accum[pos + consumed..pos + more] == content[..more];
      ConsumedRound(left, rounds, i);
    }

    /** `memmove` within the array. */
    method MoveWithin(dst: nat, src: nat, n: nat)
      requires dst + n <= accum.Length && src + n <= accum.Length
      modifies accum
      ensures accum[dst..dst + n] == old(accum[src..src + n])
      ensures dst == src ==> accum[..] == old(accum[..])
    {
      forall i | 0 <= i < n {
        accum[dst + i] := accum[src + i];
      }
    }

    /** The end of the feed: keep what was not consumed at the end of the array.  The
        bytes are already there, so the move copies a range onto itself. */
    method Compact(consumed: nat)
      requires Valid() && consumed <= accum.Length - pos
      modifies this`pos, accum
      ensures Valid() && pos == old(pos) + consumed
      ensures accum[..] == old(accum[..]) && Content() == old(Content())[consumed..]
    {
      var length := accum.Length - pos;
      if consumed > 0 && consumed < length {
        var remaining := length - consumed;
        assert accum.Length - remaining == pos + consumed;
        MoveWithin(accum.Length - remaining, pos + consumed, remaining);
        pos := accum.Length - remaining;
      } else if consumed > 0 {
        pos := accum.Length;
      }
    }

    /** `tcp_ssl_read`; `closed` says that the engine has closed the connection when
        all is done.  The result is negative when the caller must close. */
    method Read(seg: bytes, rounds: seq<Round>, closed: bool) returns (code: int)
      requires Valid()
      modifies this`pos, this`fed, this`received, this`credits, accum
      ensures Valid()
      ensures code == 0 || code == -1
      ensures code == -1 <==> |seg| > old(pos) || closed
      ensures Overflows(old(View()), seg) <==> |seg| > old(pos)
      ensures |seg| <= old(pos) ==>
        View() == ReadSegment(old(View()), seg, rounds) && credits == old(credits) + [|seg|]
      ensures |seg| > old(pos) ==>
        && pos == 0 && Content() == seg[..old(pos)] + old(Content())
        && fed == old(fed) && received == old(received) && credits == old(credits)
    {
      var overflow := Accumulate(seg);
      if overflow {
        return -1;
      }
      credits := credits + [|seg|];
      received := received + seg;
      var consumed := Feed(rounds);
      Compact(consumed);
      return if closed then -1 else 0;
    }
  }
}
