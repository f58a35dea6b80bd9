/** The record accumulator of `tcp_ssl_read` (src/tcp_bearssl.cpp): received bytes are
    stored at the end of a fixed array that fills backwards, and are drained forwards
    into the TLS engine.  Generic in what a "byte" is, so that bytes can carry the
    stamp of their arrival. */
module TlsAccumulator {
  import opened Words

  const MAX_FEED_LOOPS: nat := 10

  /** What the engine offers in one round of the feed loop, and what it offers after
      processing when that was nothing. */
  datatype Round = Round(first: nat, again: nat)

  /** What a round offers; rounds beyond the given list offer nothing. */
  function Offer(rounds: seq<Round>, i: nat): nat {
    if i >= |rounds| then 0 else if rounds[i].first != 0 then rounds[i].first else rounds[i].again
  }

  /** How many of `left` bytes the feed loop moves from round `i` on. */
  function Consumed(left: nat, rounds: seq<Round>, i: nat): (n: nat)
    requires i <= MAX_FEED_LOOPS
    ensures n <= left
    decreases MAX_FEED_LOOPS - i
  {
    if left == 0 || i == MAX_FEED_LOOPS || Offer(rounds, i) == 0 then 0
    else
      var n := Min(left, Offer(rounds, i));
      n + Consumed(left - n, rounds, i + 1)
  }

  /** One round of the loop. */
  lemma ConsumedRound(left: nat, rounds: seq<Round>, i: nat)
    requires i < MAX_FEED_LOOPS && left > 0 && Offer(rounds, i) > 0
    ensures var n := Min(left, Offer(rounds, i));
      Consumed(left, rounds, i) == n + Consumed(left - n, rounds, i + 1)
  {
  }

  /** `content` is what the array holds from its position to its end, in order. */
  datatype Accum<T> = Accum(size: nat, content: seq<T>, fed: seq<T>, received: seq<T>)

  function Space<T>(a: Accum<T>): nat { if |a.content| <= a.size then a.size - |a.content| else 0 }

  /** The segment does not fit: the connection is closed. */
  predicate Overflows<T>(a: Accum<T>, seg: seq<T>) { |seg| > Space(a) }

  /** It fits if and only if it and what is retained fit the array together. */
  lemma OverflowsExactly<T>(a: Accum<T>, seg: seq<T>)
    requires |a.content| <= a.size
    ensures Overflows(a, seg) <==> |seg| + |a.content| > a.size
  {
  }

  /** An accepted segment is put in front of what was retained, and the engine is
      fed from the front. */
  function ReadSegment<T>(a: Accum<T>, seg: seq<T>, rounds: seq<Round>): Accum<T> {
    var all := seg + a.content;
    var n := Consumed(|all|, rounds, 0);
    Accum(a.size, all[n..], a.fed + all[..n], a.received + seg)
  }

  // ---- runs of accepted segments

  datatype Call<T> = Call(seg: seq<T>, rounds: seq<Round>)

  ghost predicate Accepts<T>(a: Accum<T>, calls: seq<Call<T>>)
    decreases |calls|
  {
    calls == [] ||
    (!Overflows(a, calls[0].seg) && Accepts(ReadSegment(a, calls[0].seg, calls[0].rounds), calls[1..]))
  }

  function ReadAll<T>(a: Accum<T>, calls: seq<Call<T>>): Accum<T>
    decreases |calls|
  {
    if calls == [] then a else ReadAll(ReadSegment(a, calls[0].seg, calls[0].rounds), calls[1..])
  }

  /** Every byte is fed or retained, and they are in arrival order. */
  ghost predicate InOrder<T>(a: Accum<T>) { a.fed + a.content == a.received }

  // ---- how much is fed

  /** What the engine has room for in the ten rounds of one call, until it offers nothing
      even after processing. */
  function Capacity(rounds: seq<Round>, i: nat): nat
    decreases 10 - i
  {
    if i >= 10 || i >= |rounds| || (rounds[i].first == 0 && rounds[i].again == 0) then 0
    else (if rounds[i].first > 0 then rounds[i].first else rounds[i].again) + Capacity(rounds, i + 1)
  }

  lemma {:induction false} FedExactly(left: nat, rounds: seq<Round>, i: nat)
    requires i <= MAX_FEED_LOOPS
    ensures Consumed(left, rounds, i) == Min(left, Capacity(rounds, i))
    decreases MAX_FEED_LOOPS - i
  {
    if left != 0 && i != MAX_FEED_LOOPS && Offer(rounds, i) != 0 {
      FedExactly(left - Min(left, Offer(rounds, i)), rounds, i + 1);
    }
  }

  /** One call feeds, from the front of the segment and then of what was retained, exactly
      as much as the engine has room for; the rest is retained. */
  lemma FeedsWhatFits<T>(a: Accum<T>, seg: seq<T>, rounds: seq<Round>)
    ensures var r, all := ReadSegment(a, seg, rounds), seg + a.content;
      var n := Min(|all|, Capacity(rounds, 0));
      r.fed == a.fed + all[..n] && r.content == all[n..] && r.received == a.received + seg && r.size == a.size
  {
    FedExactly(|seg + a.content|, rounds, 0);
  }

  /** An accepted segment leaves what is retained within the array. */
  lemma StaysWithin<T>(a: Accum<T>, seg: seq<T>, rounds: seq<Round>)
    requires |a.content| <= a.size && !Overflows(a, seg)
    ensures |ReadSegment(a, seg, rounds).content| <= a.size
  {
  }

  // ---- order when the engine keeps up

  /** In every one of the ten rounds the engine offers at least `k` bytes. */
  ghost predicate Offers(rounds: seq<Round>, k: nat) {
    forall i :: 0 <= i < MAX_FEED_LOOPS ==> Offer(rounds, i) >= k
  }

  lemma {:induction false} FeedDrains(left: nat, rounds: seq<Round>, i: nat, k: nat)
    requires i <= MAX_FEED_LOOPS && k > 0 && left <= (MAX_FEED_LOOPS - i) * k
    requires Offers(rounds, k)
    ensures Consumed(left, rounds, i) == left
    decreases MAX_FEED_LOOPS - i
  {
    if left != 0 {
      assert i < MAX_FEED_LOOPS;
      var n := Min(left, Offer(rounds, i));
      assert (MAX_FEED_LOOPS - i) * k == (MAX_FEED_LOOPS - (i + 1)) * k + k;
      FeedDrains(left - n, rounds, i + 1, k);
    }
  }

  /** When the engine offers `k` bytes a round and ten such rounds cover the
      accumulator, every accepted call drains it, and over the whole run the bytes
      fed to the engine are the bytes received, in arrival order. */
  lemma {:induction false} KeepingUpFeedsInOrder<T>(a: Accum<T>, calls: seq<Call<T>>, k: nat)
    requires a.content == [] && a.fed == a.received && Accepts(a, calls)
    requires k > 0 && 10 * k >= a.size
    requires forall i :: 0 <= i < |calls| ==> Offers(calls[i].rounds, k)
    ensures var r := ReadAll(a, calls); r.content == [] && r.fed == r.received
    decreases |calls|
  {
    if calls != [] {
      var seg, rounds := calls[0].seg, calls[0].rounds;
      assert seg + a.content == seg;
      FeedDrains(|seg|, rounds, 0, k);
      KeepingUpFeedsInOrder(ReadSegment(a, seg, rounds), calls[1..], k);
    }
  }

  // ---- exactly when the order is kept

  ghost predicate Distinct<T>(s: seq<T>) { forall i, j :: 0 <= i < j < |s| ==> s[i] != s[j] }

  /** Nothing is ever lost or made up: what is fed or retained is a rearrangement of
      what was received. */
  ghost predicate SameBytes<T>(a: Accum<T>) { multiset(a.fed + a.content) == multiset(a.received) }

  lemma ReadKeepsBytes<T>(a: Accum<T>, seg: seq<T>, rounds: seq<Round>)
    requires SameBytes(a)
    ensures var r := ReadSegment(a, seg, rounds);
      SameBytes(r) && r.fed + r.content == a.fed + seg + a.content && |r.content| <= |seg| + |a.content|
  {
    var all := seg + a.content;
    var n := Consumed(|all|, rounds, 0);
    assert all[..n] + all[n..] == all;
    assert a.fed + all[..n] + all[n..] == a.fed + (all[..n] + all[n..]);
    assert a.fed + seg + a.content == a.fed + all;
    assert multiset(a.fed + seg + a.content) == multiset(a.fed) + multiset(seg) + multiset(a.content);
    assert multiset(a.fed + a.content) == multiset(a.fed) + multiset(a.content);
  }

  lemma RetainedIsReceived<T>(a: Accum<T>)
    requires SameBytes(a) && a.content != []
    ensures a.content[|a.content| - 1] in a.received
  {
    var x := a.content[|a.content| - 1];
    assert (a.fed + a.content)[|a.fed| + |a.content| - 1] == x;
    assert x in multiset(a.fed + a.content);
  }

  /** One call keeps the arrival order if and only if it was kept so far and the call
      found the accumulator empty or brought nothing. */
  lemma OrderAfterCall<T>(a: Accum<T>, seg: seq<T>, rounds: seq<Round>)
    requires SameBytes(a) && Distinct(a.received + seg)
    ensures InOrder(ReadSegment(a, seg, rounds)) <==> InOrder(a) && (a.content == [] || seg == [])
  {
    var r := ReadSegment(a, seg, rounds);
    ReadKeepsBytes(a, seg, rounds);
    assert r.received == a.received + seg;
    if seg == [] {
      assert a.fed + seg + a.content == a.fed + a.content && a.received + seg == a.received;
    } else if a.content == [] {
      assert a.fed + seg + a.content == a.fed + seg && a.fed + a.content == a.fed;
      if a.fed + seg == a.received + seg {
        assert a.fed == (a.fed + seg)[..|a.fed|] && a.received == (a.received + seg)[..|a.received|];
        assert |a.fed| == |a.received|;
      }
    } else {
      RetainedIsReceived(a);
      LastDiffers(a, seg);
    }
  }

  lemma LastDiffers<T>(a: Accum<T>, seg: seq<T>)
    requires Distinct(a.received + seg) && seg != [] && a.content != []
    requires a.content[|a.content| - 1] in a.received
    ensures a.fed + seg + a.content != a.received + seg
  {
    var x := a.content[|a.content| - 1];
    var l, r := a.fed + seg + a.content, a.received + seg;
    var k :| 0 <= k < |a.received| && a.received[k] == x;
    assert r[k] == x && r[|r| - 1] == seg[|seg| - 1];
    assert l[|l| - 1] == x;
  }

  /** Whether every call that brought something found the accumulator empty. */
  ghost predicate NoCarryOver<T>(a: Accum<T>, calls: seq<Call<T>>)
    decreases |calls|
  {
    calls == [] ||
    ((a.content == [] || calls[0].seg == []) &&
     NoCarryOver(ReadSegment(a, calls[0].seg, calls[0].rounds), calls[1..]))
  }

  function AllReceived<T>(a: Accum<T>, calls: seq<Call<T>>): seq<T> { ReadAll(a, calls).received }

  lemma {:induction false} ReceivedGrows<T>(a: Accum<T>, calls: seq<Call<T>>)
    ensures a.received <= AllReceived(a, calls)
    decreases |calls|
  {
    if calls != [] {
      ReceivedGrows(ReadSegment(a, calls[0].seg, calls[0].rounds), calls[1..]);
    }
  }

  lemma PrefixDistinct<T>(s: seq<T>, t: seq<T>)
    requires s <= t && Distinct(t)
    ensures Distinct(s)
  {
  }

  /** Over a whole run, with every byte stamped by its arrival, the bytes fed and then
      the bytes retained are in arrival order if and only if no call that brought
      something started with bytes carried over.  Once broken, the order stays broken. */
  lemma {:induction false} InOrderIffNoCarryOver<T>(a: Accum<T>, calls: seq<Call<T>>)
    requires SameBytes(a) && Distinct(AllReceived(a, calls))
    ensures InOrder(ReadAll(a, calls)) <==> InOrder(a) && NoCarryOver(a, calls)
    decreases |calls|
  {
    if calls != [] {
      var seg, rounds := calls[0].seg, calls[0].rounds;
      var r := ReadSegment(a, seg, rounds);
      ReceivedGrows(r, calls[1..]);
      PrefixDistinct(a.received + seg, AllReceived(a, calls));
      ReadKeepsBytes(a, seg, rounds);
      OrderAfterCall(a, seg, rounds);
      InOrderIffNoCarryOver(r, calls[1..]);
    }
  }

  /** An engine that offers nothing retains the segment whole; one whose first offer
      covers everything takes everything, retained bytes last. */
  lemma TakesNothing<T>(a: Accum<T>, seg: seq<T>, rounds: seq<Round>)
    requires Offer(rounds, 0) == 0
    ensures ReadSegment(a, seg, rounds) == Accum(a.size, seg + a.content, a.fed, a.received + seg)
  {
    var all := seg + a.content;
    assert Consumed(|all|, rounds, 0) == 0;
    assert all[0..] == all && a.fed + all[..0] == a.fed;
  }

  lemma TakesEverything<T>(a: Accum<T>, seg: seq<T>, rounds: seq<Round>)
    requires Offer(rounds, 0) >= |seg| + |a.content|
    ensures ReadSegment(a, seg, rounds) == Accum(a.size, [], a.fed + (seg + a.content), a.received + seg)
  {
    var all := seg + a.content;
    if |all| > 0 {
      assert Consumed(|all|, rounds, 0) == |all| + Consumed(0, rounds, 1);
    }
    assert all[..|all|] == all && all[|all|..] == [];
  }

  /** A segment that the engine would not take is overtaken by the next one: the
      engine is fed the second segment and then the first. */
  lemma CarryOverOvertakes<T>(a: Accum<T>, one: seq<T>, stalled: seq<Round>, two: seq<T>, rounds: seq<Round>)
    requires a.content == [] && Offer(stalled, 0) == 0 && Offer(rounds, 0) >= |two| + |one|
    ensures ReadSegment(ReadSegment(a, one, stalled), two, rounds) ==
      Accum(a.size, [], a.fed + (two + one), a.received + one + two)
  {
    TakesNothing(a, one, stalled);
    assert one + a.content == one;
    TakesEverything(ReadSegment(a, one, stalled), two, rounds);
  }
}
