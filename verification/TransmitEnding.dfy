/** When the loop of `_sendBuffer` ends.  `Transmit.SendLoop` is given finitely many
    faults; here every turn of the loop has one, without end. */
module TransmitEnding {
  import opened Words
  import opened ErrorTracker
  import opened ClientSpec
  import opened Transmit

  /** What goes wrong in each turn of the loop. */
  type Faults = nat -> Fault

  /** The loop stops at its head, or because the copy buffer cannot be allocated. */
  predicate Halts(t: Tx, f: Fault)
    requires |t.nodes| > 0
  {
    !Ready(t) || f == NoMemory
  }

  /** One turn with fault `f`. */
  function TurnWith(t: Tx, f: Fault, now: u32): (r: Tx)
    requires |t.nodes| > 0 && Ready(t)
    ensures |r.nodes| > 0
  {
    Turn(t.(faults := [f]), now)
  }

  /** Where the loop stands before its turn `n` when it is about to start turn `i`; it
      stays where it has stopped. */
  function Before(t: Tx, src: Faults, i: nat, n: nat, now: u32): (r: Tx)
    requires |t.nodes| > 0 && i <= n
    ensures |r.nodes| > 0
    decreases n - i
  {
    if i == n || Halts(t, src(i)) then t else Before(TurnWith(t, src(i), now), src, i + 1, n, now)
  }

  ghost predicate LoopEnds(t: Tx, src: Faults, now: u32)
    requires |t.nodes| > 0
  {
    exists n: nat :: Halts(Before(t, src, 0, n, now), src(n))
  }

  /** The bytes that failed outputs have queued in turns `i` to `n - 1`, `h` each time. */
  function Requeued(src: Faults, i: nat, n: nat, h: nat): nat
    requires i <= n
    decreases n - i
  {
    if i == n then 0 else (if src(i) == OutputFails then h else 0) + Requeued(src, i + 1, n, h)
  }

  /** Turn `n` goes well, finds no memory, or is one by which failed outputs have used
      up the space there was before turn `i`. */
  predicate BreaksOff(t: Tx, src: Faults, i: nat, n: nat)
    requires |t.nodes| > 0 && i <= n
  {
    src(n) == Fine || src(n) == NoMemory || Requeued(src, i, n + 1, |t.nodes[0]|) >= Space(t.client)
  }

  // ---- one turn

  /** A turn that fails moves nothing out of the chain and leaves the client free; a
      failed output takes space. */
  lemma BadTurn(t: Tx, f: Fault, now: u32)
    requires |t.nodes| > 0 && Ready(t) && (f == WriteFails || f == OutputFails)
    ensures var r := TurnWith(t, f, now);
      && r.nodes == t.nodes && r.hasClient && Connected(r.client) && !r.client.pcbBusy
      && Space(r.client) == Space(t.client) - (if f == OutputFails then Min(|t.nodes[0]|, Space(t.client)) else 0)
  {
    assert t.nodes[0][0..] == t.nodes[0] && [t.nodes[0]] + t.nodes[1..] == t.nodes;
  }

  // ---- the loop goes on

  lemma RequeuedNow(src: Faults, i: nat, h: nat)
    ensures Requeued(src, i, i + 1, h) == if src(i) == OutputFails then h else 0
  {
    assert Requeued(src, i + 1, i + 1, h) == 0;
  }

  lemma RequeuedFirst(src: Faults, i: nat, n: nat, h: nat)
    requires i < n
    ensures Requeued(src, i, n, h) == Requeued(src, i, i + 1, h) + Requeued(src, i + 1, n, h)
  {
    RequeuedNow(src, i, h);
  }

  lemma StaysReady(t: Tx, src: Faults, i: nat, now: u32)
    requires |t.nodes| > 0 && Ready(t) && !BreaksOff(t, src, i, i)
    ensures Ready(TurnWith(t, src(i), now))
  {
    RequeuedNow(src, i, |t.nodes[0]|);
    BadTurn(t, src(i), now);
  }

  /** The loop is at `r` where it was at `t`, with `lost` bytes less space. */
  predicate WentOn(t: Tx, r: Tx, lost: nat)
    requires |r.nodes| > 0
  {
    Ready(r) && r.nodes == t.nodes && Space(r.client) + lost == Space(t.client)
  }

  lemma TurnGoesOn(t: Tx, src: Faults, i: nat, now: u32)
    requires |t.nodes| > 0 && Ready(t) && !BreaksOff(t, src, i, i)
    ensures var r := TurnWith(t, src(i), now);
      WentOn(t, r, Requeued(src, i, i + 1, |t.nodes[0]|))
  {
    StaysReady(t, src, i, now);
    RequeuedNow(src, i, |t.nodes[0]|);
    BadTurn(t, src(i), now);
  }

  /** The turns after this one break off the loop exactly when they did before it. */
  lemma SameBreak(t: Tx, src: Faults, i: nat, k: nat, now: u32)
    requires |t.nodes| > 0 && Ready(t) && !BreaksOff(t, src, i, i) && i < k
    ensures BreaksOff(TurnWith(t, src(i), now), src, i + 1, k) == BreaksOff(t, src, i, k)
  {
    RequeuedNow(src, i, |t.nodes[0]|);
    RequeuedFirst(src, i, k + 1, |t.nodes[0]|);
    BadTurn(t, src(i), now);
  }

  lemma NoBreakLater(t: Tx, src: Faults, i: nat, n: nat, now: u32)
    requires |t.nodes| > 0 && Ready(t) && i < n && forall k :: i <= k < n ==> !BreaksOff(t, src, i, k)
    ensures var t1, i1 := TurnWith(t, src(i), now), i + 1;
      forall k :: i1 <= k < n ==> !BreaksOff(t1, src, i1, k)
  {
    assert !BreaksOff(t, src, i, i);
    var t1, i1 := TurnWith(t, src(i), now), i + 1;
    forall k | i1 <= k < n ensures !BreaksOff(t1, src, i1, k) {
      SameBreak(t, src, i, k, now);
      assert !BreaksOff(t, src, i, k);
    }
  }

  lemma WentOnAgain(t: Tx, t1: Tx, r: Tx, a: nat, b: nat, lost: nat)
    requires |t1.nodes| > 0 && |r.nodes| > 0 && WentOn(t, t1, a) && WentOn(t1, r, b) && lost == a + b
    ensures WentOn(t, r, lost)
  {
  }

  /** As long as no turn breaks off, the loop is where it was, with less space. */
  lemma {:induction false} GoesOn(t: Tx, src: Faults, i: nat, n: nat, h: nat, now: u32)
    requires |t.nodes| > 0 && Ready(t) && i <= n && h == |t.nodes[0]|
    requires forall k :: i <= k < n ==> !BreaksOff(t, src, i, k)
    ensures WentOn(t, Before(t, src, i, n, now), Requeued(src, i, n, h))
    decreases n - i, 1
  {
    if i < n {
      assert !BreaksOff(t, src, i, i);
      TurnGoesOn(t, src, i, now);
      NoBreakLater(t, src, i, n, now);
      GoesOnFrom(t, TurnWith(t, src(i), now), src, i, n, h, now);
    }
  }

  /** The turns after the first. */
  lemma {:induction false} GoesOnFrom(t: Tx, t1: Tx, src: Faults, i: nat, n: nat, h: nat, now: u32)
    requires |t1.nodes| > 0 && i < n && |t.nodes| > 0 && h == |t.nodes[0]|
    requires WentOn(t, t1, Requeued(src, i, i + 1, h))
    requires var i1 := i + 1; forall k :: i1 <= k < n ==> !BreaksOff(t1, src, i1, k)
    ensures WentOn(t, Before(t1, src, i + 1, n, now), Requeued(src, i, n, h))
    decreases n - i, 0
  {
    GoesOn(t1, src, i + 1, n, h, now);
    RequeuedFirst(src, i, n, h);
    WentOnAgain(t, t1, Before(t1, src, i + 1, n, now), Requeued(src, i, i + 1, h), Requeued(src, i + 1, n, h),
                Requeued(src, i, n, h));
  }

  /** The next turn in which it breaks off is its last. */
  lemma {:induction false} ThenStops(t: Tx, src: Faults, i: nat, n: nat, now: u32)
    requires |t.nodes| > 0 && Ready(t) && i <= n
    requires BreaksOff(t, src, i, n) && forall k :: i <= k < n ==> !BreaksOff(t, src, i, k)
    ensures Halts(Before(t, src, i, n, now), src(n)) || Halts(Before(t, src, i, n + 1, now), src(n + 1))
    decreases n - i
  {
    if i < n {
      assert !BreaksOff(t, src, i, i);
      BadTurn(t, src(i), now);
      var t1, i1 := TurnWith(t, src(i), now), i + 1;
      forall k | i1 <= k < n ensures !BreaksOff(t1, src, i1, k) {
        SameBreak(t, src, i, k, now);
        assert !BreaksOff(t, src, i, k);
      }
      SameBreak(t, src, i, n, now);
      StaysReady(t, src, i, now);
      ThenStops(t1, src, i1, n, now);
    } else if src(n) != NoMemory {
      RequeuedNow(src, n, |t.nodes[0]|);
      var t1 := TurnWith(t, src(n), now);
      if src(n) != Fine {
        BadTurn(t, src(n), now);
      }
      assert Before(t, src, n, n + 1, now) == Before(t1, src, n + 1, n + 1, now) == t1;
    }
  }

  lemma FirstBreak(t: Tx, src: Faults, n: nat) returns (m: nat)
    requires |t.nodes| > 0 && BreaksOff(t, src, 0, n)
    ensures m <= n && BreaksOff(t, src, 0, m) && forall k :: 0 <= k < m ==> !BreaksOff(t, src, 0, k)
  {
    m := 0;
    while !BreaksOff(t, src, 0, m)
      invariant m <= n && forall k :: 0 <= k < m ==> !BreaksOff(t, src, 0, k)
      decreases n - m
    {
      m := m + 1;
    }
  }

  /** The loop ends if and only if it does not start, or some turn goes well or finds no
      memory, or failed outputs use up the space of the send buffer. */
  lemma EndsExactly(t: Tx, src: Faults, now: u32)
    requires |t.nodes| > 0
    ensures LoopEnds(t, src, now) <==> !Ready(t) || exists n: nat :: BreaksOff(t, src, 0, n)
  {
    if !Ready(t) {
      assert Halts(Before(t, src, 0, 0, now), src(0));
    } else if n: nat :| BreaksOff(t, src, 0, n) {
      var m := FirstBreak(t, src, n);
      ThenStops(t, src, 0, m, now);
    } else {
      forall n: nat ensures !Halts(Before(t, src, 0, n, now), src(n)) {
        GoesOn(t, src, 0, n, |t.nodes[0]|, now);
        assert !BreaksOff(t, src, 0, n);
      }
    }
  }

  /** In particular it never ends while `tcp_write` is refused for ever. */
  lemma RefusedForEver(t: Tx, src: Faults, now: u32)
    requires |t.nodes| > 0 && Ready(t) && forall n: nat :: src(n) == WriteFails
    ensures !LoopEnds(t, src, now)
  {
    EndsExactly(t, src, now);
    forall n: nat ensures !BreaksOff(t, src, 0, n) {
      NothingRequeued(src, 0, n + 1, |t.nodes[0]|);
    }
  }

  lemma {:induction false} NothingRequeued(src: Faults, i: nat, n: nat, h: nat)
    requires i <= n && forall k: nat :: src(k) == WriteFails
    ensures Requeued(src, i, n, h) == 0
    decreases n - i
  {
    if i < n {
      NothingRequeued(src, i + 1, n, h);
    }
  }

  // ---- a loop that ends has met finitely many faults

  /** The faults of turns `i` to `n`. */
  function Met(src: Faults, i: nat, n: nat): seq<Fault>
    requires i <= n
    decreases n - i
  {
    [src(i)] + if i == n then [] else Met(src, i + 1, n)
  }

  lemma LoopUsesOne(t: Tx, f: Fault, rest: seq<Fault>, now: u32)
    requires |t.nodes| > 0 && Ready(t) && f != NoMemory
    ensures SendLoop(t.(faults := [f] + rest), now) == SendLoop(TurnWith(t, f, now).(faults := rest), now)
  {
    assert ([f] + rest)[1..] == rest;
    assert Turn(t.(faults := [f] + rest), now) == TurnWith(t, f, now).(faults := rest);
  }

  /** The same chain and client. */
  ghost predicate SameButFaults(t: Tx, r: Tx) { t.nodes == r.nodes && t.client == r.client }

  lemma HaltedLoop(t: Tx, faults: seq<Fault>, now: u32)
    requires |t.nodes| > 0 && Halts(t, Head(faults))
    ensures SameButFaults(SendLoop(t.(faults := faults), now), t)
  {
  }

  /** A loop that ends is the loop of the specification on the faults it has met. */
  lemma {:induction false} EndingIsSendLoop(t: Tx, src: Faults, i: nat, n: nat, now: u32)
    requires |t.nodes| > 0 && i <= n && Halts(Before(t, src, i, n, now), src(n))
    ensures SameButFaults(SendLoop(t.(faults := Met(src, i, n)), now), Before(t, src, i, n, now))
    decreases n - i
  {
    var all := Met(src, i, n);
    if Halts(t, src(i)) {
      assert Before(t, src, i, n, now) == t && Head(all) == src(i);
      HaltedLoop(t, all, now);
    } else {
      var t1, rest := TurnWith(t, src(i), now), Met(src, i + 1, n);
      EndingIsSendLoop(t1, src, i + 1, n, now);
      assert Before(t, src, i, n, now) == Before(t1, src, i + 1, n, now) && all == [src(i)] + rest;
      LoopUsesOne(t, src(i), rest, now);
    }
  }
}
