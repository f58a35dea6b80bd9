/** Callbacks that arm another read while the buffer is at work: whose bytes the new
    read gets. */
module ReceiveRearming {
  import opened Words
  import opened Receive
  import opened ReceiveRuns
  import opened ReceiveSegments
  import opened ReceiveParser

  // ---- re-arming from a done callback

  lemma {:induction false} CallsThen(r: Rx, calls: seq<RxCall>, last: RxCall)
    ensures RunCalls(r, calls + [last]) == Perform(RunCalls(r, calls), last)
    decreases |calls|
  {
    if calls == [] {
      assert ([] + [last])[1..] == [] && RunCalls(Perform(r, last), []) == Perform(r, last);
    } else {
      assert (calls + [last])[0] == calls[0] && (calls + [last])[1..] == calls[1..] + [last];
      CallsThen(Perform(r, calls[0]), calls[1..], last);
    }
  }

  predicate Arms(call: RxCall) { call.ReadBytes? || call.ReadStringUntil? }

  /** The read `call` asks for is armed, and nothing has been given to it. */
  ghost predicate ArmedBy(r: Rx, call: RxCall) {
    && r.dest == [] && r.start == |r.consumed|
    && match call
       case ReadBytes(n, hasPtr, hasDone) =>
         r.mode == ModeReadBytes && r.size == n && r.request == Exactly(n)
         && r.hasBytesPtr == hasPtr && r.hasDone == hasDone
       case ReadStringUntil(t, hasPtr, hasDone) =>
         r.mode == ModeString && r.terminator == t && r.request == Through(t)
         && r.hasStringPtr == hasPtr && r.hasDone == hasDone
       case _ => false
  }

  /** The client is still there after `calls` exactly when none of them stops. */
  lemma {:induction false} ClientStays(r: Rx, calls: seq<RxCall>)
    ensures RunCalls(r, calls).hasClient <==> r.hasClient && Stop !in calls
    decreases |calls|
  {
    if calls != [] {
      StopNeverRearms(r);
      ClientStays(Perform(r, calls[0]), calls[1..]);
      assert Stop in calls <==> calls[0] == Stop || Stop in calls[1..];
    }
  }

  /** An arming made last is in force exactly when no call before it stopped. */
  lemma LastArmingStands(r: Rx, calls: seq<RxCall>, arm: RxCall)
    requires r.hasClient && Arms(arm)
    ensures ArmedBy(RunCalls(r, calls + [arm]), arm) <==> Stop !in calls
    ensures Stop !in calls ==> RunCalls(r, calls + [arm]).arming > r.arming
    ensures Stop in calls ==> RunCalls(r, calls + [arm]) == RunCalls(r, calls)
  {
    ClientStays(r, calls);
    CallsThen(r, calls, arm);
    ArmingsGrow(r, calls);
    if Stop in calls {
      StoppedStaysDisarmed(r, calls);
    }
  }

  /** After a `stop` no read is armed. */
  lemma {:induction false} StoppedStaysDisarmed(r: Rx, calls: seq<RxCall>)
    requires r.hasClient && Stop in calls
    ensures !IsArmed(RunCalls(r, calls))
    decreases |calls|
  {
    if calls[0] == Stop {
      StopNeverRearms(r);
      DisarmedStays(Perform(r, Stop), calls[1..]);
    } else {
      assert calls == [calls[0]] + calls[1..];
      StoppedStaysDisarmed(Perform(r, calls[0]), calls[1..]);
    }
  }

  lemma {:induction false} DisarmedStays(r: Rx, calls: seq<RxCall>)
    requires !r.hasClient && !IsArmed(r)
    ensures !IsArmed(RunCalls(r, calls))
    decreases |calls|
  {
    if calls != [] {
      assert StopNow(r) == r;
      DisarmedStays(Perform(r, calls[0]), calls[1..]);
    }
  }

  /** A byte read that is satisfied and re-armed by its done callback: the code that
      called the callback leaves the new read as the callback armed it. */
  lemma BytesRearmStands(r: Rx, seg: bytes, calls: seq<RxCall>, arm: RxCall)
    requires r.hasClient && r.hasBytesPtr && r.hasDone && |r.buffer| + |seg| >= r.size
    requires Front(r.answers).calls == calls + [arm] && Arms(arm)
    ensures ArmedBy(HandleBytes(r, seg).0, arm) <==> Stop !in calls
  {
    var k := Min(|r.buffer|, r.size);
    var r1 := TakeBytes(r, r.buffer[..k]).(buffer := r.buffer[k..]);
    var n := if r1.buffer == [] then Min(|seg|, r1.size) else 0;
    var r2 := TakeBytes(r1, seg[..n]);
    CompleteRearms(r2, calls, arm);
  }

  /** The same of a string read that reaches its end. */
  lemma StringRearmStands(r: Rx, seg: bytes, calls: seq<RxCall>, arm: RxCall)
    requires r.hasClient && r.hasStringPtr && r.hasDone
    requires Scan(r.terminator, r.buffer) < |r.buffer| || Scan(r.terminator, seg) < |seg|
    requires Front(r.answers).calls == calls + [arm] && Arms(arm)
    ensures ArmedBy(HandleString(r, seg).0, arm) <==> Stop !in calls
  {
    var k := Scan(r.terminator, r.buffer);
    if k < |r.buffer| {
      CompleteRearms(FoundInBuffer(r, k), calls, arm);
    } else {
      CompleteRearms(FoundInSegment(Drained(r), seg, Scan(r.terminator, seg)), calls, arm);
    }
  }

  lemma CompleteRearms(r: Rx, calls: seq<RxCall>, arm: RxCall)
    requires r.hasClient && Front(r.answers).calls == calls + [arm] && Arms(arm)
    ensures ArmedBy(Complete(r), arm) <==> Stop !in calls
  {
    var told := Pop(r.(mode := ModeNone,
                       dones := r.dones + [Done(r.arming, true, r.request, r.dest, r.start, |r.consumed|)]));
    LastArmingStands(told, calls, arm);
  }

  /** A failed one cannot re-arm: `stop` has let go of the client, and resets the mode
      after the callback. */
  lemma StopNeverRearms(r: Rx)
    ensures var s := StopNow(r); !s.hasClient && (r.hasClient ==> s.mode == ModeNone)
  {
  }

  lemma {:induction false} ArmingsGrow(r: Rx, calls: seq<RxCall>)
    ensures RunCalls(r, calls).arming >= r.arming
    decreases Rank(r), |calls|, 1
  {
    if calls != [] {
      PerformArms(r, calls[0], |calls|);
      ArmingsGrow(Perform(r, calls[0]), calls[1..]);
    }
  }

  lemma PerformArms(r: Rx, call: RxCall, k: nat)
    ensures Perform(r, call).arming >= r.arming
    decreases Rank(r), k, 0
  {
    if call.Stop? && r.hasClient && r.hasDone && IsArmed(r) {
      var told := Pop(r.(hasClient := false, mode := ModeNone,
                         dones := r.dones + [Done(r.arming, false, r.request, r.dest, r.start, |r.consumed|)]));
      ArmingsGrow(told, Front(r.answers).calls);
    }
  }

  // ---- arming a read from the data callback

  lemma {:induction false} AnswersKept(r: Rx, calls: seq<RxCall>)
    requires Stop !in calls
    ensures RunCalls(r, calls).answers == r.answers
    decreases |calls|
  {
    if calls != [] {
      AnswersKept(Perform(r, calls[0]), calls[1..]);
    }
  }

  /** The data callback has been offered what was buffered and has armed a read, and
      yet it is given some of the segment in hand. */
  ghost predicate PassesNewRead(r: Rx, seg: bytes) {
    IsArmed(OfferBuffer(r).0) && Handle(r, seg).1 > 0
  }

  /** Offering the buffer to a data callback whose last call arms a read. */
  lemma OfferArms(r: Rx, calls: seq<RxCall>, arm: RxCall)
    requires r.hasClient && r.buffer != []
    requires Front(r.answers).calls == calls + [arm] && Arms(arm)
    ensures var p := OfferBuffer(r);
      && (IsArmed(p.0) <==> Stop !in calls)
      && (Stop !in calls ==> ArmedBy(p.0, arm) && p.0.answers == Pop(r).answers)
      && (p.1 == |r.buffer| <==> Front(r.answers).unclaimed == 0)
  {
    var a := Front(r.answers);
    var claimed := if a.unclaimed <= |r.buffer| then |r.buffer| - a.unclaimed else 0;
    var r1 := Claim(Pop(r), r.buffer, claimed);
    var r2 := r1.(start := |r1.consumed|);
    LastArmingStands(r2, calls, arm);
    if Stop in calls {
      StoppedStaysDisarmed(r2, calls);
    } else {
      assert Stop !in calls + [arm];
      AnswersKept(r2, calls + [arm]);
    }
  }

  /** The segment in hand passes a read armed by the data callback if and only if that
      callback was offered buffered bytes, claimed all of them, did not stop, and claims
      something of the segment when it is called again. */
  lemma SegmentPassesNewRead(r: Rx, seg: bytes, calls: seq<RxCall>, arm: RxCall)
    requires r.hasClient && r.connected && r.mode == ModeFree && r.hasData
    requires Front(r.answers).calls == calls + [arm] && Arms(arm)
    ensures PassesNewRead(r, seg) <==>
      && r.buffer != [] && Front(r.answers).unclaimed == 0 && Stop !in calls
      && Front(Pop(r).answers).unclaimed < |seg|
  {
    if r.buffer != [] {
      OfferArms(r, calls, arm);
    }
  }

  /** What passes the new read is never given to it: it still waits for its first byte. */
  lemma PassedReadWaits(r: Rx, seg: bytes, calls: seq<RxCall>, arm: RxCall)
    requires r.hasClient && r.connected && r.mode == ModeFree && r.hasData
    requires Front(r.answers).calls == calls + [arm] && Arms(arm)
    requires PassesNewRead(r, seg) && Front(Pop(r).answers).calls == []
    ensures var p := Handle(r, seg);
      ArmedBy(p.0, arm) && p.0.consumed == OfferBuffer(r).0.consumed + seg[..p.1]
  {
    OfferArms(r, calls, arm);
  }

  // ---- a reader of single bytes

  const REARM: Answer := Answer(0, [ReadBytes(1, true, true)])

  ghost predicate AllRearm(answers: seq<Answer>) { forall k :: 0 <= k < |answers| ==> answers[k] == REARM }

  /** A read of one byte is armed, and its next `n` completions each arm another. */
  ghost predicate Rearming(r: Rx, buffer: bytes, n: nat) {
    && r.hasClient && r.connected && r.mode == ModeReadBytes && r.size == 1 && r.hasBytesPtr && r.hasDone
    && r.buffer == buffer && |buffer| <= r.cap
    && |r.answers| == n && AllRearm(r.answers)
  }

  ghost predicate OneAtATime(q: Reader, n: nat) {
    && q.x.mode == ModeReadBytes && q.x.size == 1 && q.a.hasBytesPtr && q.a.hasDone
    && |q.a.answers| == n && AllRearm(q.a.answers)
  }

  lemma EatRearms(q: Reader, c: byte, n: nat)
    requires OneAtATime(q, n)
    ensures var e := Eat(q, c);
      e.x.buffer == q.x.buffer && (if n > 0 then OneAtATime(e, n - 1) else e.x.mode == ModeNone)
  {
    var calls := Front(q.a.answers).calls;
    if n > 0 {
      assert q.a.answers[0] == REARM;
      assert calls[1..] == [];
      var g := Given(q, [c]);
      var told := Reader(g.x.(mode := ModeNone,
                              dones := g.x.dones + [Done(g.a.id, true, g.a.request, g.x.dest, g.a.start, |g.x.consumed|)]),
                         g.a.(answers := g.a.answers[1..]));
      assert Finished(g) == ArmedAll(Armed(told, calls[0]), []);
    }
  }

  /** One byte moved from the buffer to the read, if there is one and a read. */
  function Pull(q: Reader): Reader {
    if q.x.mode == ModeNone || q.x.buffer == [] then q
    else Holding(Eat(Holding(q, []), q.x.buffer[0]), q.x.buffer[1..])
  }

  lemma RearmingIsSteady(r: Rx, n: nat)
    requires Rearming(r, r.buffer, n)
    ensures Steady(r) && OneAtATime(ReaderOf(r), n) && (r.buffer == [] ==> Between(r))
  {
    assert Tame(REARM.calls[0]);
  }

  lemma HandlePulls(r: Rx, seg: bytes, n: nat)
    requires Rearming(r, r.buffer, n) && r.buffer != []
    ensures var p := Handle(r, seg);
      && ReaderOf(p.0) == Pull(ReaderOf(r)) && p.1 == 0 && Steady(p.0) && p.0.cap == r.cap
      && (if n > 0 then Rearming(p.0, r.buffer[1..], n - 1) else p.0.mode == ModeNone)
  {
    RearmingIsSteady(r, n);
    var q, x, left := ReaderOf(r), r.buffer[0], r.buffer[1..];
    var r1 := TakeBytes(r, r.buffer[..1]).(buffer := left);
    assert r.buffer[..1] == [x] && seg[..0] == [];
    assert r1.dest + [] == r1.dest && r1.consumed + [] == r1.consumed;
    assert Handle(r, seg) == (Complete(r1), 0);
    CompleteFinishes(r1);
    EatRearms(Holding(q, []), x, n);
    FinishedHolding(Given(Holding(q, []), [x]), left);
  }

  lemma {:induction false} ArmedHolding(q: Reader, calls: seq<RxCall>, buffer: bytes)
    ensures ArmedAll(Holding(q, buffer), calls) == Holding(ArmedAll(q, calls), buffer)
    decreases |calls|
  {
    if calls != [] {
      assert Armed(Holding(q, buffer), calls[0]) == Holding(Armed(q, calls[0]), buffer);
      ArmedHolding(Armed(q, calls[0]), calls[1..], buffer);
    }
  }

  lemma FinishedHolding(q: Reader, buffer: bytes)
    ensures Finished(Holding(q, buffer)) == Holding(Finished(q), buffer)
  {
    var told := Reader(q.x.(mode := ModeNone,
                            dones := q.x.dones + [Done(q.a.id, true, q.a.request, q.x.dest, q.a.start, |q.x.consumed|)]),
                       q.a.(answers := if q.a.answers == [] then [] else q.a.answers[1..]));
    ArmedHolding(told, Front(q.a.answers).calls, buffer);
  }

  function Stored(q: Reader, seg: bytes): Reader { Holding(q, q.x.buffer + seg) }

  lemma StoreKeepsRearming(r: Rx, rest: bytes)
    requires Steady(r) && |r.buffer| <= r.cap
    ensures var s := Store(r, rest, true);
      && ReaderOf(s) == Stored(ReaderOf(r), rest) && Steady(s) && |s.buffer| <= s.cap
      && forall n :: Rearming(r, r.buffer, n) ==> Rearming(s, s.buffer, n)
  {
    StoreAppends(r, rest);
    StoreIsAside(r, rest, true);
    assert ArmingOf(Store(r, rest, true)) == ArmingOf(r);
  }

  /** A segment that finds bytes buffered: one is read, the segment is buffered, and one
      more is read; the rest stays. */
  lemma SegmentPulls(r: Rx, seg: bytes, n: nat)
    requires Rearming(r, r.buffer, n) && r.buffer != []
    ensures var r' := Segment(r, seg, true);
      ReaderOf(r') == Pull(Stored(Pull(ReaderOf(r)), seg)) && Steady(r') && |r'.buffer| <= r'.cap
  {
    var r0 := r.(received := r.received + seg);
    HandlePulls(r0, seg, n);
    var p := Handle(r0, seg).0;
    assert seg[0..] == seg;
    assert Direct(r0, seg) == (p, seg);
    StoreKeepsRearming(p, seg);
    RescanPulls(Store(p, seg, true), n);
    var t := Rescan(Store(p, seg, true));
    ShrinkIsAside(t);
    StaysSteady(t, Shrink(t));
  }

  lemma StaysSteady(r: Rx, r': Rx)
    requires Steady(r) && SameArming(r, r') && Project(r) == Project(r')
    ensures Steady(r') && ReaderOf(r') == ReaderOf(r)
  {
    assert ArmingOf(r') == ArmingOf(r);
  }

  lemma RescanPulls(s: Rx, n: nat)
    requires Steady(s) && |s.buffer| <= s.cap
    requires if n > 0 then Rearming(s, s.buffer, n - 1) else s.mode == ModeNone
    ensures var t := Rescan(s); ReaderOf(t) == Pull(ReaderOf(s)) && Steady(t) && |t.buffer| <= t.cap
  {
    if s.buffer != [] && s.mode != ModeNone {
      HandlePulls(s, [], n - 1);
    }
  }

  lemma PullTakesOne(q: Reader, n: nat)
    requires OneAtATime(q, n) && q.x.buffer != []
    ensures var p := Pull(q);
      p.x.buffer == q.x.buffer[1..] && (if n > 0 then OneAtATime(p, n - 1) else p.x.mode == ModeNone)
  {
    EatRearms(Holding(q, []), q.x.buffer[0], n);
  }

  lemma RearmingAgain(r: Rx, n: nat)
    requires Steady(r) && OneAtATime(ReaderOf(r), n) && |r.buffer| <= r.cap
    ensures Rearming(r, r.buffer, n)
  {
  }

  // ---- when the cuts agree

  /** With at most one re-arming to come, what a segment does to a non-empty buffer is
      what the reference does. */
  lemma PullsEat(q: Reader, seg: bytes, n: nat)
    requires OneAtATime(q, n) && n <= 1 && q.x.buffer != []
    ensures var r := Pull(Stored(Pull(q), seg));
      r == EatAll(Holding(q, []), q.x.buffer + seg) && (r.x.mode != ModeNone ==> r.x.buffer == [])
  {
    var x, rest := q.x.buffer[0], q.x.buffer[1..] + seg;
    var e := Eat(Holding(q, []), x);
    assert (q.x.buffer + seg)[1..] == rest;
    assert EatAll(Holding(q, []), q.x.buffer + seg) == EatAll(e, rest);
    EatRearms(Holding(q, []), x, n);
    assert Stored(Pull(q), seg) == Holding(e, rest);
    if n == 0 {
      EatIdle(e, rest);
      assert [] + rest == rest;
    } else if rest != [] {
      EatRearms(e, rest[0], 0);
      EatIdle(Eat(e, rest[0]), rest[1..]);
      assert Holding(Holding(e, rest), []) == e && [] + rest[1..] == rest[1..];
    }
  }

  lemma FewRearmingsParse(r: Rx, segs: seq<bytes>, n: nat)
    requires Rearming(r, r.buffer, n) && segs != [] && (r.buffer == [] || n <= 1)
    ensures ReaderOf(Arrive(r, segs)) == EatAll(Holding(ReaderOf(r), []), r.buffer + Join(segs))
  {
    RearmingIsSteady(r, n);
    if r.buffer == [] {
      RearmingParses(r, segs);
    } else {
      SegmentPulls(r, segs[0], n);
      PullsEat(ReaderOf(r), segs[0], n);
      var r1 := Segment(r, segs[0], true);
      if r1.mode != ModeNone {
        EmptyWaits(r1);
      }
      ParsesFrom(r, segs);
    }
  }

  // ---- when they do not

  lemma ArriveOne(r: Rx, s: bytes)
    ensures Arrive(r, [s]) == Segment(r, s, true)
  {
    assert [s][1..] == [];
    assert Arrive(r, [s]) == Arrive(Segment(r, s, true), []);
  }

  lemma ArriveTwo(r: Rx, s1: bytes, s2: bytes)
    ensures Arrive(r, [s1, s2]) == Segment(Segment(r, s1, true), s2, true)
  {
    assert [s1, s2][1..] == [s2];
    ArriveOne(Segment(r, s1, true), s2);
  }

  /** With two re-armings to come, a segment takes two bytes behind a non-empty buffer. */
  lemma SegmentTakesTwo(r: Rx, seg: bytes, n: nat)
    requires Rearming(r, r.buffer, n) && r.buffer != [] && n >= 2 && seg != []
    ensures var r' := Segment(r, seg, true); Rearming(r', (r.buffer[1..] + seg)[1..], n - 2)
  {
    var q := ReaderOf(r);
    SegmentPulls(r, seg, n);
    RearmingIsSteady(r, n);
    PullTakesOne(q, n);
    PullTakesOne(Stored(Pull(q), seg), n - 1);
    RearmingAgain(Segment(r, seg, true), n - 2);
  }

  /** A re-arming reader takes at least as much as one byte brings. */
  lemma ByteIsTaken(r: Rx, y: byte, n: nat)
    requires Rearming(r, r.buffer, n)
    ensures |Segment(r, [y], true).buffer| <= |r.buffer|
  {
    var q := ReaderOf(r);
    RearmingIsSteady(r, n);
    if r.buffer == [] {
      SegmentEats(r, [y]);
      assert r.buffer + [y] == [y];
      EatOne(Holding(q, []), y);
      EatRearms(Holding(q, []), y, n);
    } else {
      SegmentPulls(r, [y], n);
      PullTakesOne(q, n);
      var s := Stored(Pull(q), [y]);
      if n > 0 {
        PullTakesOne(s, n - 1);
      }
    }
  }

  lemma TwoCutsDiffer(r: Rx, x: byte, y: byte, n: nat)
    requires Rearming(r, r.buffer, n) && r.buffer != [] && n >= 2
    ensures Join([[x, y]]) == Join([[x], [y]])
    ensures Project(Arrive(r, [[x, y]])) != Project(Arrive(r, [[x], [y]]))
  {
    JoinedCuts(x, y);
    ArriveOne(r, [x, y]);
    SegmentTakesTwo(r, [x, y], n);
    ArriveTwo(r, [x], [y]);
    SegmentTakesTwo(r, [x], n);
    ByteIsTaken(Segment(r, [x], true), y, n - 2);
  }

  lemma JoinedCuts(x: byte, y: byte)
    ensures Join([[x, y]]) == [x, y] == Join([[x], [y]])
  {
    assert [[x, y]][1..] == [] && [[x], [y]][1..] == [[y]] && [[y]][1..] == [];
    assert Join([[y]]) == [y] + Join([]);
    assert Join([[x], [y]]) == [x] + Join([[y]]);
    assert Join([[x, y]]) == [x, y] + Join([]);
  }

  /** However a stream that is still to come is cut, the outcome is the same. */
  ghost predicate AnyCutsAgree(r: Rx) {
    forall segs: seq<bytes>, segs': seq<bytes> ::
      segs != [] && segs' != [] && Join(segs) == Join(segs') ==>
      Project(Arrive(r, segs)) == Project(Arrive(r, segs'))
  }

  /** A reader that takes one byte at a time and has `n` re-armings to come does not
      depend on the cuts if and only if nothing was buffered when the stream began, or
      at most one re-arming is to come. */
  lemma OneByteCutsAgree(r: Rx, n: nat)
    requires Rearming(r, r.buffer, n)
    ensures AnyCutsAgree(r) <==> r.buffer == [] || n <= 1
  {
    if r.buffer == [] || n <= 1 {
      forall segs: seq<bytes>, segs': seq<bytes> | segs != [] && segs' != [] && Join(segs) == Join(segs')
        ensures Project(Arrive(r, segs)) == Project(Arrive(r, segs'))
      {
        FewRearmingsParse(r, segs, n);
        FewRearmingsParse(r, segs', n);
      }
    } else {
      TwoCutsDiffer(r, 0, 0, n);
    }
  }

  /** The smallest case: a byte is buffered, three more reads will be armed, and two more
      bytes arrive.  In one segment the last byte stays buffered behind an armed read; in
      two segments it is delivered. */
  lemma RearmingSeesSegments(r: Rx, a: byte, b: byte, c: byte)
    requires Rearming(r, [a], 3)
    ensures Rearming(Arrive(r, [[b, c]]), [c], 1)
    ensures Rearming(Arrive(r, [[b], [c]]), [], 0)
  {
    assert [a][1..] == [] && [] + [b, c] == [b, c] && [b, c][1..] == [c] && ([] + [b])[1..] == [];
    ArriveOne(r, [b, c]);
    SegmentTakesTwo(r, [b, c], 3);
    ArriveTwo(r, [b], [c]);
    SegmentTakesTwo(r, [b], 3);
    LastByteTaken(Segment(r, [b], true), c);
  }

  lemma LastByteTaken(r: Rx, c: byte)
    requires Rearming(r, [], 1)
    ensures Rearming(Segment(r, [c], true), [], 0)
  {
    RearmingIsSteady(r, 1);
    SegmentEats(r, [c]);
    assert r.buffer + [c] == [c];
    EatOne(ReaderOf(r), c);
    EatRearms(ReaderOf(r), c, 1);
    RearmingAgain(Segment(r, [c], true), 0);
  }
}
