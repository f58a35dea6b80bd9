/** An induction principle for the receive half: what a few elementary changes keep is kept
    by every run, however its callbacks arm, re-arm and stop. */
module ReceiveInduction {
  import opened Words
  import opened Receive

  type Invariant = Rx -> bool

  // ---- the elementary changes

  /** Only fields change that say nothing about who got which bytes. */
  ghost predicate Aside(r: Rx, r': Rx) {
    && r'.pieces == r.pieces && r'.consumed == r.consumed && r'.arming == r.arming && r'.start == r.start
    && r'.dones == r.dones && IsArmed(r') == IsArmed(r)
  }

  /** A read is armed. */
  ghost predicate Arms(r: Rx, r': Rx) {
    && r'.pieces == r.pieces && r'.consumed == r.consumed && r'.dones == r.dones
    && r'.arming == r.arming + 1 && r'.start == |r.consumed| && IsArmed(r')
  }

  /** No read is armed any more. */
  ghost predicate Disarms(r: Rx, r': Rx) {
    && r'.pieces == r.pieces && r'.consumed == r.consumed && r'.arming == r.arming && r'.dones == r.dones
    && !IsArmed(r')
  }

  /** The armed read is answered. */
  ghost predicate Answers(r: Rx, r': Rx, ok: bool) {
    && r'.pieces == r.pieces && r'.consumed == r.consumed && r'.arming == r.arming && IsArmed(r) && !IsArmed(r')
    && r'.dones == r.dones + [Done(r.arming, ok, r.request, r.dest, r.start, |r.consumed|)]
  }

  /** `n` bytes claimed of `data`, ahead of a read that waits. */
  function Claiming(r: Rx, data: bytes, n: nat): Rx
    requires n <= |data|
  {
    Claim(r, data, n).(start := |r.consumed| + n)
  }

  /** A read that is armed waits for its first byte. */
  ghost predicate Waits(r: Rx) { IsArmed(r) ==> r.start == |r.consumed| }

  ghost predicate KeptAside(inv: Invariant) { forall r: Rx, r': Rx :: inv(r) && Aside(r, r') ==> inv(r') }

  ghost predicate KeptByCalls(inv: Invariant) {
    && (forall r: Rx, r': Rx :: inv(r) && Arms(r, r') ==> inv(r'))
    && (forall r: Rx, r': Rx :: inv(r) && Disarms(r, r') ==> inv(r'))
    && (forall r: Rx, r': Rx, ok: bool :: inv(r) && Answers(r, r', ok) ==> inv(r'))
  }

  ghost predicate KeptByReads(inv: Invariant) {
    forall r: Rx, data: bytes :: inv(r) && IsArmed(r) ==> inv(Consume(r, data))
  }

  ghost predicate KeptByClaims(inv: Invariant) {
    forall r: Rx, data: bytes, n: nat :: inv(r) && Waits(r) && n <= |data| ==> inv(Claiming(r, data, n))
  }

  ghost predicate Kept(inv: Invariant) {
    KeptAside(inv) && KeptByCalls(inv) && KeptByReads(inv) && KeptByClaims(inv)
  }

  // ---- calls of callbacks

  /** What calls leave alone. */
  ghost predicate Leaves(r: Rx, r': Rx) {
    r'.pieces == r.pieces && r'.consumed == r.consumed && (Waits(r) ==> Waits(r'))
  }

  lemma KeepAside(inv: Invariant, r: Rx, r': Rx)
    requires Kept(inv) && inv(r) && Aside(r, r')
    ensures inv(r')
  {
  }

  lemma KeepDisarmed(inv: Invariant, r: Rx, r': Rx)
    requires Kept(inv) && inv(r) && Disarms(r, r')
    ensures inv(r')
  {
  }

  lemma KeepArmed(inv: Invariant, r: Rx, r': Rx)
    requires Kept(inv) && inv(r) && Arms(r, r')
    ensures inv(r')
  {
  }

  lemma KeepAnswered(inv: Invariant, r: Rx, r': Rx, ok: bool)
    requires Kept(inv) && inv(r) && Answers(r, r', ok)
    ensures inv(r')
  {
  }

  lemma StopKept(inv: Invariant, r: Rx)
    requires Kept(inv) && inv(r)
    ensures inv(StopNow(r)) && Leaves(r, StopNow(r))
    decreases Rank(r), 0
  {
    if r.hasClient && r.hasDone && IsArmed(r) {
      var told := Pop(r.(hasClient := false, mode := ModeNone,
                         dones := r.dones + [Done(r.arming, false, r.request, r.dest, r.start, |r.consumed|)]));
      KeepAnswered(inv, r, told, false);
      CallsKept(inv, told, Front(r.answers).calls);
      var after := RunCalls(told, Front(r.answers).calls);
      KeepDisarmed(inv, after, after.(mode := ModeNone));
    } else if r.hasClient {
      KeepDisarmed(inv, r, r.(hasClient := false, mode := ModeNone));
    }
  }

  lemma PerformKept(inv: Invariant, r: Rx, call: RxCall)
    requires Kept(inv) && inv(r)
    ensures inv(Perform(r, call)) && Leaves(r, Perform(r, call))
    decreases Rank(r), 1
  {
    match call
    case ReadBytes(n, hasPtr, hasDone) => if r.hasClient { KeepArmed(inv, r, ArmBytes(r, n, hasPtr, hasDone)); }
    case ReadStringUntil(t, hasPtr, hasDone) => if r.hasClient { KeepArmed(inv, r, ArmString(r, t, hasPtr, hasDone)); }
    case OnData => if r.hasClient { KeepDisarmed(inv, r, r.(mode := ModeFree, hasDone := false, hasData := true)); }
    case NoCallback => KeepDisarmed(inv, r, r.(mode := ModeNone));
    case Stop => StopKept(inv, r);
  }

  lemma {:induction false} CallsKept(inv: Invariant, r: Rx, calls: seq<RxCall>)
    requires Kept(inv) && inv(r)
    ensures inv(RunCalls(r, calls)) && Leaves(r, RunCalls(r, calls))
    decreases Rank(r), 2 + |calls|
  {
    if calls != [] {
      PerformKept(inv, r, calls[0]);
      CallsKept(inv, Perform(r, calls[0]), calls[1..]);
    }
  }

  lemma CompleteKept(inv: Invariant, r: Rx)
    requires Kept(inv) && inv(r) && IsArmed(r)
    ensures inv(Complete(r))
  {
    var told := Pop(r.(mode := ModeNone,
                       dones := r.dones + [Done(r.arming, true, r.request, r.dest, r.start, |r.consumed|)]));
    KeepAnswered(inv, r, told, true);
    CallsKept(inv, told, Front(r.answers).calls);
  }

  // ---- the parser

  lemma OfferKept(inv: Invariant, r: Rx, data: bytes)
    requires Kept(inv) && inv(r) && Waits(r)
    ensures inv(Offer(r, data).0) && Waits(Offer(r, data).0)
  {
    var n := Offer(r, data).1;
    KeepAside(inv, r, Pop(r));
    assert inv(Claiming(Pop(r), data, n)) && Waits(Claiming(Pop(r), data, n));
    CallsKept(inv, Claiming(Pop(r), data, n), Front(r.answers).calls);
  }

  lemma OfferBufferKept(inv: Invariant, r: Rx)
    requires Kept(inv) && inv(r) && Waits(r)
    ensures inv(OfferBuffer(r).0) && Waits(OfferBuffer(r).0)
  {
    if r.buffer != [] {
      OfferKept(inv, r, r.buffer);
      KeepAside(inv, Offer(r, r.buffer).0, OfferBuffer(r).0);
    }
  }

  lemma FreeKept(inv: Invariant, r: Rx, seg: bytes)
    requires Kept(inv) && inv(r) && Waits(r)
    ensures inv(HandleFree(r, seg).0)
  {
    if r.hasData {
      OfferBufferKept(inv, r);
      if seg != [] {
        OfferKept(inv, OfferBuffer(r).0, seg);
      }
    }
  }

  lemma ConsumeKept(inv: Invariant, r: Rx, data: bytes)
    requires Kept(inv) && inv(r) && IsArmed(r)
    ensures inv(Consume(r, data)) && IsArmed(Consume(r, data))
  {
  }

  lemma DeliverKept(inv: Invariant, r: Rx, data: bytes)
    requires Kept(inv) && inv(r) && IsArmed(r)
    ensures inv(Deliver(r, data)) && IsArmed(Deliver(r, data))
  {
    KeepAside(inv, r, r.(dest := r.dest + data));
    ConsumeKept(inv, r.(dest := r.dest + data), data);
  }

  lemma TakeKept(inv: Invariant, r: Rx, data: bytes, buffer: bytes)
    requires Kept(inv) && inv(r) && IsArmed(r) && |data| <= r.size
    ensures var r' := TakeBytes(r, data).(buffer := buffer); inv(r') && IsArmed(r')
  {
    DeliverKept(inv, r, data);
    KeepAside(inv, Deliver(r, data), TakeBytes(r, data).(buffer := buffer));
  }

  lemma FinishKept(inv: Invariant, r: Rx, data: bytes)
    requires Kept(inv) && inv(r) && IsArmed(r) && |data| <= r.size
    ensures var r' := TakeBytes(r, data); inv(if r'.size == 0 then Complete(r') else r')
  {
    TakeKept(inv, r, data, r.buffer);
    assert TakeBytes(r, data).(buffer := r.buffer) == TakeBytes(r, data);
    if TakeBytes(r, data).size == 0 {
      CompleteKept(inv, TakeBytes(r, data));
    }
  }

  lemma BytesKept(inv: Invariant, r: Rx, seg: bytes)
    requires Kept(inv) && inv(r) && IsArmed(r)
    ensures inv(HandleBytes(r, seg).0)
  {
    if r.hasBytesPtr && r.hasDone {
      var k := Min(|r.buffer|, r.size);
      var r1 := TakeBytes(r, r.buffer[..k]).(buffer := r.buffer[k..]);
      TakeKept(inv, r, r.buffer[..k], r.buffer[k..]);
      FinishKept(inv, r1, seg[..if r1.buffer == [] then Min(|seg|, r1.size) else 0]);
    }
  }

  lemma EndKept(inv: Invariant, r: Rx, s: bytes, c: byte, buffer: bytes)
    requires Kept(inv) && inv(r) && IsArmed(r)
    ensures inv(Complete(Consume(Deliver(r, s), [c]).(buffer := buffer)))
  {
    DeliverKept(inv, r, s);
    ConsumeKept(inv, Deliver(r, s), [c]);
    KeepAside(inv, Consume(Deliver(r, s), [c]), Consume(Deliver(r, s), [c]).(buffer := buffer));
    CompleteKept(inv, Consume(Deliver(r, s), [c]).(buffer := buffer));
  }

  lemma DrainedKept(inv: Invariant, r: Rx)
    requires Kept(inv) && inv(r) && IsArmed(r)
    ensures inv(Drained(r)) && IsArmed(Drained(r))
  {
    DeliverKept(inv, r, r.buffer);
    KeepAside(inv, Deliver(r, r.buffer), Drained(r));
  }

  lemma FoundKept(inv: Invariant, r: Rx, seg: bytes, j: nat)
    requires Kept(inv) && inv(r) && IsArmed(r) && j < |seg|
    ensures inv(Complete(FoundInSegment(Drained(r), seg, j)))
  {
    DrainedKept(inv, r);
    EndKept(inv, Drained(r), seg[..j], seg[j], []);
    assert FoundInSegment(Drained(r), seg, j).(buffer := []) == FoundInSegment(Drained(r), seg, j);
  }

  lemma StringKept(inv: Invariant, r: Rx, seg: bytes)
    requires Kept(inv) && inv(r) && IsArmed(r)
    ensures inv(HandleString(r, seg).0)
  {
    var k, j := Scan(r.terminator, r.buffer), Scan(r.terminator, seg);
    if r.hasStringPtr && r.hasDone {
      if k < |r.buffer| {
        EndKept(inv, r, r.buffer[..k], r.buffer[k], r.buffer[k + 1..]);
      } else if j < |seg| {
        FoundKept(inv, r, seg, j);
      } else {
        DrainedKept(inv, r);
        DeliverKept(inv, Drained(r), seg);
      }
    }
  }

  lemma HandleKept(inv: Invariant, r: Rx, seg: bytes)
    requires Kept(inv) && inv(r)
    ensures inv(Handle(r, seg).0)
  {
    match r.mode
    case ModeNone =>
    case ModeFree => FreeKept(inv, r, seg);
    case ModeReadBytes => BytesKept(inv, r, seg);
    case ModeString => StringKept(inv, r, seg);
  }

  // ---- whole runs

  lemma {:induction false} FeedKept(inv: Invariant, r: Rx, rest: bytes, handled: nat)
    requires Kept(inv) && inv(r)
    ensures inv(Feed(r, rest, handled).0)
    decreases |rest|, if handled == 0 then 0 else 1
  {
    if r.mode != ModeNone && handled != 0 && rest != [] {
      HandleKept(inv, r, rest);
      var p := Handle(r, rest);
      FeedKept(inv, p.0, rest[p.1..], p.1);
    }
  }

  lemma DirectKept(inv: Invariant, r: Rx, seg: bytes)
    requires Kept(inv) && inv(r)
    ensures inv(Direct(r, seg).0)
  {
    if r.mode != ModeNone {
      HandleKept(inv, r, seg);
      var p := Handle(r, seg);
      FeedKept(inv, p.0, seg[p.1..], p.1);
    }
  }

  lemma SegmentKept(inv: Invariant, r: Rx, seg: bytes, grow: bool)
    requires Kept(inv) && inv(r)
    ensures inv(Segment(r, seg, grow))
  {
    if r.hasClient && r.connected {
      var r0 := r.(received := r.received + seg);
      KeepAside(inv, r, r0);
      DirectKept(inv, r0, seg);
      var p := Direct(r0, seg);
      var s := Store(p.0, p.1, grow);
      KeepAside(inv, p.0, s);
      HandleKept(inv, s, []);
      KeepAside(inv, Rescan(s), Shrink(Rescan(s)));
    }
  }

  lemma StepKept(inv: Invariant, r: Rx, ev: RxEvent)
    requires Kept(inv) && inv(r)
    ensures inv(Step(r, ev))
  {
    match ev
    case Arrives(seg, grow, answers) => ArrivesKept(inv, r, seg, grow, answers);
    case Invoked(call, answers) => InvokedKept(inv, r, call, answers);
    case LinkState(connected) => KeepAside(inv, r, r.(connected := connected));
    case Disconnected(calls) => DisconnectedKept(inv, r, calls);
  }

  lemma ArrivesKept(inv: Invariant, r: Rx, seg: bytes, grow: bool, answers: seq<Answer>)
    requires Kept(inv) && inv(r)
    ensures inv(Step(r, Arrives(seg, grow, answers)))
  {
    KeepAside(inv, r, r.(answers := answers));
    SegmentKept(inv, r.(answers := answers), seg, grow);
  }

  lemma InvokedKept(inv: Invariant, r: Rx, call: RxCall, answers: seq<Answer>)
    requires Kept(inv) && inv(r)
    ensures inv(Step(r, Invoked(call, answers)))
  {
    KeepAside(inv, r, r.(answers := answers));
    PerformKept(inv, r.(answers := answers), call);
  }

  lemma DisconnectedKept(inv: Invariant, r: Rx, calls: seq<RxCall>)
    requires Kept(inv) && inv(r)
    ensures inv(Step(r, Disconnected(calls)))
  {
    KeepAside(inv, r, r.(hasClient := false));
    CallsKept(inv, r.(hasClient := false), calls);
  }

  /** What the elementary changes keep holds all along a run on which it holds at first. */
  lemma {:induction false} RunKept(inv: Invariant, r: Rx, run: seq<RxEvent>)
    requires Kept(inv) && inv(r)
    ensures inv(RunEvents(r, run))
    decreases |run|
  {
    if run != [] {
      StepKept(inv, r, run[0]);
      RunKept(inv, Step(r, run[0]), run[1..]);
    }
  }
}
