/** Free mode: what a data callback is offered, and that its calls take effect; and what
    the buffer does with bytes that nothing takes. */
module ReceiveOffers {
  import opened Words
  import opened Receive
  import opened ReceiveInduction
  import opened ReceiveSegments
  import opened ReceiveRearming

  // ---- the calls of a callback

  /** All of a buffer but its stream: what calls act on. */
  datatype Control = Control(
    hasClient: bool, connected: bool, mode: Mode, size: nat, terminator: byte, hasBytesPtr: bool, hasStringPtr: bool,
    hasDone: bool, hasData: bool, request: Request, arming: nat, answers: seq<Answer>)

  function ControlOf(r: Rx): Control {
    Control(r.hasClient, r.connected, r.mode, r.size, r.terminator, r.hasBytesPtr, r.hasStringPtr,
            r.hasDone, r.hasData, r.request, r.arming, r.answers)
  }

  /** Calls do the same wherever the stream stands. */
  lemma {:induction false} SameCalls(r: Rx, s: Rx, calls: seq<RxCall>)
    requires ControlOf(r) == ControlOf(s)
    ensures ControlOf(RunCalls(r, calls)) == ControlOf(RunCalls(s, calls))
    decreases Rank(r), |calls|, 1
  {
    if calls != [] {
      SameCall(r, s, calls[0], |calls|);
      SameCalls(Perform(r, calls[0]), Perform(s, calls[0]), calls[1..]);
    }
  }

  lemma SameCall(r: Rx, s: Rx, call: RxCall, n: nat)
    requires ControlOf(r) == ControlOf(s)
    ensures ControlOf(Perform(r, call)) == ControlOf(Perform(s, call))
    decreases Rank(r), n, 0
  {
    if !call.Stop? {
      SamePlainCall(r, s, call);
    } else if r.hasClient && r.hasDone && IsArmed(r) {
      SameFailed(r, s);
      SameCalls(Failed(r), Failed(s), Front(r.answers).calls);
      SameStopped(r, s);
    } else {
      SameQuietStop(r, s);
    }
  }

  lemma SameFailed(r: Rx, s: Rx)
    requires ControlOf(r) == ControlOf(s)
    ensures ControlOf(Failed(r)) == ControlOf(Failed(s)) && Front(r.answers) == Front(s.answers)
  {
  }

  lemma SameStopped(r: Rx, s: Rx)
    requires ControlOf(r) == ControlOf(s) && r.hasClient && r.hasDone && IsArmed(r)
    requires ControlOf(RunCalls(Failed(r), Front(r.answers).calls)) == ControlOf(RunCalls(Failed(s), Front(s.answers).calls))
    ensures ControlOf(StopNow(r)) == ControlOf(StopNow(s))
  {
    StopIsFailed(r);
    StopIsFailed(s);
  }

  lemma SameQuietStop(r: Rx, s: Rx)
    requires ControlOf(r) == ControlOf(s) && !(r.hasClient && r.hasDone && IsArmed(r))
    ensures ControlOf(StopNow(r)) == ControlOf(StopNow(s))
  {
  }

  lemma SamePlainCall(r: Rx, s: Rx, call: RxCall)
    requires ControlOf(r) == ControlOf(s) && !call.Stop?
    ensures ControlOf(Perform(r, call)) == ControlOf(Perform(s, call))
  {
    match call
    case ReadBytes(n, hasPtr, done) => SameArmed(r, s, n, 0, hasPtr, done);
    case ReadStringUntil(t, hasPtr, done) => SameArmed(r, s, 0, t, hasPtr, done);
    case OnData =>
    case NoCallback =>
  }

  lemma SameArmed(r: Rx, s: Rx, n: nat, t: byte, hasPtr: bool, done: bool)
    requires ControlOf(r) == ControlOf(s)
    ensures ControlOf(ArmBytes(r, n, hasPtr, done)) == ControlOf(ArmBytes(s, n, hasPtr, done))
    ensures ControlOf(ArmString(r, t, hasPtr, done)) == ControlOf(ArmString(s, t, hasPtr, done))
  {
  }

  lemma StopIsFailed(r: Rx)
    requires r.hasClient && r.hasDone && IsArmed(r)
    ensures StopNow(r) == RunCalls(Failed(r), Front(r.answers).calls).(mode := ModeNone)
  {
  }

  /** An armed read whose done callback `stop` is about to call. */
  function Failed(r: Rx): Rx {
    Pop(r.(hasClient := false, mode := ModeNone,
           dones := r.dones + [Done(r.arming, false, r.request, r.dest, r.start, |r.consumed|)]))
  }

  lemma CallsLeave(r: Rx, calls: seq<RxCall>)
    ensures RunCalls(r, calls).pieces == r.pieces && RunCalls(r, calls).consumed == r.consumed
  {
    CallsKept((x: Rx) => true, r, calls);
  }

  lemma {:induction false} CallsLeaveBuffer(r: Rx, calls: seq<RxCall>)
    ensures RunCalls(r, calls).buffer == r.buffer && RunCalls(r, calls).cap == r.cap
    decreases Rank(r), |calls|, 1
  {
    if calls != [] {
      CallLeavesBuffer(r, calls[0], |calls|);
      CallsLeaveBuffer(Perform(r, calls[0]), calls[1..]);
    }
  }

  lemma CallLeavesBuffer(r: Rx, call: RxCall, n: nat)
    ensures Perform(r, call).buffer == r.buffer && Perform(r, call).cap == r.cap
    decreases Rank(r), n, 0
  {
    if call.Stop? && r.hasClient && r.hasDone && IsArmed(r) {
      CallsLeaveBuffer(Failed(r), Front(r.answers).calls);
    }
  }

  // ---- one offer

  /** What a callback that behaves as `a` claims of `data`. */
  function ClaimOf(a: Answer, data: bytes): nat { if a.unclaimed <= |data| then |data| - a.unclaimed else 0 }

  /** From `r` to `r'` the next data callback was offered `data`: it claimed what it
      claims of it, that is all that was consumed, and its calls took effect. */
  ghost predicate Offered(r: Rx, r': Rx, data: bytes) {
    && r'.pieces == r.pieces + [Claimed(data, ClaimOf(Front(r.answers), data))]
    && r'.consumed == r.consumed + data[..ClaimOf(Front(r.answers), data)]
    && ControlOf(r') == ControlOf(RunCalls(Pop(r), Front(r.answers).calls))
  }

  lemma OfferIsOffered(r: Rx, data: bytes)
    ensures var p := Offer(r, data);
      p.1 == ClaimOf(Front(r.answers), data) && Offered(r, p.0, data) && p.0.buffer == r.buffer
  {
    var n := ClaimOf(Front(r.answers), data);
    var calls := Front(r.answers).calls;
    var c := Claiming(Pop(r), data, n);
    assert Offer(r, data) == (RunCalls(c, calls), n);
    CallsLeave(c, calls);
    CallsLeaveBuffer(c, calls);
    SameCalls(c, Pop(r), calls);
  }

  // ---- one call of the parser

  /** The data callback is listening. */
  ghost predicate Listening(r: Rx) { r.hasClient && r.connected && r.mode == ModeFree && r.hasData }

  /** With nothing buffered, the callback is offered the segment, whole, and only that. */
  lemma FreeOffersSegment(r: Rx, seg: bytes)
    requires Listening(r) && r.buffer == [] && seg != []
    ensures var p := Handle(r, seg);
      p.1 == ClaimOf(Front(r.answers), seg) && Offered(r, p.0, seg) && p.0.buffer == []
  {
    OfferIsOffered(r, seg);
  }

  /** Otherwise it is offered everything buffered, what it does not claim stays, and it is
      offered the segment as well if and only if it claimed all of that. */
  lemma FreeOffersBufferFirst(r: Rx, seg: bytes)
    requires Listening(r) && r.buffer != []
    ensures var r1, k, p := OfferBuffer(r).0, ClaimOf(Front(r.answers), r.buffer), Handle(r, seg);
      && Offered(r, r1, r.buffer) && r1.buffer == r.buffer[k..]
      && if k == |r.buffer| && seg != []
         then p.1 == ClaimOf(Front(r1.answers), seg) && Offered(r1, p.0, seg) && p.0.buffer == []
         else p.0 == r1 && p.1 == 0
  {
    OfferIsOffered(r, r.buffer);
    OfferIsOffered(OfferBuffer(r).0, seg);
  }

  /** In particular a callback that disarms is not called again. */
  lemma DisarmingTakesEffect(r: Rx, seg: bytes)
    requires Listening(r) && r.buffer == [] && seg != [] && Front(r.answers).calls == [NoCallback]
    ensures Handle(r, seg).0.mode == ModeNone
  {
    FreeOffersSegment(r, seg);
    assert [NoCallback][1..] == [];
    assert RunCalls(Pop(r), [NoCallback]) == RunCalls(Perform(Pop(r), NoCallback), []);
  }

  // ---- a whole segment

  /** Callbacks only claim. */
  ghost predicate OnlyClaims(answers: seq<Answer>) { forall k :: 0 <= k < |answers| ==> answers[k].calls == [] }

  /** `r'` is listening as `r` was, and has been offered more. */
  ghost predicate ListensOn(r: Rx, r': Rx) {
    Listening(r') && OnlyClaims(r'.answers) && |r'.buffer| <= r'.cap && r.pieces <= r'.pieces
  }

  lemma OfferListens(r: Rx, data: bytes)
    requires Listening(r) && OnlyClaims(r.answers)
    ensures var r' := Offer(r, data).0;
      Listening(r') && OnlyClaims(r'.answers) && r'.cap == r.cap && r'.buffer == r.buffer && r.pieces <= r'.pieces
  {
  }

  lemma HandleListens(r: Rx, seg: bytes)
    requires ListensOn(r, r)
    ensures ListensOn(r, Handle(r, seg).0) && Handle(r, seg).0.cap == r.cap
  {
    var r1 := OfferBuffer(r).0;
    OfferListens(r, r.buffer);
    OfferListens(r1, seg);
  }

  lemma {:induction false} FeedListens(r: Rx, rest: bytes, handled: nat)
    requires ListensOn(r, r)
    ensures ListensOn(r, Feed(r, rest, handled).0)
    decreases |rest|, if handled == 0 then 0 else 1
  {
    if handled != 0 && rest != [] {
      var p := Handle(r, rest);
      HandleListens(r, rest);
      FeedListens(p.0, rest[p.1..], p.1);
    }
  }

  lemma DirectListens(r: Rx, seg: bytes)
    requires ListensOn(r, r)
    ensures ListensOn(r, Direct(r, seg).0) && Handle(r, seg).0.pieces <= Direct(r, seg).0.pieces
  {
    var p := Handle(r, seg);
    HandleListens(r, seg);
    FeedListens(p.0, seg[p.1..], p.1);
  }

  lemma StoreListens(r: Rx, rest: bytes, grow: bool)
    requires ListensOn(r, r)
    ensures ListensOn(r, Store(r, rest, grow))
  {
  }

  /** What is buffered was offered last, and not claimed. */
  ghost predicate LastOffered(r: Rx) {
    var n := |r.pieces|;
    n > 0 && r.pieces[n - 1].Claimed? && r.pieces[n - 1].n <= |r.pieces[n - 1].offered|
    && r.buffer == r.pieces[n - 1].offered[r.pieces[n - 1].n..]
  }

  lemma RescanOffers(r: Rx)
    requires ListensOn(r, r)
    ensures var t := Rescan(r); ListensOn(r, t) && (t.buffer != [] ==> LastOffered(t))
  {
    HandleListens(r, []);
    if r.buffer != [] {
      FreeOffersBufferFirst(r, []);
    }
  }

  /** After a segment taken in free mode, whatever stays buffered has been offered to the
      data callback, all of it, and left unclaimed; if nothing was buffered before, the
      segment was offered whole, and first. */
  lemma NothingWaitsUnoffered(r: Rx, seg: bytes, grow: bool)
    requires ListensOn(r, r)
    ensures var r' := Segment(r, seg, grow);
      && ListensOn(r, r') && (r'.buffer != [] ==> LastOffered(r'))
      && (r.buffer == [] && seg != [] ==>
            r.pieces + [Claimed(seg, ClaimOf(Front(r.answers), seg))] <= r'.pieces)
  {
    var r0 := r.(received := r.received + seg);
    DirectListens(r0, seg);
    StoredListens(Direct(r0, seg).0, Direct(r0, seg).1, grow);
    if r.buffer == [] && seg != [] {
      FreeOffersSegment(r0, seg);
    }
  }

  lemma StoredListens(d: Rx, rest: bytes, grow: bool)
    requires ListensOn(d, d)
    ensures var r' := Shrink(Rescan(Store(d, rest, grow)));
      ListensOn(d, r') && (r'.buffer != [] ==> LastOffered(r'))
  {
    var s := Store(d, rest, grow);
    StoreListens(d, rest, grow);
    RescanOffers(s);
    ShrinkListens(s, Rescan(s));
  }

  lemma ShrinkListens(r: Rx, t: Rx)
    requires ListensOn(r, t) && (t.buffer != [] ==> LastOffered(t))
    ensures var r' := Shrink(t); ListensOn(r, r') && (r'.buffer != [] ==> LastOffered(r'))
  {
  }

  /** A callback that claims everything is offered each segment once, and nothing stays. */
  lemma EverythingClaimed(r: Rx, seg: bytes, grow: bool)
    requires Listening(r) && r.answers == [] && r.buffer == [] && seg != []
    ensures var r' := Segment(r, seg, grow);
      r'.pieces == r.pieces + [Claimed(seg, |seg|)] && r'.consumed == r.consumed + seg && r'.buffer == []
  {
    var r0 := r.(received := r.received + seg);
    FreeOffersSegment(r0, seg);
    var p := Handle(r0, seg);
    assert seg[..|seg|] == seg && seg[|seg|..] == [];
    assert Direct(r0, seg) == Feed(p.0, [], |seg|) == (p.0, []);
    assert Rescan(Store(p.0, [], grow)) == p.0;
  }

  // ---- bytes that nothing takes

  /** A segment that arrives without a standing connection is dropped. */
  lemma NotConnectedDrops(r: Rx, seg: bytes, grow: bool)
    requires !(r.hasClient && r.connected)
    ensures Segment(r, seg, grow) == r
  {
  }

  /** A read without a destination or a done callback takes nothing: bytes are buffered
      behind it. */
  lemma UnservedReadBuffers(r: Rx, seg: bytes)
    requires r.hasClient && r.connected && |r.buffer| <= r.cap
    requires Unserved(r)
    ensures var r' := Segment(r, seg, true);
      Project(r') == Project(r).(buffer := r.buffer + seg) && ArmingOf(r') == ArmingOf(r) && r'.pieces == r.pieces
  {
    var r0 := r.(received := r.received + seg);
    var s := Store(r0, seg, true);
    UnservedHandles(r0, seg);
    assert seg[0..] == seg;
    assert Direct(r0, seg) == (r0, seg);
    StoreAppends(r0, seg);
    StoreIsAside(r0, seg, true);
    StoreLeavesPieces(r0, seg, true);
    UnservedStays(r0, s);
    UnservedHandles(s, []);
    assert Segment(r, seg, true) == Shrink(s);
    ShrinkIsAside(s);
  }

  predicate Unserved(r: Rx) {
    IsArmed(r) && (!r.hasDone || (if r.mode == ModeReadBytes then !r.hasBytesPtr else !r.hasStringPtr))
  }

  lemma UnservedHandles(r: Rx, seg: bytes)
    requires Unserved(r)
    ensures Handle(r, seg) == (r, 0)
  {
  }

  lemma UnservedStays(r: Rx, s: Rx)
    requires Unserved(r) && ArmingOf(s) == ArmingOf(r) && s.mode == r.mode
    ensures Unserved(s)
  {
  }

  lemma StoreLeavesPieces(r: Rx, rest: bytes, grow: bool)
    ensures Store(r, rest, grow).pieces == r.pieces
  {
  }

  /** When growth is refused the buffer is filled to its capacity and only the rest of the
      segment is lost. */
  lemma RefusedGrowthFills(r: Rx, rest: bytes)
    requires |r.buffer| <= r.cap
    ensures var r' := Store(r, rest, false);
      var n := |r'.buffer| - |r.buffer|;
      && 0 <= n <= |rest| && r'.buffer == r.buffer + rest[..n] && r'.lost == r.lost + |rest| - n
      && (n == |rest| || |r'.buffer| == r'.cap) && r'.cap == r.cap
  {
  }

  /** When it is granted everything is stored, and if the buffer had to grow there is twice
      the room there was. */
  lemma GrantedGrowthDoubles(r: Rx, rest: bytes)
    requires |r.buffer| <= r.cap
    ensures var r' := Store(r, rest, true);
      && r'.buffer == r.buffer + rest && r'.lost == r.lost
      && Room(r') == if Room(r) < |rest| then 2 * Room(r) else Room(r) - |rest|
  {
    if rest == [] {
      assert r.buffer + rest == r.buffer;
    } else {
      StoreIsAppend(r, rest);
      StoreFits(r, rest);
    }
  }

  lemma StoreFits(r: Rx, rest: bytes)
    requires |r.buffer| <= r.cap && rest != []
    ensures Store(r, rest, true).lost == r.lost
  {
  }

  /** A buffer that a segment leaves empty is given back. */
  lemma EmptyBufferShrinks(r: Rx, seg: bytes, grow: bool)
    requires r.hasClient && r.connected
    ensures var r' := Segment(r, seg, grow); r'.buffer == [] ==> r'.cap == BASE
  {
  }

  // ---- calls

  /** `stop` tells an armed read, once, that it failed, and nobody else; the client is let
      go of and no mode is left. */
  lemma StopAnswers(r: Rx)
    requires r.hasClient
    ensures var s := StopNow(r);
      && s.dones == r.dones + (if r.hasDone && IsArmed(r)
                               then [Done(r.arming, false, r.request, r.dest, r.start, |r.consumed|)] else [])
      && !s.hasClient && s.mode == ModeNone
  {
    if r.hasDone && IsArmed(r) {
      NoMoreAnswers(Failed(r), Front(r.answers).calls);
    }
  }

  lemma {:induction false} NoMoreAnswers(r: Rx, calls: seq<RxCall>)
    requires !r.hasClient
    ensures RunCalls(r, calls).dones == r.dones
    decreases |calls|
  {
    if calls != [] {
      assert StopNow(r) == r;
      NoMoreAnswers(Perform(r, calls[0]), calls[1..]);
    }
  }

  /** Free mode asked for last stands exactly when no call before it stopped. */
  lemma LastOnDataStands(r: Rx, calls: seq<RxCall>)
    requires r.hasClient
    ensures var r' := RunCalls(r, calls + [OnData]);
      if Stop !in calls then r'.hasClient && r'.mode == ModeFree && r'.hasData else r' == RunCalls(r, calls)
  {
    ClientStays(r, calls);
    CallsThen(r, calls, OnData);
  }

  // ---- calls and changes from outside

  /** An arming from outside a callback is in force exactly if the client is there. */
  lemma InvokedArms(r: Rx, arm: RxCall, answers: seq<Answer>)
    requires arm.ReadBytes? || arm.ReadStringUntil?
    ensures var r' := Step(r, Invoked(arm, answers));
      if r.hasClient then ArmedBy(r', arm) && r'.arming == r.arming + 1 else r' == r.(answers := answers)
  {
  }

  /** Once the connection is known not to stand, segments are dropped. */
  lemma LostLinkDrops(r: Rx, seg: bytes, grow: bool, answers: seq<Answer>)
    ensures var lost := Step(r, LinkState(false)); var r' := Step(lost, Arrives(seg, grow, answers));
      r'.consumed == r.consumed && r'.buffer == r.buffer && r'.received == r.received && r'.dones == r.dones
  {
  }

  /** Losing the client: the calls of the user's handler have no effect but to disarm. */
  lemma {:induction false} CallsWithoutClient(r: Rx, calls: seq<RxCall>)
    requires !r.hasClient
    ensures RunCalls(r, calls) == if NoCallback in calls then r.(mode := ModeNone) else r
    decreases |calls|
  {
    if calls != [] {
      assert StopNow(r) == r;
      CallsWithoutClient(Perform(r, calls[0]), calls[1..]);
      assert calls == [calls[0]] + calls[1..];
    }
  }

  lemma DisconnectedLetsGo(r: Rx, calls: seq<RxCall>)
    ensures Step(r, Disconnected(calls)) ==
      r.(hasClient := false, mode := if NoCallback in calls then ModeNone else r.mode)
  {
    CallsWithoutClient(r.(hasClient := false), calls);
  }

  // ---- both ends of a string

  /** A string read with nothing buffered is given the segment up to the first byte that is
      its terminator or zero, and completes exactly if there is one. */
  lemma StringStopsAtEitherEnd(r: Rx, seg: bytes, k: nat)
    requires r.mode == ModeString && r.hasStringPtr && r.hasDone && r.buffer == [] && k <= |seg|
    requires forall j :: 0 <= j < k ==> seg[j] != r.terminator && seg[j] != 0
    requires k < |seg| ==> seg[k] == r.terminator || seg[k] == 0
    ensures var p := HandleString(r, seg);
      && p.0.consumed == r.consumed + seg[..p.1] && p.1 == (if k < |seg| then k + 1 else k)
      && (k < |seg| ==> p.0.dones != r.dones && r.dones <= p.0.dones
                        && p.0.dones[|r.dones|].ok && p.0.dones[|r.dones|].data == r.dest + seg[..k])
      && (k == |seg| ==> p.0.dones == r.dones && p.0.dest == r.dest + seg)
  {
    ScanIs(r.terminator, seg, k);
    assert Scan(r.terminator, r.buffer) == 0;
    var d := Drained(r);
    assert d.dest == r.dest && d.consumed == r.consumed;
    if k < |seg| {
      StringEnds(r, d, seg, k);
      assert HandleString(r, seg) == (Complete(FoundInSegment(d, seg, k)), k + 1);
    } else {
      assert seg[..k] == seg;
      assert HandleString(r, seg) == (Deliver(d, seg), k);
    }
  }

  lemma StringEnds(r: Rx, d: Rx, seg: bytes, k: nat)
    requires k < |seg| && d.dest == r.dest && d.consumed == r.consumed && d.dones == r.dones
    ensures var c := Complete(FoundInSegment(d, seg, k));
      && c.consumed == r.consumed + seg[..k + 1] && r.dones <= c.dones && |c.dones| > |r.dones|
      && c.dones[|r.dones|].ok && c.dones[|r.dones|].data == r.dest + seg[..k]
  {
    var f := FoundInSegment(d, seg, k);
    assert f.consumed == r.consumed + seg[..k + 1];
    CompletedFirst(f);
  }

  /** A completion is logged before anything its callback causes. */
  lemma CompletedFirst(r: Rx)
    ensures var c := Complete(r);
      && c.consumed == r.consumed && r.dones + [Done(r.arming, true, r.request, r.dest, r.start, |r.consumed|)] <= c.dones
  {
    var told := Pop(r.(mode := ModeNone,
                       dones := r.dones + [Done(r.arming, true, r.request, r.dest, r.start, |r.consumed|)]));
    CallsLeave(told, Front(r.answers).calls);
    DonesGrow(told, Front(r.answers).calls);
  }

  lemma {:induction false} DonesGrow(r: Rx, calls: seq<RxCall>)
    ensures r.dones <= RunCalls(r, calls).dones
    decreases Rank(r), |calls|, 1
  {
    if calls != [] {
      DonesGrowOnce(r, calls[0], |calls|);
      DonesGrow(Perform(r, calls[0]), calls[1..]);
    }
  }

  lemma DonesGrowOnce(r: Rx, call: RxCall, n: nat)
    ensures r.dones <= Perform(r, call).dones
    decreases Rank(r), n, 0
  {
    if call.Stop? && r.hasClient {
      StopAnswers(r);
    }
  }
}
