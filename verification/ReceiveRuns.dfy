/** What the receive half keeps over every run: no byte is lost or reordered, and
    each armed read is answered at most once, with exactly what it asked for. */
module ReceiveRuns {
  import opened Words
  import opened Receive

  // ---- conservation

  /** Consumed, buffered and still in hand (`rest`), in this order, is what came in;
      bytes are missing only where growth was refused. */
  ghost predicate Conserved(r: Rx, rest: bytes) {
    && |r.consumed| + |r.buffer| + |rest| + r.lost == |r.received|
    && (r.lost == 0 ==> r.consumed + r.buffer + rest == r.received)
  }

  // ---- armings and completions

  ghost predicate NoEnd(t: byte, s: bytes) { forall k :: 0 <= k < |s| ==> !Ends(t, s[k]) }

  /** The bytes delivered to a completed or failed arming are exactly the stretch of
      the stream it consumed, less the end of a string. */
  ghost predicate Fulfilled(d: Done, consumed: bytes) {
    && d.start <= d.end <= |consumed|
    && match d.request
       case Exactly(n) =>
         d.data == consumed[d.start..d.end] && (if d.ok then |d.data| == n else |d.data| <= n)
       case Through(t) =>
         && NoEnd(t, d.data)
         && if d.ok
            then d.start < d.end && d.data == consumed[d.start..d.end - 1] && Ends(t, consumed[d.end - 1])
            else d.data == consumed[d.start..d.end]
  }

  /** The log of completions, from the last entry back: every entry is below the
      numbers `id` and `end`, all but possibly the last succeeded, and each took a
      stretch of the stream after those of the entries before it. */
  ghost predicate LogOk(dones: seq<Done>, consumed: bytes, id: nat, end: nat, allOk: bool)
    decreases |dones|
  {
    dones == [] ||
    (var n := |dones| - 1;
     && Fulfilled(dones[n], consumed)
     && dones[n].id < id && dones[n].end <= end && (allOk ==> dones[n].ok)
     && LogOk(dones[..n], consumed, dones[n].id, dones[n].start, true))
  }

  /** The completions logged so far are older than an armed read, and a failure can
      only be the last entry, once `stop` has let go of the client. */
  ghost predicate CompletionsLogged(r: Rx) {
    LogOk(r.dones, r.consumed,
          if IsArmed(r) then r.arming else r.arming + 1,
          if IsArmed(r) then r.start else |r.consumed|,
          r.hasClient)
  }

  /** An armed read holds what was consumed since its first byte, and is not
      yet satisfied. */
  ghost predicate InProgress(r: Rx) {
    && r.start <= |r.consumed|
    && match r.mode
       case ModeReadBytes => r.consumed[r.start..] == r.dest && r.request == Exactly(|r.dest| + r.size)
       case ModeString =>
         r.consumed[r.start..] == r.dest && r.request == Through(r.terminator) && NoEnd(r.terminator, r.dest)
       case _ => true
  }

  ghost predicate ReadInvariant(r: Rx) { CompletionsLogged(r) && InProgress(r) }

  /** Callbacks do not touch the stream. */
  ghost predicate SameStream(r: Rx, r': Rx) {
    && r'.consumed == r.consumed && r'.pieces == r.pieces && r'.buffer == r.buffer && r'.cap == r.cap
    && r'.received == r.received && r'.lost == r.lost && r'.connected == r.connected
  }

  /** A read is waiting for its first byte, or none is armed. */
  ghost predicate Untouched(r: Rx) { IsArmed(r) ==> r.dest == [] }

  ghost predicate CallKeeps(r: Rx, r': Rx) {
    ReadInvariant(r') && SameStream(r, r') && (Untouched(r) ==> Untouched(r'))
  }

  lemma Appended(dones: seq<Done>, consumed: bytes, d: Done)
    requires LogOk(dones, consumed, d.id, d.start, true) && Fulfilled(d, consumed)
    ensures LogOk(dones + [d], consumed, d.id + 1, d.end, d.ok)
  {
    assert (dones + [d])[..|dones|] == dones;
  }

  /** An unfinished read has been given everything consumed since it was armed. */
  lemma FailureFulfilled(r: Rx)
    requires InProgress(r) && IsArmed(r)
    ensures Fulfilled(Done(r.arming, false, r.request, r.dest, r.start, |r.consumed|), r.consumed)
  {
    assert r.consumed[r.start..|r.consumed|] == r.consumed[r.start..];
  }

  /** Logging the failure of the armed read. */
  lemma FailureAdded(r: Rx)
    requires ReadInvariant(r) && r.hasClient && IsArmed(r)
    ensures ReadInvariant(r.(hasClient := false, mode := ModeNone,
                    dones := r.dones + [Done(r.arming, false, r.request, r.dest, r.start, |r.consumed|)]))
  {
    FailureFulfilled(r);
    Appended(r.dones, r.consumed, Done(r.arming, false, r.request, r.dest, r.start, |r.consumed|));
  }

  lemma DisarmKeeps(r: Rx)
    requires ReadInvariant(r)
    ensures CallKeeps(r, r.(mode := ModeNone))
  {
  }

  lemma PopKeeps(r: Rx)
    requires ReadInvariant(r)
    ensures CallKeeps(r, Pop(r))
  {
  }

  /** `stop` telling an armed read that it failed. */
  lemma StopArmedKeeps(r: Rx)
    requires ReadInvariant(r) && r.hasClient && r.hasDone && IsArmed(r)
    ensures CallKeeps(r, StopNow(r))
    decreases Rank(r), 0, 0
  {
    var d := Done(r.arming, false, r.request, r.dest, r.start, |r.consumed|);
    var told := r.(hasClient := false, mode := ModeNone, dones := r.dones + [d]);
    FailureAdded(r);
    PopKeeps(told);
    CallsKeep(Pop(told), Front(r.answers).calls);
    DisarmKeeps(RunCalls(Pop(told), Front(r.answers).calls));
  }

  lemma StopKeeps(r: Rx)
    requires ReadInvariant(r)
    ensures CallKeeps(r, StopNow(r))
    decreases Rank(r), 0, 1
  {
    if r.hasClient && r.hasDone && IsArmed(r) {
      StopArmedKeeps(r);
    } else if r.hasClient {
      DisarmKeeps(r);
      assert StopNow(r) == r.(mode := ModeNone).(hasClient := false);
    }
  }

  lemma ArmBytesKeeps(r: Rx, n: nat, hasPtr: bool, hasDone: bool)
    requires ReadInvariant(r) && r.hasClient
    ensures CallKeeps(r, ArmBytes(r, n, hasPtr, hasDone))
  {
    assert r.consumed[|r.consumed|..] == [];
  }

  lemma ArmStringKeeps(r: Rx, t: byte, hasPtr: bool, hasDone: bool)
    requires ReadInvariant(r) && r.hasClient
    ensures CallKeeps(r, ArmString(r, t, hasPtr, hasDone))
  {
    assert r.consumed[|r.consumed|..] == [];
  }

  lemma PerformKeeps(r: Rx, call: RxCall)
    requires ReadInvariant(r)
    ensures CallKeeps(r, Perform(r, call))
    decreases Rank(r), 1
  {
    match call
    case ReadBytes(n, hasPtr, hasDone) => if r.hasClient { ArmBytesKeeps(r, n, hasPtr, hasDone); }
    case ReadStringUntil(t, hasPtr, hasDone) => if r.hasClient { ArmStringKeeps(r, t, hasPtr, hasDone); }
    case OnData =>
    case NoCallback =>
    case Stop => StopKeeps(r);
  }

  lemma {:induction false} CallsKeep(r: Rx, calls: seq<RxCall>)
    requires ReadInvariant(r)
    ensures CallKeeps(r, RunCalls(r, calls))
    decreases Rank(r), 2 + |calls|
  {
    if calls != [] {
      PerformKeeps(r, calls[0]);
      CallsKeep(Perform(r, calls[0]), calls[1..]);
    }
  }

  /** The armed read has just been satisfied. */
  ghost predicate Satisfied(r: Rx) {
    r.hasClient && IsArmed(r) && CompletionsLogged(r) && Fulfilled(Done(r.arming, true, r.request, r.dest, r.start, |r.consumed|), r.consumed)
  }

  /** A completion logs the arming once, whatever its callback re-arms or stops. */
  lemma CompleteKeeps(r: Rx)
    requires Satisfied(r)
    ensures ReadInvariant(Complete(r)) && SameStream(r, Complete(r))
  {
    var d := Done(r.arming, true, r.request, r.dest, r.start, |r.consumed|);
    Appended(r.dones, r.consumed, d);
    var told := Pop(r.(mode := ModeNone, dones := r.dones + [d]));
    CallsKeep(told, Front(r.answers).calls);
  }

  // ---- one call of _handleRxBuffer

  lemma FulfilledLater(d: Done, consumed: bytes, more: bytes)
    requires Fulfilled(d, consumed)
    ensures Fulfilled(d, consumed + more)
  {
    assert (consumed + more)[d.start..d.end] == consumed[d.start..d.end];
    if d.start < d.end {
      assert (consumed + more)[d.start..d.end - 1] == consumed[d.start..d.end - 1];
    }
  }

  lemma {:induction false} LogOkLater(dones: seq<Done>, consumed: bytes, more: bytes, id: nat, end: nat, allOk: bool)
    requires LogOk(dones, consumed, id, end, allOk)
    ensures LogOk(dones, consumed + more, id, end, allOk)
    decreases |dones|
  {
    if dones != [] {
      var n := |dones| - 1;
      FulfilledLater(dones[n], consumed, more);
      LogOkLater(dones[..n], consumed, more, dones[n].id, dones[n].start, true);
    }
  }

  lemma ConsumeKeepsLog(r: Rx, data: bytes)
    requires CompletionsLogged(r)
    ensures CompletionsLogged(Consume(r, data))
  {
    LogOkLater(r.dones, r.consumed, data, if IsArmed(r) then r.arming else r.arming + 1,
               if IsArmed(r) then r.start else |r.consumed|, r.hasClient);
  }

  /** Claims go ahead of a read that waits for its first byte. */
  lemma ClaimKeeps(r: Rx, data: bytes, n: nat)
    requires ReadInvariant(r) && Untouched(r) && n <= |data|
    ensures ReadInvariant(Claim(r, data, n).(start := |r.consumed| + n))
  {
    ConsumeKeepsLog(r, data[..n]);
    assert (r.consumed + data[..n])[|r.consumed| + n..] == [];
  }

  lemma OfferKeeps(r: Rx, data: bytes)
    requires ReadInvariant(r) && Untouched(r)
    ensures var p := Offer(r, data);
      && p.1 <= |data|
      && CallKeeps(Claim(r, data, p.1), p.0) && Untouched(p.0)
  {
    var p := Offer(r, data);
    ClaimKeeps(r, data, p.1);
    var r2 := Claim(Pop(r), data, p.1).(start := |r.consumed| + p.1);
    assert ReadInvariant(r2);
    CallsKeep(r2, Front(r.answers).calls);
  }

  /** What one call of `_handleRxBuffer` on a segment in hand keeps. */
  ghost predicate HandleKeeps(r: Rx, seg: bytes, p: (Rx, nat)) {
    && p.1 <= |seg| && ReadInvariant(p.0)
    && (Conserved(r, seg) ==> Conserved(p.0, seg[p.1..]))
    && |p.0.buffer| <= |r.buffer| && p.0.cap == r.cap && p.0.lost == r.lost
  }

  /** Taking the first `k` buffered bytes, then `n` of the segment, out of the stream. */
  lemma Moves(r: Rx, seg: bytes, k: nat, n: nat, r': Rx)
    requires k <= |r.buffer| && n <= |seg| && (k == |r.buffer| || n == 0)
    requires r'.consumed == r.consumed + r.buffer[..k] + seg[..n] && r'.buffer == r.buffer[k..]
    requires r'.received == r.received && r'.lost == r.lost
    requires Conserved(r, seg)
    ensures Conserved(r', seg[n..])
  {
    if k == |r.buffer| {
      assert r.buffer[..k] == r.buffer && r'.buffer == [];
      assert r.consumed + r.buffer + (seg[..n] + seg[n..]) == r'.consumed + r'.buffer + seg[n..];
      assert seg[..n] + seg[n..] == seg;
    } else {
      assert seg[n..] == seg;
      assert r.consumed + (r.buffer[..k] + r.buffer[k..]) + seg == r'.consumed + r'.buffer + seg;
      assert r.buffer[..k] + r.buffer[k..] == r.buffer;
    }
  }

  lemma OfferBufferKeeps(r: Rx)
    requires ReadInvariant(r) && Untouched(r)
    ensures var p := OfferBuffer(r);
      && p.1 <= |r.buffer| && ReadInvariant(p.0) && Untouched(p.0)
      && p.0.consumed == r.consumed + r.buffer[..p.1] && p.0.buffer == r.buffer[p.1..]
      && p.0.received == r.received && p.0.lost == r.lost && p.0.cap == r.cap
  {
    if r.buffer != [] {
      OfferKeeps(r, r.buffer);
      BufferIsAside(Offer(r, r.buffer).0, OfferBuffer(r).0.buffer);
    }
  }

  lemma BufferIsAside(r: Rx, buffer: bytes)
    requires ReadInvariant(r)
    ensures ReadInvariant(r.(buffer := buffer))
  {
  }

  lemma HandleFreeKeeps(r: Rx, seg: bytes)
    requires ReadInvariant(r) && r.mode == ModeFree
    ensures HandleKeeps(r, seg, HandleFree(r, seg))
  {
    if r.hasData {
      OfferBufferKeeps(r);
      var p := OfferBuffer(r);
      if p.1 == |r.buffer| && seg != [] {
        OfferKeeps(p.0, seg);
      }
      HandleFreeMoves(r, seg);
    }
  }

  /** The data callback takes a prefix of the buffer and, only if that was all of it,
      a prefix of the segment. */
  lemma FreeTakes(r: Rx, seg: bytes)
    requires ReadInvariant(r) && r.mode == ModeFree && r.hasData
    ensures var (k, q) := (OfferBuffer(r).1, HandleFree(r, seg));
      && k <= |r.buffer| && q.1 <= |seg| && (k == |r.buffer| || q.1 == 0)
      && q.0.consumed == r.consumed + r.buffer[..k] + seg[..q.1] && q.0.buffer == r.buffer[k..]
      && q.0.received == r.received && q.0.lost == r.lost
  {
    OfferBufferKeeps(r);
    var p := OfferBuffer(r);
    if p.1 == |r.buffer| && seg != [] {
      OfferKeeps(p.0, seg);
    } else {
      assert p.0.consumed + seg[..0] == p.0.consumed;
    }
  }

  lemma HandleFreeMoves(r: Rx, seg: bytes)
    requires ReadInvariant(r) && r.mode == ModeFree && r.hasData
    ensures var p := HandleFree(r, seg);
      p.1 <= |seg| && (Conserved(r, seg) ==> Conserved(p.0, seg[p.1..]))
  {
    FreeTakes(r, seg);
    var q := HandleFree(r, seg);
    if Conserved(r, seg) {
      Moves(r, seg, OfferBuffer(r).1, q.1, q.0);
    }
  }

  lemma TakeKeeps(r: Rx, data: bytes)
    requires ReadInvariant(r) && r.mode == ModeReadBytes && |data| <= r.size
    ensures ReadInvariant(TakeBytes(r, data))
  {
    ConsumeKeepsLog(r, data);
    assert (r.consumed + data)[r.start..] == r.consumed[r.start..] + data;
  }

  lemma BytesSatisfied(r: Rx)
    requires ReadInvariant(r) && r.hasClient && r.mode == ModeReadBytes && r.size == 0
    ensures Satisfied(r)
  {
    assert r.consumed[r.start..|r.consumed|] == r.consumed[r.start..];
  }

  /** A byte read after it has taken what it can from the buffer, and then from the
      segment, before it completes. */
  function FromBuffer(r: Rx): Rx {
    var k := Min(|r.buffer|, r.size);
    TakeBytes(r, r.buffer[..k]).(buffer := r.buffer[k..])
  }

  function FromSegment(r: Rx, seg: bytes): nat { if r.buffer == [] then Min(|seg|, r.size) else 0 }

  lemma FromBufferKeeps(r: Rx)
    requires ReadInvariant(r) && r.mode == ModeReadBytes
    ensures ReadInvariant(FromBuffer(r)) && FromBuffer(r).mode == ModeReadBytes
  {
    var k := Min(|r.buffer|, r.size);
    TakeKeeps(r, r.buffer[..k]);
    BufferIsAside(TakeBytes(r, r.buffer[..k]), r.buffer[k..]);
  }

  lemma BytesMove(r: Rx, seg: bytes)
    requires r.mode == ModeReadBytes && Conserved(r, seg)
    ensures var n := FromSegment(FromBuffer(r), seg);
      Conserved(TakeBytes(FromBuffer(r), seg[..n]), seg[n..])
  {
    var k, n := Min(|r.buffer|, r.size), FromSegment(FromBuffer(r), seg);
    var r' := TakeBytes(FromBuffer(r), seg[..n]);
    assert r'.consumed == r.consumed + r.buffer[..k] + seg[..n] && r'.buffer == r.buffer[k..];
    Moves(r, seg, k, n, r');
  }

  lemma HandleBytesKeeps(r: Rx, seg: bytes)
    requires ReadInvariant(r) && r.hasClient && r.mode == ModeReadBytes
    ensures HandleKeeps(r, seg, HandleBytes(r, seg))
  {
    if r.hasBytesPtr && r.hasDone {
      FromBufferKeeps(r);
      var n := FromSegment(FromBuffer(r), seg);
      var r2 := TakeBytes(FromBuffer(r), seg[..n]);
      TakeKeeps(FromBuffer(r), seg[..n]);
      if Conserved(r, seg) {
        BytesMove(r, seg);
      }
      if r2.size == 0 {
        BytesSatisfied(r2);
        CompleteKeeps(r2);
      }
    }
  }

  // ---- strings

  lemma DeliverKeeps(r: Rx, data: bytes)
    requires ReadInvariant(r) && r.mode == ModeString && NoEnd(r.terminator, data)
    ensures ReadInvariant(Deliver(r, data))
  {
    ConsumeKeepsLog(r, data);
    assert (r.consumed + data)[r.start..] == r.consumed[r.start..] + data;
  }

  lemma StringSatisfied(r: Rx, c: byte)
    requires ReadInvariant(r) && r.hasClient && r.mode == ModeString && Ends(r.terminator, c)
    ensures Satisfied(Consume(r, [c]))
  {
    ConsumeKeepsLog(r, [c]);
    var all := r.consumed + [c];
    assert all[r.start..|all| - 1] == r.consumed[r.start..];
  }

  lemma FoundIsSatisfied(r: Rx, k: nat)
    requires ReadInvariant(r) && r.hasClient && r.mode == ModeString && k < |r.buffer|
    requires NoEnd(r.terminator, r.buffer[..k]) && Ends(r.terminator, r.buffer[k])
    ensures Satisfied(FoundInBuffer(r, k))
  {
    DeliverKeeps(r, r.buffer[..k]);
    StringSatisfied(Deliver(r, r.buffer[..k]), r.buffer[k]);
  }

  lemma FoundMoves(r: Rx, seg: bytes, k: nat)
    requires k < |r.buffer| && Conserved(r, seg)
    ensures Conserved(FoundInBuffer(r, k), seg[0..])
  {
    assert r.consumed + r.buffer[..k] + [r.buffer[k]] == r.consumed + r.buffer[..k + 1] + seg[..0];
    Moves(r, seg, k + 1, 0, FoundInBuffer(r, k));
  }

  lemma StringInBufferKeeps(r: Rx, seg: bytes)
    requires ReadInvariant(r) && r.hasClient && r.mode == ModeString && Scan(r.terminator, r.buffer) < |r.buffer|
    requires r.hasStringPtr && r.hasDone
    ensures HandleKeeps(r, seg, HandleString(r, seg))
  {
    var k := Scan(r.terminator, r.buffer);
    FoundIsSatisfied(r, k);
    CompleteKeeps(FoundInBuffer(r, k));
    if Conserved(r, seg) {
      FoundMoves(r, seg, k);
    }
    assert HandleString(r, seg) == (Complete(FoundInBuffer(r, k)), 0);
  }

  lemma DrainedKeeps(r: Rx)
    requires ReadInvariant(r) && r.mode == ModeString && NoEnd(r.terminator, r.buffer)
    ensures ReadInvariant(Drained(r)) && Drained(r).mode == ModeString
  {
    DeliverKeeps(r, r.buffer);
    BufferIsAside(Deliver(r, r.buffer), []);
  }

  lemma StringMoves(r: Rx, seg: bytes, n: nat, r': Rx)
    requires n <= |seg| && r'.consumed == r.consumed + r.buffer + seg[..n] && r'.buffer == []
    requires r'.received == r.received && r'.lost == r.lost && Conserved(r, seg)
    ensures Conserved(r', seg[n..])
  {
    assert r.buffer[..|r.buffer|] == r.buffer;
    Moves(r, seg, |r.buffer|, n, r');
  }

  lemma StringUnfinishedKeeps(r: Rx, seg: bytes)
    requires ReadInvariant(r) && r.mode == ModeString && NoEnd(r.terminator, r.buffer) && NoEnd(r.terminator, seg)
    ensures HandleKeeps(r, seg, (Deliver(Drained(r), seg), |seg|))
  {
    DrainedKeeps(r);
    DeliverKeeps(Drained(r), seg);
    assert seg[..|seg|] == seg;
    if Conserved(r, seg) {
      StringMoves(r, seg, |seg|, Deliver(Drained(r), seg));
    }
  }

  lemma StringFinishedKeeps(r: Rx, seg: bytes, j: nat)
    requires ReadInvariant(r) && r.hasClient && r.mode == ModeString && NoEnd(r.terminator, r.buffer)
    requires j < |seg| && NoEnd(r.terminator, seg[..j]) && Ends(r.terminator, seg[j])
    ensures HandleKeeps(r, seg, (Complete(FoundInSegment(Drained(r), seg, j)), j + 1))
  {
    DrainedKeeps(r);
    DeliverKeeps(Drained(r), seg[..j]);
    var r2 := FoundInSegment(Drained(r), seg, j);
    StringSatisfied(Deliver(Drained(r), seg[..j]), seg[j]);
    CompleteKeeps(r2);
    if Conserved(r, seg) {
      FinishedMoves(r, seg, j);
    }
  }

  lemma FinishedMoves(r: Rx, seg: bytes, j: nat)
    requires j < |seg| && Conserved(r, seg)
    ensures Conserved(FoundInSegment(Drained(r), seg, j), seg[j + 1..])
  {
    var r2 := FoundInSegment(Drained(r), seg, j);
    assert r2.consumed == r.consumed + r.buffer + seg[..j + 1];
    StringMoves(r, seg, j + 1, r2);
  }

  lemma StringInSegmentKeeps(r: Rx, seg: bytes)
    requires ReadInvariant(r) && r.hasClient && r.mode == ModeString && Scan(r.terminator, r.buffer) == |r.buffer|
    requires r.hasStringPtr && r.hasDone
    ensures HandleKeeps(r, seg, HandleString(r, seg))
  {
    assert r.buffer[..|r.buffer|] == r.buffer && seg[..|seg|] == seg;
    var j := Scan(r.terminator, seg);
    if j < |seg| {
      StringFinishedKeeps(r, seg, j);
    } else {
      StringUnfinishedKeeps(r, seg);
    }
  }

  lemma HandleAnyKeeps(r: Rx, seg: bytes)
    requires ReadInvariant(r)
    ensures HandleKeeps(r, seg, Handle(r, seg))
  {
    assert seg[0..] == seg;
    if r.hasClient && r.connected {
      match r.mode
      case ModeNone =>
      case ModeFree => HandleFreeKeeps(r, seg);
      case ModeReadBytes => HandleBytesKeeps(r, seg);
      case ModeString =>
        if r.hasStringPtr && r.hasDone {
          if Scan(r.terminator, r.buffer) < |r.buffer| {
            StringInBufferKeeps(r, seg);
          } else {
            StringInSegmentKeeps(r, seg);
          }
        }
    }
  }

  // ---- _rxData and whole runs

  lemma {:induction false} FeedKeeps(r: Rx, rest: bytes, handled: nat)
    requires ReadInvariant(r) && |r.buffer| <= r.cap
    ensures var p := Feed(r, rest, handled);
      && ReadInvariant(p.0) && |p.0.buffer| <= p.0.cap && p.0.lost == r.lost
      && (Conserved(r, rest) ==> Conserved(p.0, p.1))
    decreases |rest|, if handled == 0 then 0 else 1
  {
    if r.mode != ModeNone && handled != 0 && rest != [] {
      HandleAnyKeeps(r, rest);
      var p := Handle(r, rest);
      FeedKeeps(p.0, rest[p.1..], p.1);
    }
  }

  lemma DirectKeeps(r: Rx, seg: bytes)
    requires ReadInvariant(r) && |r.buffer| <= r.cap
    ensures var p := Direct(r, seg);
      && ReadInvariant(p.0) && |p.0.buffer| <= p.0.cap && p.0.lost == r.lost
      && (Conserved(r, seg) ==> Conserved(p.0, p.1))
  {
    if r.mode != ModeNone {
      HandleAnyKeeps(r, seg);
      var p := Handle(r, seg);
      FeedKeeps(p.0, seg[p.1..], p.1);
    }
  }

  lemma StoreKeeps(r: Rx, rest: bytes, grow: bool)
    requires ReadInvariant(r) && |r.buffer| <= r.cap
    ensures ReadInvariant(Store(r, rest, grow))
  {
    var r' := Store(r, rest, grow);
    StorageIsAside(r, r'.buffer, r'.cap, r'.lost);
  }

  lemma StorageIsAside(r: Rx, buffer: bytes, cap: nat, lost: nat)
    requires ReadInvariant(r)
    ensures ReadInvariant(r.(buffer := buffer, cap := cap, lost := lost))
  {
  }

  /** Growth that is granted always makes room. */
  lemma StoreFits(r: Rx, rest: bytes, grow: bool)
    requires |r.buffer| <= r.cap
    ensures |Store(r, rest, grow).buffer| <= Store(r, rest, grow).cap
    ensures grow ==> Store(r, rest, grow).lost == r.lost
  {
  }

  lemma AppendConserves(r: Rx, rest: bytes)
    requires |r.buffer| <= r.cap && Conserved(r, rest)
    ensures Conserved(Append(r, rest), [])
  {
    if Room(r) >= |rest| {
      assert rest[..|rest|] == rest;
      assert r.consumed + (r.buffer + rest) + [] == r.consumed + r.buffer + rest;
    }
  }

  lemma StoreConserves(r: Rx, rest: bytes, grow: bool)
    requires |r.buffer| <= r.cap && Conserved(r, rest)
    ensures Conserved(Store(r, rest, grow), [])
  {
    if rest != [] {
      AppendConserves(GrowFor(r, |rest|, grow), rest);
    }
  }

  lemma RescanKeeps(r: Rx)
    requires ReadInvariant(r) && |r.buffer| <= r.cap && Conserved(r, [])
    ensures var r' := Rescan(r); ReadInvariant(r') && |r'.buffer| <= r'.cap && Conserved(r', []) && r'.lost == r.lost
  {
    HandleAnyKeeps(r, []);
  }

  lemma ShrinkKeeps(r: Rx)
    requires ReadInvariant(r) && |r.buffer| <= r.cap && Conserved(r, [])
    ensures var r' := Shrink(r); ReadInvariant(r') && |r'.buffer| <= r'.cap && Conserved(r', [])
  {
  }

  lemma DirectStaysWithin(r: Rx, seg: bytes)
    requires ReadInvariant(r) && |r.buffer| <= r.cap
    ensures |Direct(r, seg).0.buffer| <= Direct(r, seg).0.cap
  {
    DirectKeeps(r, seg);
  }

  /** What holds between events. */
  ghost predicate Sound(r: Rx) { ReadInvariant(r) && |r.buffer| <= r.cap && Conserved(r, []) }

  lemma SegmentKeeps(r: Rx, seg: bytes, grow: bool)
    requires Sound(r)
    ensures Sound(Segment(r, seg, grow))
    ensures grow ==> Segment(r, seg, grow).lost == r.lost
  {
    if r.hasClient && r.connected {
      var r0 := r.(received := r.received + seg);
      assert r.consumed + r.buffer + [] + seg == r.consumed + r.buffer + seg;
      assert ReadInvariant(r0) && Conserved(r0, seg);
      DirectKeeps(r0, seg);
      var p := Direct(r0, seg);
      StoreKeeps(p.0, p.1, grow);
      StoreFits(p.0, p.1, grow);
      StoreConserves(p.0, p.1, grow);
      RescanKeeps(Store(p.0, p.1, grow));
      ShrinkKeeps(Rescan(Store(p.0, p.1, grow)));
    }
  }

  lemma StepKeeps(r: Rx, ev: RxEvent)
    requires Sound(r)
    ensures Sound(Step(r, ev))
    ensures (ev.Arrives? ==> ev.grow) ==> Step(r, ev).lost == r.lost
  {
    match ev
    case Arrives(seg, grow, answers) => ArrivesKeeps(r, seg, grow, answers);
    case Invoked(call, answers) => InvokedKeeps(r, call, answers);
    case LinkState(_) =>
    case Disconnected(calls) => DisconnectKeeps(r, calls);
  }

  lemma AnswersAside(r: Rx, answers: seq<Answer>)
    requires Sound(r)
    ensures Sound(r.(answers := answers))
  {
  }

  lemma ArrivesKeeps(r: Rx, seg: bytes, grow: bool, answers: seq<Answer>)
    requires Sound(r)
    ensures var r' := Step(r, Arrives(seg, grow, answers)); Sound(r') && (grow ==> r'.lost == r.lost)
  {
    AnswersAside(r, answers);
    SegmentKeeps(r.(answers := answers), seg, grow);
  }

  lemma InvokedKeeps(r: Rx, call: RxCall, answers: seq<Answer>)
    requires Sound(r)
    ensures var r' := Step(r, Invoked(call, answers)); Sound(r') && r'.lost == r.lost
  {
    AnswersAside(r, answers);
    PerformKeeps(r.(answers := answers), call);
  }

  lemma DisconnectKeeps(r: Rx, calls: seq<RxCall>)
    requires Sound(r)
    ensures var r' := Step(r, Disconnected(calls)); Sound(r') && r'.lost == r.lost
  {
    LetGoKeeps(r);
    CallsKeep(r.(hasClient := false), calls);
  }

  /** Losing the client allows a failure as the last entry and changes nothing else. */
  lemma LetGoKeeps(r: Rx)
    requires ReadInvariant(r)
    ensures ReadInvariant(r.(hasClient := false))
  {
  }

  lemma {:induction false} RunKeeps(r: Rx, run: seq<RxEvent>)
    requires Sound(r)
    ensures Sound(RunEvents(r, run))
    ensures (forall k :: 0 <= k < |run| ==> run[k].Arrives? ==> run[k].grow) ==> RunEvents(r, run).lost == r.lost
    decreases |run|
  {
    if run != [] {
      StepKeeps(r, run[0]);
      RunKeeps(Step(r, run[0]), run[1..]);
    }
  }

  /** Over every run of segments, calls and callbacks that re-arm or stop, every byte
      taken in is consumed or buffered, once and in order, if and only if no byte was
      dropped for want of room. */
  lemma ReceivedInOrder(r: Rx, run: seq<RxEvent>)
    requires FreshBuffer(r)
    ensures var r' := RunEvents(r, run);
      r'.consumed + r'.buffer == r'.received <==> r'.lost == 0
  {
    RunKeeps(r, run);
    var r' := RunEvents(r, run);
    assert r'.consumed + r'.buffer + [] == r'.consumed + r'.buffer;
  }

  /** None is dropped when growth is always granted. */
  lemma NothingLostIfGrown(r: Rx, run: seq<RxEvent>)
    requires FreshBuffer(r) && forall k :: 0 <= k < |run| ==> run[k].Arrives? ==> run[k].grow
    ensures RunEvents(r, run).lost == 0
  {
    RunKeeps(r, run);
  }

  // ---- what the log of completions says

  lemma {:induction false} LogMeans(dones: seq<Done>, consumed: bytes, id: nat, end: nat, allOk: bool, j: nat, k: nat)
    requires LogOk(dones, consumed, id, end, allOk) && j < k < |dones|
    ensures dones[j].ok && dones[j].id < dones[k].id && dones[j].end <= dones[k].start
    ensures Fulfilled(dones[j], consumed) && Fulfilled(dones[k], consumed)
    ensures dones[k].id < id && dones[k].end <= end
    decreases |dones|
  {
    var n := |dones| - 1;
    if k < n {
      LogMeans(dones[..n], consumed, dones[n].id, dones[n].start, true, j, k);
    } else {
      LogEntry(dones[..n], consumed, dones[n].id, dones[n].start, true, j);
    }
  }

  lemma {:induction false} LogEntry(dones: seq<Done>, consumed: bytes, id: nat, end: nat, allOk: bool, j: nat)
    requires LogOk(dones, consumed, id, end, allOk) && j < |dones|
    ensures Fulfilled(dones[j], consumed) && dones[j].id < id && dones[j].end <= end && (allOk ==> dones[j].ok)
    decreases |dones|
  {
    var n := |dones| - 1;
    if j < n {
      LogEntry(dones[..n], consumed, dones[n].id, dones[n].start, true, j);
    }
  }

  /** Over every run each arming is answered at most once; a success delivered
      exactly what was asked for, from one stretch of the stream; the stretches
      follow one another; and a failure is the very last answer, after `stop`. */
  lemma CompletedAtMostOnce(r: Rx, run: seq<RxEvent>, j: nat, k: nat)
    requires FreshBuffer(r) && j < k < |RunEvents(r, run).dones|
    ensures var r' := RunEvents(r, run); var d := r'.dones;
      && d[j].id != d[k].id && d[j].id <= r'.arming
      && d[j].ok && d[j].end <= d[k].start
      && Fulfilled(d[j], r'.consumed) && Fulfilled(d[k], r'.consumed)
      && (d[k].ok || !r'.hasClient)
  {
    RunKeeps(r, run);
    var r' := RunEvents(r, run);
    var id := if IsArmed(r') then r'.arming else r'.arming + 1;
    var end := if IsArmed(r') then r'.start else |r'.consumed|;
    LogMeans(r'.dones, r'.consumed, id, end, r'.hasClient, j, k);
    LogEntry(r'.dones, r'.consumed, id, end, r'.hasClient, k);
  }

  /** The same about each answer alone, and so about a run with only one. */
  lemma EachCompletionSound(r: Rx, run: seq<RxEvent>, k: nat)
    requires FreshBuffer(r) && k < |RunEvents(r, run).dones|
    ensures var r' := RunEvents(r, run); var d := r'.dones[k];
      Fulfilled(d, r'.consumed) && d.id <= r'.arming && (d.ok || !r'.hasClient)
  {
    RunKeeps(r, run);
    var r' := RunEvents(r, run);
    LogEntry(r'.dones, r'.consumed, if IsArmed(r') then r'.arming else r'.arming + 1,
             if IsArmed(r') then r'.start else |r'.consumed|, r'.hasClient, k);
  }

  lemma StepWithoutClient(r: Rx, ev: RxEvent)
    requires !r.hasClient
    ensures var r' := Step(r, ev); !r'.hasClient && r'.dones == r.dones && r'.consumed == r.consumed
  {
    match ev
    case Arrives(seg, grow, answers) => assert Segment(r.(answers := answers), seg, grow) == r.(answers := answers);
    case Invoked(call, answers) => InvokedWithoutClient(r.(answers := answers), call);
    case LinkState(_) =>
    case Disconnected(calls) => IdleCalls(r.(hasClient := false), calls);
  }

  lemma InvokedWithoutClient(r: Rx, call: RxCall)
    requires !r.hasClient
    ensures var r' := Perform(r, call); !r'.hasClient && r'.dones == r.dones && r'.consumed == r.consumed
  {
    IdleCalls(r, [call]);
    OneCall(r, call);
  }

  lemma OneCall(r: Rx, call: RxCall)
    ensures RunCalls(r, [call]) == Perform(r, call)
  {
    assert [call][1..] == [];
    assert RunCalls(Perform(r, call), []) == Perform(r, call);
  }

  /** With the client gone no done callback is ever called again: a read that was
      armed when the connection was lost is never answered, since `stop` returns at once. */
  lemma {:induction false} NoAnswerWithoutClient(r: Rx, run: seq<RxEvent>)
    requires !r.hasClient
    ensures RunEvents(r, run).dones == r.dones && RunEvents(r, run).consumed == r.consumed
    decreases |run|
  {
    if run != [] {
      StepWithoutClient(r, run[0]);
      NoAnswerWithoutClient(Step(r, run[0]), run[1..]);
    }
  }

  lemma {:induction false} IdleCalls(r: Rx, calls: seq<RxCall>)
    requires !r.hasClient
    ensures var r' := RunCalls(r, calls); !r'.hasClient && r'.dones == r.dones && r'.consumed == r.consumed
    decreases |calls|
  {
    if calls != [] {
      assert StopNow(r) == r;
      IdleCalls(Perform(r, calls[0]), calls[1..]);
    }
  }
}
