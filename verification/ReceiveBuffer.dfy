/** The receive half of the AsyncTCPBuffer object: the mode, the armed read and the
    receive queue are updated in place, and each method is proved to make the
    transition `Receive` gives for it. */
module ReceiveBufferObject {
  import opened Words
  import opened Receive
  import opened ReceiveRuns
  import opened CbufObject

  /** What is observed of the object: deliveries, armings and completions. */
  datatype Book = Book(dest: bytes, request: Request, arming: nat, start: nat,
                       consumed: bytes, pieces: seq<Piece>, received: bytes, lost: nat, dones: seq<Done>)

  lemma ServedOneMore(pieces: seq<Piece>, id: nat, s: bytes, t: bytes)
    ensures AddServed(AddServed(pieces, id, s), id, t) == AddServed(pieces, id, s + t)
  {
    var n := |pieces|;
    if t == [] {
      assert s + t == s;
    } else if s == [] {
      assert s + t == t;
    } else if n > 0 && pieces[n - 1].Served? && pieces[n - 1].arming == id {
      assert pieces[n - 1].data + s + t == pieces[n - 1].data + (s + t);
    }
  }

  lemma DeliverOneMore(r: Rx, s: bytes, i: nat)
    requires i < |s|
    ensures Deliver(Deliver(r, s[..i]), [s[i]]) == Deliver(r, s[..i + 1])
  {
    assert s[..i] + [s[i]] == s[..i + 1];
    ServedOneMore(r.pieces, r.arming, s[..i], [s[i]]);
    assert r.dest + s[..i] + [s[i]] == r.dest + s[..i + 1];
    assert r.consumed + s[..i] + [s[i]] == r.consumed + s[..i + 1];
  }

  class ReceiveBuffer {
    var hasClient: bool      // _client != NULL
    var connected: bool      // _client->connected()
    var rxMode: Mode
    var rxSize: nat
    var rxTerminator: byte
    var hasBytesPtr: bool
    var hasStringPtr: bool
    var hasDone: bool
    var hasData: bool
    const rxBuffer: Cbuf
    var answers: seq<Answer> // how the callbacks to come behave

    ghost var book: Book

    /** The object as a value of the specification. */
    ghost function View(): Rx
      reads this, rxBuffer
    {
      Rx(hasClient, connected, rxMode, rxSize, rxTerminator, hasBytesPtr, hasStringPtr, hasDone, hasData,
         rxBuffer.data, rxBuffer.cap, book.dest, book.request, book.arming, book.start,
         book.consumed, book.pieces, book.received, book.lost, book.dones, answers)
    }

    constructor (isConnected: bool)
      ensures FreshBuffer(View()) && connected == isConnected && fresh(rxBuffer)
    {
      hasClient, connected, rxMode, rxSize, rxTerminator := true, isConnected, ModeFree, 0, 0;
      hasBytesPtr, hasStringPtr, hasDone, hasData := false, false, false, false;
      rxBuffer := new Cbuf(BASE);
      answers := [];
      book := Book([], Exactly(0), 0, 0, [], [], [], 0, []);
    }

    // ---- arming and stopping

    method ReadBytes(n: nat, hasPtr: bool, done: bool)
      modifies this
      ensures View() == Perform(old(View()), RxCall.ReadBytes(n, hasPtr, done))
    {
      if hasClient {
        rxMode := ModeNone;
        hasDone := done;
        hasBytesPtr := hasPtr;
        rxSize := n;
        rxMode := ModeReadBytes;
        book := book.(dest := [], request := Exactly(n), arming := book.arming + 1, start := |book.consumed|);
      }
    }

    method ReadStringUntil(t: byte, hasPtr: bool, done: bool)
      modifies this
      ensures View() == Perform(old(View()), RxCall.ReadStringUntil(t, hasPtr, done))
    {
      if hasClient {
        rxMode := ModeNone;
        hasDone := done;
        hasStringPtr := hasPtr;
        rxTerminator := t;
        rxSize := 0;
        rxMode := ModeString;
        book := book.(dest := [], request := Through(t), arming := book.arming + 1, start := |book.consumed|);
      }
    }

    method OnData()
      modifies this
      ensures View() == Perform(old(View()), RxCall.OnData)
    {
      if !hasClient {
        return;
      }
      rxMode := ModeNone;
      hasDone := false;
      hasData := true;
      rxMode := ModeFree;
    }

    method NoCallback()
      modifies this
      ensures View() == Perform(old(View()), RxCall.NoCallback)
    {
      rxMode := ModeNone;
    }

    method Stop()
      modifies this
      ensures View() == StopNow(old(View()))
      decreases if hasClient then 1 else 0, 0
    {
      if !hasClient {
        return;
      }
      hasClient := false;
      if hasDone && (rxMode == ModeReadBytes || rxMode == ModeString) {
        ReportFailure();
      }
      rxMode := ModeNone;
    }

    /** The done callback of an armed read is told that it failed. */
    method ReportFailure()
      requires !hasClient
      modifies this
      ensures var r := old(View());
        var told := r.(mode := ModeNone,
                       dones := r.dones + [Done(r.arming, false, r.request, r.dest, r.start, |r.consumed|)]);
        View() == RunCalls(Pop(told), Front(r.answers).calls)
      decreases 0, 5 + |Front(answers).calls|
    {
      rxMode := ModeNone;
      book := book.(dones := book.dones + [Done(book.arming, false, book.request, book.dest, book.start, |book.consumed|)]);
      RunCallback();
    }

    // ---- callbacks

    method NextAnswer() returns (a: Answer)
      modifies this
      ensures a == Front(old(View()).answers) && View() == Pop(old(View()))
    {
      if answers == [] {
        return Answer(0, []);
      }
      a := answers[0];
      answers := answers[1..];
    }

    /** A done callback making its calls. */
    method RunCallback()
      modifies this
      ensures View() == RunCalls(Pop(old(View())), Front(old(View()).answers).calls)
      decreases if hasClient then 1 else 0, 4 + |Front(answers).calls|
    {
      var a := NextAnswer();
      MakeCalls(a.calls);
    }

    method MakeCall(call: RxCall)
      modifies this
      ensures View() == Perform(old(View()), call)
      decreases if hasClient then 1 else 0, 1
    {
      match call
      case ReadBytes(n, hasPtr, done) => ReadBytes(n, hasPtr, done);
      case ReadStringUntil(t, hasPtr, done) => ReadStringUntil(t, hasPtr, done);
      case OnData => OnData();
      case NoCallback => NoCallback();
      case Stop => Stop();
    }

    method MakeCalls(calls: seq<RxCall>)
      modifies this
      ensures View() == RunCalls(old(View()), calls)
      decreases if hasClient then 1 else 0, 2 + |calls|
    {
      var i := 0;
      while i < |calls|
        invariant 0 <= i <= |calls|
        invariant RunCalls(View(), calls[i..]) == RunCalls(old(View()), calls)
        invariant hasClient ==> old(hasClient)
      {
        assert calls[i..][0] == calls[i] && calls[i..][1..] == calls[i + 1..];
        MakeCall(calls[i]);
        i := i + 1;
      }
    }

    /** The end of a satisfied read. */
    method CompleteRead()
      modifies this
      ensures View() == Complete(old(View()))
    {
      rxMode := ModeNone;
      book := book.(dones := book.dones + [Done(book.arming, true, book.request, book.dest, book.start, |book.consumed|)]);
      RunCallback();
    }

    /** `_cbRX(data)`; returns what it claims. */
    method OfferData(data: bytes) returns (claimed: nat)
      modifies this
      ensures View() == Offer(old(View()), data).0 && claimed == Offer(old(View()), data).1
    {
      var a := NextAnswer();
      claimed := if a.unclaimed <= |data| then |data| - a.unclaimed else 0;
      book := book.(consumed := book.consumed + data[..claimed], start := |book.consumed| + claimed,
                    pieces := book.pieces + [Claimed(data, claimed)]);
      MakeCalls(a.calls);
    }

    // ---- _handleRxBuffer, mode by mode

    method HandleFreeMode(seg: bytes) returns (handled: nat)
      modifies this, rxBuffer`data
      ensures View() == HandleFree(old(View()), seg).0 && handled == HandleFree(old(View()), seg).1
    {
      if !hasData {
        return 0;
      }
      ghost var r0 := View();
      var available := |rxBuffer.data|;
      var r := 0;
      if available > 0 {
        var b := rxBuffer.Peek(available);
        assert b == rxBuffer.data;
        r := OfferData(b);
        rxBuffer.Remove(r);
      }
      assert View() == OfferBuffer(r0).0 && r == OfferBuffer(r0).1;
      if r == available && |seg| > 0 {
        handled := OfferData(seg);
        return;
      }
      return 0;
    }

    /** Bytes moved to the destination of a byte read. */
    method MoveBytes(d: bytes)
      requires |d| <= rxSize
      modifies this
      ensures View() == TakeBytes(old(View()), d)
    {
      book := book.(dest := book.dest + d, consumed := book.consumed + d,
                    pieces := AddServed(book.pieces, book.arming, d));
      rxSize := rxSize - |d|;
    }

    method HandleBytesMode(seg: bytes) returns (handled: nat)
      modifies this, rxBuffer`data
      ensures View() == HandleBytes(old(View()), seg).0 && handled == HandleBytes(old(View()), seg).1
    {
      if !hasBytesPtr || !hasDone {
        return 0;
      }
      TakeFromBuffer();
      handled := TakeRest(seg);
    }

    /** As much as is buffered and asked for. */
    method TakeFromBuffer()
      modifies this, rxBuffer`data
      ensures var r := old(View()); var k := Min(|r.buffer|, r.size);
        View() == TakeBytes(r, r.buffer[..k]).(buffer := r.buffer[k..])
    {
      var d := rxBuffer.Read(rxSize);
      MoveBytes(d);
    }

    /** Then, with nothing left buffered, out of the segment; and completion. */
    method TakeRest(seg: bytes) returns (handled: nat)
      modifies this
      ensures var r := old(View());
        && handled == (if r.buffer == [] then Min(|seg|, r.size) else 0)
        && View() == var r2 := TakeBytes(r, seg[..handled]); if r2.size == 0 then Complete(r2) else r2
    {
      handled := 0;
      if |rxBuffer.data| == 0 && |seg| > 0 {
        handled := if |seg| > rxSize then rxSize else |seg|;
      }
      MoveBytes(seg[..handled]);
      if rxSize == 0 {
        CompleteRead();
      }
    }

    /** One byte of a string read: the end is consumed, anything else delivered. */
    method TakeChar(c: byte) returns (ended: bool)
      modifies this
      ensures ended == Ends(rxTerminator, c) && rxTerminator == old(rxTerminator)
      ensures View() == if ended then Consume(old(View()), [c]) else Deliver(old(View()), [c])
    {
      book := book.(consumed := book.consumed + [c], pieces := AddServed(book.pieces, book.arming, [c]));
      if c == rxTerminator || c == 0 {
        return true;
      }
      book := book.(dest := book.dest + [c]);
      return false;
    }

    /** One byte of a string read taken out of the buffer. */
    method TakeBuffered(ghost r: Rx, ghost i: nat) returns (ended: bool)
      requires i < |r.buffer| && View() == Deliver(r, r.buffer[..i]).(buffer := r.buffer[i..])
      modifies this, rxBuffer`data
      ensures ended == Ends(r.terminator, r.buffer[i])
      ensures View() == if ended then FoundInBuffer(r, i)
                        else Deliver(r, r.buffer[..i + 1]).(buffer := r.buffer[i + 1..])
    {
      var c := rxBuffer.Read(1);
      assert c == [r.buffer[i]] && rxBuffer.data == r.buffer[i + 1..];
      ended := TakeChar(c[0]);
      DeliverOneMore(r, r.buffer, i);
    }

    /** The loop of a string read over the buffered bytes. */
    method ScanBuffer() returns (ended: bool)
      modifies this, rxBuffer`data
      ensures var r := old(View());
        var k := Scan(r.terminator, r.buffer);
        && ended == (k < |r.buffer|)
        && View() == if ended then FoundInBuffer(r, k) else Drained(r)
    {
      ghost var r := View();
      ghost var i := 0;
      ended := false;
      assert r.dest + r.buffer[..0] == r.dest && r.consumed + r.buffer[..0] == r.consumed;
      while |rxBuffer.data| > 0 && !ended
        invariant 0 <= i <= |r.buffer| && (ended ==> i < |r.buffer| && Ends(r.terminator, r.buffer[i]))
        invariant View() == if ended then FoundInBuffer(r, i)
                            else Deliver(r, r.buffer[..i]).(buffer := r.buffer[i..])
        invariant ScanFrom(r.terminator, r.buffer, i) == Scan(r.terminator, r.buffer)
        decreases !ended, |r.buffer| - i
      {
        ended := TakeBuffered(r, i);
        if !ended {
          i := i + 1;
        }
      }
      assert !ended ==> r.buffer[..i] == r.buffer;
    }

    /** One byte of a string read taken out of the segment. */
    method TakeFromSegment(ghost r: Rx, seg: bytes, n: nat) returns (ended: bool)
      requires n < |seg| && View() == Deliver(r, seg[..n])
      modifies this
      ensures ended == Ends(r.terminator, seg[n])
      ensures View() == if ended then FoundInSegment(r, seg, n) else Deliver(r, seg[..n + 1])
    {
      var c := seg[n];
      ended := TakeChar(c);
      DeliverOneMore(r, seg, n);
    }

    /** Its loop over the new segment; `n` bytes of it are handled. */
    method ScanSegment(seg: bytes) returns (n: nat, ended: bool)
      modifies this
      ensures var r := old(View());
        var j := Scan(r.terminator, seg);
        && ended == (j < |seg|) && n == (if ended then j + 1 else |seg|)
        && View() == if ended then FoundInSegment(r, seg, j) else Deliver(r, seg)
    {
      ghost var r := View();
      n, ended := 0, false;
      assert r.dest + seg[..0] == r.dest && r.consumed + seg[..0] == r.consumed;
      while n < |seg| && !ended
        invariant 0 <= n <= |seg| && (ended ==> n > 0 && Ends(r.terminator, seg[n - 1]))
        invariant View() == if ended then FoundInSegment(r, seg, n - 1) else Deliver(r, seg[..n])
        invariant ScanFrom(r.terminator, seg, if ended then n - 1 else n) == Scan(r.terminator, seg)
        decreases |seg| - n
      {
        ended := TakeFromSegment(r, seg, n);
        n := n + 1;
      }
      assert !ended ==> seg[..n] == seg;
    }

    method HandleStringMode(seg: bytes) returns (handled: nat)
      modifies this, rxBuffer`data
      ensures View() == HandleString(old(View()), seg).0 && handled == HandleString(old(View()), seg).1
    {
      if !hasStringPtr || !hasDone {
        return 0;
      }
      var ended := ScanBuffer();
      if ended {
        CompleteRead();
        return 0;
      }
      handled, ended := ScanSegment(seg);
      if ended {
        CompleteRead();
      }
    }

    /** `_handleRxBuffer`; returns how much of `seg` was handled. */
    method HandleRxBuffer(seg: bytes) returns (handled: nat)
      modifies this, rxBuffer`data
      ensures View() == Handle(old(View()), seg).0 && handled == Handle(old(View()), seg).1
    {
      if !hasClient || !connected {
        return 0;
      }
      match rxMode
      case ModeNone => handled := 0;
      case ModeFree => handled := HandleFreeMode(seg);
      case ModeReadBytes => handled := HandleBytesMode(seg);
      case ModeString => handled := HandleStringMode(seg);
    }

    // ---- _rxData

    /** Handle as much as possible before using the buffer; returns what is left. */
    method HandleDirectly(seg: bytes) returns (rest: bytes)
      modifies this, rxBuffer`data
      ensures View() == Direct(old(View()), seg).0 && rest == Direct(old(View()), seg).1
    {
      rest := seg;
      if rxMode != ModeNone {
        ghost var r := View();
        var handled := HandleRxBuffer(rest);
        rest := rest[handled..];
        if |rxBuffer.data| == 0 {
          ghost var goal := Feed(View(), rest, handled);
          while rxMode != ModeNone && handled != 0 && |rest| > 0
            invariant Feed(View(), rest, handled).0 == goal.0
            invariant Feed(View(), rest, handled).1 == goal.1
            decreases |rest|, if handled == 0 then 0 else 1
          {
            handled := HandleRxBuffer(rest);
            rest := rest[handled..];
          }
        }
      }
    }

    /** Buffer what is left of a segment, growing the queue if need be. */
    method StoreRest(rest: bytes, grow: bool)
      requires |rxBuffer.data| <= rxBuffer.cap
      modifies this, rxBuffer
      ensures View() == Store(old(View()), rest, grow)
    {
      if |rest| > 0 {
        if rxBuffer.Room() < |rest| {
          rxBuffer.Resize(rxBuffer.cap + |rest| + rxBuffer.Room(), grow);
        }
        assert View() == GrowFor(old(View()), |rest|, grow);
        var n := rxBuffer.Write(rest);
        book := book.(lost := book.lost + |rest| - n);
      }
    }

    /** Handle as much as possible of what is buffered.  Without a segment
        `_handleRxBuffer` handles nothing of one, so the loop the source wraps around
        this call never turns. */
    method RescanBuffer()
      modifies this, rxBuffer`data
      ensures View() == Rescan(old(View()))
    {
      if |rxBuffer.data| > 0 && rxMode != ModeNone {
        var handled := HandleRxBuffer([]);
        assert handled == 0;
      }
    }

    method ShrinkBuffer()
      modifies rxBuffer`cap
      ensures View() == Shrink(old(View()))
    {
      if |rxBuffer.data| == 0 && rxBuffer.Room() != BASE {
        rxBuffer.Resize(BASE, true);
      }
    }

    /** `_rxData` once the connection is known to stand. */
    method TakeIn(seg: bytes, grow: bool)
      requires ReadInvariant(View()) && |rxBuffer.data| <= rxBuffer.cap && hasClient && connected
      modifies this, rxBuffer
      ensures View() == Segment(old(View()), seg, grow)
    {
      book := book.(received := book.received + seg);
      DirectStaysWithin(View(), seg);
      var rest := HandleDirectly(seg);
      StoreRest(rest, grow);
      RescanBuffer();
      ShrinkBuffer();
    }

    /** `_rxData` */
    method RxData(seg: bytes, grow: bool)
      requires Sound(View())
      modifies this, rxBuffer
      ensures View() == Segment(old(View()), seg, grow) && Sound(View())
    {
      SegmentKeeps(View(), seg, grow);
      if hasClient && connected {
        TakeIn(seg, grow);
      }
    }

    /** The disconnect handler attached to the client; `calls` is what the user's does. */
    method Disconnect(calls: seq<RxCall>)
      modifies this
      ensures View() == RunCalls(old(View()).(hasClient := false), calls)
    {
      hasClient := false;
      MakeCalls(calls);
    }

    method Await(more: seq<Answer>)
      requires Sound(View())
      modifies this`answers
      ensures View() == old(View()).(answers := more) && Sound(View())
    {
      answers := more;
    }

    /** Any event of a run; every one keeps what the next demands. */
    method HandleEvent(ev: RxEvent)
      requires Sound(View())
      modifies this, rxBuffer
      ensures View() == Step(old(View()), ev)
    {
      match ev
      case Arrives(seg, grow, more) =>
        Await(more);
        RxData(seg, grow);
      case Invoked(call, more) =>
        Await(more);
        MakeCall(call);
      case LinkState(standing) => connected := standing;
      case Disconnected(calls) => Disconnect(calls);
    }
  }
}
