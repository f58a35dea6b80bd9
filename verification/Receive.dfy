/** The receive half of AsyncTCPBuffer (src/ESPAsyncTCPBuffer.cpp) over values: a
    parser over the bytes already buffered and then the new segment, which the
    callbacks it calls may re-arm or stop while it is at work. */
module Receive {
  import opened Words

  datatype Mode = ModeNone | ModeFree | ModeReadBytes | ModeString

  /** What an arming asks for. */
  datatype Request = Exactly(n: nat) | Through(t: byte)

  /** One call of a done callback: which arming it answers, the bytes delivered,
      and the stretch of the consumed stream they came from. */
  datatype Done = Done(id: nat, ok: bool, request: Request, data: bytes, start: nat, end: nat)

  /** What became of consumed bytes: a data callback claimed the first `n` of what it was
      offered, or they were given to a read (the end of a string included). */
  datatype Piece = Claimed(offered: bytes, n: nat) | Served(arming: nat, data: bytes)

  /** Calls a callback may make on the buffer.  A read may be given a NULL
      destination or no done callback. */
  datatype RxCall =
    | ReadBytes(n: nat, hasPtr: bool, hasDone: bool)
    | ReadStringUntil(t: byte, hasPtr: bool, hasDone: bool)
    | OnData
    | NoCallback
    | Stop

  /** How one callback behaves: how much of what it is offered a data callback does
      not claim, and the calls it makes.  Callbacks beyond the given list claim
      everything and call nothing. */
  datatype Answer = Answer(unclaimed: nat, calls: seq<RxCall>)

  datatype Rx = Rx(
    hasClient: bool,        // _client != NULL
    connected: bool,        // _client->connected()
    mode: Mode,
    size: nat,              // _rxSize
    terminator: byte,
    hasBytesPtr: bool,
    hasStringPtr: bool,
    hasDone: bool,          // _cbDone is set
    hasData: bool,          // _cbRX is set
    buffer: bytes,          // _RXbuffer
    cap: nat,
    dest: bytes,            // written to the destination of the current arming
    request: Request,
    arming: nat,            // armings so far; the latest one's number
    start: nat,             // bytes consumed when it was made
    consumed: bytes,        // every byte consumed, in order
    pieces: seq<Piece>,     // the same, by who got them
    received: bytes,        // every byte taken in, in order
    lost: nat,              // bytes that did not fit because growth was refused
    dones: seq<Done>,
    answers: seq<Answer>)   // the callbacks to come

  const BASE: nat := 100

  function Rank(r: Rx): nat { if r.hasClient then 1 else 0 }

  function Front(a: seq<Answer>): Answer { if a == [] then Answer(0, []) else a[0] }

  function Pop(r: Rx): Rx { r.(answers := if r.answers == [] then [] else r.answers[1..]) }

  predicate IsArmed(r: Rx) { r.mode == ModeReadBytes || r.mode == ModeString }

  // ---- calls on the buffer

  /** `stop`: the done callback of an armed read is told, once, that it failed. */
  function StopNow(r: Rx): (r': Rx)
    ensures r'.hasClient ==> r.hasClient
    decreases Rank(r), 0
  {
    if !r.hasClient then r
    else
      var r1 := r.(hasClient := false);
      if r.hasDone && IsArmed(r) then
        var told := r1.(mode := ModeNone,
                        dones := r.dones + [Done(r.arming, false, r.request, r.dest, r.start, |r.consumed|)]);
        RunCalls(Pop(told), Front(r.answers).calls).(mode := ModeNone)
      else r1.(mode := ModeNone)
  }

  function ArmBytes(r: Rx, n: nat, hasPtr: bool, hasDone: bool): Rx {
    r.(mode := ModeReadBytes, size := n, hasBytesPtr := hasPtr, hasDone := hasDone,
       dest := [], request := Exactly(n), arming := r.arming + 1, start := |r.consumed|)
  }

  function ArmString(r: Rx, t: byte, hasPtr: bool, hasDone: bool): Rx {
    r.(mode := ModeString, size := 0, terminator := t, hasStringPtr := hasPtr, hasDone := hasDone,
       dest := [], request := Through(t), arming := r.arming + 1, start := |r.consumed|)
  }

  function Perform(r: Rx, call: RxCall): (r': Rx)
    ensures r'.hasClient ==> r.hasClient
    decreases Rank(r), 1
  {
    match call
    case ReadBytes(n, hasPtr, hasDone) => if !r.hasClient then r else ArmBytes(r, n, hasPtr, hasDone)
    case ReadStringUntil(t, hasPtr, hasDone) => if !r.hasClient then r else ArmString(r, t, hasPtr, hasDone)
    case OnData => if !r.hasClient then r else r.(mode := ModeFree, hasDone := false, hasData := true)
    case NoCallback => r.(mode := ModeNone)
    case Stop => StopNow(r)
  }

  function RunCalls(r: Rx, calls: seq<RxCall>): (r': Rx)
    ensures r'.hasClient ==> r.hasClient
    decreases Rank(r), 2 + |calls|
  {
    if calls == [] then r else RunCalls(Perform(r, calls[0]), calls[1..])
  }

  // ---- _handleRxBuffer

  /** What a read is given joins what it was given before. */
  function AddServed(pieces: seq<Piece>, id: nat, data: bytes): seq<Piece> {
    var n := |pieces|;
    if data == [] then pieces
    else if n > 0 && pieces[n - 1].Served? && pieces[n - 1].arming == id
    then pieces[..n - 1] + [Served(id, pieces[n - 1].data + data)]
    else pieces + [Served(id, data)]
  }

  /** Bytes consumed by the armed read. */
  function Consume(r: Rx, data: bytes): Rx {
    r.(consumed := r.consumed + data, pieces := AddServed(r.pieces, r.arming, data))
  }

  /** Bytes claimed by a data callback. */
  function Claim(r: Rx, data: bytes, n: nat): Rx
    requires n <= |data|
  {
    r.(consumed := r.consumed + data[..n], pieces := r.pieces + [Claimed(data, n)])
  }

  /** A successful completion: the mode is reset before the done callback runs. */
  function Complete(r: Rx): Rx {
    var told := r.(mode := ModeNone,
                   dones := r.dones + [Done(r.arming, true, r.request, r.dest, r.start, |r.consumed|)]);
    RunCalls(Pop(told), Front(r.answers).calls)
  }

  /** The data callback is offered `data`; the second result is how much it claims.
      What it claims counts as consumed ahead of any read it arms. */
  function Offer(r: Rx, data: bytes): (Rx, nat) {
    var a := Front(r.answers);
    var claimed := if a.unclaimed <= |data| then |data| - a.unclaimed else 0;
    var r1 := Claim(Pop(r), data, claimed);
    (RunCalls(r1.(start := |r1.consumed|), a.calls), claimed)
  }

  /** The data callback is offered everything buffered, and what it claims is removed. */
  function OfferBuffer(r: Rx): (Rx, nat) {
    if r.buffer == [] then (r, 0)
    else
      var p := Offer(r, r.buffer);
      (p.0.(buffer := r.buffer[Min(p.1, |r.buffer|)..]), p.1)
  }

  /** Only when it claimed all of that is it offered the segment as well. */
  function HandleFree(r: Rx, seg: bytes): (Rx, nat) {
    if !r.hasData then (r, 0)
    else
      var p := OfferBuffer(r);
      if p.1 == |r.buffer| && seg != [] then Offer(p.0, seg) else (p.0, 0)
  }

  /** Move `data` to the destination of the armed read. */
  function Deliver(r: Rx, data: bytes): Rx { Consume(r.(dest := r.dest + data), data) }

  function TakeBytes(r: Rx, data: bytes): Rx
    requires |data| <= r.size
  {
    Deliver(r, data).(size := r.size - |data|)
  }

  function HandleBytes(r: Rx, seg: bytes): (Rx, nat) {
    if !r.hasBytesPtr || !r.hasDone then (r, 0)
    else
      var k := Min(|r.buffer|, r.size);
      var r1 := TakeBytes(r, r.buffer[..k]).(buffer := r.buffer[k..]);
      var n := if r1.buffer == [] then Min(|seg|, r1.size) else 0;
      var r2 := TakeBytes(r1, seg[..n]);
      (if r2.size == 0 then Complete(r2) else r2, n)
  }

  /** The end of a string read: its terminator, or a zero byte. */
  predicate Ends(t: byte, c: byte) { c == t || c == 0 }

  /** The position of the first end in `s` from `i` on, or `|s|`. */
  function ScanFrom(t: byte, s: bytes, i: nat): (k: nat)
    requires i <= |s|
    ensures i <= k <= |s|
    ensures k < |s| ==> Ends(t, s[k])
    ensures forall j :: i <= j < k ==> !Ends(t, s[j])
    decreases |s| - i
  {
    if i == |s| || Ends(t, s[i]) then i else ScanFrom(t, s, i + 1)
  }

  function Scan(t: byte, s: bytes): (k: nat)
    ensures k <= |s|
    ensures k < |s| ==> Ends(t, s[k])
    ensures forall j :: 0 <= j < k ==> !Ends(t, s[j])
  {
    ScanFrom(t, s, 0)
  }

  lemma {:induction false} ScanFromIs(t: byte, s: bytes, i: nat, k: nat)
    requires i <= k <= |s| && (k < |s| ==> Ends(t, s[k])) && forall j :: i <= j < k ==> !Ends(t, s[j])
    ensures ScanFrom(t, s, i) == k
    decreases k - i
  {
    if i < k {
      ScanFromIs(t, s, i + 1, k);
    }
  }

  lemma ScanIs(t: byte, s: bytes, k: nat)
    requires k <= |s| && (k < |s| ==> Ends(t, s[k])) && forall j :: 0 <= j < k ==> !Ends(t, s[j])
    ensures Scan(t, s) == k
  {
    ScanFromIs(t, s, 0, k);
  }

  /** Everything delivered up to position `k` of the buffer, which holds the end. */
  function FoundInBuffer(r: Rx, k: nat): Rx
    requires k < |r.buffer|
  {
    Consume(Deliver(r, r.buffer[..k]), [r.buffer[k]]).(buffer := r.buffer[k + 1..])
  }

  /** The whole buffer delivered, without an end. */
  function Drained(r: Rx): Rx { Deliver(r, r.buffer).(buffer := []) }

  function FoundInSegment(r: Rx, seg: bytes, j: nat): Rx
    requires j < |seg|
  {
    Consume(Deliver(r, seg[..j]), [seg[j]])
  }

  function HandleString(r: Rx, seg: bytes): (Rx, nat) {
    var k := Scan(r.terminator, r.buffer);
    var j := Scan(r.terminator, seg);
    if !r.hasStringPtr || !r.hasDone then (r, 0)
    else if k < |r.buffer| then (Complete(FoundInBuffer(r, k)), 0)
    else if j < |seg| then (Complete(FoundInSegment(Drained(r), seg, j)), j + 1)
    else (Deliver(Drained(r), seg), |seg|)
  }

  /** `_handleRxBuffer`; an empty `seg` is the call with no new segment.  The second
      result is how much of `seg` was handled. */
  function Handle(r: Rx, seg: bytes): (p: (Rx, nat))
    ensures p.1 <= |seg|
  {
    if !r.hasClient || !r.connected then (r, 0)
    else match r.mode
      case ModeNone => (r, 0)
      case ModeFree => HandleFree(r, seg)
      case ModeReadBytes => HandleBytes(r, seg)
      case ModeString => HandleString(r, seg)
  }

  // ---- _rxData

  /** The loop that handles as much of a segment as possible before buffering;
      `handled` is what the previous call handled. */
  function Feed(r: Rx, rest: bytes, handled: nat): (Rx, bytes)
    decreases |rest|, if handled == 0 then 0 else 1
  {
    if r.mode == ModeNone || handled == 0 || rest == [] then (r, rest)
    else
      var p := Handle(r, rest);
      Feed(p.0, rest[p.1..], p.1)
  }

  /** The first phase: handle the segment directly.  The second result is what is
      left of it. */
  function Direct(r: Rx, seg: bytes): (Rx, bytes) {
    if r.mode == ModeNone then (r, seg)
    else
      var p := Handle(r, seg);
      if p.0.buffer == [] then Feed(p.0, seg[p.1..], p.1) else (p.0, seg[p.1..])
  }

  function Room(r: Rx): nat { if |r.buffer| < r.cap then r.cap - |r.buffer| else 0 }

  /** Growing the buffer, when that is granted, so that `n` more bytes fit. */
  function GrowFor(r: Rx, n: nat, grow: bool): Rx {
    if Room(r) < n && grow then r.(cap := r.cap + n + Room(r)) else r
  }

  /** Appending what fits. */
  function Append(r: Rx, rest: bytes): Rx {
    var n := Min(Room(r), |rest|);
    r.(buffer := r.buffer + rest[..n], lost := r.lost + |rest| - n)
  }

  /** The second phase: buffer what is left. */
  function Store(r: Rx, rest: bytes, grow: bool): Rx {
    if rest == [] then r else Append(GrowFor(r, |rest|, grow), rest)
  }

  /** The third phase: one more pass over what is buffered. */
  function Rescan(r: Rx): Rx {
    if r.buffer != [] && r.mode != ModeNone then Handle(r, []).0 else r
  }

  function Shrink(r: Rx): Rx { if r.buffer == [] && Room(r) != BASE then r.(cap := BASE) else r }

  /** `_rxData`. */
  function Segment(r: Rx, seg: bytes, grow: bool): Rx {
    if !r.hasClient || !r.connected then r
    else
      var p := Direct(r.(received := r.received + seg), seg);
      Shrink(Rescan(Store(p.0, p.1, grow)))
  }

  // ---- whole runs

  datatype RxEvent =
    | Arrives(seg: bytes, grow: bool, answers: seq<Answer>)
    | Invoked(call: RxCall, answers: seq<Answer>)     // from outside any callback
    | LinkState(connected: bool)
    | Disconnected(calls: seq<RxCall>)                // the attached disconnect handler, and what the user's does

  function Step(r: Rx, ev: RxEvent): Rx {
    match ev
    case Arrives(seg, grow, answers) => Segment(r.(answers := answers), seg, grow)
    case Invoked(call, answers) => Perform(r.(answers := answers), call)
    case LinkState(connected) => r.(connected := connected)
    case Disconnected(calls) => RunCalls(r.(hasClient := false), calls)
  }

  function RunEvents(r: Rx, run: seq<RxEvent>): Rx
    decreases |run|
  {
    if run == [] then r else RunEvents(Step(r, run[0]), run[1..])
  }

  ghost predicate FreshBuffer(r: Rx) {
    && r.hasClient && r.mode == ModeFree && !r.hasDone && !r.hasData
    && r.buffer == [] && r.cap == BASE && r.arming == 0 && r.start == 0 && r.dest == []
    && r.consumed == [] && r.pieces == [] && r.received == [] && r.lost == 0 && r.dones == []
  }
}
