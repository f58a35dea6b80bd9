/** Reads that are armed again from their own done callbacks: a reference that takes
    one byte at a time, and when the cuts TCP makes do not matter to it. */
module ReceiveParser {
  import opened Words
  import opened Receive
  import opened ReceiveSegments

  // ---- the reference

  /** The reading part of a buffer, with the arming and the callbacks to come. */
  datatype Reader = Reader(x: Reading, a: Arming)

  function ReaderOf(r: Rx): Reader { Reader(Project(r), ArmingOf(r)) }

  function Holding(q: Reader, buffer: bytes): Reader { q.(x := q.x.(buffer := buffer)) }

  /** An arming, as seen by the reader. */
  function Armed(q: Reader, call: RxCall): Reader {
    match call
    case ReadBytes(n, hasPtr, hasDone) =>
      Reader(q.x.(mode := ModeReadBytes, size := n, dest := []),
             q.a.(id := q.a.id + 1, request := Exactly(n), start := |q.x.consumed|,
                  hasBytesPtr := hasPtr, hasDone := hasDone))
    case ReadStringUntil(t, hasPtr, hasDone) =>
      Reader(q.x.(mode := ModeString, size := 0, dest := []),
             q.a.(terminator := t, id := q.a.id + 1, request := Through(t), start := |q.x.consumed|,
                  hasStringPtr := hasPtr, hasDone := hasDone))
    case NoCallback => q.(x := q.x.(mode := ModeNone))
    case OnData => q
    case Stop => q
  }

  function ArmedAll(q: Reader, calls: seq<RxCall>): Reader
    decreases |calls|
  {
    if calls == [] then q else ArmedAll(Armed(q, calls[0]), calls[1..])
  }

  /** The read is done: its callback is told, and may arm the next one. */
  function Finished(q: Reader): Reader {
    var told := Reader(q.x.(mode := ModeNone,
                            dones := q.x.dones + [Done(q.a.id, true, q.a.request, q.x.dest, q.a.start, |q.x.consumed|)]),
                       q.a.(answers := if q.a.answers == [] then [] else q.a.answers[1..]));
    ArmedAll(told, Front(q.a.answers).calls)
  }

  /** `s` delivered to the read. */
  function Given(q: Reader, s: bytes): Reader {
    q.(x := q.x.(dest := q.x.dest + s, consumed := q.x.consumed + s,
                 size := if q.x.mode == ModeReadBytes && |s| <= q.x.size then q.x.size - |s| else q.x.size))
  }

  /** One byte, wherever the reader stands. */
  function Eat(q: Reader, c: byte): Reader {
    match q.x.mode
    case ModeNone => Holding(q, q.x.buffer + [c])
    case ModeFree => q
    case ModeReadBytes => if q.x.size <= 1 then Finished(Given(q, [c])) else Given(q, [c])
    case ModeString =>
      if Ends(q.a.terminator, c) then Finished(q.(x := q.x.(consumed := q.x.consumed + [c]))) else Given(q, [c])
  }

  function EatAll(q: Reader, s: bytes): Reader
    decreases |s|
  {
    if s == [] then q else EatAll(Eat(q, s[0]), s[1..])
  }

  lemma {:induction false} EatTwice(q: Reader, s: bytes, t: bytes)
    ensures EatAll(EatAll(q, s), t) == EatAll(q, s + t)
    decreases |s|
  {
    if s == [] {
      assert s + t == t;
    } else {
      assert (s + t)[1..] == s[1..] + t;
      EatTwice(Eat(q, s[0]), s[1..], t);
    }
  }

  lemma EatOne(q: Reader, c: byte)
    ensures EatAll(q, [c]) == Eat(q, c)
  {
    assert [c][1..] == [];
    assert EatAll(Eat(q, c), []) == Eat(q, c);
  }

  lemma {:induction false} EatIdle(q: Reader, s: bytes)
    requires q.x.mode == ModeNone
    ensures EatAll(q, s) == Holding(q, q.x.buffer + s)
    decreases |s|
  {
    if s == [] {
      assert q.x.buffer + s == q.x.buffer;
    } else {
      EatIdle(Eat(q, s[0]), s[1..]);
      assert q.x.buffer + [s[0]] + s[1..] == q.x.buffer + s;
    }
  }

  /** `s` does not finish the armed read. */
  ghost predicate Short(q: Reader, s: bytes) {
    match q.x.mode
    case ModeReadBytes => |s| < q.x.size
    case ModeString => Scan(q.a.terminator, s) == |s|
    case _ => false
  }

  lemma ShortTail(q: Reader, s: bytes)
    requires s != [] && Short(q, s)
    ensures Eat(q, s[0]) == Given(q, [s[0]]) && Short(Given(q, [s[0]]), s[1..])
  {
    if q.x.mode == ModeString {
      assert s == [s[0]] + s[1..];
      ScanAppend(q.a.terminator, [s[0]], s[1..]);
    }
  }

  lemma GivenTwice(q: Reader, s: bytes, t: bytes)
    requires q.x.mode == ModeReadBytes ==> |s| + |t| <= q.x.size
    ensures Given(Given(q, s), t) == Given(q, s + t)
  {
    assert q.x.dest + s + t == q.x.dest + (s + t);
    assert q.x.consumed + s + t == q.x.consumed + (s + t);
  }

  lemma {:induction false} EatShort(q: Reader, s: bytes)
    requires Short(q, s)
    ensures EatAll(q, s) == Given(q, s)
    decreases |s|
  {
    if s == [] {
      assert q.x.dest + s == q.x.dest && q.x.consumed + s == q.x.consumed;
    } else {
      ShortTail(q, s);
      EatShort(Given(q, [s[0]]), s[1..]);
      assert [s[0]] + s[1..] == s;
      GivenTwice(q, [s[0]], s[1..]);
    }
  }

  lemma EatThen(q: Reader, s: bytes, c: byte)
    requires Short(q, s)
    ensures EatAll(q, s + [c]) == Eat(Given(q, s), c)
  {
    EatTwice(q, s, [c]);
    EatShort(q, s);
    EatOne(Given(q, s), c);
  }

  /** Exactly the bytes asked for. */
  lemma EatExactly(q: Reader, s: bytes)
    requires q.x.mode == ModeReadBytes && |s| == q.x.size > 0
    ensures EatAll(q, s) == Finished(Given(q, s))
  {
    var n := |s| - 1;
    EatThen(q, s[..n], s[n]);
    assert s[..n] + [s[n]] == s;
    GivenTwice(q, s[..n], [s[n]]);
  }

  /** A string and its end. */
  lemma EatThrough(q: Reader, s: bytes, c: byte)
    requires q.x.mode == ModeString && Short(q, s) && Ends(q.a.terminator, c)
    ensures var g := Given(q, s);
      EatAll(q, s + [c]) == Finished(g.(x := g.x.(consumed := g.x.consumed + [c])))
  {
    EatThen(q, s, c);
  }

  // ---- the buffer under tame callbacks

  /** The calls considered here: arm a read that can be served, or disarm. */
  predicate Tame(call: RxCall) {
    match call
    case ReadBytes(n, hasPtr, hasDone) => n > 0 && hasPtr && hasDone
    case ReadStringUntil(_, hasPtr, hasDone) => hasPtr && hasDone
    case NoCallback => true
    case OnData => false
    case Stop => false
  }

  predicate TameCalls(calls: seq<RxCall>) { forall k :: 0 <= k < |calls| ==> Tame(calls[k]) }

  predicate TameAnswers(answers: seq<Answer>) {
    forall k :: 0 <= k < |answers| ==> TameCalls(answers[k].calls)
  }

  /** No read, or one that can be served. */
  predicate Servable(r: Rx) {
    match r.mode
    case ModeNone => true
    case ModeFree => false
    case ModeReadBytes => r.hasBytesPtr && r.hasDone && r.size > 0
    case ModeString => r.hasStringPtr && r.hasDone
  }

  ghost predicate Steady(r: Rx) {
    r.hasClient && r.connected && Servable(r) && TameAnswers(r.answers)
  }

  /** What the calls of a done callback leave alone. */
  ghost predicate Aside(r: Rx, r': Rx) {
    && r'.hasClient == r.hasClient && r'.connected == r.connected && r'.buffer == r.buffer && r'.cap == r.cap
  }

  lemma {:induction false} CallsArm(r: Rx, calls: seq<RxCall>)
    requires r.hasClient && Servable(r) && TameCalls(calls)
    ensures var r' := RunCalls(r, calls);
      ReaderOf(r') == ArmedAll(ReaderOf(r), calls) && Servable(r') && Aside(r, r') && r'.answers == r.answers
    decreases |calls|
  {
    if calls != [] {
      CallArms(r, calls[0]);
      CallsArm(Perform(r, calls[0]), calls[1..]);
    }
  }

  lemma CallArms(r: Rx, call: RxCall)
    requires r.hasClient && Servable(r) && Tame(call)
    ensures var r' := Perform(r, call);
      ReaderOf(r') == Armed(ReaderOf(r), call) && Servable(r') && Aside(r, r') && r'.answers == r.answers
  {
  }

  lemma CompleteFinishes(r: Rx)
    requires r.hasClient && r.connected && TameAnswers(r.answers)
    ensures var c := Complete(r);
      ReaderOf(c) == Finished(ReaderOf(r)) && Steady(c) && Aside(r, c)
      && c.answers == (if r.answers == [] then [] else r.answers[1..])
  {
    var told := Pop(r.(mode := ModeNone,
                       dones := r.dones + [Done(r.arming, true, r.request, r.dest, r.start, |r.consumed|)]));
    CallsArm(told, Front(r.answers).calls);
  }

  // ---- one call of the parser

  /** `r` is armed and what it has buffered does not finish its read. */
  ghost predicate Waiting(r: Rx) { Steady(r) && IsArmed(r) && Short(ReaderOf(r), r.buffer) }

  /** It has taken the buffered bytes and the first `n` of the segment: all of it, or
      enough to finish the read. */
  ghost predicate Takes(r: Rx, seg: bytes, p: (Rx, nat)) {
    && p.1 <= |seg| && (seg != [] ==> p.1 > 0)
    && ReaderOf(p.0) == EatAll(Holding(ReaderOf(r), []), r.buffer + seg[..p.1])
    && Steady(p.0) && p.0.buffer == [] && p.0.cap == r.cap
  }

  lemma BytesTake(r: Rx, seg: bytes)
    requires Waiting(r) && r.mode == ModeReadBytes
    ensures Takes(r, seg, HandleBytes(r, seg))
  {
    var b, q := r.buffer, Holding(ReaderOf(r), []);
    assert b[..|b|] == b && b[|b|..] == [];
    var r1 := TakeBytes(r, b).(buffer := []);
    var n := Min(|seg|, r1.size);
    var r2 := TakeBytes(r1, seg[..n]);
    assert HandleBytes(r, seg) == (if r2.size == 0 then Complete(r2) else r2, n);
    GivenTwice(q, b, seg[..n]);
    assert ReaderOf(r2) == Given(q, b + seg[..n]);
    if r2.size == 0 {
      EatExactly(q, b + seg[..n]);
      CompleteFinishes(r2);
    } else {
      EatShort(q, b + seg[..n]);
    }
  }

  lemma StringTakes(r: Rx, seg: bytes)
    requires Waiting(r) && r.mode == ModeString
    ensures Takes(r, seg, HandleString(r, seg))
  {
    var b, q, j := r.buffer, Holding(ReaderOf(r), []), Scan(r.terminator, seg);
    if j < |seg| {
      StringTakesEnd(r, seg, j);
    } else {
      assert seg[..|seg|] == seg;
      ScanAppend(r.terminator, b, seg);
      EatShort(q, b + seg);
      GivenTwice(q, b, seg);
      assert HandleString(r, seg) == (Deliver(Drained(r), seg), |seg|);
    }
  }

  lemma StringTakesEnd(r: Rx, seg: bytes, j: nat)
    requires Waiting(r) && r.mode == ModeString && j == Scan(r.terminator, seg) < |seg|
    ensures Takes(r, seg, HandleString(r, seg))
  {
    var b, q := r.buffer, Holding(ReaderOf(r), []);
    var f := FoundInSegment(Drained(r), seg, j);
    ScanPrefix(r.terminator, seg, j);
    ScanAppend(r.terminator, b, seg[..j]);
    EatThrough(q, b + seg[..j], seg[j]);
    GivenTwice(q, b, seg[..j]);
    assert b + seg[..j] + [seg[j]] == b + seg[..j + 1];
    CompleteFinishes(f);
    assert HandleString(r, seg) == (Complete(f), j + 1);
  }

  lemma ScanPrefix(t: byte, s: bytes, j: nat)
    requires j == Scan(t, s) <= |s|
    ensures Scan(t, s[..j]) == j
  {
    ScanIs(t, s[..j], j);
  }

  lemma HandleTakes(r: Rx, seg: bytes)
    requires Waiting(r)
    ensures Takes(r, seg, Handle(r, seg))
  {
    if r.mode == ModeReadBytes {
      BytesTake(r, seg);
    } else {
      StringTakes(r, seg);
    }
  }

  // ---- one segment

  /** `d` is what is left after some of `s` has been eaten by a reader `q`: the rest of
      it, and that is nothing unless no read is armed. */
  ghost predicate Ate(q: Reader, s: bytes, d: (Rx, bytes)) {
    && |d.1| <= |s| && d.1 == s[|s| - |d.1|..]
    && ReaderOf(d.0) == EatAll(q, s[..|s| - |d.1|])
    && Steady(d.0) && d.0.buffer == [] && (d.0.mode == ModeNone || d.1 == [])
  }

  lemma AteMore(q: Reader, s: bytes, k: nat, q1: Reader, d: (Rx, bytes))
    requires k <= |s| && q1 == EatAll(q, s[..k]) && Ate(q1, s[k..], d)
    ensures Ate(q, s, d)
  {
    var n := |s| - |d.1|;
    EatTwice(q, s[..k], s[k..][..n - k]);
    assert s[..k] + s[k..][..n - k] == s[..n] && s[k..][n - k..] == s[n..];
  }

  lemma EmptyWaits(r: Rx)
    requires Steady(r) && r.buffer == [] && r.mode != ModeNone
    ensures Waiting(r) && Holding(ReaderOf(r), []) == ReaderOf(r)
  {
  }

  lemma {:induction false} FeedEats(r: Rx, rest: bytes, handled: nat)
    requires Steady(r) && r.buffer == [] && (handled > 0 || rest == [])
    ensures Ate(ReaderOf(r), rest, Feed(r, rest, handled)) && Feed(r, rest, handled).0.cap == r.cap
    decreases |rest|
  {
    if r.mode == ModeNone || rest == [] {
      assert rest[..0] == [] && rest[0..] == rest;
    } else {
      EmptyWaits(r);
      HandleTakes(r, rest);
      var p := Handle(r, rest);
      assert [] + rest[..p.1] == rest[..p.1];
      FeedEats(p.0, rest[p.1..], p.1);
      AteMore(ReaderOf(r), rest, p.1, ReaderOf(p.0), Feed(p.0, rest[p.1..], p.1));
    }
  }

  lemma CutBehind(s: bytes, t: bytes, n: nat)
    requires n <= |t|
    ensures (s + t)[..|s| + n] == s + t[..n] && (s + t)[|s| + n..] == t[n..]
  {
  }

  lemma AteBehind(q: Reader, b: bytes, seg: bytes, n: nat, q1: Reader, d: (Rx, bytes))
    requires n <= |seg| && q1 == EatAll(q, b + seg[..n]) && Ate(q1, seg[n..], d)
    ensures Ate(q, b + seg, d)
  {
    CutBehind(b, seg, n);
    AteMore(q, b + seg, |b| + n, q1, d);
  }

  lemma DirectEats(r: Rx, seg: bytes)
    requires Waiting(r)
    ensures var d := Direct(r, seg); Ate(Holding(ReaderOf(r), []), r.buffer + seg, d) && d.0.cap == r.cap
  {
    HandleTakes(r, seg);
    var p := Handle(r, seg);
    DirectFeeds(r, seg, p);
    FeedEats(p.0, seg[p.1..], p.1);
    AteBehind(Holding(ReaderOf(r), []), r.buffer, seg, p.1, ReaderOf(p.0), Direct(r, seg));
  }

  lemma DirectFeeds(r: Rx, seg: bytes, p: (Rx, nat))
    requires r.mode != ModeNone && p == Handle(r, seg) && p.0.buffer == []
    ensures Direct(r, seg) == Feed(p.0, seg[p.1..], p.1)
  {
  }

  /** Between segments: no read is armed, or one that the buffer does not finish. */
  ghost predicate Between(r: Rx) {
    |r.buffer| <= r.cap && Steady(r) && (r.mode == ModeNone || Waiting(r))
  }

  lemma StoreEats(q: Reader, s: bytes, d: (Rx, bytes))
    requires Ate(q, s, d) && |d.0.buffer| <= d.0.cap
    ensures var r' := Shrink(Rescan(Store(d.0, d.1, true)));
      ReaderOf(r') == EatAll(q, s) && Between(r') && (r'.mode != ModeNone ==> r'.buffer == [])
  {
    RestIsStored(d.0, d.1);
    var n := |s| - |d.1|;
    EatTwice(q, s[..n], s[n..]);
    assert s[..n] + s[n..] == s;
    if d.0.mode == ModeNone {
      EatIdle(ReaderOf(d.0), d.1);
    } else {
      assert d.0.buffer + d.1 == [];
    }
    StandsBy(d.0, Shrink(Rescan(Store(d.0, d.1, true))));
  }

  lemma StandsBy(d: Rx, r: Rx)
    requires Steady(d) && d.buffer == [] && SameArming(d, r) && r.mode == d.mode && r.size == d.size
    requires r.mode != ModeNone ==> r.buffer == []
    ensures Steady(r) && (r.mode == ModeNone || Waiting(r))
  {
  }

  ghost predicate EatenWhole(r: Rx, seg: bytes) {
    var r' := Segment(r, seg, true);
    && ReaderOf(r') == EatAll(Holding(ReaderOf(r), []), r.buffer + seg)
    && Between(r') && (r'.mode != ModeNone ==> r'.buffer == [])
  }

  /** One segment is eaten byte by byte after what was buffered. */
  lemma SegmentEats(r: Rx, seg: bytes)
    requires Between(r)
    ensures EatenWhole(r, seg)
  {
    var r0 := r.(received := r.received + seg);
    if r.mode == ModeNone {
      RestIsStored(r0, seg);
      EatIdle(Holding(ReaderOf(r), []), r.buffer + seg);
      assert [] + (r.buffer + seg) == r.buffer + seg;
    } else {
      DirectEats(r0, seg);
      StoreEats(Holding(ReaderOf(r), []), r.buffer + seg, Direct(r0, seg));
    }
  }

  // ---- any cuts

  /** Eating what is held, and then `s`, is eating `s` while holding it. */
  lemma EatHeld(q: Reader, s: bytes)
    requires q.x.mode == ModeNone || q.x.buffer == []
    ensures EatAll(Holding(q, []), q.x.buffer + s) == EatAll(q, s)
  {
    if q.x.mode == ModeNone {
      EatIdle(q, s);
      EatIdle(Holding(q, []), q.x.buffer + s);
      assert [] + (q.x.buffer + s) == q.x.buffer + s;
    } else {
      assert q.x.buffer + s == s && Holding(q, []) == q;
    }
  }

  lemma Regroup(s: bytes, t: bytes, u: bytes)
    ensures s + t + u == s + (t + u)
  {
  }

  /** However the stream is cut, the buffer does with it what the reference does byte
      by byte, through every re-arming; provided that what was buffered when the
      stream began did not finish the armed read. */
  lemma {:induction false} RearmingParses(r: Rx, segs: seq<bytes>)
    requires Between(r) && segs != []
    ensures ReaderOf(Arrive(r, segs)) == EatAll(Holding(ReaderOf(r), []), r.buffer + Join(segs))
    decreases |segs|, 1
  {
    SegmentEats(r, segs[0]);
    ParsesFrom(r, segs);
  }

  /** Once the first segment has been eaten, so are the others. */
  lemma {:induction false} ParsesFrom(r: Rx, segs: seq<bytes>)
    requires segs != [] && EatenWhole(r, segs[0])
    ensures ReaderOf(Arrive(r, segs)) == EatAll(Holding(ReaderOf(r), []), r.buffer + Join(segs))
    decreases |segs|, 0
  {
    var r1 := Segment(r, segs[0], true);
    if segs[1..] != [] {
      RearmingParses(r1, segs[1..]);
    }
    EatHeld(ReaderOf(r1), Join(segs[1..]));
    EatTwice(Holding(ReaderOf(r), []), r.buffer + segs[0], Join(segs[1..]));
    Regroup(r.buffer, segs[0], Join(segs[1..]));
  }

  /** So any two cuts of the same stream agree. */
  lemma RearmingCutsAgree(r: Rx, segs: seq<bytes>, segs': seq<bytes>)
    requires Between(r) && segs != [] && segs' != [] && Join(segs) == Join(segs')
    ensures ReaderOf(Arrive(r, segs)) == ReaderOf(Arrive(r, segs'))
  {
    RearmingParses(r, segs);
    RearmingParses(r, segs');
  }
}
