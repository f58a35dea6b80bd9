/** One armed read sees a stream of bytes, however TCP cuts it into segments. */
module ReceiveSegments {
  import opened Words
  import opened Receive

  /** What a read delivers and leaves behind. */
  datatype Reading = Reading(mode: Mode, size: nat, dest: bytes, consumed: bytes, buffer: bytes, dones: seq<Done>)

  function Project(r: Rx): Reading { Reading(r.mode, r.size, r.dest, r.consumed, r.buffer, r.dones) }

  /** The arming a read belongs to, and the rest of what no segment changes. */
  datatype Arming = Arming(
    terminator: byte, id: nat, request: Request, start: nat, hasClient: bool, connected: bool,
    answers: seq<Answer>, hasBytesPtr: bool, hasStringPtr: bool, hasDone: bool)

  function ArmingOf(r: Rx): Arming {
    Arming(r.terminator, r.arming, r.request, r.start, r.hasClient, r.connected,
           r.answers, r.hasBytesPtr, r.hasStringPtr, r.hasDone)
  }

  ghost predicate SameArming(r: Rx, r': Rx) { ArmingOf(r') == ArmingOf(r) }

  /** Callbacks do nothing, and a read that is armed has a destination and a done
      callback; nothing has overflowed. */
  ghost predicate Calm(r: Rx) {
    && r.hasClient && r.connected && r.answers == [] && |r.buffer| <= r.cap
    && match r.mode
       case ModeNone => true
       case ModeFree => false
       case ModeReadBytes => r.hasBytesPtr && r.hasDone
       case ModeString => r.hasStringPtr && r.hasDone
  }

  // ---- the reference: the whole stream in one piece

  function Move(x: Reading, data: bytes): Reading {
    x.(dest := x.dest + data, consumed := x.consumed + data, buffer := [])
  }

  /** The read of arming `r` is finished after `last` is consumed as well. */
  function End(r: Rx, x: Reading, last: bytes, left: bytes): Reading {
    x.(mode := ModeNone, consumed := x.consumed + last, buffer := left,
       dones := x.dones + [Done(r.arming, true, r.request, x.dest, r.start, |x.consumed| + |last|)])
  }

  function ParseBytes(r: Rx, x: Reading, stream: bytes): Reading {
    if |stream| < x.size then Move(x, stream).(size := x.size - |stream|)
    else End(r, Move(x, stream[..x.size]).(size := 0), [], stream[x.size..])
  }

  /** The string read when the first end of `stream` is at `k`, or nowhere. */
  function ParseStringAt(r: Rx, x: Reading, stream: bytes, k: nat): Reading
    requires k <= |stream|
  {
    if k == |stream| then Move(x, stream)
    else End(r, Move(x, stream[..k]), [stream[k]], stream[k + 1..])
  }

  function ParseString(r: Rx, x: Reading, stream: bytes): Reading {
    ParseStringAt(r, x, stream, Scan(r.terminator, stream))
  }

  /** The simple parse: a byte read takes its bytes, a string read goes to the first
      terminator or zero byte, and what is left stays buffered. */
  function Parse(r: Rx, x: Reading, stream: bytes): Reading {
    match x.mode
    case ModeNone => x.(buffer := stream)
    case ModeFree => x
    case ModeReadBytes => ParseBytes(r, x, stream)
    case ModeString => ParseString(r, x, stream)
  }

  // ---- parsing in two pieces

  lemma MoveTwice(x: Reading, a: bytes, b: bytes)
    ensures Move(Move(x, a), b) == Move(x, a + b)
  {
    assert x.dest + a + b == x.dest + (a + b);
    assert x.consumed + a + b == x.consumed + (a + b);
  }

  lemma BytesOn(r: Rx, x: Reading, s1: bytes, s2: bytes)
    requires x.mode == ModeReadBytes && |s1| < x.size
    ensures var x1 := ParseBytes(r, x, s1); ParseBytes(r, x1, s2) == ParseBytes(r, x, s1 + s2)
  {
    var all, n := s1 + s2, x.size - |s1|;
    if |all| < x.size {
      MoveTwice(x, s1, s2);
    } else {
      MoveTwice(x, s1, s2[..n]);
      assert all[..x.size] == s1 + s2[..n] && all[x.size..] == s2[n..];
    }
  }

  lemma ScanAppend(t: byte, a: bytes, b: bytes)
    ensures Scan(t, a + b) == if Scan(t, a) < |a| then Scan(t, a) else |a| + Scan(t, b)
  {
    var k := if Scan(t, a) < |a| then Scan(t, a) else |a| + Scan(t, b);
    forall j | 0 <= j < k ensures !Ends(t, (a + b)[j]) {
      if j >= |a| {
        assert !Ends(t, b[j - |a|]);
      } else {
        assert !Ends(t, a[j]);
      }
    }
    ScanIs(t, a + b, k);
  }

  lemma StringOnAt(r: Rx, x: Reading, s1: bytes, s2: bytes, j: nat)
    requires j <= |s2|
    ensures ParseStringAt(r, Move(x, s1), s2, j) == ParseStringAt(r, x, s1 + s2, |s1| + j)
  {
    var all := s1 + s2;
    if j == |s2| {
      MoveTwice(x, s1, s2);
    } else {
      MoveTwice(x, s1, s2[..j]);
      assert all[..|s1| + j] == s1 + s2[..j] && all[|s1| + j + 1..] == s2[j + 1..];
    }
  }

  lemma StringOn(r: Rx, x: Reading, s1: bytes, s2: bytes)
    requires Scan(r.terminator, s1) == |s1|
    ensures ParseString(r, Move(x, s1), s2) == ParseString(r, x, s1 + s2)
  {
    ScanAppend(r.terminator, s1, s2);
    StringOnAt(r, x, s1, s2, Scan(r.terminator, s2));
  }

  lemma StringEndedOnAt(r: Rx, x: Reading, s1: bytes, s2: bytes, k: nat)
    requires k < |s1|
    ensures var x1 := ParseStringAt(r, x, s1, k); x1.(buffer := x1.buffer + s2) == ParseStringAt(r, x, s1 + s2, k)
  {
    var all := s1 + s2;
    assert all[..k] == s1[..k] && all[k + 1..] == s1[k + 1..] + s2;
  }

  lemma EndedOn(r: Rx, x: Reading, s1: bytes, s2: bytes)
    requires x.mode != ModeFree && Parse(r, x, s1).mode == ModeNone
    ensures var x1 := Parse(r, x, s1); x1.(buffer := x1.buffer + s2) == Parse(r, x, s1 + s2)
  {
    var all := s1 + s2;
    if x.mode == ModeReadBytes {
      assert all[..x.size] == s1[..x.size] && all[x.size..] == s1[x.size..] + s2;
    } else if x.mode == ModeString {
      ScanAppend(r.terminator, s1, s2);
      StringEndedOnAt(r, x, s1, s2, Scan(r.terminator, s1));
    }
  }

  /** Parsing on from where a parse left off is parsing the whole. */
  lemma ParseOn(r: Rx, x: Reading, s1: bytes, s2: bytes)
    requires x.mode != ModeFree
    ensures var x1 := Parse(r, x, s1); Parse(r, x1, x1.buffer + s2) == Parse(r, x, s1 + s2)
  {
    var x1 := Parse(r, x, s1);
    if x1.mode == ModeNone {
      EndedOn(r, x, s1, s2);
    } else {
      assert x1.buffer + s2 == s2;
      if x.mode == ModeReadBytes { BytesOn(r, x, s1, s2); } else { StringOn(r, x, s1, s2); assert x1 == Move(x, s1); }
    }
  }

  // ---- one segment

  lemma QuietComplete(r: Rx)
    requires r.answers == []
    ensures Complete(r) == r.(mode := ModeNone,
      dones := r.dones + [Done(r.arming, true, r.request, r.dest, r.start, |r.consumed|)])
  {
  }

  /** What `_handleRxBuffer` does to an armed read: it takes the whole segment and
      goes on, or it finishes and what is left is to be buffered. */
  ghost predicate Handles(r: Rx, seg: bytes, p: (Rx, nat)) {
    var whole := Parse(r, Project(r), r.buffer + seg);
    && p.1 <= |seg| && |p.0.buffer| <= |r.buffer| && p.0.cap == r.cap && SameArming(r, p.0)
    && (if whole.mode == ModeNone
        then Project(p.0).(buffer := p.0.buffer + seg[p.1..]) == whole
        else Project(p.0) == whole && p.1 == |seg|)
  }

  lemma BytesUnfinished(r: Rx, seg: bytes)
    requires Calm(r) && r.mode == ModeReadBytes && |r.buffer| + |seg| < r.size
    ensures Handles(r, seg, HandleBytes(r, seg))
  {
    assert r.buffer[..|r.buffer|] == r.buffer && r.buffer[|r.buffer|..] == [];
    assert seg[..|seg|] == seg;
    MoveTwice(Project(r), r.buffer, seg);
  }

  lemma BytesFromBuffer(r: Rx, seg: bytes)
    requires Calm(r) && r.mode == ModeReadBytes && |r.buffer| >= r.size
    ensures Handles(r, seg, HandleBytes(r, seg))
  {
    var all := r.buffer + seg;
    var r1 := TakeBytes(r, r.buffer[..r.size]).(buffer := r.buffer[r.size..]);
    assert seg[..0] == [] && seg[0..] == seg;
    assert all[..r.size] == r.buffer[..r.size] && all[r.size..] == r.buffer[r.size..] + seg;
    assert r1.dest + [] == r1.dest && r1.consumed + [] == r1.consumed;
    QuietComplete(r1);
    assert HandleBytes(r, seg) == (Complete(r1), 0);
  }

  lemma BytesFromSegment(r: Rx, seg: bytes)
    requires Calm(r) && r.mode == ModeReadBytes && |r.buffer| < r.size <= |r.buffer| + |seg|
    ensures Handles(r, seg, HandleBytes(r, seg))
  {
    var n := r.size - |r.buffer|;
    var r2 := TakeBytes(TakeBytes(r, r.buffer).(buffer := []), seg[..n]);
    assert r.buffer[..|r.buffer|] == r.buffer && r.buffer[|r.buffer|..] == [];
    assert HandleBytes(r, seg) == (Complete(r2), n);
    SatisfiedParses(r, seg, n, r2);
  }

  lemma SatisfiedParses(r: Rx, seg: bytes, n: nat, r2: Rx)
    requires Calm(r) && r.mode == ModeReadBytes && |r.buffer| < r.size && n == r.size - |r.buffer| <= |seg|
    requires r2 == TakeBytes(TakeBytes(r, r.buffer).(buffer := []), seg[..n])
    ensures Handles(r, seg, (Complete(r2), n))
  {
    SplitBehind(r.buffer, seg, n);
    MoveTwice(Project(r), r.buffer, seg[..n]);
    QuietComplete(r2);
    assert r2.consumed + [] == r2.consumed;
  }

  lemma SplitBehind(b: bytes, seg: bytes, n: nat)
    requires n <= |seg|
    ensures (b + seg)[..|b| + n] == b + seg[..n] && (b + seg)[|b| + n..] == seg[n..]
  {
  }

  lemma StringUnfinished(r: Rx, seg: bytes)
    requires Calm(r) && r.mode == ModeString
    requires Scan(r.terminator, r.buffer) == |r.buffer| && Scan(r.terminator, seg) == |seg|
    ensures Handles(r, seg, HandleString(r, seg))
  {
    StringOn(r, Project(r), r.buffer, seg);
    MoveTwice(Project(r), r.buffer, seg);
  }

  lemma StringFromBuffer(r: Rx, seg: bytes)
    requires Calm(r) && r.mode == ModeString && Scan(r.terminator, r.buffer) < |r.buffer|
    ensures Handles(r, seg, HandleString(r, seg))
  {
    var k := Scan(r.terminator, r.buffer);
    ScanAppend(r.terminator, r.buffer, seg);
    StringEndedOnAt(r, Project(r), r.buffer, seg, k);
    assert seg[0..] == seg;
    QuietComplete(FoundInBuffer(r, k));
  }

  lemma StringFromSegment(r: Rx, seg: bytes)
    requires Calm(r) && r.mode == ModeString
    requires Scan(r.terminator, r.buffer) == |r.buffer| && Scan(r.terminator, seg) < |seg|
    ensures Handles(r, seg, HandleString(r, seg))
  {
    var j := Scan(r.terminator, seg);
    ParseEndsInSegment(r, seg);
    EndedLeaves(r, Drained(r), seg, j, seg[j + 1..]);
    assert [] + seg[j + 1..] == seg[j + 1..];
    assert HandleString(r, seg) == (Complete(FoundInSegment(Drained(r), seg, j)), j + 1);
  }

  lemma ParseEndsInSegment(r: Rx, seg: bytes)
    requires Calm(r) && r.mode == ModeString
    requires Scan(r.terminator, r.buffer) == |r.buffer| && Scan(r.terminator, seg) < |seg|
    ensures var j := Scan(r.terminator, seg);
      Parse(r, Project(r), r.buffer + seg) == End(r, Move(Project(Drained(r)), seg[..j]), [seg[j]], seg[j + 1..])
  {
    StringOn(r, Project(r), r.buffer, seg);
  }

  /** A finished string read as a record: what `End` makes of what `Move` made. */
  lemma EndedLeaves(r: Rx, d: Rx, seg: bytes, j: nat, left: bytes)
    requires j < |seg| && SameArming(r, d) && d.answers == [] && d.buffer == []
    ensures var c := Complete(FoundInSegment(d, seg, j));
      && Project(c).(buffer := left) == End(r, Move(Project(d), seg[..j]), [seg[j]], left)
      && c.buffer == [] && c.cap == d.cap && SameArming(d, c)
  {
    var f := FoundInSegment(d, seg, j);
    QuietComplete(f);
    assert |f.consumed| == |d.consumed + seg[..j]| + |[seg[j]]|;
  }

  lemma HandleParses(r: Rx, seg: bytes)
    requires Calm(r) && r.mode != ModeNone
    ensures Handles(r, seg, Handle(r, seg))
  {
    if r.mode == ModeReadBytes {
      if |r.buffer| >= r.size {
        BytesFromBuffer(r, seg);
      } else if |r.buffer| + |seg| >= r.size {
        BytesFromSegment(r, seg);
      } else {
        BytesUnfinished(r, seg);
      }
    } else if Scan(r.terminator, r.buffer) < |r.buffer| {
      StringFromBuffer(r, seg);
    } else if Scan(r.terminator, seg) < |seg| {
      StringFromSegment(r, seg);
    } else {
      StringUnfinished(r, seg);
    }
  }

  lemma AppendFits(r: Rx, rest: bytes)
    requires |r.buffer| + |rest| <= r.cap
    ensures Append(r, rest) == r.(buffer := r.buffer + rest)
  {
    assert rest[..|rest|] == rest;
  }

  lemma GrowthFits(r: Rx, n: nat)
    requires |r.buffer| <= r.cap
    ensures |r.buffer| + n <= GrowFor(r, n, true).cap
  {
  }

  lemma StoreIsAppend(r: Rx, rest: bytes)
    requires |r.buffer| <= r.cap && rest != []
    ensures var g := GrowFor(r, |rest|, true);
      Store(r, rest, true) == g.(buffer := r.buffer + rest) && |r.buffer| + |rest| <= g.cap
  {
    GrowthFits(r, |rest|);
    AppendFits(GrowFor(r, |rest|, true), rest);
  }

  lemma StoreAppends(r: Rx, rest: bytes)
    requires |r.buffer| <= r.cap
    ensures var r' := Store(r, rest, true);
      Project(r') == Project(r).(buffer := r.buffer + rest) && |r'.buffer| <= r'.cap
  {
    if rest == [] {
      assert r.buffer + rest == r.buffer;
    } else {
      StoreIsAppend(r, rest);
    }
  }

  lemma StoreIsAside(r: Rx, rest: bytes, grow: bool)
    ensures SameArming(r, Store(r, rest, grow))
  {
  }

  lemma ShrinkIsAside(r: Rx)
    requires |r.buffer| <= r.cap
    ensures Project(Shrink(r)) == Project(r) && SameArming(r, Shrink(r)) && |Shrink(r).buffer| <= Shrink(r).cap
  {
  }

  /** The first phase on an armed read is one call of `_handleRxBuffer`. */
  lemma DirectIsOneCall(r: Rx, seg: bytes)
    requires Calm(r) && r.mode != ModeNone
    ensures var p := Handle(r, seg); Direct(r, seg) == (p.0, seg[p.1..])
    ensures Handles(r, seg, Handle(r, seg))
  {
    HandleParses(r, seg);
    var p := Handle(r, seg);
    assert seg[|seg|..] == [];
    assert Feed(p.0, seg[p.1..], p.1) == (p.0, seg[p.1..]);
  }

  /** After it, what is left of the segment is buffered and nothing else happens. */
  lemma RestIsStored(d: Rx, rest: bytes)
    requires |d.buffer| <= d.cap && (d.mode == ModeNone || (rest == [] && d.buffer == []))
    ensures var r' := Shrink(Rescan(Store(d, rest, true)));
      && Project(r') == Project(d).(buffer := d.buffer + rest)
      && |r'.buffer| <= r'.cap && SameArming(d, r')
  {
    StoreAppends(d, rest);
    StoreIsAside(d, rest, true);
    var s := Store(d, rest, true);
    assert Rescan(s) == s;
    ShrinkIsAside(s);
  }

  /** One segment has the effect of parsing what was buffered and then the segment. */
  lemma SegmentParses(r: Rx, seg: bytes)
    requires Calm(r)
    ensures var r' := Segment(r, seg, true);
      && Project(r') == Parse(r, Project(r), r.buffer + seg)
      && SameArming(r, r') && Calm(r')
  {
    var r0 := r.(received := r.received + seg);
    DirectParses(r0, seg);
    var d := Direct(r0, seg);
    RestIsStored(d.0, d.1);
  }

  /** The first phase, with what is left of the segment counted as buffered. */
  lemma DirectParses(r: Rx, seg: bytes)
    requires Calm(r)
    ensures var d := Direct(r, seg);
      && Project(d.0).(buffer := d.0.buffer + d.1) == Parse(r, Project(r), r.buffer + seg)
      && |d.0.buffer| <= d.0.cap && SameArming(r, d.0)
      && (d.0.mode == ModeNone || (d.1 == [] && d.0.buffer == [])) && d.0.mode != ModeFree
  {
    if r.mode != ModeNone {
      DirectIsOneCall(r, seg);
      var p := Handle(r, seg);
      assert seg[|seg|..] == [];
      assert p.0.mode != ModeNone ==> p.0.buffer + [] == p.0.buffer;
    }
  }

  // ---- any segmentation

  function Join(segs: seq<bytes>): bytes { if segs == [] then [] else segs[0] + Join(segs[1..]) }

  function Arrive(r: Rx, segs: seq<bytes>): Rx
    decreases |segs|
  {
    if segs == [] then r else Arrive(Segment(r, segs[0], true), segs[1..])
  }

  /** However a stream is cut into one or more segments, an armed read delivers the
      same bytes, completes the same number of times, and leaves the same mode and
      the same buffered bytes as the simple parse of everything buffered when it was
      armed followed by the whole stream. */
  lemma {:induction false} SegmentationIndependent(r: Rx, segs: seq<bytes>)
    requires Calm(r) && segs != []
    ensures Project(Arrive(r, segs)) == Parse(r, Project(r), r.buffer + Join(segs))
    decreases |segs|
  {
    var r1 := Segment(r, segs[0], true);
    SegmentParses(r, segs[0]);
    ParsesOn(r, segs[0], segs[1..], r1);
    if segs[1..] == [] {
      assert r1.buffer + [] == r1.buffer;
      SettledParse(r1);
    } else {
      SegmentationIndependent(r1, segs[1..]);
    }
  }

  /** Nothing more to parse changes nothing, once a first segment has been parsed. */
  lemma SettledParse(r: Rx)
    requires r.mode != ModeNone ==> r.buffer == []
    requires Calm(r) && (r.mode == ModeReadBytes ==> r.size > 0)
    ensures Parse(r, Project(r), r.buffer) == Project(r)
  {
    if r.mode != ModeNone {
      assert r.dest + [] == r.dest && r.consumed + [] == r.consumed;
    }
  }

  lemma ParsesOn(r: Rx, seg: bytes, segs: seq<bytes>, r1: Rx)
    requires Calm(r) && SameArming(r, r1) && Project(r1) == Parse(r, Project(r), r.buffer + seg)
    ensures Parse(r1, Project(r1), r1.buffer + Join(segs)) == Parse(r, Project(r), r.buffer + (seg + Join(segs)))
    ensures r1.mode != ModeNone ==> r1.buffer == []
    ensures r1.mode == ModeReadBytes ==> r1.size > 0
  {
    ArmingOnly(r, r1, Project(r1), r1.buffer + Join(segs));
    ParseOn(r, Project(r), r.buffer + seg, Join(segs));
    assert r.buffer + seg + Join(segs) == r.buffer + (seg + Join(segs));
  }

  lemma ArmingOnly(r: Rx, r': Rx, x: Reading, stream: bytes)
    requires SameArming(r, r')
    ensures Parse(r, x, stream) == Parse(r', x, stream)
  {
  }

  /** Any two ways of cutting the same stream come to the same. */
  lemma CutsAgree(r: Rx, segs: seq<bytes>, segs': seq<bytes>)
    requires Calm(r) && segs != [] && segs' != [] && Join(segs) == Join(segs')
    ensures Project(Arrive(r, segs)) == Project(Arrive(r, segs'))
  {
    SegmentationIndependent(r, segs);
    SegmentationIndependent(r, segs');
  }
}
