/** Reads of no bytes, armed again from their own done callbacks: how often those run
    depends on how TCP cut the stream. */
module ReceiveZeroReads {
  import opened Words
  import opened Receive
  import opened ReceiveSegments
  import opened ReceiveParser
  import opened ReceiveRearming

  const ZERO: Answer := Answer(0, [ReadBytes(0, true, true)])

  ghost predicate AllZero(answers: seq<Answer>) { forall k :: 0 <= k < |answers| ==> answers[k] == ZERO }

  /** The surroundings of a read that is served. */
  ghost predicate Served(r: Rx) { r.hasClient && r.connected && |r.buffer| <= r.cap }

  /** A read of no bytes is armed, and its next `n` completions each arm another. */
  ghost predicate Zeroing(r: Rx, n: nat) {
    && Served(r) && r.mode == ModeReadBytes && r.size == 0 && r.hasBytesPtr && r.hasDone
    && |r.answers| == n && AllZero(r.answers)
  }

  /** `n` is -1 after the completion that arms no other read. */
  ghost predicate Spun(r: Rx, n: int) {
    Served(r) && if n >= 0 then Zeroing(r, n) else r.mode == ModeNone && r.answers == []
  }

  // ---- one completion

  lemma CallArmsAny(r: Rx)
    requires r.hasClient
    ensures var call := ReadBytes(0, true, true);
      ReaderOf(Perform(r, call)) == Armed(ReaderOf(r), call) && Aside(r, Perform(r, call))
  {
  }

  lemma CompletesOnce(r: Rx, n: nat)
    requires Served(r) && |r.answers| == n && AllZero(r.answers)
    ensures var c := Complete(r);
      && ReaderOf(c) == Finished(ReaderOf(r)) && Aside(r, c) && Spun(c, n - 1)
  {
    var told := Pop(r.(mode := ModeNone,
                       dones := r.dones + [Done(r.arming, true, r.request, r.dest, r.start, |r.consumed|)]));
    var calls := Front(r.answers).calls;
    if n > 0 {
      assert r.answers[0] == ZERO;
      assert calls[1..] == [];
      CallArmsAny(told);
      assert Complete(r) == RunCalls(Perform(told, calls[0]), []);
      assert Finished(ReaderOf(r)) == ArmedAll(Armed(ReaderOf(told), calls[0]), []);
    } else {
      assert Complete(r) == told;
    }
  }

  /** Every call of the parser tells the callback once, and takes nothing. */
  lemma HandleCompletes(r: Rx, seg: bytes, n: nat)
    requires Zeroing(r, n)
    ensures var p := Handle(r, seg);
      p.1 == 0 && ReaderOf(p.0) == Finished(ReaderOf(r)) && Aside(r, p.0) && Spun(p.0, n - 1)
  {
    assert r.buffer[..0] == [] && r.buffer[0..] == r.buffer && seg[..0] == [];
    assert r.dest + [] == r.dest && r.consumed + [] == r.consumed;
    assert Handle(r, seg) == (Complete(r), 0);
    CompletesOnce(r, n);
  }

  // ---- one segment

  /** `k` completions in a row. */
  function Again(q: Reader, k: nat): Reader
    decreases k
  {
    if k == 0 then q else Again(Finished(q), k - 1)
  }

  /** How often the parser is called for a segment behind `held` buffered bytes: once for
      the segment, and once more if that leaves anything buffered. */
  function Passes(held: nat, seg: bytes): nat { if held + |seg| == 0 then 1 else 2 }

  lemma DirectCompletes(r: Rx, seg: bytes, n: nat)
    requires Zeroing(r, n)
    ensures var d := Direct(r, seg);
      d.1 == seg && ReaderOf(d.0) == Finished(ReaderOf(r)) && Aside(r, d.0) && Spun(d.0, n - 1)
  {
    HandleCompletes(r, seg, n);
    assert seg[0..] == seg;
  }

  lemma StoreSpins(r: Rx, rest: bytes, n: int)
    requires Spun(r, n)
    ensures var s := Store(r, rest, true);
      ReaderOf(s) == Stored(ReaderOf(r), rest) && Spun(s, n)
  {
    StoreAppends(r, rest);
    StoreIsAside(r, rest, true);
    assert ArmingOf(Store(r, rest, true)) == ArmingOf(r);
  }

  lemma RescanSpins(r: Rx, n: int)
    requires Spun(r, n)
    ensures var t := Rescan(r);
      if r.buffer != [] && n >= 0 then ReaderOf(t) == Finished(ReaderOf(r)) && Spun(t, n - 1) && Aside(r, t)
      else t == r
  {
    if r.buffer != [] && n >= 0 {
      HandleCompletes(r, [], n);
    }
  }

  lemma ShrinkSpins(r: Rx, n: int)
    requires Spun(r, n)
    ensures ReaderOf(Shrink(r)) == ReaderOf(r) && Spun(Shrink(r), n)
  {
    ShrinkIsAside(r);
    assert ArmingOf(Shrink(r)) == ArmingOf(r);
  }

  /** The second call, if there is one. */
  lemma PassSpins(s: Rx, q: Reader, n: int)
    requires Spun(s, n) && ReaderOf(s) == Holding(q, s.buffer)
    ensures var t, more := Rescan(s), s.buffer != [] && n >= 0;
      ReaderOf(t) == Holding(if more then Finished(q) else q, s.buffer) && Spun(t, if more then n - 1 else n)
  {
    RescanSpins(s, n);
    FinishedHolding(q, s.buffer);
  }

  lemma AgainOnce(q: Reader)
    ensures Again(q, 1) == Finished(q) && Again(q, 2) == Finished(Finished(q))
  {
    assert Again(Finished(q), 1) == Again(Finished(Finished(q)), 0);
  }

  /** Whether a segment makes a second call of the parser that finds a read. */
  predicate Twice(r: Rx, seg: bytes, n: nat) { r.buffer + seg != [] && n >= 1 }

  lemma SegmentCompletes(r: Rx, seg: bytes, n: nat)
    requires Zeroing(r, n)
    ensures var r', once := Segment(r, seg, true), Finished(ReaderOf(r));
      && ReaderOf(r') == Holding(if Twice(r, seg, n) then Finished(once) else once, r.buffer + seg)
      && Spun(r', if Twice(r, seg, n) then n - 2 else n - 1)
  {
    var r0 := r.(received := r.received + seg);
    DirectCompletes(r0, seg, n);
    var d := Direct(r0, seg).0;
    StoreSpins(d, seg, n - 1);
    var s := Store(d, seg, true);
    PassSpins(s, Finished(ReaderOf(r)), n - 1);
    ShrinkSpins(Rescan(s), if Twice(r, seg, n) then n - 2 else n - 1);
  }

  /** A segment that finds a read of no bytes: the callback is told as often as the parser
      is called, as long as it has armed another read, and the bytes are only stored. */
  lemma SegmentSpins(r: Rx, seg: bytes, n: nat)
    requires Zeroing(r, n)
    ensures var r', k := Segment(r, seg, true), Min(Passes(|r.buffer|, seg), n + 1);
      ReaderOf(r') == Holding(Again(ReaderOf(r), k), r.buffer + seg) && Spun(r', n - k)
  {
    SegmentCompletes(r, seg, n);
    AgainOnce(ReaderOf(r));
    assert Min(Passes(|r.buffer|, seg), n + 1) == if Twice(r, seg, n) then 2 else 1;
  }

  // ---- a stream in segments

  /** How often the parser is called for a stream cut into `segs`. */
  function AllPasses(held: nat, segs: seq<bytes>): nat
    decreases |segs|
  {
    if segs == [] then 0 else Passes(held, segs[0]) + AllPasses(held + |segs[0]|, segs[1..])
  }

  /** How often a read is answered that has `n` re-armings to come. */
  function Completions(held: nat, segs: seq<bytes>, n: nat): nat { Min(AllPasses(held, segs), n + 1) }

  lemma {:induction false} AgainTwice(q: Reader, j: nat, k: nat)
    ensures Again(Again(q, j), k) == Again(q, j + k)
    decreases j
  {
    if j > 0 {
      AgainTwice(Finished(q), j - 1, k);
    }
  }

  lemma {:induction false} AgainHolding(q: Reader, k: nat, buffer: bytes)
    ensures Again(Holding(q, buffer), k) == Holding(Again(q, k), buffer)
    decreases k
  {
    if k > 0 {
      FinishedHolding(q, buffer);
      AgainHolding(Finished(q), k - 1, buffer);
    }
  }

  lemma DisarmedStores(r: Rx, segs: seq<bytes>)
    requires Served(r) && r.mode == ModeNone && r.answers == []
    ensures ReaderOf(Arrive(r, segs)) == Holding(ReaderOf(r), r.buffer + Join(segs))
  {
    if segs == [] {
      assert r.buffer + [] == r.buffer;
    } else {
      RearmingParses(r, segs);
      EatIdle(Holding(ReaderOf(r), []), r.buffer + Join(segs));
      assert [] + (r.buffer + Join(segs)) == r.buffer + Join(segs);
    }
  }

  lemma SpinTwice(q: Reader, k: nat, b: bytes, j: nat, b': bytes)
    ensures Holding(Again(Holding(Again(q, k), b), j), b') == Holding(Again(q, k + j), b')
  {
    AgainHolding(Again(q, k), j, b);
    AgainTwice(q, k, j);
  }

  /** The stream `segs` is stored, and makes the read complete `k` times. */
  ghost predicate Comes(r: Rx, segs: seq<bytes>, k: nat) {
    ReaderOf(Arrive(r, segs)) == Holding(Again(ReaderOf(r), k), r.buffer + Join(segs))
  }

  lemma ComesOn(r: Rx, segs: seq<bytes>, k: nat, j: nat, m: nat)
    requires segs != [] && m == k + j && Comes(Segment(r, segs[0], true), segs[1..], j)
    requires ReaderOf(Segment(r, segs[0], true)) == Holding(Again(ReaderOf(r), k), r.buffer + segs[0])
    ensures Comes(r, segs, m)
  {
    ArriveOn(r, segs);
    var r1 := Segment(r, segs[0], true);
    Chained(r, r1, Arrive(r1, segs[1..]), segs[0], Join(segs[1..]), k, j);
  }

  lemma Chained(r: Rx, r1: Rx, r2: Rx, s: bytes, t: bytes, k: nat, j: nat)
    requires ReaderOf(r1) == Holding(Again(ReaderOf(r), k), r.buffer + s)
    requires ReaderOf(r2) == Holding(Again(ReaderOf(r1), j), r1.buffer + t)
    ensures ReaderOf(r2) == Holding(Again(ReaderOf(r), k + j), r.buffer + (s + t))
  {
    SpinTwice(ReaderOf(r), k, r.buffer + s, j, r1.buffer + t);
    Regroup(r.buffer, s, t);
  }

  lemma ArriveOn(r: Rx, segs: seq<bytes>)
    requires segs != []
    ensures Arrive(r, segs) == Arrive(Segment(r, segs[0], true), segs[1..])
    ensures Join(segs) == segs[0] + Join(segs[1..])
  {
  }

  /** However a stream is cut, a re-arming read of no bytes is answered once for every
      call of the parser, until a completion arms none; the stream is only stored. */
  lemma ZeroReadsSpin(r: Rx, segs: seq<bytes>, n: nat)
    requires Zeroing(r, n)
    ensures Comes(r, segs, Completions(|r.buffer|, segs, n))
  {
    SpinBehind(r, |r.buffer|, segs, n);
  }

  lemma {:induction false} SpinBehind(r: Rx, held: nat, segs: seq<bytes>, n: nat)
    requires Zeroing(r, n) && held == |r.buffer|
    ensures Comes(r, segs, Completions(held, segs, n))
    decreases |segs|, 1
  {
    if segs == [] {
      NothingComes(r);
    } else {
      FirstComes(r, held, segs, n);
      SpinNext(Segment(r, segs[0], true), held, segs, n);
      TakenAndLeft(held, segs, n);
      ComesOn(r, segs, Taken(held, segs, n), Left(held, segs, n), Completions(held, segs, n));
    }
  }

  /** The stream behind the first segment. */
  lemma {:induction false} SpinNext(r: Rx, held: nat, segs: seq<bytes>, n: nat)
    requires segs != [] && FirstCame(r, held, segs, n)
    ensures Comes(r, segs[1..], Left(held, segs, n))
    decreases |segs|, 0
  {
    var k := Taken(held, segs, n);
    if k <= n {
      SpinBehind(r, held + |segs[0]|, segs[1..], n - k);
    } else {
      DisarmedStores(r, segs[1..]);
    }
  }

  /** How many completions the first segment brings, and how many the others. */
  function Taken(held: nat, segs: seq<bytes>, n: nat): nat
    requires segs != []
  {
    Min(Passes(held, segs[0]), n + 1)
  }

  function Left(held: nat, segs: seq<bytes>, n: nat): nat
    requires segs != []
  {
    var k := Taken(held, segs, n);
    if k <= n then Completions(held + |segs[0]|, segs[1..], n - k) else 0
  }

  lemma TakenAndLeft(held: nat, segs: seq<bytes>, n: nat)
    requires segs != []
    ensures Completions(held, segs, n) == Taken(held, segs, n) + Left(held, segs, n)
  {
  }

  lemma NothingComes(r: Rx)
    ensures Comes(r, [], 0)
  {
    assert r.buffer + [] == r.buffer;
  }

  ghost predicate FirstCame(r: Rx, held: nat, segs: seq<bytes>, n: nat)
    requires segs != []
  {
    |r.buffer| == held + |segs[0]| && Spun(r, n - Taken(held, segs, n))
  }

  lemma FirstComes(r: Rx, held: nat, segs: seq<bytes>, n: nat)
    requires Zeroing(r, n) && segs != [] && held == |r.buffer|
    ensures var r1 := Segment(r, segs[0], true);
      && ReaderOf(r1) == Holding(Again(ReaderOf(r), Taken(held, segs, n)), r.buffer + segs[0])
      && FirstCame(r1, held, segs, n)
  {
    SegmentSpins(r, segs[0], n);
  }

  // ---- when the cuts agree

  lemma {:induction false} ArmedKeepsDones(q: Reader, calls: seq<RxCall>)
    ensures ArmedAll(q, calls).x.dones == q.x.dones
    decreases |calls|
  {
    if calls != [] {
      ArmedKeepsDones(Armed(q, calls[0]), calls[1..]);
    }
  }

  lemma {:induction false} AgainCounts(q: Reader, k: nat)
    ensures |Again(q, k).x.dones| == |q.x.dones| + k
    decreases k
  {
    if k > 0 {
      var told := Reader(q.x.(mode := ModeNone,
                              dones := q.x.dones + [Done(q.a.id, true, q.a.request, q.x.dest, q.a.start, |q.x.consumed|)]),
                         q.a.(answers := if q.a.answers == [] then [] else q.a.answers[1..]));
      ArmedKeepsDones(told, Front(q.a.answers).calls);
      AgainCounts(Finished(q), k - 1);
    }
  }

  /** Two cuts of one stream agree exactly when they are answered equally often. */
  lemma CutsCompared(r: Rx, segs: seq<bytes>, segs': seq<bytes>, n: nat)
    requires Zeroing(r, n) && Join(segs) == Join(segs')
    ensures Project(Arrive(r, segs)) == Project(Arrive(r, segs')) <==>
      Completions(|r.buffer|, segs, n) == Completions(|r.buffer|, segs', n)
  {
    ZeroReadsSpin(r, segs, n);
    ZeroReadsSpin(r, segs', n);
    AgainCounts(ReaderOf(r), Completions(|r.buffer|, segs, n));
    AgainCounts(ReaderOf(r), Completions(|r.buffer|, segs', n));
    assert Project(Arrive(r, segs)) == ReaderOf(Arrive(r, segs)).x;
    assert Project(Arrive(r, segs')) == ReaderOf(Arrive(r, segs')).x;
  }

  /** No segment is empty. */
  predicate Solid(segs: seq<bytes>) { segs != [] && forall k :: 0 <= k < |segs| ==> segs[k] != [] }

  lemma PassesAtLeast(held: nat, segs: seq<bytes>)
    requires segs != []
    ensures AllPasses(held, segs) >= if held > 0 || Solid(segs) then 2 else 1
  {
  }

  lemma PassesOfTwo(held: nat, s1: bytes, s2: bytes)
    ensures AllPasses(held, [s1]) == Passes(held, s1)
    ensures AllPasses(held, [s1, s2]) == Passes(held, s1) + Passes(held + |s1|, s2)
    ensures Join([s1]) == s1 && Join([s1, s2]) == s1 + s2
  {
    assert [s1][1..] == [] && [s1, s2][1..] == [s2] && [s2][1..] == [];
    assert AllPasses(held + |s1|, [s2]) == Passes(held + |s1|, s2) + 0;
    assert Join([s2]) == s2 + [] == s2 && s1 + [] == s1;
  }

  /** The outcome is the same for all cuts without empty segments. */
  ghost predicate SolidCutsAgree(r: Rx) {
    forall segs: seq<bytes>, segs': seq<bytes> ::
      Solid(segs) && Solid(segs') && Join(segs) == Join(segs') ==>
      Project(Arrive(r, segs)) == Project(Arrive(r, segs'))
  }

  lemma SolidCutsDiffer(r: Rx, segs: seq<bytes>, segs': seq<bytes>, n: nat)
    requires Zeroing(r, n) && n >= 2 && Solid(segs) && Solid(segs') && Join(segs) == Join(segs')
    requires AllPasses(|r.buffer|, segs) == 2 && AllPasses(|r.buffer|, segs') == 4
    ensures !SolidCutsAgree(r)
  {
    CutsCompared(r, segs, segs', n);
  }

  lemma CutTwoBytes(held: nat, x: byte, y: byte)
    ensures var one, two: seq<bytes> := [[x, y]], [[x], [y]];
      && Solid(one) && Solid(two) && Join(one) == [x, y] == Join(two)
      && AllPasses(held, one) == 2 && AllPasses(held, two) == 4
  {
    PassesOfTwo(held, [x, y], []);
    PassesOfTwo(held, [x], [y]);
  }

  /** A re-arming read of no bytes does not depend on the cuts if and only if at most one
      re-arming is to come. */
  lemma ZeroReadsCutsAgree(r: Rx, n: nat)
    requires Zeroing(r, n)
    ensures SolidCutsAgree(r) <==> n <= 1
  {
    if n <= 1 {
      forall segs: seq<bytes>, segs': seq<bytes> | Solid(segs) && Solid(segs') && Join(segs) == Join(segs')
        ensures Project(Arrive(r, segs)) == Project(Arrive(r, segs'))
      {
        CutsCompared(r, segs, segs', n);
        PassesAtLeast(|r.buffer|, segs);
        PassesAtLeast(|r.buffer|, segs');
      }
    } else {
      CutTwoBytes(|r.buffer|, 0, 0);
      SolidCutsDiffer(r, [[0, 0]], [[0], [0]], n);
    }
  }

  /** With segments that bring nothing among the cuts, if and only if none is to come, or
      one and something was buffered when the stream began. */
  lemma ZeroReadsAnyCutsAgree(r: Rx, n: nat)
    requires Zeroing(r, n)
    ensures AnyCutsAgree(r) <==> n == 0 || (n == 1 && r.buffer != [])
  {
    if n == 0 || (n == 1 && r.buffer != []) {
      forall segs: seq<bytes>, segs': seq<bytes> | segs != [] && segs' != [] && Join(segs) == Join(segs')
        ensures Project(Arrive(r, segs)) == Project(Arrive(r, segs'))
      {
        CutsCompared(r, segs, segs', n);
        PassesAtLeast(|r.buffer|, segs);
        PassesAtLeast(|r.buffer|, segs');
      }
    } else {
      var one, two: seq<bytes> := [[]], [[], []];
      PassesOfTwo(|r.buffer|, [], []);
      CutsCompared(r, one, two, n);
    }
  }

  // ---- a read of one byte, re-armed for none

  /** A read of one byte is armed and nothing is buffered; its next `n` completions each
      arm a read of no bytes. */
  ghost predicate OneThenZero(r: Rx, n: nat) {
    && Served(r) && r.mode == ModeReadBytes && r.size == 1 && r.hasBytesPtr && r.hasDone
    && r.buffer == [] && |r.answers| == n && AllZero(r.answers)
  }

  lemma HandleTakesByte(r: Rx, seg: bytes, n: nat)
    requires OneThenZero(r, n) && seg != []
    ensures var p := Handle(r, seg);
      p.1 == 1 && p.0.buffer == [] && Spun(p.0, n - 1) && |p.0.dones| == |r.dones| + 1
  {
    var r1 := TakeBytes(r, r.buffer[..0]).(buffer := r.buffer[0..]);
    var r2 := TakeBytes(r1, seg[..1]);
    assert Handle(r, seg) == (Complete(r2), 1);
    CompletesOnce(r2, n);
    AgainCounts(ReaderOf(r2), 1);
    AgainOnce(ReaderOf(r2));
  }

  /** A first segment of that byte alone. */
  lemma OneByteAlone(r: Rx, x: byte, n: nat)
    requires OneThenZero(r, n)
    ensures var r' := Segment(r, [x], true);
      |r'.dones| == |r.dones| + 1 && Spun(r', n - 1) && r'.buffer == []
  {
    var r0 := r.(received := r.received + [x]);
    HandleTakesByte(r0, [x], n);
    var p := Handle(r0, [x]).0;
    assert [x][1..] == [];
    assert Direct(r0, [x]) == Feed(p, [], 1) == (p, []);
    ShrinkSpins(p, n - 1);
  }

  lemma FinishedCounts(q: Reader)
    ensures |Finished(q).x.dones| == |q.x.dones| + 1
  {
    AgainCounts(q, 1);
    AgainOnce(q);
  }

  /** A longer one: the byte, then the rest of the segment, then once more what is stored. */
  lemma OneByteAndMore(r: Rx, seg: bytes, n: nat)
    requires OneThenZero(r, n) && |seg| > 1 && n >= 2
    ensures |Segment(r, seg, true).dones| == |r.dones| + 3
  {
    var r0, rest := r.(received := r.received + seg), seg[1..];
    DirectTwice(r0, seg, n);
    var d := Direct(r0, seg).0;
    StoreSpins(d, rest, n - 2);
    var s := Store(d, rest, true);
    RescanSpins(s, n - 2);
    FinishedCounts(ReaderOf(s));
    assert Segment(r, seg, true) == Shrink(Rescan(s));
  }

  lemma DirectTwice(r: Rx, seg: bytes, n: nat)
    requires OneThenZero(r, n) && |seg| > 1 && n >= 2
    ensures var d := Direct(r, seg);
      d.1 == seg[1..] && Spun(d.0, n - 2) && d.0.buffer == [] && |d.0.dones| == |r.dones| + 2
  {
    HandleTakesByte(r, seg, n);
    var p, rest := Handle(r, seg).0, seg[1..];
    HandleCompletes(p, rest, n - 1);
    FinishedCounts(ReaderOf(p));
    var p2 := Handle(p, rest).0;
    assert rest[0..] == rest;
    assert Feed(p, rest, 1) == Feed(p2, rest, 0) == (p2, rest);
  }

  lemma CompletesTimes(r: Rx, segs: seq<bytes>, n: nat)
    requires Zeroing(r, n)
    ensures |Arrive(r, segs).dones| == |r.dones| + Completions(|r.buffer|, segs, n)
  {
    ZeroReadsSpin(r, segs, n);
    AgainCounts(ReaderOf(r), Completions(|r.buffer|, segs, n));
  }

  /** Three bytes in one segment bring three completions, in three segments they bring as
      many as have a read to answer, up to five. */
  lemma ZeroReadsSeeSegments(r: Rx, x: byte, y: byte, z: byte, n: nat)
    requires OneThenZero(r, n) && n >= 2
    ensures |Arrive(r, [[x, y, z]]).dones| == |r.dones| + 3
    ensures |Arrive(r, [[x], [y], [z]]).dones| == |r.dones| + Min(5, n + 1)
  {
    ArriveOne(r, [x, y, z]);
    OneByteAndMore(r, [x, y, z], n);
    OneByteAlone(r, x, n);
    CutTwoBytes(0, y, z);
    CompletesTimes(Segment(r, [x], true), [[y], [z]], n - 1);
    assert [[x], [y], [z]][1..] == [[y], [z]];
  }
}
