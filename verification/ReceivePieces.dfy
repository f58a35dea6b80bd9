/** Who got the bytes of the stream: over every run each consumed byte was claimed by a data
    callback out of what it was offered, or given to one armed read. */
module ReceivePieces {
  import opened Words
  import opened Receive
  import opened ReceiveInduction

  // ---- what the log of pieces says

  function PieceBytes(p: Piece): bytes {
    match p
    case Claimed(offered, n) => offered[..Min(n, |offered|)]
    case Served(_, data) => data
  }

  function Concat(pieces: seq<Piece>): bytes {
    if pieces == [] then [] else Concat(pieces[..|pieces| - 1]) + PieceBytes(pieces[|pieces| - 1])
  }

  function ServedBy(p: Piece, id: nat): bytes { if p.Served? && p.arming == id then p.data else [] }

  /** What the read of arming `id` was given. */
  function ServedTo(pieces: seq<Piece>, id: nat): bytes {
    if pieces == [] then [] else ServedTo(pieces[..|pieces| - 1], id) + ServedBy(pieces[|pieces| - 1], id)
  }

  /** A callback never claims more than it is offered, and each arming below `id` was
      given at most one stretch, in the order in which they were made. */
  ghost predicate InOrder(pieces: seq<Piece>, id: nat)
    decreases |pieces|
  {
    pieces == [] ||
    (var front := pieces[..|pieces| - 1];
     match pieces[|pieces| - 1]
     case Claimed(offered, n) => n <= |offered| && InOrder(front, id)
     case Served(arming, data) => 0 < arming < id && data != [] && InOrder(front, arming))
  }

  lemma PieceAdded(pieces: seq<Piece>, p: Piece)
    ensures Concat(pieces + [p]) == Concat(pieces) + PieceBytes(p)
  {
    assert (pieces + [p])[..|pieces|] == pieces;
  }

  lemma ServedAdded(pieces: seq<Piece>, p: Piece, id: nat)
    ensures ServedTo(pieces + [p], id) == ServedTo(pieces, id) + ServedBy(p, id)
  {
    assert (pieces + [p])[..|pieces|] == pieces;
  }

  lemma {:induction false} InOrderLater(pieces: seq<Piece>, id: nat, later: nat)
    requires InOrder(pieces, id) && id <= later
    ensures InOrder(pieces, later)
    decreases |pieces|
  {
    if pieces != [] && pieces[|pieces| - 1].Claimed? {
      InOrderLater(pieces[..|pieces| - 1], id, later);
    }
  }

  lemma {:induction false} NoneServed(pieces: seq<Piece>, bound: nat, id: nat)
    requires InOrder(pieces, bound) && bound <= id
    ensures ServedTo(pieces, id) == []
    decreases |pieces|
  {
    if pieces != [] {
      var last := pieces[|pieces| - 1];
      NoneServed(pieces[..|pieces| - 1], if last.Served? then last.arming else bound, id);
    }
  }

  // ---- the invariant

  /** Nothing was given to arming `id` yet, or it is being served. */
  ghost predicate Current(pieces: seq<Piece>, id: nat) {
    InOrder(pieces, id) || (pieces != [] && pieces[|pieces| - 1].Served? && pieces[|pieces| - 1].arming == id)
  }

  ghost predicate LogPieced(pieces: seq<Piece>, consumed: bytes, bound: nat) {
    Concat(pieces) == consumed && InOrder(pieces, bound)
  }

  /** An armed read was given everything consumed since it was armed. */
  ghost predicate ArmingPieced(pieces: seq<Piece>, consumed: bytes, id: nat, start: nat) {
    0 < id && start <= |consumed| && ServedTo(pieces, id) == consumed[start..] && Current(pieces, id)
  }

  /** Each answer tells of exactly what its arming, below `bound`, was given. */
  ghost predicate AnswersPieced(dones: seq<Done>, pieces: seq<Piece>, consumed: bytes, bound: nat) {
    forall k :: 0 <= k < |dones| ==> AnswerPieced(dones[k], pieces, consumed, bound)
  }

  ghost predicate AnswerPieced(d: Done, pieces: seq<Piece>, consumed: bytes, bound: nat) {
    d.start <= d.end <= |consumed| && ServedTo(pieces, d.id) == consumed[d.start..d.end] && d.id < bound
  }

  /** The armings that may have been answered are below this one. */
  function Bound(r: Rx): nat { if IsArmed(r) then r.arming else r.arming + 1 }

  ghost predicate Pieced(r: Rx) {
    && LogPieced(r.pieces, r.consumed, r.arming + 1)
    && (IsArmed(r) ==> ArmingPieced(r.pieces, r.consumed, r.arming, r.start))
    && AnswersPieced(r.dones, r.pieces, r.consumed, Bound(r))
  }

  // ---- the answers stay right

  lemma AnswersBelow(dones: seq<Done>, pieces: seq<Piece>, consumed: bytes, bound: nat, later: nat)
    requires AnswersPieced(dones, pieces, consumed, bound) && bound <= later
    ensures AnswersPieced(dones, pieces, consumed, later)
  {
    forall k | 0 <= k < |dones| ensures AnswerPieced(dones[k], pieces, consumed, later) {
      assert AnswerPieced(dones[k], pieces, consumed, bound);
    }
  }

  lemma AnswerStays(d: Done, pieces: seq<Piece>, pieces': seq<Piece>, consumed: bytes, more: bytes, bound: nat)
    requires AnswerPieced(d, pieces, consumed, bound) && ServedTo(pieces', d.id) == ServedTo(pieces, d.id)
    ensures AnswerPieced(d, pieces', consumed + more, bound)
  {
    assert (consumed + more)[d.start..d.end] == consumed[d.start..d.end];
  }

  lemma AnswerServed(d: Done, pieces: seq<Piece>, consumed: bytes, id: nat, data: bytes)
    requires AnswerPieced(d, pieces, consumed, id)
    ensures AnswerPieced(d, AddServed(pieces, id, data), consumed + data, id)
  {
    ServedOther(pieces, id, data, d.id);
    AnswerStays(d, pieces, AddServed(pieces, id, data), consumed, data, id);
  }

  lemma AnswerClaimed(d: Done, pieces: seq<Piece>, consumed: bytes, bound: nat, p: Piece)
    requires AnswerPieced(d, pieces, consumed, bound) && p.Claimed?
    ensures AnswerPieced(d, pieces + [p], consumed + PieceBytes(p), bound)
  {
    ServedAdded(pieces, p, d.id);
    assert ServedTo(pieces, d.id) + [] == ServedTo(pieces, d.id);
    AnswerStays(d, pieces, pieces + [p], consumed, PieceBytes(p), bound);
  }

  lemma AnswersServed(dones: seq<Done>, pieces: seq<Piece>, consumed: bytes, id: nat, data: bytes)
    requires AnswersPieced(dones, pieces, consumed, id)
    ensures AnswersPieced(dones, AddServed(pieces, id, data), consumed + data, id)
  {
    forall k | 0 <= k < |dones|
      ensures AnswerPieced(dones[k], AddServed(pieces, id, data), consumed + data, id)
    {
      assert AnswerPieced(dones[k], pieces, consumed, id);
      AnswerServed(dones[k], pieces, consumed, id, data);
    }
  }

  lemma AnswersClaimed(dones: seq<Done>, pieces: seq<Piece>, consumed: bytes, bound: nat, p: Piece)
    requires AnswersPieced(dones, pieces, consumed, bound) && p.Claimed?
    ensures AnswersPieced(dones, pieces + [p], consumed + PieceBytes(p), bound)
  {
    forall k | 0 <= k < |dones|
      ensures AnswerPieced(dones[k], pieces + [p], consumed + PieceBytes(p), bound)
    {
      assert AnswerPieced(dones[k], pieces, consumed, bound);
      AnswerClaimed(dones[k], pieces, consumed, bound, p);
    }
  }

  lemma AnswerAppended(dones: seq<Done>, pieces: seq<Piece>, consumed: bytes, bound: nat, d: Done)
    requires AnswersPieced(dones, pieces, consumed, bound) && AnswerPieced(d, pieces, consumed, bound)
    ensures AnswersPieced(dones + [d], pieces, consumed, bound)
  {
    forall k | 0 <= k < |dones + [d]| ensures AnswerPieced((dones + [d])[k], pieces, consumed, bound) {
      if k < |dones| {
        assert AnswerPieced(dones[k], pieces, consumed, bound);
      }
    }
  }

  // ---- serving a read

  lemma ServedOther(pieces: seq<Piece>, id: nat, data: bytes, other: nat)
    requires other != id
    ensures ServedTo(AddServed(pieces, id, data), other) == ServedTo(pieces, other)
  {
    var n := |pieces|;
    if data == [] {
    } else if n > 0 && pieces[n - 1].Served? && pieces[n - 1].arming == id {
      ServedAdded(pieces[..n - 1], Served(id, pieces[n - 1].data + data), other);
    } else {
      ServedAdded(pieces, Served(id, data), other);
    }
  }

  /** What one more stretch for the armed read does to the log. */
  ghost predicate ServesOn(pieces: seq<Piece>, more: seq<Piece>, id: nat, data: bytes) {
    && Concat(more) == Concat(pieces) + data && ServedTo(more, id) == ServedTo(pieces, id) + data
    && InOrder(more, id + 1) && Current(more, id)
  }

  lemma ServedMore(pieces: seq<Piece>, id: nat, data: bytes)
    requires InOrder(pieces, id + 1) && Current(pieces, id) && 0 < id
    ensures ServesOn(pieces, AddServed(pieces, id, data), id, data)
  {
    var n := |pieces|;
    if data == [] {
      NothingMore(pieces, id);
    } else if n > 0 && pieces[n - 1].Served? && pieces[n - 1].arming == id {
      var front, d := pieces[..n - 1], pieces[n - 1].data;
      assert pieces == front + [Served(id, d)];
      MergedMore(front, id, d, data);
      AddMerges(front, id, d, data);
    } else {
      AppendedMore(pieces, id, data);
    }
  }

  lemma AddMerges(front: seq<Piece>, id: nat, d: bytes, data: bytes)
    requires data != []
    ensures AddServed(front + [Served(id, d)], id, data) == front + [Served(id, d + data)]
  {
    assert (front + [Served(id, d)])[..|front|] == front;
  }

  lemma NothingMore(pieces: seq<Piece>, id: nat)
    requires InOrder(pieces, id + 1) && Current(pieces, id)
    ensures ServesOn(pieces, pieces, id, [])
  {
    assert Concat(pieces) + [] == Concat(pieces) && ServedTo(pieces, id) + [] == ServedTo(pieces, id);
  }

  lemma AppendedMore(pieces: seq<Piece>, id: nat, data: bytes)
    requires InOrder(pieces, id) && data != [] && 0 < id
    ensures ServesOn(pieces, pieces + [Served(id, data)], id, data)
  {
    PieceAdded(pieces, Served(id, data));
    ServedAdded(pieces, Served(id, data), id);
    AppendedInOrder(pieces, id, data);
  }

  lemma AppendedInOrder(pieces: seq<Piece>, id: nat, data: bytes)
    requires InOrder(pieces, id) && data != [] && 0 < id
    ensures InOrder(pieces + [Served(id, data)], id + 1) && Current(pieces + [Served(id, data)], id)
  {
    assert (pieces + [Served(id, data)])[..|pieces|] == pieces;
  }

  lemma MergedMore(front: seq<Piece>, id: nat, d: bytes, data: bytes)
    requires InOrder(front + [Served(id, d)], id + 1) && data != []
    ensures ServesOn(front + [Served(id, d)], front + [Served(id, d + data)], id, data)
  {
    assert (front + [Served(id, d)])[..|front|] == front;
    AppendedInOrder(front, id, d + data);
    MergedConcat(front, id, d, data);
    MergedServed(front, id, d, data);
  }

  lemma MergedConcat(front: seq<Piece>, id: nat, d: bytes, data: bytes)
    ensures Concat(front + [Served(id, d + data)]) == Concat(front + [Served(id, d)]) + data
  {
    PieceAdded(front, Served(id, d));
    PieceAdded(front, Served(id, d + data));
    Rejoin(Concat(front), d, data);
  }

  lemma Rejoin(s: bytes, t: bytes, u: bytes)
    ensures s + t + u == s + (t + u)
  {
  }

  lemma MergedServed(front: seq<Piece>, id: nat, d: bytes, data: bytes)
    ensures ServedTo(front + [Served(id, d + data)], id) == ServedTo(front + [Served(id, d)], id) + data
  {
    ServedAdded(front, Served(id, d), id);
    ServedAdded(front, Served(id, d + data), id);
    Rejoin(ServedTo(front, id), d, data);
  }

  lemma LogServed(pieces: seq<Piece>, consumed: bytes, id: nat, data: bytes)
    requires LogPieced(pieces, consumed, id + 1) && Current(pieces, id) && 0 < id
    ensures LogPieced(AddServed(pieces, id, data), consumed + data, id + 1)
  {
    ServedMore(pieces, id, data);
  }

  lemma ArmingServed(pieces: seq<Piece>, consumed: bytes, id: nat, start: nat, data: bytes)
    requires InOrder(pieces, id + 1) && ArmingPieced(pieces, consumed, id, start)
    ensures ArmingPieced(AddServed(pieces, id, data), consumed + data, id, start)
  {
    ServedMore(pieces, id, data);
    StartSlice(consumed, data, start);
  }

  lemma StartSlice(consumed: bytes, data: bytes, start: nat)
    requires start <= |consumed|
    ensures (consumed + data)[start..] == consumed[start..] + data
  {
  }

  lemma ConsumePieced(r: Rx, data: bytes)
    requires Pieced(r) && IsArmed(r)
    ensures Pieced(Consume(r, data))
  {
    LogServed(r.pieces, r.consumed, r.arming, data);
    ArmingServed(r.pieces, r.consumed, r.arming, r.start, data);
    AnswersServed(r.dones, r.pieces, r.consumed, r.arming, data);
  }

  // ---- claims

  lemma LogClaimed(pieces: seq<Piece>, consumed: bytes, bound: nat, data: bytes, n: nat)
    requires LogPieced(pieces, consumed, bound) && n <= |data|
    ensures LogPieced(pieces + [Claimed(data, n)], consumed + data[..n], bound)
  {
    PieceAdded(pieces, Claimed(data, n));
    ClaimInOrder(pieces, data, n, bound);
  }

  /** A read that waits for its first byte still does. */
  lemma ArmingClaimed(pieces: seq<Piece>, consumed: bytes, id: nat, data: bytes, n: nat)
    requires InOrder(pieces, id + 1) && ArmingPieced(pieces, consumed, id, |consumed|) && n <= |data|
    ensures ArmingPieced(pieces + [Claimed(data, n)], consumed + data[..n], id, |consumed| + n)
  {
    LastServed(pieces, id);
    ClaimInOrder(pieces, data, n, id);
    NoneServed(pieces + [Claimed(data, n)], id, id);
  }

  lemma ClaimIsAnswered(dones: seq<Done>, pieces: seq<Piece>, consumed: bytes, bound: nat, data: bytes, n: nat)
    requires AnswersPieced(dones, pieces, consumed, bound) && n <= |data|
    ensures AnswersPieced(dones, pieces + [Claimed(data, n)], consumed + data[..n], bound)
  {
    AnswersClaimed(dones, pieces, consumed, bound, Claimed(data, n));
  }

  lemma ClaimLogged(r: Rx, data: bytes, n: nat)
    requires Pieced(r) && n <= |data|
    ensures var r' := Claiming(r, data, n);
      LogPieced(r'.pieces, r'.consumed, r'.arming + 1)
  {
    LogClaimed(r.pieces, r.consumed, r.arming + 1, data, n);
  }

  lemma ClaimAnswered(r: Rx, data: bytes, n: nat)
    requires Pieced(r) && n <= |data|
    ensures var r' := Claiming(r, data, n);
      AnswersPieced(r'.dones, r'.pieces, r'.consumed, Bound(r'))
  {
    ClaimIsAnswered(r.dones, r.pieces, r.consumed, Bound(r), data, n);
  }

  lemma ClaimWaits(r: Rx, data: bytes, n: nat)
    requires Pieced(r) && Waits(r) && n <= |data|
    ensures var r' := Claiming(r, data, n);
      (IsArmed(r') ==> ArmingPieced(r'.pieces, r'.consumed, r'.arming, r'.start)) && Waits(r')
  {
    if IsArmed(r) {
      ArmingClaimed(r.pieces, r.consumed, r.arming, data, n);
    }
  }

  lemma ClaimPieced(r: Rx, data: bytes, n: nat)
    requires Pieced(r) && Waits(r) && n <= |data|
    ensures Pieced(Claiming(r, data, n)) && Waits(Claiming(r, data, n))
  {
    ClaimLogged(r, data, n);
    ClaimAnswered(r, data, n);
    ClaimWaits(r, data, n);
  }

  lemma ClaimInOrder(pieces: seq<Piece>, data: bytes, n: nat, id: nat)
    requires InOrder(pieces, id) && n <= |data|
    ensures InOrder(pieces + [Claimed(data, n)], id)
  {
    assert (pieces + [Claimed(data, n)])[..|pieces|] == pieces;
  }

  lemma LastServed(pieces: seq<Piece>, id: nat)
    requires InOrder(pieces, id + 1) && Current(pieces, id) && ServedTo(pieces, id) == []
    ensures InOrder(pieces, id)
  {
    var n := |pieces|;
    assert n > 0 ==> |ServedTo(pieces, id)| == |ServedTo(pieces[..n - 1], id)| + |ServedBy(pieces[n - 1], id)|;
  }

  // ---- calls of callbacks

  lemma FreshArming(pieces: seq<Piece>, consumed: bytes, id: nat)
    requires LogPieced(pieces, consumed, id) && 0 < id
    ensures LogPieced(pieces, consumed, id + 1) && ArmingPieced(pieces, consumed, id, |consumed|)
  {
    InOrderLater(pieces, id, id + 1);
    NoneServed(pieces, id, id);
  }

  /** A new arming: nothing was given to it. */
  lemma ArmPieced(r: Rx, r': Rx)
    requires Pieced(r) && Arms(r, r')
    ensures Pieced(r')
  {
    FreshArming(r.pieces, r.consumed, r'.arming);
    AnswersBelow(r.dones, r.pieces, r.consumed, Bound(r), r'.arming);
  }

  lemma DisarmPieced(r: Rx, r': Rx)
    requires Pieced(r) && Disarms(r, r')
    ensures Pieced(r')
  {
    AnswersBelow(r.dones, r.pieces, r.consumed, Bound(r), r.arming + 1);
  }

  lemma ArmingAnswered(pieces: seq<Piece>, consumed: bytes, id: nat, start: nat, d: Done)
    requires ArmingPieced(pieces, consumed, id, start) && d.id == id && d.start == start && d.end == |consumed|
    ensures AnswerPieced(d, pieces, consumed, id + 1)
  {
    assert consumed[start..|consumed|] == consumed[start..];
  }

  /** The armed read is answered: it was given everything since it was armed. */
  lemma AnsweredPieced(r: Rx, r': Rx, ok: bool)
    requires Pieced(r) && Answers(r, r', ok)
    ensures Pieced(r')
  {
    var d := Done(r.arming, ok, r.request, r.dest, r.start, |r.consumed|);
    AnswersBelow(r.dones, r.pieces, r.consumed, r.arming, r.arming + 1);
    ArmingAnswered(r.pieces, r.consumed, r.arming, r.start, d);
    AnswerAppended(r.dones, r.pieces, r.consumed, r.arming + 1, d);
  }

  // ---- whole runs

  ghost function PiecedInvariant(): Invariant { (r: Rx) => Pieced(r) }

  lemma PiecedIsKept()
    ensures Kept(PiecedInvariant())
  {
    var inv := PiecedInvariant();
    forall r: Rx, r': Rx | inv(r) && Arms(r, r') ensures inv(r') { ArmPieced(r, r'); }
    forall r: Rx, r': Rx | inv(r) && Disarms(r, r') ensures inv(r') { DisarmPieced(r, r'); }
    forall r: Rx, r': Rx, ok: bool | inv(r) && Answers(r, r', ok) ensures inv(r') { AnsweredPieced(r, r', ok); }
    forall r: Rx, data: bytes | inv(r) && IsArmed(r) ensures inv(Consume(r, data)) { ConsumePieced(r, data); }
    forall r: Rx, data: bytes, n: nat | inv(r) && Waits(r) && n <= |data| ensures inv(Claiming(r, data, n)) {
      ClaimPieced(r, data, n);
    }
  }

  lemma RunPieced(r: Rx, run: seq<RxEvent>)
    requires FreshBuffer(r)
    ensures Pieced(RunEvents(r, run))
  {
    PiecedIsKept();
    RunKept(PiecedInvariant(), r, run);
  }

  /** Over every run, what was consumed is, in order, what data callbacks claimed, each out
      of the front of what it was offered, and one stretch for each read that was served. */
  lemma ConsumedIsPieces(r: Rx, run: seq<RxEvent>)
    requires FreshBuffer(r)
    ensures var r' := RunEvents(r, run);
      Concat(r'.pieces) == r'.consumed && InOrder(r'.pieces, r'.arming + 1)
  {
    RunPieced(r, run);
  }

  /** And the stretch of the stream that an answer tells of was given to that read. */
  lemma AnswersGotTheirs(r: Rx, run: seq<RxEvent>, k: nat)
    requires FreshBuffer(r) && k < |RunEvents(r, run).dones|
    ensures var r' := RunEvents(r, run); var d := r'.dones[k];
      d.start <= d.end <= |r'.consumed| && ServedTo(r'.pieces, d.id) == r'.consumed[d.start..d.end]
  {
    RunPieced(r, run);
    var r' := RunEvents(r, run);
    assert AnswerPieced(r'.dones[k], r'.pieces, r'.consumed, Bound(r'));
  }
}
