/** What a client keeps while a single handler runs, whatever calls the handler makes:
    the counters and logs, and a connection that stands or is completely torn down. */
module ClientProofs {
  import opened Words
  import opened ErrorTracker
  import opened ClientSpec

  // ---- observations on the logs

  /** The bytes reported to onAck so far. */
  function SumAcks(n: seq<Notice>): nat {
    if n == [] then 0
    else SumAcks(n[..|n| - 1]) + (if n[|n| - 1].OnAck? then n[|n| - 1].len else 0)
  }

  /** How often the disconnect handler ran. */
  function Disconnects(n: seq<Notice>): nat {
    if n == [] then 0 else Disconnects(n[..|n| - 1]) + (if n[|n| - 1].OnDisconnect? then 1 else 0)
  }

  /** How often the ack handler ran. */
  function AckCalls(n: seq<Notice>): nat {
    if n == [] then 0 else AckCalls(n[..|n| - 1]) + (if n[|n| - 1].OnAck? then 1 else 0)
  }

  predicate IsStray(call: LwipCall) {
    (call.TcpOutput? || call.TcpRecved?) && !call.live
  }

  /** The calls made through a pcb the client still owned. */
  function Owned(calls: seq<LwipCall>): seq<LwipCall> {
    if calls == [] then []
    else Owned(calls[..|calls| - 1]) +
         (if IsStray(calls[|calls| - 1]) then [] else [calls[|calls| - 1]])
  }

  /** Bytes credited to the receive window, and the part credited by `close`. */
  function Credited(calls: seq<LwipCall>): nat {
    if calls == [] then 0
    else Credited(calls[..|calls| - 1]) +
         (if calls[|calls| - 1].TcpRecved? then calls[|calls| - 1].len else 0)
  }

  function CreditedByClose(calls: seq<LwipCall>): nat {
    if calls == [] then 0
    else CreditedByClose(calls[..|calls| - 1]) +
         (if calls[|calls| - 1].TcpRecved? && calls[|calls| - 1].origin == ByClose then calls[|calls| - 1].len else 0)
  }

  /** The credits `_recv` made, of whichever pcb. */
  function ByRecvCredits(calls: seq<LwipCall>): seq<LwipCall> {
    if calls == [] then []
    else ByRecvCredits(calls[..|calls| - 1]) + ByRecvOf(calls[|calls| - 1])
  }

  function ByRecvOf(call: LwipCall): seq<LwipCall> {
    if call.TcpRecved? && call.origin == ByRecv then [call] else []
  }

  lemma NoticeAdded(n: seq<Notice>, x: Notice)
    ensures SumAcks(n + [x]) == SumAcks(n) + (if x.OnAck? then x.len else 0)
    ensures AckCalls(n + [x]) == AckCalls(n) + (if x.OnAck? then 1 else 0)
    ensures Disconnects(n + [x]) == Disconnects(n) + (if x.OnDisconnect? then 1 else 0)
  {
    assert (n + [x])[..|n|] == n;
  }

  lemma CallAdded(calls: seq<LwipCall>, x: LwipCall)
    ensures Owned(calls + [x]) == Owned(calls) + (if IsStray(x) then [] else [x])
    ensures Credited(calls + [x]) == Credited(calls) + (if x.TcpRecved? then x.len else 0)
    ensures CreditedByClose(calls + [x]) ==
            CreditedByClose(calls) + (if x.TcpRecved? && x.origin == ByClose then x.len else 0)
    ensures ByRecvCredits(calls + [x]) == ByRecvCredits(calls) + ByRecvOf(x)
  {
    assert (calls + [x])[..|calls|] == calls;
  }

  lemma OwnedAdded(calls: seq<LwipCall>, x: LwipCall)
    ensures Owned(calls + [x]) == Owned(calls) + (if IsStray(x) then [] else [x])
  {
    assert (calls + [x])[..|calls|] == calls;
  }

  // ---- what any handler keeps, whatever it calls

  /** Credit outstanding against the application, net of what `close` gave away. */
  function Balance(c: Client): int {
    Credited(c.tcp.calls) + c.rxAckLen - CreditedByClose(c.tcp.calls) - c.processed
  }

  ghost predicate Kept(c: Client, r: Client) {
    && Balance(r) == Balance(c)
    && SumAcks(r.notices) == SumAcks(c.notices)
    && AckCalls(r.notices) == AckCalls(c.notices)
    && (c.pcbBusy ==> r.pcbBusy) && (c.closePcb ==> r.closePcb)
    && r.txAckedLen == c.txAckedLen
    && r.tcp.acked == c.tcp.acked
    && r.processed == c.processed
    && r.replies == c.replies
    && r.rxLastPacket == c.rxLastPacket
    && c.tcp.queued <= r.tcp.queued
    && ByRecvCredits(r.tcp.calls) == ByRecvCredits(c.tcp.calls)
  }

  lemma KeptFail(e: Env, c: Client, err: Err)
    requires !c.pcb
    ensures Kept(c, Fail(e, c, err))
    decreases Rank(c), 5 + |e.onError| + |e.onDisconnect|
  {
    NoticeAdded(c.notices, OnError(err));
    KeptRun(e, Note(c, OnError(err)), e.onError);
    var c1 := Run(e, Note(c, OnError(err)), e.onError);
    NoticeAdded(c1.notices, OnDisconnect);
    KeptRun(e, Note(c1, OnDisconnect), e.onDisconnect);
  }

  lemma KeptLog(c: Client, call: LwipCall)
    requires !call.TcpRecved?
    ensures Kept(c, Log(c, call))
  {
    CallAdded(c.tcp.calls, call);
  }

  /** A live client once `tcp_abort` has reported to the error callback. */
  function Aborted(c: Client): Client {
    Log(c, TcpAbort).(pcb := false, tracker := WithErrored(WithCloseError(c.tracker, ErrAbrt), EeErrorCb),
                      tcp := Log(c, TcpAbort).tcp.(hook := Unhooked))
  }

  /** What `abort` does then is `_error`, up to a tracker that ignores it. */
  lemma AbortIsFail(e: Env, c: Client)
    requires c.pcb && c.tcp.hook != Unhooked
    ensures var r := Fail(e, Aborted(c), ErrAbrt);
      AbortNow(e, c) == r.(tracker := WithCloseError(r.tracker, ErrAbrt))
  {
    assert ErrorCallback(e, Log(c, TcpAbort).(pcb := false), ErrAbrt) == Fail(e, Aborted(c), ErrAbrt);
  }

  lemma KeptAbort(e: Env, c: Client)
    ensures Kept(c, AbortNow(e, c))
    decreases Rank(c), 0
  {
    if c.pcb {
      KeptLog(c, TcpAbort);
      if c.tcp.hook != Unhooked {
        AbortIsFail(e, c);
        KeptFail(e, Aborted(c), ErrAbrt);
      }
    }
  }

  lemma KeptDisconnect(e: Env, c: Client)
    requires !c.pcb
    ensures Kept(c, Run(e, Note(c, OnDisconnect), e.onDisconnect))
    decreases Rank(c), 5 + |e.onDisconnect|
  {
    NoticeAdded(c.notices, OnDisconnect);
    KeptRun(e, Note(c, OnDisconnect), e.onDisconnect);
  }

  lemma KeptClose(e: Env, c: Client)
    ensures Kept(c, CloseNow(e, c))
    decreases Rank(c), 1
  {
    if c.pcb {
      var c0 := c.(tcp := c.tcp.(hook := Unhooked));
      KeptLog(c0, TcpClose(e.closeOk));
      var c1 := Log(c0, TcpClose(e.closeOk));
      if e.closeOk {
        KeptDisconnect(e, c1.(pcb := false, tracker := WithCloseError(c1.tracker, ErrOk)));
      } else {
        KeptAbort(e, c1);
        KeptDisconnect(e, AbortNow(e, c1));
      }
    }
  }

  lemma KeptAdd(c: Client, data: bytes, writeOk: bool)
    ensures Kept(c, AddTo(c, data, writeOk).0)
  {
    var call := TcpWrite(data[..Min(Space(c), |data|)], writeOk);
    KeptLog(c, call);
    KeptQueued(c, Log(c, call), AddTo(c, data, writeOk).0);
  }

  /** Queueing more changes nothing else that is kept. */
  lemma KeptQueued(c: Client, c1: Client, r: Client)
    requires Kept(c, c1) && (r == c || r == c1.(txUnackedLen := r.txUnackedLen, tcp := c1.tcp.(queued := r.tcp.queued)))
    requires c1.tcp.queued <= r.tcp.queued
    ensures Kept(c, r)
  {
  }

  lemma KeptSend(c: Client, outputOk: bool, now: u32)
    ensures Kept(c, SendNow(c, outputOk, now).0)
  {
    CallAdded(c.tcp.calls, TcpOutput(c.pcb, outputOk, now));
  }

  lemma KeptWrite(c: Client, data: bytes, writeOk: bool, outputOk: bool, now: u32)
    ensures Kept(c, WriteTo(c, data, writeOk, outputOk, now).0)
  {
    KeptAdd(c, data, writeOk);
    KeptSend(AddTo(c, data, writeOk).0, outputOk, now);
  }

  lemma KeptAck(c: Client, len: nat)
    ensures Kept(c, AckBytes(c, len).0)
  {
    var n := Min(len, c.rxAckLen);
    CallAdded(c.tcp.calls, TcpRecved(c.pcb, ByAck, n));
    if n > 0 {
      assert Balance(AckBytes(c, len).0) == Balance(c);
    }
  }

  lemma KeptCloseCall(e: Env, c: Client, immediately: bool)
    ensures Kept(c, CloseCall(e, c, immediately))
    decreases Rank(c), 2
  {
    KeptCredit(c);
    KeptClose(e, if c.pcb then Log(c, TcpRecved(true, ByClose, c.rxAckLen)) else c);
  }

  lemma KeptCredit(c: Client)
    ensures Kept(c, Log(c, TcpRecved(true, ByClose, c.rxAckLen)))
  {
    CallAdded(c.tcp.calls, TcpRecved(true, ByClose, c.rxAckLen));
  }

  lemma KeptDo(e: Env, c: Client, a: Api)
    ensures Kept(c, Do(e, c, a))
    decreases Rank(c), 3
  {
    match a
    case Write(data, writeOk, outputOk, now) => KeptWrite(c, data, writeOk, outputOk, now);
    case Add(data, writeOk) => KeptAdd(c, data, writeOk);
    case Send(outputOk, now) => KeptSend(c, outputOk, now);
    case Ack(len) => KeptAck(c, len);
    case AckLater =>
    case Close(immediately) => KeptCloseCall(e, c, immediately);
    case Abort => KeptAbort(e, c);
    case SetRxTimeout(_) =>
    case SetAckTimeout(_) =>
  }

  lemma {:induction false} KeptRun(e: Env, c: Client, prog: Program)
    ensures Kept(c, Run(e, c, prog))
    decreases Rank(c), 4 + |prog|
  {
    if prog != [] {
      KeptDo(e, c, prog[0]);
      KeptRun(e, Do(e, c, prog[0]), prog[1..]);
    }
  }

  // ---- the shapes a connection can be in between events

  ghost predicate Quiet(calls: seq<LwipCall>) {
    forall k :: 0 <= k < |calls| ==> calls[k] != TcpAbort && !calls[k].TcpClose?
  }

  lemma QuietAdded(calls: seq<LwipCall>, x: LwipCall)
    requires Quiet(calls) && x != TcpAbort && !x.TcpClose?
    ensures Quiet(calls + [x]) && Quiet(calls + [])
  {
    assert calls + [] == calls;
  }

  /** Connected: the pcb is owned, nothing was closed, aborted or reported, and
      the unacked counter is exactly what lwIP still has outstanding. */
  ghost predicate Healthy(c: Client) { Standing(c) && Counted(c) }

  ghost predicate Standing(c: Client) {
    && c.pcb
    && c.tcp.hook == HookedAll
    && c.tracker == FRESH_TRACKER
    && Disconnects(c.notices) == 0
    && Quiet(Owned(c.tcp.calls))
  }

  ghost predicate Counted(c: Client) { c.tcp.Sound() && c.txUnackedLen == c.tcp.Outstanding() }

  ghost predicate Dialing(c: Client) {
    && !c.pcb
    && c.tcp.hook == HookedErr
    && c.tracker == FRESH_TRACKER
    && Disconnects(c.notices) == 0
    && Quiet(Owned(c.tcp.calls))
    && c.tcp.Sound()
    && c.tcp.queued == [] && c.txUnackedLen == 0
  }

  /** The four ways a connection ends. */
  datatype Outcome = InError | InClose | InFailedClose | InUserAbort

  /** `o` is a stretch without close or abort, then exactly `tail`. */
  ghost predicate EndsIn(o: seq<LwipCall>, tail: seq<LwipCall>) {
    |tail| <= |o| && Quiet(o[..|o| - |tail|]) && o[|o| - |tail|..] == tail
  }

  lemma Ending(pre: seq<LwipCall>, tail: seq<LwipCall>)
    requires Quiet(pre)
    ensures EndsIn(pre + tail, tail)
  {
    var o := pre + tail;
    assert o[..|o| - |tail|] == pre;
  }

  function Farewell(how: Outcome): seq<LwipCall> {
    match how
    case InError => []
    case InClose => [TcpClose(true)]
    case InFailedClose => [TcpClose(false), TcpAbort]
    case InUserAbort => [TcpAbort]
  }

  /** Ended: one disconnect, and the lwIP calls made on the pcb end with exactly
      the calls that belong to this outcome. */
  ghost predicate Torn(c: Client, how: Outcome) {
    Disconnects(c.notices) == 1 && TearsDown(c, how)
  }

  ghost predicate TearsDown(c: Client, how: Outcome) {
    && !c.pcb
    && c.tcp.hook == Unhooked
    && EndsIn(Owned(c.tcp.calls), Farewell(how))
    && c.tcp.Sound() && c.txUnackedLen == c.tcp.Outstanding()
    && match how
       case InError => c.tracker.errored != EeOk && c.tracker.errored != EeAborted
       case InClose => c.tracker == FRESH_TRACKER
       case InFailedClose =>
         c.tracker.closeError == ErrAbrt && (c.tracker.errored == EeOk || c.tracker.errored == EeAborted)
       case InUserAbort => c.tracker.errored == EeErrorCb
  }

  /** The outcome of a handler started on a healthy client. */
  ghost predicate Survives(r: Client) {
    || Healthy(r)
    || Torn(r, InClose)
    || (Torn(r, InFailedClose) && r.tracker.errored == EeOk)
    || Torn(r, InUserAbort)
  }

  // ---- after teardown

  /** Nothing but stray calls and local fields can change. */
  ghost predicate Inert(c: Client, r: Client) {
    && !r.pcb
    && r.tracker == c.tracker
    && r.notices == c.notices
    && r.replies == c.replies
    && r.txUnackedLen == c.txUnackedLen
    && SameButCalls(c.tcp, r.tcp)
    && Owned(r.tcp.calls) == Owned(c.tcp.calls)
    && CreditedByClose(r.tcp.calls) == CreditedByClose(c.tcp.calls)
  }

  ghost predicate SameButCalls(t: Tcp, t': Tcp) {
    && t'.hook == t.hook && t'.established == t.established && t'.cap == t.cap
    && t'.queued == t.queued && t'.acked == t.acked
  }

  lemma InertLog(c: Client, call: LwipCall)
    requires !c.pcb && IsStray(call) && !(call.TcpRecved? && call.origin == ByClose)
    ensures Inert(c, Log(c, call))
  {
    CallAdded(c.tcp.calls, call);
  }

  lemma DeadAck(c: Client, len: nat)
    requires !c.pcb
    ensures Inert(c, AckBytes(c, len).0)
  {
    if Min(len, c.rxAckLen) > 0 {
      InertLog(c, TcpRecved(false, ByAck, Min(len, c.rxAckLen)));
    }
  }

  lemma DeadDo(e: Env, c: Client, a: Api)
    requires !c.pcb
    ensures Inert(c, Do(e, c, a))
  {
    match a
    case Write(_, _, _, _) =>
    case Add(_, _) =>
    case Send(outputOk, now) => InertLog(c, TcpOutput(false, outputOk, now));
    case Ack(len) => DeadAck(c, len);
    case AckLater =>
    case Close(_) => assert CloseNow(e, c) == c;
    case Abort =>
    case SetRxTimeout(_) =>
    case SetAckTimeout(_) =>
  }

  /** A handler running once `_pcb` is NULL reaches lwIP only through `send` and
      `ack`, which do not test it, and invokes no handler. */
  lemma {:induction false} DeadRun(e: Env, c: Client, prog: Program)
    requires !c.pcb
    ensures Inert(c, Run(e, c, prog))
    decreases |prog|
  {
    if prog != [] {
      DeadDo(e, c, prog[0]);
      DeadRun(e, Do(e, c, prog[0]), prog[1..]);
    }
  }

  lemma StillTearing(c: Client, r: Client, how: Outcome)
    requires TearsDown(c, how) && Inert(c, r)
    ensures TearsDown(r, how)
  {
  }

  /** Once the calls are made and the tracker is set, the two handlers `_error`
      runs complete the teardown. */
  lemma FailEnds(e: Env, c: Client, err: Err, how: Outcome)
    requires TearsDown(c, how) && Disconnects(c.notices) == 0
    ensures Torn(Fail(e, c, err), how)
    ensures Fail(e, c, err).tracker == c.tracker
  {
    NoticeAdded(c.notices, OnError(err));
    var c0 := Note(c, OnError(err));
    DeadRun(e, c0, e.onError);
    var c1 := Run(e, c0, e.onError);
    StillTearing(c0, c1, how);
    NoticeAdded(c1.notices, OnDisconnect);
    DisconnectEnds(e, c1, how);
  }

  lemma DisconnectEnds(e: Env, c: Client, how: Outcome)
    requires TearsDown(c, how) && Disconnects(c.notices) == 0
    ensures Torn(Run(e, Note(c, OnDisconnect), e.onDisconnect), how)
    ensures Run(e, Note(c, OnDisconnect), e.onDisconnect).tracker == c.tracker
  {
    NoticeAdded(c.notices, OnDisconnect);
    var c0 := Note(c, OnDisconnect);
    DeadRun(e, c0, e.onDisconnect);
    StillTearing(c0, Run(e, c0, e.onDisconnect), how);
  }

  // ---- teardown from a healthy client

  lemma AbortTears(c: Client)
    requires Healthy(c)
    ensures TearsDown(Aborted(c), InUserAbort)
  {
    OwnedAdded(c.tcp.calls, TcpAbort);
    Ending(Owned(c.tcp.calls), [TcpAbort]);
  }

  lemma AbortEnds(e: Env, c: Client)
    requires Healthy(c)
    ensures Torn(AbortNow(e, c), InUserAbort)
  {
    AbortTears(c);
    FailEnds(e, Aborted(c), ErrAbrt, InUserAbort);
    AbortIsFail(e, c);
  }

  /** The client when `_close` has made its calls and is about to tell the
      disconnect handler. */
  function Hung(e: Env, c: Client): Client {
    var c1 := Log(c.(tcp := c.tcp.(hook := Unhooked)), TcpClose(e.closeOk));
    if e.closeOk then c1.(pcb := false, tracker := WithCloseError(c1.tracker, ErrOk))
    else Log(c1, TcpAbort).(pcb := false, tracker := WithCloseError(c1.tracker, ErrAbrt))
  }

  lemma CloseIsHung(e: Env, c: Client)
    requires c.pcb
    ensures CloseNow(e, c) == Run(e, Note(Hung(e, c), OnDisconnect), e.onDisconnect)
  {
    var c1 := Log(c.(tcp := c.tcp.(hook := Unhooked)), TcpClose(e.closeOk));
    assert !e.closeOk ==> AbortNow(e, c1) == Hung(e, c);
  }

  lemma HungCalls(e: Env, c: Client)
    ensures Owned(Hung(e, c).tcp.calls) ==
      Owned(c.tcp.calls) + Farewell(if e.closeOk then InClose else InFailedClose)
  {
    OwnedAdded(c.tcp.calls, TcpClose(e.closeOk));
    if !e.closeOk {
      OwnedAdded(c.tcp.calls + [TcpClose(false)], TcpAbort);
      TwoMore(Owned(c.tcp.calls), TcpClose(false), TcpAbort);
    }
  }

  lemma TwoMore(calls: seq<LwipCall>, x: LwipCall, y: LwipCall)
    ensures calls + [x] + [y] == calls + [x, y]
  {
  }

  /** How a close leaves a connection that stood. */
  ghost predicate HungUp(e: Env, r: Client) {
    if e.closeOk then Torn(r, InClose) else Torn(r, InFailedClose) && r.tracker.errored == EeOk
  }

  lemma CloseEnds(e: Env, c: Client)
    requires Healthy(c)
    ensures HungUp(e, CloseNow(e, c))
  {
    var how := if e.closeOk then InClose else InFailedClose;
    CloseIsHung(e, c);
    HungCalls(e, c);
    Ending(Owned(c.tcp.calls), Farewell(how));
    DisconnectEnds(e, Hung(e, c), how);
  }

  lemma HealthyLog(c: Client, call: LwipCall)
    requires Healthy(c) && call != TcpAbort && !call.TcpClose?
    ensures Healthy(Log(c, call))
  {
    OwnedAdded(c.tcp.calls, call);
    QuietAdded(Owned(c.tcp.calls), call);
  }

  lemma AddStands(c: Client, data: bytes, writeOk: bool)
    requires Standing(c)
    ensures Standing(AddTo(c, data, writeOk).0)
  {
    var call := TcpWrite(data[..Min(Space(c), |data|)], writeOk);
    OwnedAdded(c.tcp.calls, call);
    QuietAdded(Owned(c.tcp.calls), call);
  }

  /** What the send buffer has room for never takes the unacked counter round. */
  lemma AddCounts(c: Client, data: bytes, writeOk: bool)
    requires Counted(c)
    ensures Counted(AddTo(c, data, writeOk).0)
  {
  }

  lemma HealthyWrite(c: Client, data: bytes, writeOk: bool, outputOk: bool, now: u32)
    requires Healthy(c)
    ensures Healthy(WriteTo(c, data, writeOk, outputOk, now).0)
  {
    AddStands(c, data, writeOk);
    AddCounts(c, data, writeOk);
    HealthyLog(AddTo(c, data, writeOk).0, TcpOutput(true, outputOk, now));
  }

  lemma HealthyClose(e: Env, c: Client, immediately: bool)
    requires Healthy(c)
    ensures Survives(CloseCall(e, c, immediately))
  {
    HealthyLog(c, TcpRecved(true, ByClose, c.rxAckLen));
    if immediately {
      CloseEnds(e, Log(c, TcpRecved(true, ByClose, c.rxAckLen)));
    }
  }

  lemma HealthySend(c: Client, outputOk: bool, now: u32)
    requires Healthy(c)
    ensures Healthy(SendNow(c, outputOk, now).0)
  {
    HealthyLog(c, TcpOutput(true, outputOk, now));
  }

  lemma HealthyAck(c: Client, len: nat)
    requires Healthy(c)
    ensures Healthy(AckBytes(c, len).0)
  {
    HealthyLog(c, TcpRecved(true, ByAck, Min(len, c.rxAckLen)));
  }

  lemma HealthyDo(e: Env, c: Client, a: Api)
    requires Healthy(c)
    ensures Survives(Do(e, c, a))
  {
    match a
    case Write(data, writeOk, outputOk, now) => HealthyWrite(c, data, writeOk, outputOk, now);
    case Add(data, writeOk) =>
      AddStands(c, data, writeOk);
      AddCounts(c, data, writeOk);
    case Send(outputOk, now) => HealthySend(c, outputOk, now);
    case Ack(len) => HealthyAck(c, len);
    case AckLater =>
    case Close(immediately) => HealthyClose(e, c, immediately);
    case Abort => AbortEnds(e, c);
    case SetRxTimeout(_) =>
    case SetAckTimeout(_) =>
  }

  lemma StaysTorn(c: Client, r: Client)
    requires !c.pcb && Survives(c) && Inert(c, r)
    ensures Survives(r)
  {
    forall how | Torn(c, how) ensures Torn(r, how) {
    }
  }

  /** A handler leaves a healthy client healthy, or ends the connection in one
      of three complete ways, however it mixes its calls. */
  lemma {:induction false} HealthyRun(e: Env, c: Client, prog: Program)
    requires Healthy(c)
    ensures Survives(Run(e, c, prog))
    decreases |prog|
  {
    if prog != [] {
      var c1 := Do(e, c, prog[0]);
      HealthyDo(e, c, prog[0]);
      if c1.pcb {
        HealthyRun(e, c1, prog[1..]);
      } else {
        DeadRun(e, c1, prog[1..]);
        StaysTorn(c1, Run(e, c1, prog[1..]));
      }
    }
  }
}
