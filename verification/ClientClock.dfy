/** Time in the client: what the stamps it keeps mean over a run, and what a poll decides
    by them, on a clock that never wraps. */
module ClientClock {
  import opened Words
  import opened ErrorTracker
  import opened ClientSpec
  import opened ClientProofs
  import opened ClientRuns
  import opened ClientHandlers
  import opened ClientLedger

  // ---- what a poll decides

  /** A poll of a live client without a deferred close ends in the timeout handler, which
      is told the time since the last output, if and only if the client is busy, has an ack
      timeout, and that much time has truly passed. */
  lemma AckTimeoutIsTrueTime(e: Env, c: Client, s0: nat, t: nat)
    requires c.pcb && !c.closePcb && c.pcbSentAt == s0 % WORD && s0 <= t < s0 + WORD
    ensures var r := PollChecked(e, c, t % WORD);
      && (r.1 == TimeoutHandler <==> c.pcbBusy && c.ackTimeout != 0 && t - s0 >= c.ackTimeout)
      && (r.1 == TimeoutHandler ==> !r.0.pcbBusy && r.0.notices == c.notices + [OnTimeout(t - s0)])
  {
    ElapsedSurvivesWrap(s0, t);
  }

  /** The time has come by which the last output had to be acknowledged. */
  predicate AckOverdue(c: Client, s0: nat, t: nat) { c.pcbBusy && c.ackTimeout != 0 && t - s0 >= c.ackTimeout }

  predicate PacketOverdue(c: Client, p0: nat, t: nat) {
    c.rxSinceTimeout != 0 && t - p0 >= c.rxSinceTimeout * 1000
  }

  /** What a poll at `t` does when the last output was at `s0` and the last packet came at
      `p0`: a deferred close first, then the ack timeout, then the receive timeout. */
  lemma PollInTrueTime(e: Env, c: Client, s0: nat, p0: nat, t: nat)
    requires Healthy(c) && c.pcbSentAt == s0 % WORD && s0 <= t < s0 + WORD
    requires c.rxLastPacket == p0 % WORD && p0 <= t < p0 + WORD && c.rxSinceTimeout * 1000 < WORD
    ensures var r := PollChecked(e, c, t % WORD);
      if c.closePcb || (!AckOverdue(c, s0, t) && PacketOverdue(c, p0, t)) then r.1 == NoHandler && HungUp(e, r.0)
      else if AckOverdue(c, s0, t) then
        r.1 == TimeoutHandler && r.0 == Note(c.(pcbBusy := false), OnTimeout(t - s0))
      else r.1 == IdleHandler && r.0 == Note(c, OnPoll)
  {
    ElapsedSurvivesWrap(s0, t);
    RxTimeoutIsTrueTime(c, p0, t);
    PollDecides(e, c, t % WORD, t - s0);
  }

  lemma PollDecides(e: Env, c: Client, now: u32, elapsed: nat)
    requires Healthy(c) && elapsed == Minus32(now, c.pcbSentAt)
    ensures var r := PollChecked(e, c, now);
      if PollCloses(c, now) then r.1 == NoHandler && HungUp(e, r.0)
      else if AckTimedOut(c, now) then r.1 == TimeoutHandler && r.0 == Note(c.(pcbBusy := false), OnTimeout(elapsed))
      else r.1 == IdleHandler && r.0 == Note(c, OnPoll)
  {
    if PollCloses(c, now) {
      ChecksFinish(e, c, now);
    } else {
      assert c.(tracker := WithCloseError(c.tracker, ErrOk)) == c;
    }
  }

  /** With its timeout set to zero a poll neither times out nor closes for that reason. */
  lemma ZeroNeverTimesOut(e: Env, c: Client, s0: nat, p0: nat, t: nat)
    requires Healthy(c) && c.pcbSentAt == s0 % WORD && s0 <= t < s0 + WORD
    requires c.rxLastPacket == p0 % WORD && p0 <= t < p0 + WORD && !c.closePcb
    ensures PollChecked(e, Do(e, Do(e, c, SetAckTimeout(0)), SetRxTimeout(0)), t % WORD).1 == IdleHandler
  {
    PollInTrueTime(e, c.(ackTimeout := 0, rxSinceTimeout := 0), s0, p0, t);
  }

  /** The ack handler is told the time that has truly passed since the last output. */
  lemma AckReportsTrueTime(e: Env, c: Client, len: nat, now: u32, s0: nat, t: nat)
    requires c.pcbSentAt == s0 % WORD && s0 <= t < s0 + WORD && len < 0x1_0000 && c.txUnackedLen <= len
    ensures var r := SentCallback(e, c, len, now, t % WORD, []);
      r.notices == c.notices + [OnAck(Plus32(c.txAckedLen, len), t - s0)] && !r.pcbBusy
  {
    ElapsedSurvivesWrap(s0, t);
  }

  // ---- the last output

  /** When `tcp_output` succeeded, each time. */
  function Outputs(calls: seq<LwipCall>): seq<u32> {
    if calls == [] then [] else Outputs(calls[..|calls| - 1]) + OutputOf(calls[|calls| - 1])
  }

  function OutputOf(call: LwipCall): seq<u32> { if call.TcpOutput? && call.ok then [call.at] else [] }

  lemma OutputLogged(calls: seq<LwipCall>, x: LwipCall)
    ensures Outputs(calls + [x]) == Outputs(calls) + OutputOf(x)
  {
    assert (calls + [x])[..|calls|] == calls;
  }

  /** The stamp is the time of the last output. */
  ghost predicate Stamped(c: Client) {
    var outputs := Outputs(c.tcp.calls);
    outputs != [] ==> c.pcbSentAt == outputs[|outputs| - 1]
  }

  lemma StampsAside(c: Client, r: Client)
    requires Stamped(c) && r.tcp.calls == c.tcp.calls && r.pcbSentAt == c.pcbSentAt
    ensures Stamped(r)
  {
  }

  lemma LogStamps(c: Client, call: LwipCall)
    requires Stamped(c) && !(call.TcpOutput? && call.ok)
    ensures Stamped(Log(c, call))
  {
    OutputLogged(c.tcp.calls, call);
  }

  lemma SendStamps(c: Client, outputOk: bool, now: u32)
    requires Stamped(c)
    ensures Stamped(SendNow(c, outputOk, now).0)
  {
    OutputLogged(c.tcp.calls, TcpOutput(c.pcb, outputOk, now));
  }

  lemma AddStamps(c: Client, data: bytes, writeOk: bool)
    requires Stamped(c)
    ensures Stamped(AddTo(c, data, writeOk).0)
  {
    LogStamps(c, TcpWrite(data[..Min(Space(c), |data|)], writeOk));
  }

  lemma WriteStamps(c: Client, data: bytes, writeOk: bool, outputOk: bool, now: u32)
    requires Stamped(c)
    ensures Stamped(WriteTo(c, data, writeOk, outputOk, now).0)
  {
    AddStamps(c, data, writeOk);
    SendStamps(AddTo(c, data, writeOk).0, outputOk, now);
  }

  lemma AckStamps(c: Client, len: nat)
    requires Stamped(c)
    ensures Stamped(AckBytes(c, len).0)
  {
    LogStamps(c, TcpRecved(c.pcb, ByAck, Min(len, c.rxAckLen)));
  }

  /** Calls that end nothing. */
  lemma PlainDoStamps(e: Env, c: Client, a: Api)
    requires Stamped(c) && !a.Close? && !a.Abort?
    ensures Stamped(Do(e, c, a))
  {
    match a
    case Write(data, writeOk, outputOk, now) => WriteStamps(c, data, writeOk, outputOk, now);
    case Add(data, writeOk) => AddStamps(c, data, writeOk);
    case Send(outputOk, now) => SendStamps(c, outputOk, now);
    case Ack(len) => AckStamps(c, len);
    case AckLater =>
    case SetRxTimeout(_) =>
    case SetAckTimeout(_) =>
  }

  lemma DeadDoStamps(e: Env, c: Client, a: Api)
    requires !c.pcb && Stamped(c)
    ensures Stamped(Do(e, c, a))
  {
    match a
    case Close(immediately) =>
      assert CloseNow(e, c) == c;
      assert Do(e, c, a) == if immediately then c else c.(closePcb := true);
    case Abort =>
    case _ => PlainDoStamps(e, c, a);
  }

  lemma {:induction false} DeadRunStamps(e: Env, c: Client, prog: Program)
    requires !c.pcb && Stamped(c)
    ensures Stamped(Run(e, c, prog))
    decreases |prog|
  {
    if prog != [] {
      DeadDoStamps(e, c, prog[0]);
      DeadRunStamps(e, Do(e, c, prog[0]), prog[1..]);
    }
  }

  lemma FailStamps(e: Env, c: Client, err: Err)
    requires !c.pcb && Stamped(c)
    ensures Stamped(Fail(e, c, err))
  {
    var c0 := Note(c, OnError(err));
    StampsAside(c, c0);
    DeadRunStamps(e, c0, e.onError);
    var c1 := Run(e, c0, e.onError);
    StampsAside(c1, Note(c1, OnDisconnect));
    DeadRunStamps(e, Note(c1, OnDisconnect), e.onDisconnect);
  }

  lemma CloseStamps(e: Env, c: Client)
    requires Stamped(c)
    ensures Stamped(CloseNow(e, c))
  {
    if c.pcb {
      CloseIsHung(e, c);
      OutputLogged(c.tcp.calls, TcpClose(e.closeOk));
      OutputLogged(c.tcp.calls + [TcpClose(e.closeOk)], TcpAbort);
      DeadRunStamps(e, Note(Hung(e, c), OnDisconnect), e.onDisconnect);
    }
  }

  lemma DoStamps(e: Env, c: Client, a: Api)
    requires Stamped(c) && Attached(c)
    ensures Stamped(Do(e, c, a))
  {
    if !c.pcb {
      DeadDoStamps(e, c, a);
    } else if a.Close? {
      CloseCallStamps(e, c, a.immediately);
    } else if a.Abort? {
      AbortStamps(e, c);
    } else {
      PlainDoStamps(e, c, a);
    }
  }

  lemma CloseCallStamps(e: Env, c: Client, immediately: bool)
    requires Stamped(c) && c.pcb
    ensures Stamped(CloseCall(e, c, immediately))
  {
    var c1 := Log(c, TcpRecved(true, ByClose, c.rxAckLen));
    LogStamps(c, TcpRecved(true, ByClose, c.rxAckLen));
    CloseStamps(e, c1);
    StampsAside(c1, c1.(closePcb := true));
  }

  lemma AbortStamps(e: Env, c: Client)
    requires Stamped(c) && c.pcb && c.tcp.hook != Unhooked
    ensures Stamped(AbortNow(e, c))
  {
    AbortIsFail(e, c);
    LogStamps(c, TcpAbort);
    StampsAside(Log(c, TcpAbort), Aborted(c));
    FailStamps(e, Aborted(c), ErrAbrt);
    StampsAside(Fail(e, Aborted(c), ErrAbrt), AbortNow(e, c));
  }

  lemma {:induction false} RunStamps(e: Env, c: Client, prog: Program)
    requires Stamped(c) && Attached(c)
    ensures Stamped(Run(e, c, prog)) && Attached(Run(e, c, prog))
    decreases |prog|
  {
    if prog != [] {
      DoStamps(e, c, prog[0]);
      DoWithholds(e, c, prog[0]);
      RunStamps(e, Do(e, c, prog[0]), prog[1..]);
    }
  }

  lemma ReceiveStamps(e: Env, c: Client, p: Packet)
    requires Stamped(c) && Attached(c)
    ensures Stamped(Receive(e, c, p)) && Attached(Receive(e, c, p))
  {
    var c0 := Note(c.(ackPcb := true), OnData(p.data));
    StampsAside(c, c0);
    RunStamps(e, c0, p.handler);
    CreditStamps(Deliver(e, c, p), |p.data|);
  }

  lemma CreditStamps(c: Client, len: nat)
    requires Stamped(c) && Attached(c)
    ensures Stamped(Credit(c, len)) && Attached(Credit(c, len))
  {
    LogStamps(c, TcpRecved(c.pcb, ByRecv, len));
  }

  lemma {:induction false} ChainStamps(e: Env, c: Client, chain: seq<Packet>)
    requires Stamped(c) && Attached(c)
    ensures Stamped(ReceiveAll(e, c, chain))
    decreases |chain|
  {
    if chain != [] {
      ReceiveStamps(e, c, chain[0]);
      ChainStamps(e, Receive(e, c, chain[0]), chain[1..]);
    }
  }

  lemma PollStamps(e: Env, c: Client, now: u32, handler: Program)
    requires Stamped(c) && Attached(c)
    ensures Stamped(PollCallback(e, c, now, handler))
  {
    ChecksStamp(e, c, now);
    var r := PollChecked(e, c, now);
    if r.1 != NoHandler {
      RunStamps(e, r.0, handler);
    }
  }

  lemma ChecksStamp(e: Env, c: Client, now: u32)
    requires Stamped(c) && Attached(c)
    ensures var r := PollChecked(e, c, now); Stamped(r.0) && (r.1 != NoHandler ==> Attached(r.0))
  {
    var c1 := c.(tracker := WithCloseError(c.tracker, ErrOk));
    StampsAside(c, c1);
    if c1.closePcb {
      CloseStamps(e, c1.(closePcb := false));
    } else if !AckTimedOut(c1, now) && RxTimedOut(c1, now) {
      CloseStamps(e, c1);
    }
  }

  lemma RecvStamps(e: Env, c: Client, chain: seq<Packet>, err: Err, now: u32)
    requires Stamped(c) && Attached(c)
    ensures Stamped(RecvCallback(e, c, chain, err, now))
  {
    if err != ErrOk {
      var t := WithErrored(WithCloseError(c.tracker, err), EeRecvCb);
      FailStamps(e, c.(pcb := false, tracker := t, tcp := c.tcp.(hook := Unhooked)), err);
    } else if chain == [] {
      CloseStamps(e, c);
    } else {
      ChainStamps(e, c.(rxLastPacket := now, tracker := WithCloseError(c.tracker, ErrOk)), chain);
    }
  }

  lemma ConnectStamps(e: Env, c: Client, err: Err, now: u32, handler: Program)
    requires Stamped(c)
    ensures Stamped(ConnectedCallback(e, c, err, now, handler))
  {
    if err != ErrOk {
      var t := WithErrored(WithCloseError(c.tracker, err), EeConnectedCb);
      FailStamps(e, c.(pcb := false, tracker := t, tcp := c.tcp.(hook := Unhooked)), err);
    } else {
      RunStamps(e, Connecting(c, now), handler);
    }
  }

  lemma StepStamps(e: Env, c: Client, ev: Event)
    requires LifeCycle(c) && Allowed(c, ev) && Stamped(c)
    ensures Stamped(Step(e, c, ev))
  {
    HandledStamps(e, c, ev);
    if Answered(ev) {
      StampsAside(Handled(e, c, ev), Reply(Handled(e, c, ev)));
    }
  }

  lemma HandledStamps(e: Env, c: Client, ev: Event)
    requires LifeCycle(c) && Allowed(c, ev) && Stamped(c)
    ensures Stamped(Handled(e, c, ev))
  {
    match ev
    case Call(api) => DoStamps(e, c, api);
    case LwipConnected(err, now, handler) => ConnectStamps(e, c, err, now, handler);
    case LwipSent(len, now, at, handler) => SentStamps(e, c, len, now, at, handler);
    case LwipRecv(chain, err, now) => RecvStamps(e, c, chain, err, now);
    case LwipPoll(now, handler) => PollStamps(e, c, now, handler);
    case LwipError(err) => ErrorStamps(e, c, err);
    case LwipState(established) => StampsAside(c, c.(tcp := c.tcp.(established := established)));
  }

  lemma SentStamps(e: Env, c: Client, len: nat, now: u32, at: u32, handler: Program)
    requires Stamped(c) && Attached(c) && len < 0x1_0000
    ensures Stamped(SentCallback(e, c, len, now, at, handler))
  {
    var c1 := SentCounted(c, len, now);
    StampsAside(c, c1);
    if c1.txUnackedLen == 0 {
      StampsAside(c1, SentNotified(c1, at));
      RunStamps(e, SentNotified(c1, at), handler);
      StampsAside(Run(e, SentNotified(c1, at), handler), SentCallback(e, c, len, now, at, handler));
    }
  }

  lemma ErrorStamps(e: Env, c: Client, err: Err)
    requires Stamped(c)
    ensures Stamped(ErrorCallback(e, c.(pcb := false), err))
  {
    var t := WithErrored(WithCloseError(c.tracker, err), EeErrorCb);
    var c1 := c.(pcb := false, tracker := t, tcp := c.tcp.(hook := Unhooked));
    StampsAside(c, c1);
    FailStamps(e, c1, err);
  }

  // ---- the last packet

  /** When the last packet of a run came, if one did: data, an acknowledgement, or the
      answer to a connection attempt. */
  function LastPacket(run: seq<Event>, before: u32): u32
    decreases |run|
  {
    if run == [] then before else LastPacket(run[1..], PacketAt(run[0], before))
  }

  function PacketAt(ev: Event, before: u32): u32 {
    match ev
    case LwipConnected(err, now, _) => if err == ErrOk then now else before
    case LwipSent(_, now, _, _) => now
    case LwipRecv(chain, err, now) => if err == ErrOk && chain != [] then now else before
    case _ => before
  }

  lemma {:induction false} ChainKeepsPacket(e: Env, c: Client, chain: seq<Packet>)
    ensures ReceiveAll(e, c, chain).rxLastPacket == c.rxLastPacket
    decreases |chain|
  {
    if chain != [] {
      KeptDeliver(e, c, chain[0]);
      ChainKeepsPacket(e, Receive(e, c, chain[0]), chain[1..]);
    }
  }

  lemma RecvPacket(e: Env, c: Client, chain: seq<Packet>, err: Err, now: u32)
    ensures RecvCallback(e, c, chain, err, now).rxLastPacket == PacketAt(LwipRecv(chain, err, now), c.rxLastPacket)
  {
    if err != ErrOk {
      var t := WithErrored(WithCloseError(c.tracker, err), EeRecvCb);
      KeptFail(e, c.(pcb := false, tracker := t, tcp := c.tcp.(hook := Unhooked)), err);
    } else if chain == [] {
      KeptClose(e, c);
    } else {
      ChainKeepsPacket(e, c.(rxLastPacket := now, tracker := WithCloseError(c.tracker, ErrOk)), chain);
    }
  }

  lemma ConnectPacket(e: Env, c: Client, err: Err, now: u32, handler: Program)
    ensures ConnectedCallback(e, c, err, now, handler).rxLastPacket == PacketAt(LwipConnected(err, now, handler), c.rxLastPacket)
  {
    if err != ErrOk {
      var t := WithErrored(WithCloseError(c.tracker, err), EeConnectedCb);
      KeptFail(e, c.(pcb := false, tracker := t, tcp := c.tcp.(hook := Unhooked)), err);
    } else {
      KeptRun(e, Connecting(c, now), handler);
    }
  }

  lemma PollPacket(e: Env, c: Client, now: u32, handler: Program)
    ensures PollCallback(e, c, now, handler).rxLastPacket == c.rxLastPacket
  {
    var c1 := c.(tracker := WithCloseError(c.tracker, ErrOk));
    KeptClose(e, c1);
    KeptClose(e, c1.(closePcb := false));
    KeptRun(e, PollChecked(e, c, now).0, handler);
  }

  lemma StepPacket(e: Env, c: Client, ev: Event)
    requires Allowed(c, ev)
    ensures Step(e, c, ev).rxLastPacket == PacketAt(ev, c.rxLastPacket)
  {
    match ev
    case Call(api) => KeptDo(e, c, api);
    case LwipConnected(err, now, handler) => ConnectPacket(e, c, err, now, handler);
    case LwipSent(len, now, at, handler) => KeptRun(e, SentNotified(SentCounted(c, len, now), at), handler);
    case LwipRecv(chain, err, now) => RecvPacket(e, c, chain, err, now);
    case LwipPoll(now, handler) => PollPacket(e, c, now, handler);
    case LwipError(err) =>
      var t := WithErrored(WithCloseError(c.tracker, err), EeErrorCb);
      KeptFail(e, c.(pcb := false, tracker := t, tcp := c.tcp.(hook := Unhooked)), err);
    case LwipState(_) =>
  }

  lemma {:induction false} RunStampsBoth(e: Env, c: Client, run: seq<Event>, c': Client)
    requires LifeCycle(c) && Stamped(c) && Reaches(e, c, run, c')
    ensures Stamped(c') && c'.rxLastPacket == LastPacket(run, c.rxLastPacket)
    decreases |run|
  {
    if run != [] {
      StepStamps(e, c, run[0]);
      StepPacket(e, c, run[0]);
      StepKeepsLifeCycle(e, c, run[0]);
      RunStampsBoth(e, Step(e, c, run[0]), run[1..], c');
    }
  }

  /** Over every run of a fresh client, whatever its handlers do, `_pcb_sent_at` is the
      time of the last successful `tcp_output` and `_rx_last_packet` that of the last
      packet: so the two timeouts measure what they are named after. */
  lemma StampsMeanTime(e: Env, c: Client, run: seq<Event>, c': Client)
    requires FreshClient(c) && Reaches(e, c, run, c')
    ensures c'.rxLastPacket == LastPacket(run, c.rxLastPacket)
    ensures var outputs := Outputs(c'.tcp.calls); outputs != [] ==> c'.pcbSentAt == outputs[|outputs| - 1]
  {
    assert LifeCycle(c);
    RunStampsBoth(e, c, run, c');
  }
}
