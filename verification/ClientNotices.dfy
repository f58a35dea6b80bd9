/** Which handlers every event runs, with what they are told, and in which order: foreseen
    from the state before the event and from what its handlers do. */
module ClientNotices {
  import opened Words
  import opened ErrorTracker
  import opened ClientSpec
  import opened ClientProofs
  import opened ClientRuns
  import opened ClientHandlers
  import opened ClientClock

  /** The handlers a program sets off on a live connection: those that end it. */
  function SetsOff(prog: Program): seq<Notice>
    decreases |prog|
  {
    if prog == [] then []
    else if prog[0].Abort? then [OnError(ErrAbrt), OnDisconnect]
    else if prog[0] == Close(true) then [OnDisconnect]
    else SetsOff(prog[1..])
  }

  function ChainRuns(chain: seq<Packet>, live: bool): seq<Notice>
    decreases |chain|
  {
    if chain == [] then []
    else
      [OnData(chain[0].data)] + (if live then SetsOff(chain[0].handler) else [])
        + ChainRuns(chain[1..], live && KeepsPcb(chain[0].handler))
  }

  function PollRuns(c: Client, now: u32, handler: Program): seq<Notice> {
    if PollCloses(c, now) then [OnDisconnect]
    else [if AckTimedOut(c, now) then OnTimeout(Minus32(now, c.pcbSentAt)) else OnPoll] + SetsOff(handler)
  }

  function SentRuns(c: Client, len: nat, at: u32, handler: Program): seq<Notice> {
    if c.tcp.acked + len == |c.tcp.queued|
    then [OnAck(Plus32(c.txAckedLen, len), Minus32(at, c.pcbSentAt))] + SetsOff(handler)
    else []
  }

  function EventRuns(c: Client, ev: Event): seq<Notice> {
    match ev
    case Call(api) => if c.pcb then SetsOff([api]) else []
    case LwipConnected(err, _, handler) =>
      if err == ErrOk then [OnConnect] + SetsOff(handler) else [OnError(err), OnDisconnect]
    case LwipSent(len, _, at, handler) => SentRuns(c, len, at, handler)
    case LwipRecv(chain, err, _) =>
      if err != ErrOk then [OnError(err), OnDisconnect]
      else if chain == [] then [OnDisconnect]
      else ChainRuns(chain, true)
    case LwipPoll(now, handler) => PollRuns(c, now, handler)
    case LwipError(err) => [OnError(err), OnDisconnect]
    case LwipState(_) => []
  }

  // ---- handlers

  lemma FailRuns(e: Env, c: Client, err: Err)
    requires !c.pcb
    ensures Fail(e, c, err).notices == c.notices + [OnError(err), OnDisconnect]
  {
    var c0 := Note(c, OnError(err));
    DeadRun(e, c0, e.onError);
    DeadRun(e, Note(Run(e, c0, e.onError), OnDisconnect), e.onDisconnect);
    assert c.notices + [OnError(err)] + [OnDisconnect] == c.notices + [OnError(err), OnDisconnect];
  }

  lemma CloseRuns(e: Env, c: Client)
    requires c.pcb
    ensures CloseNow(e, c).notices == c.notices + [OnDisconnect]
  {
    CloseIsHung(e, c);
    DeadRun(e, Note(Hung(e, c), OnDisconnect), e.onDisconnect);
  }

  lemma AbortRuns(e: Env, c: Client)
    requires c.pcb && c.tcp.hook != Unhooked
    ensures AbortNow(e, c).notices == c.notices + [OnError(ErrAbrt), OnDisconnect]
  {
    AbortIsFail(e, c);
    FailRuns(e, Aborted(c), ErrAbrt);
  }

  lemma PlainRuns(e: Env, c: Client, a: Api)
    requires !GivesUp(a)
    ensures Do(e, c, a).notices == c.notices
  {
    match a
    case Write(_, _, _, _) =>
    case Add(_, _) =>
    case Send(_, _) =>
    case Ack(_) =>
    case AckLater =>
    case Close(_) => assert Do(e, c, a) == CloseCall(e, c, false);
    case SetRxTimeout(_) =>
    case SetAckTimeout(_) =>
  }

  lemma GivingUpRuns(e: Env, c: Client, a: Api)
    requires c.pcb && c.tcp.hook != Unhooked && GivesUp(a)
    ensures Do(e, c, a).notices == c.notices + if a.Abort? then [OnError(ErrAbrt), OnDisconnect] else [OnDisconnect]
  {
    if a.Abort? {
      AbortRuns(e, c);
    } else {
      CloseRuns(e, Log(c, TcpRecved(true, ByClose, c.rxAckLen)));
    }
  }

  lemma {:induction false} HandlerRuns(e: Env, c: Client, prog: Program)
    requires c.pcb && Attached(c)
    ensures Run(e, c, prog).notices == c.notices + SetsOff(prog)
    decreases |prog|
  {
    if prog == [] {
      assert c.notices + [] == c.notices;
    } else {
      var c1 := Do(e, c, prog[0]);
      GivesUpPcb(e, c, prog[0]);
      if GivesUp(prog[0]) {
        GivingUpRuns(e, c, prog[0]);
        DeadRun(e, c1, prog[1..]);
      } else {
        PlainRuns(e, c, prog[0]);
        DoWithholds(e, c, prog[0]);
        HandlerRuns(e, c1, prog[1..]);
      }
    }
  }

  /** A handler about to be called, and then what it sets off. */
  lemma CalledRuns(e: Env, c: Client, n: Notice, prog: Program)
    requires c.pcb && Attached(c)
    ensures Run(e, Note(c, n), prog).notices == c.notices + ([n] + SetsOff(prog))
  {
    HandlerRuns(e, Note(c, n), prog);
    Joined(c.notices, [n], SetsOff(prog));
  }

  // ---- a chain

  function PacketRuns(p: Packet, live: bool): seq<Notice> {
    [OnData(p.data)] + if live then SetsOff(p.handler) else []
  }

  lemma DeliveredRuns(e: Env, c: Client, p: Packet)
    requires Attached(c)
    ensures Receive(e, c, p).notices == c.notices + PacketRuns(p, c.pcb)
  {
    var c0 := c.(ackPcb := true);
    if c.pcb {
      CalledRuns(e, c0, OnData(p.data), p.handler);
    } else {
      DeadRun(e, Note(c0, OnData(p.data)), p.handler);
      assert [OnData(p.data)] + [] == [OnData(p.data)];
    }
  }

  lemma {:induction false} ChainRunsAll(e: Env, c: Client, chain: seq<Packet>)
    requires Attached(c)
    ensures ReceiveAll(e, c, chain).notices == c.notices + ChainRuns(chain, c.pcb)
    decreases |chain|
  {
    if chain == [] {
      assert c.notices + [] == c.notices;
    } else {
      var r := Receive(e, c, chain[0]);
      DeliveredRuns(e, c, chain[0]);
      ReceiveCredits(e, c, chain[0]);
      ChainRunsAll(e, r, chain[1..]);
      Joined(c.notices, PacketRuns(chain[0], c.pcb), ChainRuns(chain[1..], r.pcb));
    }
  }

  // ---- events

  lemma CallRuns(e: Env, c: Client, a: Api)
    requires LifeCycle(c)
    ensures Do(e, c, a).notices == c.notices + EventRuns(c, Call(a))
  {
    if c.pcb {
      HandlerRuns(e, c, [a]);
      assert [a][1..] == [];
      assert Run(e, c, [a]) == Run(e, Do(e, c, a), []);
    } else {
      DeadDo(e, c, a);
      assert c.notices + [] == c.notices;
    }
  }

  lemma ConnectRuns(e: Env, c: Client, err: Err, now: u32, handler: Program)
    ensures ConnectedCallback(e, c, err, now, handler).notices ==
      c.notices + EventRuns(c, LwipConnected(err, now, handler))
  {
    if err != ErrOk {
      var t := WithErrored(WithCloseError(c.tracker, err), EeConnectedCb);
      FailRuns(e, c.(pcb := false, tracker := t, tcp := c.tcp.(hook := Unhooked)), err);
    } else {
      var c1 := c.(pcb := true, pcbBusy := false, rxLastPacket := now,
                   tcp := c.tcp.(hook := HookedAll, established := true));
      CalledRuns(e, c1, OnConnect, handler);
    }
  }

  lemma AckedRuns(e: Env, c: Client, len: nat, now: u32, at: u32, handler: Program)
    requires Healthy(c) && len < 0x1_0000 && len <= c.tcp.Outstanding()
    ensures SentCallback(e, c, len, now, at, handler).notices == c.notices + SentRuns(c, len, at, handler)
  {
    var c1 := SentCounted(c, len, now);
    if c1.txUnackedLen == 0 {
      var c2 := c1.(pcbBusy := false, tracker := WithCloseError(c1.tracker, ErrOk));
      CalledRuns(e, c2, OnAck(c1.txAckedLen, Minus32(at, c1.pcbSentAt)), handler);
    } else {
      assert c.notices + [] == c.notices;
    }
  }

  lemma RecvRuns(e: Env, c: Client, chain: seq<Packet>, err: Err, now: u32)
    requires Healthy(c)
    ensures RecvCallback(e, c, chain, err, now).notices == c.notices + EventRuns(c, LwipRecv(chain, err, now))
  {
    if err != ErrOk {
      var t := WithErrored(WithCloseError(c.tracker, err), EeRecvCb);
      FailRuns(e, c.(pcb := false, tracker := t, tcp := c.tcp.(hook := Unhooked)), err);
    } else if chain == [] {
      CloseRuns(e, c);
    } else {
      ChainRunsAll(e, c.(rxLastPacket := now, tracker := WithCloseError(c.tracker, ErrOk)), chain);
    }
  }

  lemma ChecksRun(e: Env, c: Client, now: u32)
    requires Healthy(c) && PollCloses(c, now)
    ensures PollCallback(e, c, now, []).notices == c.notices + [OnDisconnect]
  {
    assert c.(tracker := WithCloseError(c.tracker, ErrOk)) == c;
    CloseRuns(e, if c.closePcb then c.(closePcb := false) else c);
  }

  lemma PolledRuns(e: Env, c: Client, now: u32, handler: Program)
    requires Healthy(c)
    ensures PollCallback(e, c, now, handler).notices == c.notices + PollRuns(c, now, handler)
  {
    PollDecides(e, c, now, Minus32(now, c.pcbSentAt));
    if PollCloses(c, now) {
      ChecksRun(e, c, now);
      assert PollCallback(e, c, now, handler) == PollCallback(e, c, now, []);
    } else if AckTimedOut(c, now) {
      CalledRuns(e, c.(pcbBusy := false), OnTimeout(Minus32(now, c.pcbSentAt)), handler);
    } else {
      CalledRuns(e, c, OnPoll, handler);
    }
  }

  lemma ErrorRuns(e: Env, c: Client, err: Err)
    ensures ErrorCallback(e, c.(pcb := false), err).notices == c.notices + [OnError(err), OnDisconnect]
  {
    ErrorIsFail(e, c, err);
    var t := WithErrored(WithCloseError(c.tracker, err), EeErrorCb);
    FailRuns(e, c.(pcb := false, tracker := t, tcp := c.tcp.(hook := Unhooked)), err);
  }

  lemma HandledRuns(e: Env, c: Client, ev: Event)
    requires LifeCycle(c) && Allowed(c, ev)
    ensures Handled(e, c, ev).notices == c.notices + EventRuns(c, ev)
  {
    match ev
    case Call(api) => CallRuns(e, c, api);
    case LwipConnected(err, now, handler) => ConnectRuns(e, c, err, now, handler);
    case LwipSent(len, now, at, handler) => AckedRuns(e, c, len, now, at, handler);
    case LwipRecv(chain, err, now) => RecvRuns(e, c, chain, err, now);
    case LwipPoll(now, handler) => PolledRuns(e, c, now, handler);
    case LwipError(err) => ErrorRuns(e, c, err);
    case LwipState(_) => assert c.notices + [] == c.notices;
  }

  /** On any client a run can reach, an event runs exactly these handlers in this order,
      with these arguments. */
  lemma HandlersForeseen(e: Env, c: Client, ev: Event)
    requires LifeCycle(c) && Allowed(c, ev)
    ensures Step(e, c, ev).notices == c.notices + EventRuns(c, ev)
  {
    HandledRuns(e, c, ev);
  }
}
