/** What a callback answers to lwIP, foreseen from the handlers it is about to run:
    ERR_ABRT if and only if it closes and `tcp_close` fails. */
module ClientAnswers {
  import opened Words
  import opened ErrorTracker
  import opened ClientSpec
  import opened ClientProofs
  import opened ClientRuns
  import opened ClientHandlers

  // ---- handlers that give up the pcb

  /** The first call that gives up the pcb is an `abort`. */
  predicate AbortsFirst(prog: Program)
    decreases |prog|
  {
    prog != [] && (prog[0].Abort? || (!GivesUp(prog[0]) && AbortsFirst(prog[1..])))
  }

  /** It is a `close(true)`. */
  predicate ClosesFirst(prog: Program)
    decreases |prog|
  {
    prog != [] && (prog[0] == Close(true) || (!GivesUp(prog[0]) && ClosesFirst(prog[1..])))
  }

  /** The first handler of the chain that gives up the pcb closes. */
  predicate ChainCloses(chain: seq<Packet>)
    decreases |chain|
  {
    chain != [] &&
      if KeepsPcb(chain[0].handler) then ChainCloses(chain[1..]) else ClosesFirst(chain[0].handler)
  }

  /** The callback of `ev` is going to close the connection: by a close deferred to a
      poll, a receive timeout, the NULL pbuf, or a handler it runs. */
  predicate Closes(c: Client, ev: Event) {
    match ev
    case LwipConnected(err, _, handler) => err == ErrOk && ClosesFirst(handler)
    case LwipSent(len, _, _, handler) => c.txUnackedLen <= len && ClosesFirst(handler)
    case LwipRecv(chain, err, _) => err == ErrOk && (chain == [] || ChainCloses(chain))
    case LwipPoll(now, handler) => PollCloses(c, now) || ClosesFirst(handler)
    case _ => false
  }

  function AnswerIf(e: Env, closes: bool): Err { if closes && !e.closeOk then ErrAbrt else ErrOk }

  // ---- the answer after a handler

  lemma CloseAnswers(e: Env, c: Client)
    requires Healthy(c)
    ensures Answer(CloseNow(e, c).tracker) == AnswerIf(e, true)
  {
    CloseEnds(e, c);
  }

  lemma AbortAnswers(e: Env, c: Client)
    requires Healthy(c)
    ensures Answer(AbortNow(e, c).tracker) == ErrOk
  {
    AbortEnds(e, c);
  }

  lemma GivingUpAnswers(e: Env, c: Client, a: Api)
    requires Healthy(c) && GivesUp(a)
    ensures Answer(Do(e, c, a).tracker) == AnswerIf(e, a.Close?)
  {
    if a.Close? {
      HealthyLog(c, TcpRecved(true, ByClose, c.rxAckLen));
      CloseAnswers(e, Log(c, TcpRecved(true, ByClose, c.rxAckLen)));
    } else {
      AbortAnswers(e, c);
    }
  }

  lemma {:induction false} HandlerAnswers(e: Env, c: Client, prog: Program)
    requires Healthy(c)
    ensures Answer(Run(e, c, prog).tracker) == AnswerIf(e, ClosesFirst(prog))
    decreases |prog|
  {
    if prog != [] {
      var c1 := Do(e, c, prog[0]);
      GivesUpPcb(e, c, prog[0]);
      if GivesUp(prog[0]) {
        GivingUpAnswers(e, c, prog[0]);
        DeadRun(e, c1, prog[1..]);
      } else {
        HealthyDo(e, c, prog[0]);
        HandlerAnswers(e, c1, prog[1..]);
      }
    }
  }

  // ---- the answer after a chain

  lemma DeadReceive(e: Env, c: Client, p: Packet)
    requires !c.pcb
    ensures var r := Receive(e, c, p); !r.pcb && r.tracker == c.tracker
  {
    DeadRun(e, Note(c.(ackPcb := true), OnData(p.data)), p.handler);
  }

  lemma {:induction false} DeadChain(e: Env, c: Client, chain: seq<Packet>)
    requires !c.pcb
    ensures ReceiveAll(e, c, chain).tracker == c.tracker
    decreases |chain|
  {
    if chain != [] {
      DeadReceive(e, c, chain[0]);
      DeadChain(e, Receive(e, c, chain[0]), chain[1..]);
    }
  }

  lemma ReceiveAnswers(e: Env, c: Client, p: Packet)
    requires Healthy(c)
    ensures var r := Receive(e, c, p);
      && (r.pcb <==> KeepsPcb(p.handler)) && (r.pcb ==> Healthy(r))
      && Answer(r.tracker) == AnswerIf(e, ClosesFirst(p.handler))
  {
    var c0 := Note(c.(ackPcb := true), OnData(p.data));
    NoticeAdded(c.notices, OnData(p.data));
    HandlerKeepsPcb(e, c0, p.handler);
    HandlerAnswers(e, c0, p.handler);
    ReceiveSurvives(e, c, p);
  }

  lemma {:induction false} ChainAnswers(e: Env, c: Client, chain: seq<Packet>)
    requires Healthy(c)
    ensures Answer(ReceiveAll(e, c, chain).tracker) == AnswerIf(e, ChainCloses(chain))
    decreases |chain|
  {
    if chain != [] {
      var r := Receive(e, c, chain[0]);
      ReceiveAnswers(e, c, chain[0]);
      if KeepsPcb(chain[0].handler) {
        ChainAnswers(e, r, chain[1..]);
      } else {
        DeadChain(e, r, chain[1..]);
      }
    }
  }

  // ---- the answer of each callback

  lemma FailAnswers(e: Env, c: Client, err: Err)
    requires !c.pcb && c.tracker.errored != EeOk
    ensures Answer(Fail(e, c, err).tracker) == ErrOk
  {
    DeadRun(e, Note(c, OnError(err)), e.onError);
    DeadRun(e, Note(Run(e, Note(c, OnError(err)), e.onError), OnDisconnect), e.onDisconnect);
  }

  lemma ConnectAnswers(e: Env, c: Client, err: Err, now: u32, handler: Program)
    requires Dialing(c)
    ensures Answer(ConnectedCallback(e, c, err, now, handler).tracker) ==
      AnswerIf(e, err == ErrOk && ClosesFirst(handler))
  {
    if err != ErrOk {
      var t := WithErrored(WithCloseError(c.tracker, err), EeConnectedCb);
      FailAnswers(e, c.(pcb := false, tracker := t, tcp := c.tcp.(hook := Unhooked)), err);
    } else {
      ConnectedIsHealthy(c, now);
      HandlerAnswers(e, Connecting(c, now), handler);
    }
  }

  lemma SentAnswers(e: Env, c: Client, len: nat, now: u32, at: u32, handler: Program)
    requires Healthy(c) && len < 0x1_0000 && len <= c.tcp.Outstanding()
    ensures Answer(SentCallback(e, c, len, now, at, handler).tracker) ==
      AnswerIf(e, c.txUnackedLen <= len && ClosesFirst(handler))
  {
    var c1 := SentCounted(c, len, now);
    assert Healthy(c1);
    if c1.txUnackedLen == 0 {
      NoticeAdded(c1.notices, OnAck(c1.txAckedLen, Minus32(at, c1.pcbSentAt)));
      HandlerAnswers(e, SentNotified(c1, at), handler);
    }
  }

  lemma RecvAnswers(e: Env, c: Client, chain: seq<Packet>, err: Err, now: u32)
    requires Healthy(c)
    ensures Answer(RecvCallback(e, c, chain, err, now).tracker) ==
      AnswerIf(e, err == ErrOk && (chain == [] || ChainCloses(chain)))
  {
    if err != ErrOk {
      var t := WithErrored(WithCloseError(c.tracker, err), EeRecvCb);
      FailAnswers(e, c.(pcb := false, tracker := t, tcp := c.tcp.(hook := Unhooked)), err);
    } else if chain == [] {
      CloseAnswers(e, c);
    } else {
      ChainAnswers(e, c.(rxLastPacket := now, tracker := WithCloseError(c.tracker, ErrOk)), chain);
    }
  }

  lemma PollAnswers(e: Env, c: Client, now: u32, handler: Program)
    requires Healthy(c)
    ensures Answer(PollCallback(e, c, now, handler).tracker) == AnswerIf(e, Closes(c, LwipPoll(now, handler)))
  {
    var r := PollChecked(e, c, now);
    ChecksFinish(e, c, now);
    if r.1 != NoHandler {
      HandlerAnswers(e, r.0, handler);
    }
  }

  lemma HandledAnswers(e: Env, c: Client, ev: Event)
    requires LifeCycle(c) && Allowed(c, ev) && Answered(ev)
    ensures Answer(Handled(e, c, ev).tracker) == AnswerIf(e, Closes(c, ev))
  {
    match ev
    case LwipConnected(err, now, handler) => ConnectAnswers(e, c, err, now, handler);
    case LwipSent(len, now, at, handler) => SentAnswers(e, c, len, now, at, handler);
    case LwipRecv(chain, err, now) => RecvAnswers(e, c, chain, err, now);
    case LwipPoll(now, handler) => PollAnswers(e, c, now, handler);
  }

  /** On any client a run can reach, a callback answers ERR_ABRT if and only if
      `tcp_close` is going to fail and the callback closes. */
  lemma AnswerForeseen(e: Env, c: Client, ev: Event)
    requires LifeCycle(c) && Allowed(c, ev) && Answered(ev)
    ensures Step(e, c, ev).replies == c.replies + [if !e.closeOk && Closes(c, ev) then ErrAbrt else ErrOk]
  {
    HandledAnswers(e, c, ev);
    if ev.LwipSent? {
      BookedSent(e, c, ev.len, ev.now, ev.at, ev.handler);
    } else {
      BookedStep(e, c, ev);
    }
  }

  // ---- a handler that aborts

  lemma {:induction false} HandlerAborts(e: Env, c: Client, prog: Program)
    requires Healthy(c) && AbortsFirst(prog)
    ensures Torn(Run(e, c, prog), InUserAbort)
    decreases |prog|
  {
    var c1 := Do(e, c, prog[0]);
    if prog[0].Abort? {
      AbortEnds(e, c);
      DeadRun(e, c1, prog[1..]);
      StillTearing(c1, Run(e, c1, prog[1..]), InUserAbort);
    } else {
      HealthyDo(e, c, prog[0]);
      GivesUpPcb(e, c, prog[0]);
      HandlerAborts(e, c1, prog[1..]);
    }
  }

  lemma {:induction false} ReceiveAllTorn(e: Env, c: Client, chain: seq<Packet>, how: Outcome)
    requires Torn(c, how)
    ensures Torn(ReceiveAll(e, c, chain), how)
    decreases |chain|
  {
    if chain != [] {
      DeliverTorn(e, c, chain[0], how);
      CreditTorn(Deliver(e, c, chain[0]), |chain[0].data|, how);
      ReceiveAllTorn(e, Receive(e, c, chain[0]), chain[1..], how);
    }
  }

  lemma DeliverTorn(e: Env, c: Client, p: Packet, how: Outcome)
    requires Torn(c, how)
    ensures Torn(Deliver(e, c, p), how)
  {
    var c0 := Note(c.(ackPcb := true), OnData(p.data));
    NoticeAdded(c.notices, OnData(p.data));
    DeadRun(e, c0, p.handler);
    StillTearing(c0, Run(e, c0, p.handler), how);
  }

  /** The first handler of the chain that gives up the pcb aborts. */
  predicate ChainAborts(chain: seq<Packet>)
    decreases |chain|
  {
    chain != [] &&
      if KeepsPcb(chain[0].handler) then ChainAborts(chain[1..]) else AbortsFirst(chain[0].handler)
  }

  lemma {:induction false} ChainAbortsTorn(e: Env, c: Client, chain: seq<Packet>)
    requires Healthy(c) && ChainAborts(chain)
    ensures Torn(ReceiveAll(e, c, chain), InUserAbort)
    decreases |chain|
  {
    var r := Receive(e, c, chain[0]);
    if KeepsPcb(chain[0].handler) {
      ReceiveAnswers(e, c, chain[0]);
      ChainAbortsTorn(e, r, chain[1..]);
    } else {
      NoticeAdded(c.notices, OnData(chain[0].data));
      HandlerAborts(e, Note(c.(ackPcb := true), OnData(chain[0].data)), chain[0].handler);
      CreditTorn(Deliver(e, c, chain[0]), |chain[0].data|, InUserAbort);
      ReceiveAllTorn(e, r, chain[1..], InUserAbort);
    }
  }

  /** The callback of `ev` runs a handler whose first call that gives up the pcb is an
      `abort`, on a pcb that is still owned. */
  predicate Aborts(c: Client, ev: Event) {
    match ev
    case LwipConnected(err, _, handler) => err == ErrOk && AbortsFirst(handler)
    case LwipSent(len, _, _, handler) => c.txUnackedLen <= len && AbortsFirst(handler)
    case LwipRecv(chain, err, _) => err == ErrOk && ChainAborts(chain)
    case LwipPoll(now, handler) => !PollCloses(c, now) && AbortsFirst(handler)
    case _ => false
  }

  lemma SentAborts(e: Env, c: Client, len: nat, now: u32, at: u32, h: Program)
    requires Healthy(c) && len < 0x1_0000 && len == c.tcp.Outstanding() && AbortsFirst(h)
    ensures Torn(SentCallback(e, c, len, now, at, h), InUserAbort)
  {
    var c1 := SentCounted(c, len, now);
    NoticeAdded(c1.notices, OnAck(c1.txAckedLen, Minus32(at, c1.pcbSentAt)));
    assert Healthy(SentNotified(c1, at));
    HandlerAborts(e, SentNotified(c1, at), h);
  }

  lemma RecvAborts(e: Env, c: Client, chain: seq<Packet>, now: u32)
    requires Healthy(c) && ChainAborts(chain)
    ensures Torn(RecvCallback(e, c, chain, ErrOk, now), InUserAbort)
  {
    ChainAbortsTorn(e, c.(rxLastPacket := now, tracker := WithCloseError(c.tracker, ErrOk)), chain);
  }

  lemma HandledAborts(e: Env, c: Client, ev: Event)
    requires LifeCycle(c) && Allowed(c, ev) && Aborts(c, ev)
    ensures Torn(Handled(e, c, ev), InUserAbort)
  {
    match ev
    case LwipConnected(err, now, h) =>
      ConnectedIsHealthy(c, now);
      HandlerAborts(e, Connecting(c, now), h);
    case LwipSent(len, now, at, h) => SentAborts(e, c, len, now, at, h);
    case LwipRecv(chain, err, now) => RecvAborts(e, c, chain, now);
    case LwipPoll(now, h) =>
      ChecksFinish(e, c, now);
      HandlerAborts(e, PollChecked(e, c, now).0, h);
  }

  /** A handler's own `abort()` is different from the one in `_close`: lwIP reports it
      through the error callback first, so whichever callback ran the handler returns
      ERR_OK although `tcp_abort` was issued inside it. */
  lemma DirectAbortAnswersOk(e: Env, c: Client, ev: Event)
    requires LifeCycle(c) && Allowed(c, ev) && Aborts(c, ev)
    ensures var c' := Step(e, c, ev);
      Torn(c', InUserAbort) && c'.replies == c.replies + [ErrOk]
  {
    HandledAborts(e, c, ev);
    RepliedTorn(Handled(e, c, ev), InUserAbort);
    AbortAnsweredExactly(e, c, ev);
  }
}
