/** Byte accounting and time: what a client's counters mean over every run. */
module ClientLedger {
  import opened Words
  import opened ErrorTracker
  import opened ClientSpec
  import opened ClientProofs
  import opened ClientRuns

  // ---- transmit accounting

  /** What was reported to onAck plus what is saved up for the next report is
      what the peer acknowledged, in 32-bit arithmetic. */
  ghost predicate AcksBalanced(c: Client) {
    (SumAcks(c.notices) + c.txAckedLen) % WORD == c.tcp.acked % WORD
  }

  lemma CountMoreAcked(sum: nat, saved: u32, acked: nat, len: nat)
    requires (sum + saved) % WORD == acked % WORD
    ensures (sum + Plus32(saved, len)) % WORD == (acked + len) % WORD
  {
    Plus32Congruent(saved + len, sum);
    Plus32Congruent(sum + saved, len);
    Plus32Congruent(acked, len);
  }

  lemma StepKeepsAcks(e: Env, c: Client, ev: Event)
    requires Allowed(c, ev) && AcksBalanced(c)
    ensures AcksBalanced(Step(e, c, ev))
  {
    if ev.LwipSent? {
      BookedSent(e, c, ev.len, ev.now, ev.at, ev.handler);
      CountMoreAcked(SumAcks(c.notices), c.txAckedLen, c.tcp.acked, ev.len);
    } else {
      BookedStep(e, c, ev);
    }
  }

  lemma {:induction false} RunKeepsAcks(e: Env, c: Client, run: seq<Event>, c': Client)
    requires AcksBalanced(c) && Reaches(e, c, run, c')
    ensures AcksBalanced(c')
    decreases |run|
  {
    if run != [] {
      StepKeepsAcks(e, c, run[0]);
      RunKeepsAcks(e, Step(e, c, run[0]), run[1..], c');
    }
  }

  /** At every reachable state, connected or not, the unacked counter is exactly the number of bytes
      queued and not yet acknowledged, so it never wraps; and no acknowledged
      byte is ever missed by, or reported twice to, the ack handler. */
  lemma TransmitAccounting(e: Env, c: Client, run: seq<Event>, c': Client)
    requires FreshClient(c) && Reaches(e, c, run, c')
    ensures c'.txUnackedLen == |c'.tcp.queued| - c'.tcp.acked <= c'.tcp.cap < 0x1_0000
    ensures AcksBalanced(c')
  {
    RunKeepsLifeCycle(e, c, run, c');
    RunKeepsAcks(e, c, run, c');
  }

  /** The ack handler is called precisely by the acknowledgement that leaves
      nothing outstanding, even when that handler queues more data. */
  lemma AckHandlerExactly(e: Env, c: Client, len: nat, now: u32, at: u32, handler: Program)
    requires LifeCycle(c) && Allowed(c, LwipSent(len, now, at, handler))
    ensures var c' := Step(e, c, LwipSent(len, now, at, handler));
      if c.tcp.acked + len == |c.tcp.queued|
      then AckCalls(c'.notices) == AckCalls(c.notices) + 1
           && SumAcks(c'.notices) == SumAcks(c.notices) + Plus32(c.txAckedLen, len)
           && c'.txAckedLen == 0
      else c'.notices == c.notices && c'.txAckedLen == Plus32(c.txAckedLen, len)
  {
    assert Healthy(c);
    BookedSent(e, c, len, now, at, handler);
  }

  // ---- stop and wait

  /** What lets the next write go ahead. */
  ghost predicate Releases(c: Client, ev: Event)
    requires Allowed(c, ev)
  {
    || (ev.LwipSent? && ev.len == c.tcp.Outstanding())
    || (ev.LwipPoll? && c.ackTimeout != 0 && Minus32(ev.now, c.pcbSentAt) >= c.ackTimeout)
    || ev.LwipConnected?
  }

  /** `_pcb_busy` is cleared only by an acknowledgement of everything outstanding
      or by the ack timeout, whatever the handlers do. */
  lemma BusyUntilReleased(e: Env, c: Client, ev: Event)
    requires LifeCycle(c) && Allowed(c, ev) && c.pcbBusy && !Releases(c, ev)
    ensures Step(e, c, ev).pcbBusy
  {
    match ev
    case Call(api) => KeptDo(e, c, api);
    case LwipSent(len, now, at, handler) =>
      assert Healthy(c);
      assert SentCounted(c, len, now).txUnackedLen != 0;
    case LwipRecv(chain, err, now) => BookedRecv(e, c, chain, err, now);
    case LwipPoll(now, handler) => BusyPolled(e, c, now, handler);
    case LwipError(err) =>
      var t := WithErrored(WithCloseError(c.tracker, err), EeErrorCb);
      KeptFail(e, c.(pcb := false, tracker := t, tcp := c.tcp.(hook := Unhooked)), err);
    case LwipState(_) =>
  }

  lemma BusyPolled(e: Env, c: Client, now: u32, handler: Program)
    requires c.pcbBusy && (c.ackTimeout == 0 || Minus32(now, c.pcbSentAt) < c.ackTimeout)
    ensures PollCallback(e, c, now, handler).pcbBusy
  {
    var c1 := c.(tracker := WithCloseError(c.tracker, ErrOk));
    if c1.closePcb {
      KeptClose(e, c1.(closePcb := false));
    } else if RxTimedOut(c1, now) {
      KeptClose(e, c1);
    } else {
      KeptRun(e, Note(c1, OnPoll), handler);
    }
  }

  // ---- receive window

  lemma StepKeepsBalance(e: Env, c: Client, ev: Event)
    requires Allowed(c, ev)
    ensures Balance(Step(e, c, ev)) == Balance(c)
  {
    if ev.LwipSent? {
      BookedSent(e, c, ev.len, ev.now, ev.at, ev.handler);
    } else {
      BookedStep(e, c, ev);
    }
  }

  lemma {:induction false} RunKeepsBalance(e: Env, c: Client, run: seq<Event>, c': Client)
    requires Reaches(e, c, run, c')
    ensures Balance(c') == Balance(c)
    decreases |run|
  {
    if run != [] {
      StepKeepsBalance(e, c, run[0]);
      RunKeepsBalance(e, Step(e, c, run[0]), run[1..], c');
    }
  }

  /** No `close` has credited bytes that were being withheld. */
  ghost predicate NothingGivenByClose(calls: seq<LwipCall>) {
    forall k :: 0 <= k < |calls| ==>
      calls[k].TcpRecved? && calls[k].origin == ByClose ==> calls[k].len == 0
  }

  lemma {:induction false} GivenByCloseZero(calls: seq<LwipCall>)
    ensures CreditedByClose(calls) == 0 <==> NothingGivenByClose(calls)
    decreases |calls|
  {
    if calls != [] {
      var n := |calls| - 1;
      GivenByCloseZero(calls[..n]);
      assert forall k :: 0 <= k < n ==> calls[..n][k] == calls[k];
      if NothingGivenByClose(calls[..n]) && CreditedByClose(calls) == 0 {
        assert NothingGivenByClose(calls);
      }
    }
  }

  /** Over every run: bytes credited to the receive window plus bytes still
      withheld equal the bytes processed plus what `close` gave away.  So the
      window is exact if and only if every `close()` on an owned pcb found
      `_rx_ack_len` zero. */
  lemma WindowBalance(e: Env, c: Client, run: seq<Event>, c': Client)
    requires FreshClient(c) && Reaches(e, c, run, c')
    ensures Credited(c'.tcp.calls) + c'.rxAckLen == c'.processed + CreditedByClose(c'.tcp.calls)
    ensures Credited(c'.tcp.calls) + c'.rxAckLen == c'.processed <==> NothingGivenByClose(c'.tcp.calls)
  {
    RunKeepsBalance(e, c, run, c');
    GivenByCloseZero(c'.tcp.calls);
  }

  /** After any run, the first `close` on an owned pcb settles the window: everything
      processed is credited.  A second one credits the withheld bytes again, because
      `_rx_ack_len` is not reset. */
  lemma CloseSettlesOnce(e: Env, c0: Client, run: seq<Event>, c: Client)
    requires FreshClient(c0) && Reaches(e, c0, run, c)
    requires c.pcb && NothingGivenByClose(c.tcp.calls)
    ensures var c1 := Do(e, c, Close(false));
      && Credited(c1.tcp.calls) == c1.processed
      && Credited(Do(e, c1, Close(false)).tcp.calls) == c1.processed + c.rxAckLen
  {
    WindowBalance(e, c0, run, c);
    DeferredCloseGives(e, c);
    DeferredCloseGives(e, Do(e, c, Close(false)));
  }

  lemma DeferredCloseGives(e: Env, c: Client)
    requires c.pcb
    ensures var r := Do(e, c, Close(false));
      && Credited(r.tcp.calls) == Credited(c.tcp.calls) + c.rxAckLen
      && r.rxAckLen == c.rxAckLen && r.processed == c.processed && r.pcb
  {
    DeferredCloseCredits(e, c);
    CallAdded(c.tcp.calls, TcpRecved(true, ByClose, c.rxAckLen));
  }

  /** An immediate one does too; credited and processed agree afterwards if and only
      if the disconnect handler acks nothing. */
  lemma CloseNowSettles(e: Env, c0: Client, run: seq<Event>, c: Client)
    requires FreshClient(c0) && Reaches(e, c0, run, c)
    requires c.pcb && NothingGivenByClose(c.tcp.calls)
    ensures var c1 := Do(e, c, Close(true));
      && Credited(c1.tcp.calls) + c1.rxAckLen == c1.processed + c.rxAckLen
      && (Credited(c1.tcp.calls) == c1.processed <==> c1.rxAckLen == c.rxAckLen)
  {
    WindowBalance(e, c0, run, c);
    GivenByCloseZero(c.tcp.calls);
    CloseNowGives(e, c);
    KeptDo(e, c, Close(true));
  }

  lemma CloseNowGives(e: Env, c: Client)
    requires c.pcb
    ensures CreditedByClose(Do(e, c, Close(true)).tcp.calls) == CreditedByClose(c.tcp.calls) + c.rxAckLen
  {
    var recved := TcpRecved(true, ByClose, c.rxAckLen);
    CallAdded(c.tcp.calls, recved);
    HangingUpCredits(e, Log(c, recved));
    CloseCallHangsUp(e, c);
  }

  lemma CloseCallHangsUp(e: Env, c: Client)
    requires c.pcb
    ensures Do(e, c, Close(true)) == CloseNow(e, Log(c, TcpRecved(true, ByClose, c.rxAckLen)))
  {
    assert Do(e, c, Close(true)) == CloseCall(e, c, true);
  }

  lemma HangingUpCredits(e: Env, c: Client)
    requires c.pcb
    ensures CreditedByClose(CloseNow(e, c).tcp.calls) == CreditedByClose(c.tcp.calls)
  {
    CloseIsHung(e, c);
    CallAdded(c.tcp.calls, TcpClose(e.closeOk));
    CallAdded(c.tcp.calls + [TcpClose(e.closeOk)], TcpAbort);
    DeadRun(e, Note(Hung(e, c), OnDisconnect), e.onDisconnect);
  }

  lemma DeferredCloseCredits(e: Env, c: Client)
    requires c.pcb
    ensures Do(e, c, Close(false)) == Log(c, TcpRecved(true, ByClose, c.rxAckLen)).(closePcb := true)
  {
    assert CloseCall(e, c, false) == Log(c, TcpRecved(true, ByClose, c.rxAckLen)).(closePcb := true);
  }

  // ---- timeouts across the wrap of the clock

  /** The receive timeout is decided by true elapsed time: `t0` is when the last
      packet arrived and `t` is now, both on a clock that never wraps. */
  lemma RxTimeoutIsTrueTime(c: Client, t0: nat, t: nat)
    requires c.rxLastPacket == t0 % WORD && t0 <= t < t0 + WORD
    requires c.rxSinceTimeout * 1000 < WORD
    ensures RxTimedOut(c, t % WORD) <==> c.rxSinceTimeout != 0 && t - t0 >= c.rxSinceTimeout * 1000
  {
    ElapsedSurvivesWrap(t0, t);
  }

  /** A call that neither sends nor moves the deadline. */
  predicate Silent(a: Api) { !a.Write? && !a.Send? && !a.SetRxTimeout? }

  predicate SilentProgram(prog: Program) { forall k :: 0 <= k < |prog| ==> Silent(prog[k]) }

  /** Events that bring nothing from the peer: silent calls, and changes of state. */
  predicate SilentEvents(run: seq<Event>) {
    forall k :: 0 <= k < |run| ==> run[k].LwipState? || (run[k].Call? && Silent(run[k].api))
  }

  /** A connection, if there still is one, that nothing but the receive deadline keeps. */
  ghost predicate OnlyDeadline(c: Client, since: u32, last: u32) {
    c.pcb ==> !c.pcbBusy && c.rxSinceTimeout == since && c.rxLastPacket == last
  }

  lemma SilentDo(e: Env, c: Client, a: Api)
    requires Silent(a)
    ensures var r := Do(e, c, a);
      r.pcb ==> c.pcb && r.pcbBusy == c.pcbBusy && r.rxSinceTimeout == c.rxSinceTimeout && r.rxLastPacket == c.rxLastPacket
  {
    match a
    case Add(_, _) =>
    case Ack(_) =>
    case AckLater =>
    case Close(immediately) => assert CloseCall(e, c, immediately) == Do(e, c, a);
    case Abort =>
    case SetAckTimeout(_) =>
  }

  lemma {:induction false} SilentRun(e: Env, c: Client, prog: Program, since: u32, last: u32)
    requires SilentProgram(prog) && OnlyDeadline(c, since, last)
    ensures OnlyDeadline(Run(e, c, prog), since, last)
    decreases |prog|
  {
    if prog != [] {
      SilentDo(e, c, prog[0]);
      SilentRun(e, Do(e, c, prog[0]), prog[1..], since, last);
    }
  }

  lemma {:induction false} SilentBetween(e: Env, c: Client, run: seq<Event>, c': Client, since: u32, last: u32)
    requires SilentEvents(run) && OnlyDeadline(c, since, last) && Reaches(e, c, run, c')
    ensures OnlyDeadline(c', since, last)
    decreases |run|
  {
    if run != [] {
      if run[0].Call? {
        SilentDo(e, c, run[0].api);
      }
      SilentBetween(e, Step(e, c, run[0]), run[1..], c', since, last);
    }
  }

  /** A poll after the deadline closes, or lets an ack timeout go first. */
  lemma FirstPoll(e: Env, c: Client, t0: nat, t1: nat, h1: Program)
    requires Healthy(c) && c.rxLastPacket == t0 % WORD
    requires c.rxSinceTimeout != 0 && c.rxSinceTimeout * 1000 < WORD
    requires t0 + c.rxSinceTimeout * 1000 <= t1 < t0 + WORD && SilentProgram(h1)
    ensures OnlyDeadline(Step(e, c, LwipPoll(t1 % WORD, h1)), c.rxSinceTimeout, c.rxLastPacket)
  {
    var now := t1 % WORD;
    RxTimeoutIsTrueTime(c, t0, t1);
    if !c.closePcb && AckTimedOut(c, now) {
      var c0 := Note(c.(pcbBusy := false), OnTimeout(Minus32(now, c.pcbSentAt)));
      SilentRun(e, c0, h1, c.rxSinceTimeout, c.rxLastPacket);
      assert PollCallback(e, c, now, h1) == Run(e, c0, h1);
    }
  }

  /** A silent connection with a nonzero timeout is closed no later than the second poll
      after its deadline, whatever the application calls between the polls: an ack
      timeout can pre-empt the first poll only, provided that neither its handler nor
      those calls send or move the deadline. */
  lemma SilentConnectionCloses(e: Env, c: Client, t0: nat, t1: nat, h1: Program,
                               run: seq<Event>, c2: Client, t2: nat, h2: Program)
    requires Healthy(c) && c.rxLastPacket == t0 % WORD
    requires c.rxSinceTimeout != 0 && c.rxSinceTimeout * 1000 < WORD
    requires t0 + c.rxSinceTimeout * 1000 <= t1 <= t2 < t0 + WORD
    requires SilentProgram(h1) && SilentEvents(run)
    requires Reaches(e, Step(e, c, LwipPoll(t1 % WORD, h1)), run, c2)
    requires Allowed(c2, LwipPoll(t2 % WORD, h2))
    ensures !Step(e, c2, LwipPoll(t2 % WORD, h2)).pcb
  {
    var c1 := Step(e, c, LwipPoll(t1 % WORD, h1));
    FirstPoll(e, c, t0, t1, h1);
    SilentBetween(e, c1, run, c2, c.rxSinceTimeout, c.rxLastPacket);
    StepKeepsLifeCycle(e, c, LwipPoll(t1 % WORD, h1));
    RunKeepsLifeCycle(e, c1, run, c2);
    assert Healthy(c2);
    RxTimeoutIsTrueTime(c2, t0, t2);
  }

  /** A deferred close is carried out by the next poll, whatever comes between. */
  lemma {:induction false} DeferredCloseCarriedOut(e: Env, c: Client, run: seq<Event>, c': Client, now: u32, h: Program)
    requires LifeCycle(c) && c.closePcb && Reaches(e, c, run, c')
    requires forall k :: 0 <= k < |run| ==> !run[k].LwipPoll?
    requires Allowed(c', LwipPoll(now, h))
    ensures var c'' := Step(e, c', LwipPoll(now, h));
      if e.closeOk then Torn(c'', InClose) else Torn(c'', InFailedClose)
    decreases |run|
  {
    if run == [] {
      assert Healthy(c);
      CloseEnds(e, c.(closePcb := false));
      RepliedTorn(CloseNow(e, c.(closePcb := false)), if e.closeOk then InClose else InFailedClose);
      assert c.(tracker := WithCloseError(c.tracker, ErrOk)) == c;
    } else {
      StepKeepsLifeCycle(e, c, run[0]);
      ClosePending(e, c, run[0]);
      DeferredCloseCarriedOut(e, Step(e, c, run[0]), run[1..], c', now, h);
    }
  }

  /** So a `close()` called at any time, even before the connection is made, is carried out
      by the next poll that reaches the connection. */
  lemma CloseAskedIsCarriedOut(e: Env, c: Client, run: seq<Event>, c': Client, now: u32, h: Program)
    requires LifeCycle(c) && Reaches(e, Do(e, c, Close(false)), run, c')
    requires forall k :: 0 <= k < |run| ==> !run[k].LwipPoll?
    requires Allowed(c', LwipPoll(now, h))
    ensures !Step(e, c', LwipPoll(now, h)).pcb && Disconnects(Step(e, c', LwipPoll(now, h)).notices) == 1
  {
    CallKeepsLifeCycle(e, c, Close(false));
    assert CloseCall(e, c, false).closePcb;
    DeferredCloseCarriedOut(e, Do(e, c, Close(false)), run, c', now, h);
  }

  /** The poll that carries it out withdraws the request. */
  lemma RequestWithdrawn(e: Env, c: Client, now: u32, h: Program)
    requires Healthy(c) && c.closePcb && e.onDisconnect == []
    ensures !PollCallback(e, c, now, h).closePcb
  {
    CloseIsHung(e, c.(closePcb := false));
    assert c.(tracker := WithCloseError(c.tracker, ErrOk)) == c;
  }

  lemma ClosePending(e: Env, c: Client, ev: Event)
    requires Allowed(c, ev) && c.closePcb && !ev.LwipPoll?
    ensures Step(e, c, ev).closePcb
  {
    match ev
    case Call(api) => KeptDo(e, c, api);
    case LwipConnected(err, now, handler) =>
      if err != ErrOk {
        var t := WithErrored(WithCloseError(c.tracker, err), EeConnectedCb);
        KeptFail(e, c.(pcb := false, tracker := t, tcp := c.tcp.(hook := Unhooked)), err);
      } else {
        var c1 := c.(pcb := true, pcbBusy := false, rxLastPacket := now,
                     tcp := c.tcp.(hook := HookedAll, established := true));
        KeptRun(e, Note(c1, OnConnect), handler);
      }
    case LwipSent(len, now, at, handler) =>
      KeptRun(e, SentNotified(SentCounted(c, len, now), at), handler);
    case LwipRecv(chain, err, now) => BookedRecv(e, c, chain, err, now);
    case LwipError(err) =>
      var t := WithErrored(WithCloseError(c.tracker, err), EeErrorCb);
      KeptFail(e, c.(pcb := false, tracker := t, tcp := c.tcp.(hook := Unhooked)), err);
    case LwipState(_) =>
  }
}
