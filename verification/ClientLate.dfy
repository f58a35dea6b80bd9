/** Handlers that run behind the disconnect handler: `_recv` goes on through its chain
    after a data handler has given up the connection. */
module ClientLate {
  import opened Words
  import opened ErrorTracker
  import opened ClientSpec
  import opened ClientProofs
  import opened ClientRuns
  import opened ClientHandlers

  /** The handler invocations behind the first one of the disconnect handler. */
  function AfterEnd(n: seq<Notice>): seq<Notice> {
    if n == [] || Disconnects(n[..|n| - 1]) == 0 then []
    else AfterEnd(n[..|n| - 1]) + [n[|n| - 1]]
  }

  lemma EndAdded(n: seq<Notice>, x: Notice)
    ensures AfterEnd(n + [x]) == if Disconnects(n) == 0 then [] else AfterEnd(n) + [x]
  {
    assert (n + [x])[..|n|] == n;
  }

  lemma NoneBeforeEnd(n: seq<Notice>)
    requires Disconnects(n) == 0
    ensures AfterEnd(n) == []
  {
  }

  // ---- what a handler adds

  lemma FailAddsNone(e: Env, c: Client, err: Err)
    requires !c.pcb && Disconnects(c.notices) == 0
    ensures AfterEnd(Fail(e, c, err).notices) == []
  {
    var c0 := Note(c, OnError(err));
    NoticeAdded(c.notices, OnError(err));
    DeadRun(e, c0, e.onError);
    DisconnectAddsNone(e, Run(e, c0, e.onError));
  }

  lemma DisconnectAddsNone(e: Env, c: Client)
    requires !c.pcb && Disconnects(c.notices) == 0
    ensures AfterEnd(Run(e, Note(c, OnDisconnect), e.onDisconnect).notices) == []
  {
    EndAdded(c.notices, OnDisconnect);
    DeadRun(e, Note(c, OnDisconnect), e.onDisconnect);
  }

  lemma CloseAddsNone(e: Env, c: Client)
    requires c.pcb && Disconnects(c.notices) == 0
    ensures AfterEnd(CloseNow(e, c).notices) == []
  {
    CloseIsHung(e, c);
    DisconnectAddsNone(e, Hung(e, c));
  }

  lemma AbortAddsNone(e: Env, c: Client)
    requires Healthy(c)
    ensures AfterEnd(AbortNow(e, c).notices) == []
  {
    FailAddsNone(e, Aborted(c), ErrAbrt);
    AbortIsFail(e, c);
  }

  lemma DoAddsNone(e: Env, c: Client, a: Api)
    requires Healthy(c)
    ensures AfterEnd(Do(e, c, a).notices) == []
  {
    if a.Close? && a.immediately {
      CloseAddsNone(e, Log(c, TcpRecved(true, ByClose, c.rxAckLen)));
    } else if a.Abort? {
      AbortAddsNone(e, c);
    } else {
      HealthyDo(e, c, a);
      GivesUpPcb(e, c, a);
      NoneBeforeEnd(Do(e, c, a).notices);
    }
  }

  /** A handler on a live connection adds nothing behind the disconnect handler,
      although it may be what runs it. */
  lemma {:induction false} HandlerAddsNone(e: Env, c: Client, prog: Program)
    requires Healthy(c)
    ensures AfterEnd(Run(e, c, prog).notices) == []
    decreases |prog|
  {
    if prog != [] {
      var c1 := Do(e, c, prog[0]);
      HealthyDo(e, c, prog[0]);
      DoAddsNone(e, c, prog[0]);
      if c1.pcb {
        HandlerAddsNone(e, c1, prog[1..]);
      } else {
        DeadRun(e, c1, prog[1..]);
      }
    }
  }

  // ---- what a chain adds

  /** The data invocations that come too late: one for each pbuf behind one whose
      handler gave up the pcb. */
  function Late(chain: seq<Packet>, live: bool): seq<Notice>
    decreases |chain|
  {
    if chain == [] then []
    else (if live then [] else [OnData(chain[0].data)]) + Late(chain[1..], live && KeepsPcb(chain[0].handler))
  }

  lemma ReceiveAdds(e: Env, c: Client, p: Packet)
    requires Survives(c)
    ensures var r := Receive(e, c, p);
      && AfterEnd(r.notices) == AfterEnd(c.notices) + (if c.pcb then [] else [OnData(p.data)])
      && Survives(r) && (r.pcb <==> c.pcb && KeepsPcb(p.handler))
  {
    ReceiveSurvives(e, c, p);
    var c0 := Note(c.(ackPcb := true), OnData(p.data));
    NoticeAdded(c.notices, OnData(p.data));
    if c.pcb {
      HandlerKeepsPcb(e, c0, p.handler);
      HandlerAddsNone(e, c0, p.handler);
    } else {
      EndAdded(c.notices, OnData(p.data));
      DeadRun(e, c0, p.handler);
    }
  }

  lemma {:induction false} ReceiveAllAdds(e: Env, c: Client, chain: seq<Packet>)
    requires Survives(c)
    ensures AfterEnd(ReceiveAll(e, c, chain).notices) == AfterEnd(c.notices) + Late(chain, c.pcb)
    decreases |chain|
  {
    if chain != [] {
      var r := Receive(e, c, chain[0]);
      ReceiveAdds(e, c, chain[0]);
      ReceiveAllAdds(e, r, chain[1..]);
      Joined(AfterEnd(c.notices), if c.pcb then [] else [OnData(chain[0].data)], Late(chain[1..], r.pcb));
    }
  }

  /** None comes too late if and only if every handler of the chain but the last leaves
      the pcb alone. */
  lemma {:induction false} NoneLate(chain: seq<Packet>)
    ensures Late(chain, true) == [] <==> chain == [] || LiveBefore(chain, |chain| - 1)
    decreases |chain|
  {
    if |chain| > 1 {
      LiveShift(chain, |chain| - 2);
      if KeepsPcb(chain[0].handler) {
        NoneLate(chain[1..]);
      } else {
        assert Late(chain[1..], false) != [];
      }
    }
  }

  // ---- over whole runs

  function LateOf(ev: Event): seq<Notice> {
    if ev.LwipRecv? && ev.err == ErrOk then Late(ev.chain, true) else []
  }

  function LateNotices(run: seq<Event>): seq<Notice>
    decreases |run|
  {
    if run == [] then [] else LateOf(run[0]) + LateNotices(run[1..])
  }

  lemma ConnectAddsNone(e: Env, c: Client, err: Err, now: u32, handler: Program)
    requires Dialing(c)
    ensures AfterEnd(ConnectedCallback(e, c, err, now, handler).notices) == []
  {
    if err != ErrOk {
      var t := WithErrored(WithCloseError(c.tracker, err), EeConnectedCb);
      FailAddsNone(e, c.(pcb := false, tracker := t, tcp := c.tcp.(hook := Unhooked)), err);
    } else {
      ConnectedIsHealthy(c, now);
      HandlerAddsNone(e, Connecting(c, now), handler);
    }
  }

  lemma SentAddsNone(e: Env, c: Client, len: nat, now: u32, at: u32, handler: Program)
    requires Healthy(c) && len < 0x1_0000 && len <= c.tcp.Outstanding()
    ensures AfterEnd(SentCallback(e, c, len, now, at, handler).notices) == []
  {
    var c1 := SentCounted(c, len, now);
    assert Healthy(c1);
    if c1.txUnackedLen == 0 {
      NoticeAdded(c1.notices, OnAck(c1.txAckedLen, Minus32(at, c1.pcbSentAt)));
      HandlerAddsNone(e, SentNotified(c1, at), handler);
    }
  }

  lemma PollAddsNone(e: Env, c: Client, now: u32, handler: Program)
    requires Healthy(c)
    ensures AfterEnd(PollCallback(e, c, now, handler).notices) == []
  {
    if c.closePcb {
      CloseAddsNone(e, c.(closePcb := false));
    } else if AckTimedOut(c, now) {
      NoticeAdded(c.notices, OnTimeout(Minus32(now, c.pcbSentAt)));
      HandlerAddsNone(e, Note(c.(pcbBusy := false), OnTimeout(Minus32(now, c.pcbSentAt))), handler);
    } else if RxTimedOut(c, now) {
      CloseAddsNone(e, c);
    } else {
      NoticeAdded(c.notices, OnPoll);
      HandlerAddsNone(e, Note(c, OnPoll), handler);
    }
  }

  lemma RecvAddsLate(e: Env, c: Client, chain: seq<Packet>, err: Err, now: u32)
    requires Healthy(c)
    ensures AfterEnd(RecvCallback(e, c, chain, err, now).notices) == LateOf(LwipRecv(chain, err, now))
  {
    if err != ErrOk {
      var t := WithErrored(WithCloseError(c.tracker, err), EeRecvCb);
      FailAddsNone(e, c.(pcb := false, tracker := t, tcp := c.tcp.(hook := Unhooked)), err);
    } else if chain == [] {
      CloseAddsNone(e, c);
    } else {
      ChainAddsLate(e, c, chain, now);
    }
  }

  lemma ChainAddsLate(e: Env, c: Client, chain: seq<Packet>, now: u32)
    requires Healthy(c) && chain != []
    ensures AfterEnd(RecvCallback(e, c, chain, ErrOk, now).notices) == Late(chain, true)
  {
    ReceiveAllAdds(e, c.(rxLastPacket := now, tracker := WithCloseError(c.tracker, ErrOk)), chain);
    NoneBeforeEnd(c.notices);
    assert [] + Late(chain, true) == Late(chain, true);
  }

  lemma ErrorAddsNone(e: Env, c: Client, err: Err)
    requires Disconnects(c.notices) == 0
    ensures AfterEnd(ErrorCallback(e, c.(pcb := false), err).notices) == []
  {
    var t := WithErrored(WithCloseError(c.tracker, err), EeErrorCb);
    FailAddsNone(e, c.(pcb := false, tracker := t, tcp := c.tcp.(hook := Unhooked)), err);
  }

  lemma CallAddsNone(e: Env, c: Client, a: Api)
    requires LifeCycle(c)
    ensures AfterEnd(Do(e, c, a).notices) == AfterEnd(c.notices)
  {
    if c.pcb {
      DoAddsNone(e, c, a);
      NoneBeforeEnd(c.notices);
    } else {
      DeadDo(e, c, a);
    }
  }

  lemma CallbackAddsLate(e: Env, c: Client, ev: Event)
    requires LifeCycle(c) && Allowed(c, ev) && !ev.Call?
    ensures AfterEnd(c.notices) == [] && AfterEnd(Handled(e, c, ev).notices) == LateOf(ev)
  {
    NoneBeforeEnd(c.notices);
    match ev
    case LwipConnected(err, now, handler) => ConnectAddsNone(e, c, err, now, handler);
    case LwipSent(len, now, at, handler) => SentAddsNone(e, c, len, now, at, handler);
    case LwipRecv(chain, err, now) => RecvAddsLate(e, c, chain, err, now);
    case LwipPoll(now, handler) => PollAddsNone(e, c, now, handler);
    case LwipError(err) => ErrorAddsNone(e, c, err);
    case LwipState(_) =>
  }

  lemma StepAddsLate(e: Env, c: Client, ev: Event)
    requires LifeCycle(c) && Allowed(c, ev)
    ensures AfterEnd(Step(e, c, ev).notices) == AfterEnd(c.notices) + LateOf(ev)
  {
    if ev.Call? {
      CallAddsNone(e, c, ev.api);
    } else {
      CallbackAddsLate(e, c, ev);
    }
  }

  lemma {:induction false} RunAddsLate(e: Env, c: Client, run: seq<Event>, c': Client)
    requires LifeCycle(c) && Reaches(e, c, run, c')
    ensures AfterEnd(c'.notices) == AfterEnd(c.notices) + LateNotices(run)
    decreases |run|
  {
    if run != [] {
      var c1 := Step(e, c, run[0]);
      StepAddsLate(e, c, run[0]);
      StepKeepsLifeCycle(e, c, run[0]);
      RunAddsLate(e, c1, run[1..], c');
      Joined(AfterEnd(c.notices), LateOf(run[0]), LateNotices(run[1..]));
    }
  }

  /** Over every run of a fresh client, the handlers that run behind the disconnect
      handler are exactly the data handlers of the pbufs that follow, in their chain, one
      whose handler aborted or closed at once. */
  lemma LateExactly(e: Env, c: Client, run: seq<Event>, c': Client)
    requires FreshClient(c) && Reaches(e, c, run, c')
    ensures AfterEnd(c'.notices) == LateNotices(run)
  {
    assert LifeCycle(c);
    RunAddsLate(e, c, run, c');
  }

  /** The chain of `ev`, if it brings one, is one in which only the last handler may give
      up the pcb. */
  predicate Orderly(ev: Event) {
    ev.LwipRecv? && ev.err == ErrOk && ev.chain != [] ==> LiveBefore(ev.chain, |ev.chain| - 1)
  }

  lemma {:induction false} OrderlyRuns(run: seq<Event>)
    ensures LateNotices(run) == [] <==> forall k :: 0 <= k < |run| ==> Orderly(run[k])
    decreases |run|
  {
    if run != [] {
      if run[0].LwipRecv? {
        NoneLate(run[0].chain);
      }
      OrderlyRuns(run[1..]);
      assert LateOf(run[0]) == [] <==> Orderly(run[0]);
      assert run == [run[0]] + run[1..];
    }
  }

  /** So the disconnect handler is the last one of a run if and only if in every chain
      the run brings no handler but the last one gives up the pcb. */
  lemma DisconnectLast(e: Env, c: Client, run: seq<Event>, c': Client)
    requires FreshClient(c) && Reaches(e, c, run, c')
    ensures AfterEnd(c'.notices) == [] <==> forall k :: 0 <= k < |run| ==> Orderly(run[k])
  {
    LateExactly(e, c, run, c');
    OrderlyRuns(run);
  }

  /** The smallest case: two pbufs, the first of whose handlers aborts. */
  lemma DataAfterDisconnect(e: Env, c: Client, d1: bytes, d2: bytes, now: u32)
    requires Healthy(c) && e.onError == [] && e.onDisconnect == []
    ensures Step(e, c, LwipRecv([Packet(d1, [Abort]), Packet(d2, [])], ErrOk, now)).notices ==
      c.notices + [OnData(d1), OnError(ErrAbrt), OnDisconnect, OnData(d2)]
  {
    var c0 := c.(rxLastPacket := now, tracker := WithCloseError(c.tracker, ErrOk));
    var p1, p2 := Packet(d1, [Abort]), Packet(d2, []);
    AbortNotices(e, c0, p1);
    var c1 := Receive(e, c0, p1);
    assert Receive(e, c1, p2).notices == c1.notices + [OnData(d2)];
    assert [p1, p2][1..] == [p2] && [p2][1..] == [];
    assert ReceiveAll(e, c1, [p2]) == ReceiveAll(e, Receive(e, c1, p2), []);
    assert ReceiveAll(e, c0, [p1, p2]) == ReceiveAll(e, c1, [p2]);
  }

  lemma AbortNotices(e: Env, c: Client, p: Packet)
    requires Healthy(c) && e.onError == [] && e.onDisconnect == [] && p.handler == [Abort]
    ensures Receive(e, c, p).notices == c.notices + [OnData(p.data), OnError(ErrAbrt), OnDisconnect]
  {
    var c0 := Note(c.(ackPcb := true), OnData(p.data));
    assert [Abort][1..] == [];
    assert Run(e, c0, [Abort]) == Run(e, Do(e, c0, Abort), []);
    AbortIsFail(e, c0);
    assert Fail(e, Aborted(c0), ErrAbrt) == Note(Note(Aborted(c0), OnError(ErrAbrt)), OnDisconnect);
  }
}
