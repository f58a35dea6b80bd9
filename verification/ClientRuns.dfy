/** Theorems about every run of a client, against every lwIP that keeps to
    `Allowed` and every application. */
module ClientRuns {
  import opened Words
  import opened ErrorTracker
  import opened ClientSpec
  import opened ClientProofs

  // ---- teardown: the shape after each event

  ghost predicate LifeCycle(c: Client) {
    Dialing(c) || Healthy(c) || exists how :: Torn(c, how)
  }

  /** The state a callback leaves before it answers lwIP. */
  ghost predicate Finished(c: Client) { Survives(c) || Torn(c, InError) }

  lemma QuietEnds(c: Client)
    requires Quiet(Owned(c.tcp.calls))
    ensures EndsIn(Owned(c.tcp.calls), Farewell(InError))
  {
    Ending(Owned(c.tcp.calls), []);
    assert Owned(c.tcp.calls) + [] == Owned(c.tcp.calls);
  }

  lemma Untorn(c: Client)
    requires Healthy(c) || Dialing(c)
    ensures Quiet(Owned(c.tcp.calls)) && Counted(c) && Disconnects(c.notices) == 0
  {
  }

  lemma QuietTears(c: Client)
    requires Quiet(Owned(c.tcp.calls)) && Counted(c) && !c.pcb && c.tcp.hook == Unhooked
    requires c.tracker.errored != EeOk && c.tracker.errored != EeAborted
    ensures TearsDown(c, InError)
  {
    QuietEnds(c);
  }

  /** lwIP has reported an error: the pcb is gone without a close or an abort. */
  lemma ErrorTears(c: Client, t: Tracker)
    requires (Healthy(c) || Dialing(c)) && t.errored != EeOk && t.errored != EeAborted
    ensures var c1 := c.(pcb := false, tracker := t, tcp := c.tcp.(hook := Unhooked));
      TearsDown(c1, InError) && Disconnects(c1.notices) == 0
  {
    Untorn(c);
    QuietTears(c.(pcb := false, tracker := t, tcp := c.tcp.(hook := Unhooked)));
  }

  lemma ErrorIsFail(e: Env, c: Client, err: Err)
    ensures var t := WithErrored(WithCloseError(c.tracker, err), EeErrorCb);
      ErrorCallback(e, c.(pcb := false), err) ==
      Fail(e, c.(pcb := false, tracker := t, tcp := c.tcp.(hook := Unhooked)), err)
  {
  }

  /** Delivering one more pbuf, whether the connection still stands or a handler
      ended it while an earlier pbuf was delivered. */
  lemma DeliverSurvives(e: Env, c: Client, p: Packet)
    requires Survives(c)
    ensures Survives(Deliver(e, c, p))
  {
    NoticeAdded(c.notices, OnData(p.data));
    var c0 := Note(c.(ackPcb := true), OnData(p.data));
    if c.pcb {
      HealthyRun(e, c0, p.handler);
    } else {
      NoteDataSurvives(c, p.data);
      DeadRun(e, c0, p.handler);
      StaysTorn(c0, Run(e, c0, p.handler));
    }
  }

  lemma NoteDataSurvives(c: Client, data: bytes)
    requires Survives(c) && !c.pcb
    ensures Survives(Note(c.(ackPcb := true), OnData(data)))
  {
    NoticeAdded(c.notices, OnData(data));
    forall how | Torn(c, how) ensures Torn(Note(c.(ackPcb := true), OnData(data)), how) {
    }
  }

  lemma CreditTorn(c: Client, len: nat, how: Outcome)
    requires Torn(c, how)
    ensures Torn(Credit(c, len), how) && Credit(c, len).tracker == c.tracker
  {
    if c.ackPcb {
      InertLog(c, TcpRecved(false, ByRecv, len));
    }
    assert Inert(c, Credit(c, len));
    StillTearing(c, Credit(c, len), how);
  }

  lemma CreditSurvives(c: Client, len: nat)
    requires Survives(c)
    ensures Survives(Credit(c, len))
  {
    if c.pcb {
      HealthyLog(c, TcpRecved(true, ByRecv, len));
      assert Healthy(Credit(c, len));
    } else {
      forall how | Torn(c, how) ensures Torn(Credit(c, len), how) {
        CreditTorn(c, len, how);
      }
      assert Credit(c, len).tracker == c.tracker;
    }
  }

  lemma ReceiveSurvives(e: Env, c: Client, p: Packet)
    requires Survives(c)
    ensures Survives(Receive(e, c, p))
  {
    DeliverSurvives(e, c, p);
    CreditSurvives(Deliver(e, c, p), |p.data|);
  }

  lemma {:induction false} ReceiveAllSurvives(e: Env, c: Client, chain: seq<Packet>)
    requires Survives(c)
    ensures Survives(ReceiveAll(e, c, chain))
    decreases |chain|
  {
    if chain != [] {
      ReceiveSurvives(e, c, chain[0]);
      ReceiveAllSurvives(e, Receive(e, c, chain[0]), chain[1..]);
    }
  }

  lemma SentFinishes(e: Env, c: Client, len: nat, now: u32, at: u32, handler: Program)
    requires Healthy(c) && len < 0x1_0000 && len <= c.tcp.Outstanding()
    ensures Survives(SentCallback(e, c, len, now, at, handler))
  {
    var c1 := SentCounted(c, len, now);
    assert Healthy(c1);
    if c1.txUnackedLen == 0 {
      var c2 := SentNotified(c1, at);
      NoticeAdded(c1.notices, OnAck(c1.txAckedLen, Minus32(at, c1.pcbSentAt)));
      HealthyRun(e, c2, handler);
    }
  }

  /** A poll is going to close the connection. */
  predicate PollCloses(c: Client, now: u32) { c.closePcb || (!AckTimedOut(c, now) && RxTimedOut(c, now)) }

  lemma ChecksFinish(e: Env, c: Client, now: u32)
    requires Healthy(c)
    ensures var r := PollChecked(e, c, now);
      if PollCloses(c, now) then r.1 == NoHandler && HungUp(e, r.0) else r.1 != NoHandler && Healthy(r.0)
  {
    assert c.(tracker := WithCloseError(c.tracker, ErrOk)) == c;
    if c.closePcb {
      CloseEnds(e, c.(closePcb := false));
    } else if AckTimedOut(c, now) {
      NoticeAdded(c.notices, OnTimeout(Minus32(now, c.pcbSentAt)));
    } else if RxTimedOut(c, now) {
      CloseEnds(e, c);
    } else {
      NoticeAdded(c.notices, OnPoll);
    }
  }

  lemma PollFinishes(e: Env, c: Client, now: u32, handler: Program)
    requires Healthy(c)
    ensures Survives(PollCallback(e, c, now, handler))
  {
    var r := PollChecked(e, c, now);
    ChecksFinish(e, c, now);
    if r.1 != NoHandler {
      HealthyRun(e, r.0, handler);
    }
  }

  /** The client when its connect handler is called. */
  function Connecting(c: Client, now: u32): Client {
    Note(c.(pcb := true, pcbBusy := false, rxLastPacket := now,
            tcp := c.tcp.(hook := HookedAll, established := true)), OnConnect)
  }

  lemma ConnectedIsHealthy(c: Client, now: u32)
    requires Dialing(c)
    ensures Healthy(Connecting(c, now))
  {
    NoticeAdded(c.notices, OnConnect);
    assert Connecting(c, now).tcp.Sound();
  }

  lemma ConnectFinishes(e: Env, c: Client, err: Err, now: u32, handler: Program)
    requires Dialing(c)
    ensures Finished(ConnectedCallback(e, c, err, now, handler))
  {
    if err != ErrOk {
      var t := WithErrored(WithCloseError(c.tracker, err), EeConnectedCb);
      ErrorTears(c, t);
      FailEnds(e, c.(pcb := false, tracker := t, tcp := c.tcp.(hook := Unhooked)), err, InError);
    } else {
      ConnectedIsHealthy(c, now);
      HealthyRun(e, Connecting(c, now), handler);
    }
  }

  lemma RecvFinishes(e: Env, c: Client, chain: seq<Packet>, err: Err, now: u32)
    requires Healthy(c)
    ensures Finished(RecvCallback(e, c, chain, err, now))
  {
    if err != ErrOk {
      var t := WithErrored(WithCloseError(c.tracker, err), EeRecvCb);
      ErrorTears(c, t);
      FailEnds(e, c.(pcb := false, tracker := t, tcp := c.tcp.(hook := Unhooked)), err, InError);
    } else if chain == [] {
      CloseEnds(e, c);
    } else {
      ReceiveAllSurvives(e, c.(rxLastPacket := now, tracker := WithCloseError(c.tracker, ErrOk)), chain);
    }
  }

  lemma ErrorFinishes(e: Env, c: Client, err: Err)
    requires Healthy(c) || Dialing(c)
    ensures Torn(ErrorCallback(e, c.(pcb := false), err), InError)
  {
    var t := WithErrored(WithCloseError(c.tracker, err), EeErrorCb);
    var c1 := c.(pcb := false, tracker := t, tcp := c.tcp.(hook := Unhooked));
    ErrorTears(c, t);
    FailEnds(e, c1, err, InError);
    ErrorIsFail(e, c, err);
  }

  lemma CallKeepsLifeCycle(e: Env, c: Client, a: Api)
    requires LifeCycle(c)
    ensures LifeCycle(Do(e, c, a))
  {
    var r := Do(e, c, a);
    if c.pcb {
      HealthyDo(e, c, a);
    } else {
      DeadDo(e, c, a);
      if !Dialing(c) {
        var how :| Torn(c, how);
        assert Torn(r, how);
      }
    }
  }

  lemma RepliedTorn(x: Client, how: Outcome)
    requires Torn(x, how) && (how == InFailedClose ==> x.tracker.errored == EeOk)
    ensures Torn(Reply(x), how)
    ensures Answer(x.tracker) == ErrAbrt <==> how == InFailedClose
    ensures Answer(x.tracker) == ErrAbrt || Answer(x.tracker) == ErrOk
    ensures how != InFailedClose ==> !Torn(Reply(x), InFailedClose)
  {
  }

  /** ERR_ABRT goes back to lwIP exactly when the callback ended in `_close` with
      a `tcp_close` that failed. */
  lemma Replied(x: Client)
    requires Finished(x)
    ensures LifeCycle(Reply(x))
    ensures Answer(x.tracker) == (if Torn(Reply(x), InFailedClose) then ErrAbrt else ErrOk)
  {
    if Healthy(x) {
      assert Healthy(Reply(x));
    } else if Torn(x, InFailedClose) && x.tracker.errored == EeOk {
      RepliedTorn(x, InFailedClose);
    } else {
      var how :| how != InFailedClose && Torn(x, how);
      RepliedTorn(x, how);
    }
  }

  lemma CallbackFinishes(e: Env, c: Client, ev: Event)
    requires LifeCycle(c) && Allowed(c, ev) && Answered(ev)
    ensures Finished(Handled(e, c, ev))
  {
    match ev
    case LwipConnected(err, now, handler) => ConnectFinishes(e, c, err, now, handler);
    case LwipSent(len, now, at, handler) => SentFinishes(e, c, len, now, at, handler);
    case LwipRecv(chain, err, now) => RecvFinishes(e, c, chain, err, now);
    case LwipPoll(now, handler) => PollFinishes(e, c, now, handler);
  }

  lemma StepKeepsLifeCycle(e: Env, c: Client, ev: Event)
    requires LifeCycle(c) && Allowed(c, ev)
    ensures LifeCycle(Step(e, c, ev))
  {
    if Answered(ev) {
      CallbackFinishes(e, c, ev);
      Replied(Handled(e, c, ev));
    } else {
      match ev
      case Call(api) => CallKeepsLifeCycle(e, c, api);
      case LwipError(err) => ErrorFinishes(e, c, err);
      case LwipState(_) =>
    }
  }

  // ---- teardown over whole runs

  lemma {:induction false} RunKeepsLifeCycle(e: Env, c: Client, run: seq<Event>, c': Client)
    requires LifeCycle(c) && Reaches(e, c, run, c')
    ensures LifeCycle(c')
    decreases |run|
  {
    if run != [] {
      StepKeepsLifeCycle(e, c, run[0]);
      RunKeepsLifeCycle(e, Step(e, c, run[0]), run[1..], c');
    }
  }

  ghost predicate AtMostOnce<T>(s: seq<T>, x: T) {
    forall j, k :: 0 <= j < k < |s| ==> !(s[j] == x && s[k] == x)
  }

  lemma EndsOnce(o: seq<LwipCall>, how: Outcome)
    requires EndsIn(o, Farewell(how))
    ensures AtMostOnce(o, TcpAbort) && AtMostOnce(o, TcpClose(true)) && AtMostOnce(o, TcpClose(false))
  {
    var n := |o| - |Farewell(how)|;
    forall k | 0 <= k < |o|
      ensures k < n ==> o[k] != TcpAbort && !o[k].TcpClose?
      ensures k >= n ==> o[k] == Farewell(how)[k - n]
    {
      if k < n { assert o[..n][k] == o[k]; } else { assert o[n..][k - n] == o[k]; }
    }
  }

  /** Over every run of a fresh client the disconnect handler runs once when the
      connection ends and never before; `tcp_close` and `tcp_abort` are each
      issued at most once, and the lwIP calls made on the pcb end with them. */
  lemma TeardownOnce(e: Env, c: Client, run: seq<Event>, c': Client)
    requires FreshClient(c) && Reaches(e, c, run, c')
    ensures Disconnects(c'.notices) == (if c'.tcp.hook == Unhooked then 1 else 0)
    ensures c'.pcb <==> c'.tcp.hook == HookedAll
    ensures c'.tcp.hook != Unhooked ==> Quiet(Owned(c'.tcp.calls))
    ensures c'.tcp.hook == Unhooked ==> exists how :: EndsIn(Owned(c'.tcp.calls), Farewell(how))
    ensures AtMostOnce(Owned(c'.tcp.calls), TcpAbort)
    ensures AtMostOnce(Owned(c'.tcp.calls), TcpClose(e.closeOk))
  {
    assert LifeCycle(c);
    RunKeepsLifeCycle(e, c, run, c');
    if c'.tcp.hook == Unhooked {
      var how :| Torn(c', how);
      EndsOnce(Owned(c'.tcp.calls), how);
    }
  }

  /** After the event that ended the connection no event invokes a handler, nothing more
      is queued, and whatever the application still calls reaches lwIP at most through
      the NULL pcb that `send` and `ack` do not test for.  What that event itself still
      does to the rest of its chain is the subject of `ClientLate`. */
  lemma {:induction false} AfterTeardown(e: Env, c: Client, run: seq<Event>, c': Client)
    requires !c.pcb && c.tcp.hook == Unhooked && Reaches(e, c, run, c')
    ensures Inert(c, c')
    decreases |run|
  {
    if run != [] {
      DeadDo(e, c, run[0].api);
      AfterTeardown(e, Step(e, c, run[0]), run[1..], c');
    }
  }

  /** With `_pcb` cleared a call reaches lwIP if and only if it is a `send`, or an
      `ack` that has something to credit: `add`, `write`, `close` and `abort` never do. */
  lemma CallsOnNullPcb(e: Env, c: Client, a: Api)
    requires !c.pcb
    ensures Do(e, c, a).tcp.calls == c.tcp.calls <==> !a.Send? && !(a.Ack? && a.len > 0 && c.rxAckLen > 0)
  {
    match a
    case Close(immediately) => assert CloseCall(e, c, immediately).tcp == c.tcp;
    case Send(outputOk, now) => assert |SendNow(c, outputOk, now).0.tcp.calls| == |c.tcp.calls| + 1;
    case Ack(len) =>
      if len > 0 && c.rxAckLen > 0 {
        assert |AckBytes(c, len).0.tcp.calls| == |c.tcp.calls| + 1;
      }
    case _ =>
  }

  // ---- bookkeeping that every event keeps

  /** What a callback leaves alone or only extends. */
  ghost predicate Booked(c: Client, r: Client) {
    && Balance(r) == Balance(c)
    && r.replies == c.replies
    && c.tcp.queued <= r.tcp.queued
    && SumAcks(r.notices) == SumAcks(c.notices) && AckCalls(r.notices) == AckCalls(c.notices)
    && r.txAckedLen == c.txAckedLen && r.tcp.acked == c.tcp.acked
  }

  /** The two flags only a poll, a full acknowledgement or a connect resets. */
  ghost predicate Holds(c: Client, r: Client) {
    (c.pcbBusy ==> r.pcbBusy) && (c.closePcb ==> r.closePcb)
  }

  lemma KeptDeliver(e: Env, c: Client, p: Packet)
    ensures Kept(c, Deliver(e, c, p))
  {
    NoticeAdded(c.notices, OnData(p.data));
    KeptRun(e, Note(c.(ackPcb := true), OnData(p.data)), p.handler);
  }

  /** Crediting or withholding a pbuf keeps the window balance. */
  lemma BookedCredit(c: Client, len: nat)
    ensures Booked(c, Credit(c, len)) && Holds(c, Credit(c, len))
  {
    CallAdded(c.tcp.calls, TcpRecved(c.pcb, ByRecv, len));
  }

  lemma BookedReceive(e: Env, c: Client, p: Packet)
    ensures Booked(c, Receive(e, c, p)) && Holds(c, Receive(e, c, p))
  {
    KeptDeliver(e, c, p);
    BookedCredit(Deliver(e, c, p), |p.data|);
  }

  lemma {:induction false} BookedReceiveAll(e: Env, c: Client, chain: seq<Packet>)
    ensures Booked(c, ReceiveAll(e, c, chain)) && Holds(c, ReceiveAll(e, c, chain))
    decreases |chain|
  {
    if chain != [] {
      BookedReceive(e, c, chain[0]);
      BookedReceiveAll(e, Receive(e, c, chain[0]), chain[1..]);
    }
  }

  lemma BookedRecv(e: Env, c: Client, chain: seq<Packet>, err: Err, now: u32)
    ensures Booked(c, RecvCallback(e, c, chain, err, now)) && Holds(c, RecvCallback(e, c, chain, err, now))
  {
    if err != ErrOk {
      var t := WithErrored(WithCloseError(c.tracker, err), EeRecvCb);
      KeptFail(e, c.(pcb := false, tracker := t, tcp := c.tcp.(hook := Unhooked)), err);
    } else if chain == [] {
      KeptClose(e, c);
    } else {
      BookedReceiveAll(e, c.(rxLastPacket := now, tracker := WithCloseError(c.tracker, ErrOk)), chain);
    }
  }

  lemma BookedPoll(e: Env, c: Client, now: u32, handler: Program)
    ensures Booked(c, PollCallback(e, c, now, handler))
  {
    BookedChecks(e, c, now);
    var r := PollChecked(e, c, now);
    KeptRun(e, r.0, handler);
  }

  lemma BookedClose(e: Env, c: Client, c1: Client)
    requires Booked(c, c1)
    ensures Booked(c, CloseNow(e, c1))
  {
    KeptClose(e, c1);
  }

  lemma BookedNote(c: Client, c1: Client, n: Notice)
    requires Booked(c, c1) && !n.OnAck?
    ensures Booked(c, Note(c1, n))
  {
    NoticeAdded(c1.notices, n);
    assert Note(c1, n).tcp == c1.tcp && Balance(Note(c1, n)) == Balance(c1);
  }

  lemma BookedChecks(e: Env, c: Client, now: u32)
    ensures Booked(c, PollChecked(e, c, now).0)
  {
    var c1 := c.(tracker := WithCloseError(c.tracker, ErrOk));
    if c1.closePcb {
      BookedClose(e, c, c1.(closePcb := false));
    } else if AckTimedOut(c1, now) {
      BookedNote(c, c1.(pcbBusy := false), OnTimeout(Minus32(now, c1.pcbSentAt)));
    } else if RxTimedOut(c1, now) {
      BookedClose(e, c, c1);
    } else {
      BookedNote(c, c1, OnPoll);
    }
  }

  lemma BookedConnected(e: Env, c: Client, err: Err, now: u32, handler: Program)
    ensures Booked(c, ConnectedCallback(e, c, err, now, handler))
  {
    if err != ErrOk {
      var t := WithErrored(WithCloseError(c.tracker, err), EeConnectedCb);
      KeptFail(e, c.(pcb := false, tracker := t, tcp := c.tcp.(hook := Unhooked)), err);
    } else {
      NoticeAdded(c.notices, OnConnect);
      var c1 := c.(pcb := true, pcbBusy := false, rxLastPacket := now,
                   tcp := c.tcp.(hook := HookedAll, established := true));
      KeptRun(e, Note(c1, OnConnect), handler);
    }
  }

  lemma BookedStep(e: Env, c: Client, ev: Event)
    requires Allowed(c, ev) && !ev.LwipSent?
    ensures Booked(c, Handled(e, c, ev))
  {
    match ev
    case Call(api) => KeptDo(e, c, api);
    case LwipConnected(err, now, handler) => BookedConnected(e, c, err, now, handler);
    case LwipRecv(chain, err, now) => BookedRecv(e, c, chain, err, now);
    case LwipPoll(now, handler) => BookedPoll(e, c, now, handler);
    case LwipError(err) =>
      var t := WithErrored(WithCloseError(c.tracker, err), EeErrorCb);
      KeptFail(e, c.(pcb := false, tracker := t, tcp := c.tcp.(hook := Unhooked)), err);
    case LwipState(_) =>
  }

  /** An acknowledgement of `len` bytes: the ack handler is called exactly when it
      leaves the counter at zero, and is told everything acked since the last call. */
  lemma BookedSent(e: Env, c: Client, len: nat, now: u32, at: u32, handler: Program)
    requires len < 0x1_0000
    ensures var r := SentCallback(e, c, len, now, at, handler);
      && Balance(r) == Balance(c)
      && r.replies == c.replies
      && c.tcp.queued <= r.tcp.queued
      && r.tcp.acked == c.tcp.acked + len
      && if c.txUnackedLen <= len
         then AckCalls(r.notices) == AckCalls(c.notices) + 1 && r.txAckedLen == 0
              && SumAcks(r.notices) == SumAcks(c.notices) + Plus32(c.txAckedLen, len)
         else r.notices == c.notices && r.txAckedLen == Plus32(c.txAckedLen, len)
  {
    var c1 := SentCounted(c, len, now);
    if c1.txUnackedLen == 0 {
      NoticeAdded(c1.notices, OnAck(c1.txAckedLen, Minus32(at, c1.pcbSentAt)));
      KeptRun(e, SentNotified(c1, at), handler);
    }
  }

  // ---- ERR_ABRT

  /** Each callback gives lwIP one answer, and that answer is ERR_ABRT if and only
      if the callback ended the connection by a `tcp_close` that failed. */
  lemma AbortAnsweredExactly(e: Env, c: Client, ev: Event)
    requires LifeCycle(c) && Allowed(c, ev) && Answered(ev)
    ensures var c' := Step(e, c, ev);
      c'.replies == c.replies + [if Torn(c', InFailedClose) then ErrAbrt else ErrOk]
  {
    CallbackFinishes(e, c, ev);
    Replied(Handled(e, c, ev));
    if ev.LwipSent? {
      BookedSent(e, c, ev.len, ev.now, ev.at, ev.handler);
    } else {
      BookedStep(e, c, ev);
    }
  }

  /** The answers given so far: ERR_ABRT only as the very last, and only after a
      failed close. */
  ghost predicate AnsweredAbortLast(c: Client) {
    && (forall k :: 0 <= k < |c.replies| - 1 ==> c.replies[k] == ErrOk)
    && (|c.replies| > 0 ==>
        var last := c.replies[|c.replies| - 1];
        last == ErrOk || (last == ErrAbrt && Torn(c, InFailedClose) && c.tracker.errored == EeAborted))
  }

  lemma StepKeepsAnswers(e: Env, c: Client, ev: Event)
    requires LifeCycle(c) && Allowed(c, ev) && AnsweredAbortLast(c)
    ensures AnsweredAbortLast(Step(e, c, ev))
  {
    if Answered(ev) {
      AbortAnsweredExactly(e, c, ev);
      CallbackFinishes(e, c, ev);
      assert forall k :: 0 <= k < |c.replies| ==> c.replies[k] == ErrOk;
      if Torn(Step(e, c, ev), InFailedClose) {
        AbortReportedOnce(Handled(e, c, ev));
      }
    } else {
      BookedStep(e, c, ev);
      if Torn(c, InFailedClose) {
        DeadDo(e, c, ev.api);
        StillTearing(c, Step(e, c, ev), InFailedClose);
      }
    }
  }

  lemma AbortReportedOnce(x: Client)
    requires Finished(x) && Torn(Reply(x), InFailedClose)
    ensures Reply(x).tracker.errored == EeAborted
  {
  }

  lemma {:induction false} RunKeepsAnswers(e: Env, c: Client, run: seq<Event>, c': Client)
    requires LifeCycle(c) && AnsweredAbortLast(c) && Reaches(e, c, run, c')
    ensures AnsweredAbortLast(c')
    decreases |run|
  {
    if run != [] {
      StepKeepsLifeCycle(e, c, run[0]);
      StepKeepsAnswers(e, c, run[0]);
      RunKeepsAnswers(e, Step(e, c, run[0]), run[1..], c');
    }
  }

  /** Over every run of a fresh client at most one callback ever returns ERR_ABRT,
      after a failed close, and it is the last one; every other answer is ERR_OK. */
  lemma AbortAnsweredLast(e: Env, c: Client, run: seq<Event>, c': Client)
    requires FreshClient(c) && Reaches(e, c, run, c')
    ensures AnsweredAbortLast(c')
  {
    assert LifeCycle(c);
    RunKeepsAnswers(e, c, run, c');
  }
}
