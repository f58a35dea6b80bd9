/** Theorems about every run of the transmit half, and about the two classes
    working together. */
module TransmitRuns {
  import opened Words
  import opened ErrorTracker
  import opened ClientSpec
  import opened ClientProofs
  import opened ClientRuns
  import opened ClientLedger
  import opened Transmit

  // ---- whole runs of the chain

  /** What can happen to a transmit buffer.  `Evolve` is anything at all that
      happens to the client in between, except that only this buffer sends on it. */
  datatype TxEvent =
    | AppWrite(data: bytes, heap: seq<bool>, faults: seq<Fault>, now: u32)
    | Pump(faults: seq<Fault>, now: u32)      // from the poll or the ack handler, or flush
    | Evolve(client: Client)
    | Disconnected

  /** The buffer and everything `write` has reported as accepted. */
  datatype Link = Link(tx: Tx, accepted: bytes)

  ghost predicate Possible(l: Link, ev: TxEvent) {
    ev.Evolve? ==>
      && ev.client.tcp.queued == l.tx.client.tcp.queued
      && FailedOutputs(ev.client.tcp.calls) == Failed(l.tx)
  }

  /** All that the operations need of a chain to be defined. */
  ghost predicate Usable(l: Link, cap: nat) { |l.tx.nodes| > 0 && 0 < cap && |Last(l.tx.nodes)| <= cap }

  ghost function Next(l: Link, ev: TxEvent, cap: nat): (r: Link)
    requires Usable(l, cap)
    ensures Usable(r, cap)
  {
    match ev
    case AppWrite(data, heap, faults, now) =>
      var r := WriteData(l.tx.(faults := faults), data, heap, cap, now);
      Link(r.0, l.accepted + data[..r.1])
    case Pump(faults, now) => l.(tx := SendLoop(l.tx.(faults := faults), now))
    case Evolve(client) => l.(tx := l.tx.(client := client))
    case Disconnected => l.(tx := l.tx.(hasClient := false))
  }

  lemma NextKeeps(t0: Tx, l: Link, ev: TxEvent, cap: nat)
    requires 0 < cap && Settled(l.tx.nodes, cap) && Possible(l, ev)
    requires Extends(t0, l.tx, l.accepted)
    ensures var l' := Next(l, ev, cap); Settled(l'.tx.nodes, cap) && Extends(t0, l'.tx, l'.accepted)
  {
    var l' := Next(l, ev, cap);
    assert l.accepted + [] == l.accepted;
    match ev
    case AppWrite(data, heap, faults, now) =>
      var t := l.tx.(faults := faults);
      assert Extends(t0, t, l.accepted);
      if t.hasClient && Connected(t.client) && |data| > 0 {
        WriteKeepsShape(t, data, heap, cap, now);
        WriteExtends(t, data, heap, cap, now);
        var r := WriteLoop(t, data, heap, cap, now);
        ExtendsOn(t0, t, r.0, l.accepted, data[..r.1]);
      }
    case Pump(faults, now) =>
      var t := l.tx.(faults := faults);
      assert Extends(t0, t, l.accepted);
      SendKeepsShape(t, now, SendLoop(t, now), cap);
      SendExtends(t, now);
      ExtendsOn(t0, t, l'.tx, l.accepted, []);
    case Evolve(client) =>
    case Disconnected =>
  }

  ghost predicate Leads(l: Link, run: seq<TxEvent>, l': Link, cap: nat)
    requires Usable(l, cap)
    decreases |run|
  {
    if run == [] then l' == l else Possible(l, run[0]) && Leads(Next(l, run[0], cap), run[1..], l', cap)
  }

  lemma {:induction false} RunKeeps(t0: Tx, l: Link, run: seq<TxEvent>, l': Link, cap: nat)
    requires 0 < cap && Settled(l.tx.nodes, cap) && Extends(t0, l.tx, l.accepted)
    requires Leads(l, run, l', cap)
    ensures Settled(l'.tx.nodes, cap) && Extends(t0, l'.tx, l'.accepted)
    decreases |run|
  {
    if run != [] {
      NextKeeps(t0, l, run[0], cap);
      RunKeeps(t0, Next(l, run[0], cap), run[1..], l', cap);
    }
  }

  /** Over every interleaving of writes, pumps and client activity, the bytes
      handed to TCP followed by the bytes still in the chain are the bytes
      accepted, each once and in order, if and only if no `tcp_output` failed
      after its `tcp_write` had queued data.  The chain is settled throughout. */
  lemma ExactlyOnceInOrder(t0: Tx, run: seq<TxEvent>, l: Link, cap: nat)
    requires 0 < cap && t0.nodes == [[]] && t0.client.tcp.queued == [] && Failed(t0) == 0
    requires Leads(Link(t0, []), run, l, cap)
    ensures Settled(l.tx.nodes, cap)
    ensures l.tx.client.tcp.queued + Flat(l.tx.nodes) == l.accepted <==> Failed(l.tx) == 0
    ensures |l.tx.client.tcp.queued| + |Flat(l.tx.nodes)| >= |l.accepted|
  {
    FreshIsEmpty(t0, cap);
    RunKeeps(t0, Link(t0, []), run, l, cap);
    assert Stream(t0) + l.accepted == l.accepted;
  }

  lemma FreshIsEmpty(t0: Tx, cap: nat)
    requires 0 < cap && t0.nodes == [[]] && t0.client.tcp.queued == []
    ensures Settled(t0.nodes, cap) && Stream(t0) == [] && Extends(t0, t0, [])
  {
    EmptyTestsAgree(t0.nodes, cap);
  }

  /** A failed `tcp_output` repeats what was offered: the client reports nothing
      sent although lwIP holds the bytes. */
  lemma OutputFailureRepeats(t: Tx, now: u32)
    requires |t.nodes| > 0 && Ready(t) && Head(t.faults) == OutputFails
    ensures Stream(Turn(t, now)) == t.client.tcp.queued + Offered(t) + Flat(t.nodes) != Stream(t)
  {
    WriteEffect(t.client, Offered(t), true, false, now);
    FlatConsume(t.nodes, 0);
    assert t.nodes[0][..0] + Flat(Consume(t.nodes, 0)) == Flat(Consume(t.nodes, 0));
    assert |Stream(Turn(t, now))| == |Stream(t)| + |Offered(t)|;
  }

  // ---- stop and wait

  /** Data leaves the chain only by a write that makes the client busy. */
  lemma {:induction false} TransferSetsBusy(t: Tx, now: u32)
    requires |t.nodes| > 0
    ensures SendLoop(t, now).nodes != t.nodes ==> SendLoop(t, now).client.pcbBusy
    decreases |t.faults|, if t.client.pcbBusy then 0 else 1
  {
    if Ready(t) && Head(t.faults) != NoMemory {
      var t1 := Turn(t, now);
      if t1.client.pcbBusy {
        assert SendLoop(t1, now) == t1;
      } else {
        assert t.nodes[0][0..] == t.nodes[0];
        assert [t.nodes[0]] + t.nodes[1..] == t.nodes;
        assert t1.nodes == t.nodes;
        TransferSetsBusy(t1, now);
      }
    }
  }

  /** While the client is busy `write` only stores. */
  lemma {:induction false} BusyWriteStores(t: Tx, data: bytes, heap: seq<bool>, cap: nat, now: u32)
    requires |t.nodes| > 0 && 0 < cap && |Last(t.nodes)| <= cap && t.client.pcbBusy
    ensures WriteLoop(t, data, heap, cap, now).0.client == t.client
    decreases |data|, if |Last(t.nodes)| == cap then 1 else 0
  {
    if data != [] {
      var w := Taken(t, data, cap);
      var t1 := Filled(t, data, cap, now);
      var grow := NeedsNode(t1, data[w..], cap);
      if !(grow && Refused(heap)) {
        var heap' := if grow && heap != [] then heap[1..] else heap;
        BusyWriteStores(Again(t, data, cap, now), data[w..], heap', cap, now);
      }
    }
  }

  /** A run of the client in which nothing releases it. */
  ghost predicate Unreleased(e: Env, c: Client, run: seq<Event>, c': Client)
    decreases |run|
  {
    if run == [] then c' == c
    else Allowed(c, run[0]) && !Releases(c, run[0]) && Unreleased(e, Step(e, c, run[0]), run[1..], c')
  }

  /** Once a transfer has made the client busy, the buffer hands it nothing more,
      from any handler and for any chain, until everything outstanding has been
      acknowledged or the ack timeout fires. */
  lemma {:induction false} StopAndWait(e: Env, c: Client, run: seq<Event>, c': Client, t: Tx, now: u32)
    requires LifeCycle(c) && c.pcbBusy && Unreleased(e, c, run, c')
    requires |t.nodes| > 0 && t.client == c'
    ensures SendLoop(t, now) == t
    decreases |run|
  {
    if run == [] {
      assert !Ready(t);
    } else {
      StepKeepsLifeCycle(e, c, run[0]);
      BusyUntilReleased(e, c, run[0]);
      StopAndWait(e, Step(e, c, run[0]), run[1..], c', t, now);
    }
  }

  // ---- the buffer as the client's handler

  /** The client calls `_sendBuffer` makes. */
  function SendCalls(t: Tx, now: u32): Program
    requires |t.nodes| > 0
    decreases |t.faults|, if t.client.pcbBusy then 0 else 1
  {
    if !Ready(t) || Head(t.faults) == NoMemory then []
    else
      var f := Head(t.faults);
      [Write(Offered(t), f != WriteFails, f != OutputFails, now)] + SendCalls(Turn(t, now), now)
  }

  /** `_sendBuffer` acts on the client only through its calls, so a buffer attached
      to a client is one of the handlers the theorems on clients are about. */
  lemma {:induction false} PumpIsProgram(e: Env, t: Tx, now: u32)
    requires |t.nodes| > 0
    ensures Run(e, t.client, SendCalls(t, now)) == SendLoop(t, now).client
    decreases |t.faults|, if t.client.pcbBusy then 0 else 1
  {
    if Ready(t) && Head(t.faults) != NoMemory {
      var f := Head(t.faults);
      var first := Write(Offered(t), f != WriteFails, f != OutputFails, now);
      assert ([first] + SendCalls(Turn(t, now), now))[1..] == SendCalls(Turn(t, now), now);
      assert Do(e, t.client, first) == Turn(t, now).client;
      PumpIsProgram(e, Turn(t, now), now);
    }
  }

  // ---- draining

  /** An acknowledgement of `len` bytes reaching a client with its buffer attached. */
  function Acknowledged(t: Tx, len: nat, now: u32, at: u32): Tx
    requires |t.nodes| > 0 && len < 0x1_0000
  {
    var t1 := AckCounted(t, len, now, at);
    if SentCounted(t.client, len, now).txUnackedLen != 0 then Unsettled(t1) else Settle(SendLoop(t1, now))
  }

  /** What `_s_sent` does before the ack handler, if it is going to call it. */
  function AckCounted(t: Tx, len: nat, now: u32, at: u32): Tx
    requires len < 0x1_0000
  {
    var c1 := SentCounted(t.client, len, now);
    t.(client := if c1.txUnackedLen == 0 then SentNotified(c1, at) else c1)
  }

  /** What `_s_sent` does after the ack handler has run, and when it has not. */
  function Settle(t: Tx): Tx { t.(client := Reply(t.client.(txAckedLen := 0))) }

  function Unsettled(t: Tx): Tx { t.(client := Reply(t.client)) }

  /** What an acknowledgement does to a client with its buffer attached is one
      client event, whose handler makes the calls `_sendBuffer` makes. */
  lemma AcknowledgedIsClientEvent(e: Env, t: Tx, len: nat, now: u32, at: u32)
    requires |t.nodes| > 0 && Allowed(t.client, LwipSent(len, now, at, []))
    ensures var calls := SendCalls(t.(client := SentNotified(SentCounted(t.client, len, now), at)), now);
      Acknowledged(t, len, now, at).client == Step(e, t.client, LwipSent(len, now, at, calls))
  {
    PumpIsProgram(e, t.(client := SentNotified(SentCounted(t.client, len, now), at)), now);
  }

  lemma AcknowledgedExtends(t: Tx, len: nat, now: u32, at: u32)
    requires |t.nodes| > 0 && len < 0x1_0000
    ensures Extends(t, Acknowledged(t, len, now, at), [])
  {
    assert Stream(t) + [] == Stream(t);
    var t1 := t.(client := SentNotified(SentCounted(t.client, len, now), at));
    SendExtends(t1, now);
    assert Stream(t1) == Stream(t) && Failed(t1) == Failed(t);
  }

  lemma {:induction false} FaultsOnlyShrink(t: Tx, now: u32)
    requires |t.nodes| > 0
    ensures |SendLoop(t, now).faults| <= |t.faults|
    decreases |t.faults|, if t.client.pcbBusy then 0 else 1
  {
    if Ready(t) && Head(t.faults) != NoMemory {
      FaultsOnlyShrink(Turn(t, now), now);
    }
  }

  /** A pump that is ready uses up a fault or leaves the client busy. */
  lemma PumpAdvances(t: Tx, now: u32)
    requires |t.nodes| > 0 && Ready(t)
    ensures var r := SendLoop(t, now); |r.faults| < |t.faults| || (|r.faults| == |t.faults| && r.client.pcbBusy)
  {
    if Head(t.faults) != NoMemory {
      var t1 := Turn(t, now);
      FaultsOnlyShrink(t1, now);
      if t.faults == [] {
        assert SendLoop(t1, now) == t1;
      }
    }
  }

  /** lwIP acknowledges everything outstanding. */
  function AckRound(t: Tx, now: u32): Tx
    requires |t.nodes| > 0 && 0 < t.client.tcp.Outstanding() < 0x1_0000
  {
    Acknowledged(t, t.client.tcp.Outstanding(), now, now)
  }

  /** The buffer's own handlers make no client calls when the connection ends. */
  predicate BufferEnv(e: Env) { e.onError == [] && e.onDisconnect == [] }

  /** A poll reaching a client with its buffer attached: `_close` runs the disconnect
      handler, which clears `_client`; an ack timeout makes the buffer call `close()`;
      otherwise the buffer pumps. */
  function PollReaches(e: Env, t: Tx, now: u32): Tx
    requires |t.nodes| > 0
  {
    var r := PollChecked(e, t.client, now);
    match r.1
    case NoHandler => t.(client := Reply(r.0), hasClient := false)
    case TimeoutHandler => Unsettled(t.(client := CloseCall(e, r.0, false)))
    case IdleHandler => Unsettled(SendLoop(t.(client := r.0), now))
  }

  lemma CloseKeepsStream(e: Env, c: Client)
    requires BufferEnv(e)
    ensures SameOutput(c, CloseNow(e, c))
  {
    if c.pcb {
      CloseIsHung(e, c);
      OutputAdded(c.tcp.calls, TcpClose(e.closeOk));
      OutputAdded(c.tcp.calls + [TcpClose(e.closeOk)], TcpAbort);
    }
  }

  /** `r` has queued what `c` had, and no further output failed. */
  ghost predicate SameOutput(c: Client, r: Client) {
    r.tcp.queued == c.tcp.queued && FailedOutputs(r.tcp.calls) == FailedOutputs(c.tcp.calls)
  }

  lemma ChecksKeepStream(e: Env, c: Client, now: u32)
    requires BufferEnv(e)
    ensures SameOutput(c, PollChecked(e, c, now).0)
  {
    var c1 := c.(tracker := WithCloseError(c.tracker, ErrOk));
    if c1.closePcb {
      CloseKeepsStream(e, c1.(closePcb := false));
    } else if !AckTimedOut(c1, now) && RxTimedOut(c1, now) {
      CloseKeepsStream(e, c1);
    } else {
      assert PollChecked(e, c, now).0.tcp == c.tcp;
    }
  }

  /** A change of the client alone that leaves the stream as it is. */
  lemma SameStreamExtends(t: Tx, c: Client, hasClient: bool)
    requires c.tcp.queued == t.client.tcp.queued
    requires FailedOutputs(c.tcp.calls) == FailedOutputs(t.client.tcp.calls)
    ensures Extends(t, t.(client := c, hasClient := hasClient), [])
  {
    assert Stream(t) + [] == Stream(t);
  }

  lemma PollExtends(e: Env, t: Tx, now: u32)
    requires |t.nodes| > 0 && BufferEnv(e)
    ensures Extends(t, PollReaches(e, t, now), [])
  {
    var r := PollChecked(e, t.client, now);
    ChecksKeepStream(e, t.client, now);
    match r.1
    case NoHandler => SameStreamExtends(t, Reply(r.0), false);
    case TimeoutHandler =>
      OutputAdded(r.0.tcp.calls, TcpRecved(true, ByClose, r.0.rxAckLen));
      SameStreamExtends(t, Reply(CloseCall(e, r.0, false)), t.hasClient);
    case IdleHandler =>
      var t1 := t.(client := r.0);
      SameStreamExtends(t, r.0, t.hasClient);
      SendExtends(t1, now);
      ExtendsOn(t, t1, SendLoop(t1, now), [], []);
  }

  /** The client when its poll handler is called. */
  function Polled(t: Tx): Tx {
    t.(client := Note(t.client.(tracker := WithCloseError(t.client.tracker, ErrOk)), OnPoll))
  }

  /** A poll of an idle client with its buffer attached. */
  function PollRound(t: Tx, now: u32): Tx
    requires |t.nodes| > 0
  {
    Unsettled(SendLoop(Polled(t), now))
  }

  lemma PolledIsClientEvent(e: Env, t: Tx, now: u32)
    requires |t.nodes| > 0 && Allowed(t.client, LwipPoll(now, []))
    requires !t.client.closePcb && !AckTimedOut(t.client, now) && !RxTimedOut(t.client, now)
    ensures PollReaches(e, t, now) == PollRound(t, now)
    ensures PollRound(t, now).client == Step(e, t.client, LwipPoll(now, SendCalls(Polled(t), now)))
  {
    PumpIsProgram(e, Polled(t), now);
  }

  /** The client calls the buffer's handlers make in a poll. */
  function PollCalls(e: Env, t: Tx, now: u32): Program
    requires |t.nodes| > 0
  {
    var r := PollChecked(e, t.client, now);
    match r.1
    case NoHandler => []
    case TimeoutHandler => [Close(false)]
    case IdleHandler => SendCalls(t.(client := r.0), now)
  }

  /** Whichever handler it reaches, a poll of a client with its buffer attached is one
      client event, and the buffer lets go of the client exactly if the poll closes. */
  lemma PollIsClientEvent(e: Env, t: Tx, now: u32)
    requires |t.nodes| > 0 && Allowed(t.client, LwipPoll(now, []))
    ensures var r := PollReaches(e, t, now);
      && r.client == Step(e, t.client, LwipPoll(now, PollCalls(e, t, now)))
      && r.hasClient == (t.hasClient && !PollCloses(t.client, now))
  {
    var r := PollChecked(e, t.client, now);
    match r.1
    case NoHandler =>
    case TimeoutHandler =>
      assert [Close(false)][1..] == [];
      assert Run(e, r.0, [Close(false)]) == Run(e, Do(e, r.0, Close(false)), []);
      assert Do(e, r.0, Close(false)) == CloseCall(e, r.0, false);
    case IdleHandler =>
      PumpIsProgram(e, t.(client := r.0), now);
      SendKeepsClient(t.(client := r.0), now);
  }

  lemma {:induction false} SendKeepsClient(t: Tx, now: u32)
    requires |t.nodes| > 0
    ensures SendLoop(t, now).hasClient == t.hasClient
    decreases |t.faults|, if t.client.pcbBusy then 0 else 1
  {
    if Ready(t) && Head(t.faults) != NoMemory {
      SendKeepsClient(Turn(t, now), now);
    }
  }

  /** An ack timeout reaching the buffer defers a close, which the next poll carries out. */
  lemma TimeoutDefersClose(e: Env, t: Tx, s0: nat, now: nat)
    requires |t.nodes| > 0 && t.client.pcb && !t.client.closePcb && t.client.pcbBusy
    requires t.client.pcbSentAt == s0 % WORD && s0 <= now < s0 + WORD
    requires t.client.ackTimeout != 0 && now - s0 >= t.client.ackTimeout
    ensures var c := PollReaches(e, t, now % WORD).client; c.closePcb && c.pcb && !c.pcbBusy
  {
    ElapsedSurvivesWrap(s0, now);
  }

  /** A connection on which acknowledgements keep coming. */
  ghost predicate Flowing(t: Tx, cap: nat) {
    && 0 < cap && Settled(t.nodes, cap)
    && t.hasClient && t.faults == [] && Healthy(t.client) && t.client.tcp.established && 0 < t.client.tcp.cap
  }

  lemma AckedIsReady(t: Tx, now: u32, cap: nat)
    requires Flowing(t, cap) && Flat(t.nodes) != [] && t.client.tcp.Outstanding() > 0
    ensures var c := Acked(t.client, now);
      Healthy(c) && Ready(t.(client := c)) && c.tcp.cap == t.client.tcp.cap && c.tcp.established
  {
    var c1 := SentCounted(t.client, t.client.tcp.Outstanding(), now);
    NoticeAdded(c1.notices, OnAck(c1.txAckedLen, Minus32(now, c1.pcbSentAt)));
    EmptyTestsAgree(t.nodes, cap);
  }

  /** The client after a full acknowledgement, when the ack handler is called. */
  function Acked(c: Client, now: u32): (r: Client)
    requires 0 <= c.tcp.Outstanding() < 0x1_0000
    ensures r.pcb == c.pcb
  {
    SentNotified(SentCounted(c, c.tcp.Outstanding(), now), now)
  }

  /** An acknowledgement of everything outstanding hands over at least one pending byte,
      which is outstanding then. */
  lemma RoundProgresses(t: Tx, now: u32, cap: nat)
    requires Flowing(t, cap) && Flat(t.nodes) != [] && t.client.tcp.Outstanding() > 0
    ensures var r := AckRound(t, now);
      Flowing(r, cap) && |Flat(r.nodes)| < |Flat(t.nodes)| && r.client.tcp.Outstanding() > 0
  {
    var t1 := t.(client := Acked(t.client, now));
    AckedIsReady(t, now, cap);
    PumpFlows(t1, now, cap);
    AckRoundIs(t, now);
  }

  lemma AckRoundIs(t: Tx, now: u32)
    requires |t.nodes| > 0 && Healthy(t.client) && 0 < t.client.tcp.Outstanding() < 0x1_0000
    ensures AckRound(t, now) == Settle(SendLoop(t.(client := Acked(t.client, now)), now))
  {
  }

  lemma PumpFlows(t: Tx, now: u32, cap: nat)
    requires Flowing(t, cap) && Ready(t)
    ensures var r := Settle(SendLoop(t, now));
      Flowing(r, cap) && |Flat(r.nodes)| < |Flat(t.nodes)| && r.client.tcp.Outstanding() > 0
  {
    PumpSends(t, now);
    SendKeepsShape(t, now, SendLoop(t, now), cap);
  }

  lemma PumpIsOneTurn(t: Tx, now: u32)
    requires |t.nodes| > 0 && Ready(t) && t.faults == []
    ensures SendLoop(t, now) == Turn(t, now)
  {
    assert SendLoop(Turn(t, now), now) == Turn(t, now);
  }

  lemma TurnKeepsHealth(t: Tx, now: u32)
    requires |t.nodes| > 0 && Ready(t) && t.faults == [] && Healthy(t.client)
    ensures Healthy(Turn(t, now).client)
  {
    HealthyWrite(t.client, Offered(t), true, true, now);
    assert Turn(t, now).client == WriteTo(t.client, Offered(t), true, true, now).0;
  }

  lemma PumpSends(t: Tx, now: u32)
    requires |t.nodes| > 0 && Ready(t) && t.faults == [] && Healthy(t.client)
    ensures var r := SendLoop(t, now);
      && Healthy(r.client)
      && r == Tx(r.nodes, t.hasClient, r.client, [])
      && r.client.tcp.established == t.client.tcp.established && r.client.tcp.cap == t.client.tcp.cap
      && r.client.tcp.Outstanding() > 0
      && |Flat(r.nodes)| < |Flat(t.nodes)|
  {
    var out := Offered(t);
    TurnKeepsHealth(t, now);
    PumpIsOneTurn(t, now);
    WriteEffect(t.client, out, true, true, now);
    FlatConsume(t.nodes, |out|);
    assert |t.nodes[0][..|out|]| == |out|;
  }

  function AckRounds(t: Tx, now: u32, n: nat): Tx
    requires |t.nodes| > 0
    decreases n
  {
    if n == 0 || Flat(t.nodes) == [] || !(0 < t.client.tcp.Outstanding() < 0x1_0000) then t
    else AckRounds(AckRound(t, now), now, n - 1)
  }

  lemma RoundsGoOn(t: Tx, now: u32, n: nat)
    requires |t.nodes| > 0 && n > 0 && Flat(t.nodes) != [] && 0 < t.client.tcp.Outstanding() < 0x1_0000
    ensures AckRounds(t, now, n) == AckRounds(AckRound(t, now), now, n - 1)
  {
  }

  /** Once something is outstanding, everything pending is handed to TCP within as many
      acknowledgements as there are bytes. */
  lemma {:induction false} Drains(t: Tx, now: u32, n: nat, cap: nat)
    requires Flowing(t, cap) && |Flat(t.nodes)| <= n
    requires Flat(t.nodes) != [] ==> t.client.tcp.Outstanding() > 0
    ensures Flat(AckRounds(t, now, n).nodes) == []
    decreases n
  {
    if n > 0 && Flat(t.nodes) != [] {
      var t1 := AckRound(t, now);
      RoundProgresses(t, now, cap);
      Drains(t1, now, n - 1, cap);
      RoundsGoOn(t, now, n);
    }
  }

  lemma PolledIsReady(t: Tx, cap: nat)
    requires Flowing(t, cap) && Flat(t.nodes) != [] && !t.client.pcbBusy && t.client.tcp.Outstanding() == 0
    ensures Flowing(Polled(t), cap) && Ready(Polled(t))
  {
    NoticeAdded(t.client.notices, OnPoll);
    EmptyTestsAgree(t.nodes, cap);
  }

  lemma UnsettledFlows(t: Tx, now: u32, cap: nat)
    requires Flowing(t, cap) && Ready(t)
    ensures var r := Unsettled(SendLoop(t, now));
      Flowing(r, cap) && |Flat(r.nodes)| < |Flat(t.nodes)| && r.client.tcp.Outstanding() > 0
  {
    PumpSends(t, now);
    SendKeepsShape(t, now, SendLoop(t, now), cap);
  }

  /** With nothing outstanding and the client free, the next poll starts this. */
  lemma DrainsFromPoll(t: Tx, now: u32, n: nat, cap: nat)
    requires Flowing(t, cap) && |Flat(t.nodes)| <= n
    requires !t.client.pcbBusy && t.client.tcp.Outstanding() == 0
    ensures Flat(AckRounds(PollRound(t, now), now, n).nodes) == []
  {
    if Flat(t.nodes) == [] {
      EmptyTestsAgree(t.nodes, cap);
      assert !Ready(Polled(t));
    } else {
      PolledIsReady(t, cap);
      UnsettledFlows(Polled(t), now, cap);
      Drains(PollRound(t, now), now, n, cap);
    }
  }
}
