/** The AsyncClient object: its methods update the fields in place, as in
    src/ESPAsyncTCPClient.cpp, and each is proved to make exactly the transition
    that `ClientSpec` gives for it. */
module AsyncClientObject {
  import opened Words
  import opened ErrorTracker
  import opened ClientSpec

  /** lwIP's end of one connection, as the client's calls see it. */
  class Lwip {
    var tcp: Tcp

    constructor (tcp: Tcp)
      ensures this.tcp == tcp
    {
      this.tcp := tcp;
    }

    method Record(call: LwipCall)
      modifies this
      ensures tcp == old(tcp).(calls := old(tcp).calls + [call])
    {
      tcp := tcp.(calls := tcp.calls + [call]);
    }

    method QueueData(data: bytes, ok: bool)
      modifies this
      ensures tcp == old(tcp).(calls := old(tcp).calls + [TcpWrite(data, ok)],
                               queued := if ok then old(tcp).queued + data else old(tcp).queued)
    {
      Record(TcpWrite(data, ok));
      if ok {
        tcp := tcp.(queued := tcp.queued + data);
      }
    }

    /** `clearTcpCallbacks`, and what lwIP does itself when it frees the pcb. */
    method Unhook()
      modifies this
      ensures tcp == old(tcp).(hook := Unhooked)
    {
      tcp := tcp.(hook := Unhooked);
    }
  }

  class AsyncClient {
    var pcb: bool
    var pcbBusy: bool
    var pcbSentAt: u32
    var closePcb: bool
    var ackPcb: bool
    var txUnackedLen: u32
    var txAckedLen: u32
    var rxAckLen: nat
    var rxLastPacket: u32
    var rxSinceTimeout: u32
    var ackTimeout: u32
    const errorTracker: ACErrorTracker
    const lwip: Lwip

    ghost var notices: seq<Notice>
    ghost var processed: nat
    ghost var replies: seq<Err>

    /** The object as a value of the specification. */
    ghost function View(): Client
      reads this, errorTracker, lwip
    {
      Client(pcb, pcbBusy, pcbSentAt, closePcb, ackPcb, txUnackedLen, txAckedLen, rxAckLen, rxLastPacket,
             rxSinceTimeout, ackTimeout, errorTracker.View(), lwip.tcp, notices, processed, replies)
    }

    /** A client around an accepted pcb (`hasPcb`), or one that is connecting. */
    constructor (hasPcb: bool, now: u32, established: bool, sndbuf: nat)
      requires sndbuf < 0x1_0000
      ensures FreshClient(View()) && pcb == hasPcb && rxLastPacket == (if hasPcb then now else 0)
      ensures fresh(errorTracker) && fresh(lwip)
    {
      pcb, pcbBusy, pcbSentAt, closePcb, ackPcb := hasPcb, false, 0, false, true;
      txUnackedLen, txAckedLen, rxAckLen := 0, 0, 0;
      rxLastPacket := if hasPcb then now else 0;
      rxSinceTimeout, ackTimeout := ASYNC_MAX_RX_TIME, ASYNC_MAX_ACK_TIME;
      errorTracker := new ACErrorTracker();
      lwip := new Lwip(Tcp(if hasPcb then HookedAll else HookedErr, established, sndbuf, [], 0, []));
      notices, processed, replies := [], 0, [];
    }

    function IsConnected(): bool
      reads this, lwip
    {
      pcb && lwip.tcp.established
    }

    function SpaceLeft(): nat
      reads this, lwip
    {
      if IsConnected() && lwip.tcp.Outstanding() <= lwip.tcp.cap
      then lwip.tcp.cap - lwip.tcp.Outstanding() else 0
    }

    function MaySend(): bool
      reads this, lwip
    {
      !pcbBusy && SpaceLeft() > 0
    }

    // ---- sending

    method Add(data: bytes, writeOk: bool) returns (n: nat)
      modifies this, lwip
      ensures (View(), n) == AddTo(old(View()), data, writeOk)
      ensures n <= |data| && (n > 0 ==> n == |data| || SpaceLeft() == 0)
    {
      if !pcb || |data| == 0 {
        return 0;
      }
      var room := SpaceLeft();
      if room == 0 {
        return 0;
      }
      var willSend := if room < |data| then room else |data|;
      lwip.QueueData(data[..willSend], writeOk);
      if !writeOk {
        return 0;
      }
      txUnackedLen := Plus32(txUnackedLen, willSend);
      return willSend;
    }

    method Send(outputOk: bool, now: u32) returns (sent: bool)
      modifies this, lwip
      ensures (View(), sent) == SendNow(old(View()), outputOk, now)
    {
      lwip.Record(TcpOutput(pcb, outputOk, now));
      if outputOk {
        pcbBusy := true;
        pcbSentAt := now;
        return true;
      }
      return false;
    }

    method Write(data: bytes, writeOk: bool, outputOk: bool, now: u32) returns (n: nat)
      modifies this, lwip
      ensures (View(), n) == WriteTo(old(View()), data, writeOk, outputOk, now)
    {
      var willSend := Add(data, writeOk);
      if willSend == 0 {
        return 0;
      }
      var sent := Send(outputOk, now);
      return if sent then willSend else 0;
    }

    // ---- acknowledging

    method Ack(len: nat) returns (n: nat)
      modifies this, lwip
      ensures (View(), n) == AckBytes(old(View()), len)
      ensures n <= len && rxAckLen + n == old(rxAckLen) && (n == len || rxAckLen == 0)
    {
      n := len;
      if n > rxAckLen {
        n := rxAckLen;
      }
      if n > 0 {
        lwip.Record(TcpRecved(pcb, ByAck, n));
      }
      rxAckLen := rxAckLen - n;
    }

    // ---- teardown

    /** `_error` */
    method Error(env: Env, err: Err)
      modifies this, errorTracker, lwip
      ensures View() == Fail(env, old(View()).(pcb := false), err)
      decreases 0, 5 + |env.onError| + |env.onDisconnect|
    {
      if pcb {
        pcb := false;
      }
      assert View() == old(View()).(pcb := false);
      notices := notices + [OnError(err)];
      RunHandler(env, env.onError);
      notices := notices + [OnDisconnect];
      RunHandler(env, env.onDisconnect);
    }

    /** `_s_error` */
    method OnLwipError(env: Env, err: Err)
      modifies this, errorTracker, lwip
      ensures View() == ErrorCallback(env, old(View()).(pcb := false), err)
      decreases 0, 6 + |env.onError| + |env.onDisconnect|
    {
      lwip.Unhook();
      errorTracker.SetCloseError(err);
      errorTracker.SetErrored(EeErrorCb);
      Error(env, err);
    }

    /** `abort` */
    method Abort(env: Env)
      modifies this, errorTracker, lwip
      ensures View() == AbortNow(env, old(View()))
      decreases if pcb then 1 else 0, 0
    {
      if pcb {
        lwip.Record(TcpAbort);
        if lwip.tcp.hook != Unhooked {
          OnLwipError(env, ErrAbrt);
        }
        pcb := false;
        errorTracker.SetCloseError(ErrAbrt);
      }
    }

    /** `_close` */
    method CloseConnection(env: Env)
      modifies this, errorTracker, lwip
      ensures View() == CloseNow(env, old(View()))
      decreases if pcb then 1 else 0, 1
    {
      if pcb {
        lwip.Unhook();
        lwip.Record(TcpClose(env.closeOk));
        if env.closeOk {
          errorTracker.SetCloseError(ErrOk);
        } else {
          Abort(env);
        }
        pcb := false;
        notices := notices + [OnDisconnect];
        RunHandler(env, env.onDisconnect);
      }
    }

    method Close(env: Env, immediately: bool)
      modifies this, errorTracker, lwip
      ensures View() == CloseCall(env, old(View()), immediately)
      decreases if pcb then 1 else 0, 2
    {
      if pcb {
        lwip.Record(TcpRecved(true, ByClose, rxAckLen));
      }
      if immediately {
        CloseConnection(env);
      } else {
        closePcb := true;
      }
    }

    // ---- the application

    method Perform(env: Env, a: Api)
      modifies this, errorTracker, lwip
      ensures View() == Do(env, old(View()), a)
      decreases if pcb then 1 else 0, 3
    {
      match a
      case Write(data, writeOk, outputOk, now) => var _ := Write(data, writeOk, outputOk, now);
      case Add(data, writeOk) => var _ := Add(data, writeOk);
      case Send(outputOk, now) => var _ := Send(outputOk, now);
      case Ack(len) => var _ := Ack(len);
      case AckLater => ackPcb := false;
      case Close(immediately) => Close(env, immediately);
      case Abort => Abort(env);
      case SetRxTimeout(t) => rxSinceTimeout := t;
      case SetAckTimeout(t) => ackTimeout := t;
    }

    /** A handler of the application making its calls. */
    method RunHandler(env: Env, prog: Program)
      modifies this, errorTracker, lwip
      ensures View() == Run(env, old(View()), prog)
      decreases if pcb then 1 else 0, 4 + |prog|
    {
      var i := 0;
      while i < |prog|
        invariant 0 <= i <= |prog|
        invariant Run(env, View(), prog[i..]) == Run(env, old(View()), prog)
        invariant pcb ==> old(pcb)
      {
        assert prog[i..][0] == prog[i] && prog[i..][1..] == prog[i + 1..];
        Perform(env, prog[i]);
        i := i + 1;
      }
    }

    // ---- callbacks from lwIP

    method Answer()
      modifies this, errorTracker
      ensures View() == Reply(old(View()))
    {
      var e := errorTracker.GetCallbackCloseError();
      replies := replies + [e];
    }

    /** `_connected` */
    method Connected(env: Env, err: Err, now: u32, handler: Program)
      modifies this, errorTracker, lwip
      ensures View() == ConnectedCallback(env, old(View()), err, now, handler)
    {
      if err != ErrOk {
        errorTracker.SetCloseError(err);
        errorTracker.SetErrored(EeConnectedCb);
        lwip.Unhook();
        pcb := false;
        Error(env, err);
      } else {
        pcb := true;
        pcbBusy := false;
        rxLastPacket := now;
        lwip.tcp := lwip.tcp.(hook := HookedAll, established := true);
        notices := notices + [Notice.OnConnect];
        assert View() == Note(old(View()).(pcb := true, pcbBusy := false, rxLastPacket := now,
                              tcp := old(View()).tcp.(hook := HookedAll, established := true)), Notice.OnConnect);
        RunHandler(env, handler);
      }
    }

    method OnConnected(env: Env, err: Err, now: u32, handler: Program)
      modifies this, errorTracker, lwip
      ensures View() == Reply(ConnectedCallback(env, old(View()), err, now, handler))
    {
      Connected(env, err, now, handler);
      Answer();
    }

    /** `_sent`: the counters. */
    method CountSent(len: nat, now: u32)
      requires len < 0x1_0000
      modifies this, lwip
      ensures View() == SentCounted(old(View()), len, now)
    {
      lwip.tcp := lwip.tcp.(acked := lwip.tcp.acked + len);
      rxLastPacket := now;
      var covered := if txUnackedLen > len then len else txUnackedLen;
      txUnackedLen := txUnackedLen - covered;
      txAckedLen := Plus32(txAckedLen, len);
    }

    /** `_sent`: nothing is left outstanding, the ack handler is about to run. */
    method NotifySent(at: u32)
      modifies this, errorTracker
      ensures View() == SentNotified(old(View()), at)
    {
      pcbBusy := false;
      errorTracker.SetCloseError(ErrOk);
      notices := notices + [OnAck(txAckedLen, Minus32(at, pcbSentAt))];
    }

    /** `_s_sent` up to the ack handler; `notify` says whether it is called. */
    method BeginSent(len: nat, now: u32, at: u32) returns (notify: bool)
      requires len < 0x1_0000
      modifies this, errorTracker, lwip
      ensures var c1 := SentCounted(old(View()), len, now);
        notify == (c1.txUnackedLen == 0) && View() == if notify then SentNotified(c1, at) else c1
    {
      CountSent(len, now);
      notify := txUnackedLen == 0;
      if notify {
        NotifySent(at);
      }
    }

    /** `_s_sent` from the return of the ack handler. */
    method EndSent(notify: bool)
      modifies this, errorTracker
      ensures View() == Reply(if notify then old(View()).(txAckedLen := 0) else old(View()))
    {
      if notify {
        txAckedLen := 0;
      }
      Answer();
    }

    method OnSent(env: Env, len: nat, now: u32, at: u32, handler: Program)
      requires len < 0x1_0000
      modifies this, errorTracker, lwip
      ensures View() == Reply(SentCallback(env, old(View()), len, now, at, handler))
    {
      var notify := BeginSent(len, now, at);
      if notify {
        RunHandler(env, handler);
      }
      EndSent(notify);
    }

    /** `_recv` */
    method Recv(env: Env, chain: seq<Packet>, err: Err, now: u32)
      modifies this, errorTracker, lwip
      ensures View() == RecvCallback(env, old(View()), chain, err, now)
    {
      if err != ErrOk {
        errorTracker.SetCloseError(err);
        errorTracker.SetErrored(EeRecvCb);
        lwip.Unhook();
        pcb := false;
        Error(env, err);
      } else if chain == [] {
        CloseConnection(env);
      } else {
        rxLastPacket := now;
        errorTracker.SetCloseError(ErrOk);
        DeliverChain(env, chain);
      }
    }

    /** The loop of `_recv` that unlinks the pbufs of a chain one by one. */
    method DeliverChain(env: Env, chain: seq<Packet>)
      modifies this, errorTracker, lwip
      ensures View() == ReceiveAll(env, old(View()), chain)
    {
      var pb := chain;
      while |pb| > 0
        invariant ReceiveAll(env, View(), pb) == ReceiveAll(env, old(View()), chain)
        decreases |pb|
      {
        var b := pb[0];
        pb := pb[1..];
        ackPcb := true;
        notices := notices + [OnData(b.data)];
        RunHandler(env, b.handler);
        CreditPacket(|b.data|);
      }
    }

    /** The end of that loop's body: credit one pbuf, or withhold it. */
    method CreditPacket(len: nat)
      modifies this, lwip
      ensures View() == Credit(old(View()), len)
    {
      if !ackPcb {
        rxAckLen := rxAckLen + len;
      } else {
        lwip.Record(TcpRecved(pcb, ByRecv, len));
      }
      processed := processed + len;
    }

    method OnRecv(env: Env, chain: seq<Packet>, err: Err, now: u32)
      modifies this, errorTracker, lwip
      ensures View() == Reply(RecvCallback(env, old(View()), chain, err, now))
    {
      Recv(env, chain, err, now);
      Answer();
    }

    /** `_poll`, up to the handler it is going to call. */
    method PollChecks(env: Env, now: u32) returns (h: PollHandler)
      modifies this, errorTracker, lwip
      ensures (View(), h) == PollChecked(env, old(View()), now)
    {
      errorTracker.SetCloseError(ErrOk);
      ghost var c1 := View();
      assert c1 == old(View()).(tracker := WithCloseError(old(View()).tracker, ErrOk));
      if closePcb {
        closePcb := false;
        assert View() == c1.(closePcb := false);
        CloseConnection(env);
        return NoHandler;
      }
      if pcbBusy && ackTimeout != 0 && Minus32(now, pcbSentAt) >= ackTimeout {
        pcbBusy := false;
        notices := notices + [OnTimeout(Minus32(now, pcbSentAt))];
        return TimeoutHandler;
      }
      if rxSinceTimeout != 0 && Minus32(now, rxLastPacket) >= (rxSinceTimeout * 1000) % WORD {
        CloseConnection(env);
        return NoHandler;
      }
      notices := notices + [Notice.OnPoll];
      return IdleHandler;
    }

    /** `_poll` */
    method Poll(env: Env, now: u32, handler: Program)
      modifies this, errorTracker, lwip
      ensures View() == PollCallback(env, old(View()), now, handler)
    {
      var h := PollChecks(env, now);
      if h != NoHandler {
        RunHandler(env, handler);
      }
    }

    method OnPoll(env: Env, now: u32, handler: Program)
      modifies this, errorTracker, lwip
      ensures View() == Reply(PollCallback(env, old(View()), now, handler))
    {
      Poll(env, now, handler);
      Answer();
    }

    /** Any event, from the application or from lwIP. */
    method Handle(env: Env, ev: Event)
      requires Allowed(View(), ev)
      modifies this, errorTracker, lwip
      ensures View() == Step(env, old(View()), ev)
    {
      match ev
      case Call(api) => Perform(env, api);
      case LwipConnected(err, now, handler) => OnConnected(env, err, now, handler);
      case LwipSent(len, now, at, handler) => OnSent(env, len, now, at, handler);
      case LwipRecv(chain, err, now) => OnRecv(env, chain, err, now);
      case LwipPoll(now, handler) => OnPoll(env, now, handler);
      case LwipError(err) => OnLwipError(env, err);
      case LwipState(established) => lwip.tcp := lwip.tcp.(established := established);
    }
  }
}
