/** AsyncClient (src/ESPAsyncTCPClient.cpp, plain TCP build) as a transition
    system over values.  lwIP and the application are the environment: every
    answer lwIP gives and every call a handler makes is an input of the step, so
    a statement about all inputs is a statement about every lwIP and every
    application.  A handler is given by the finite list of client calls it makes. */
module ClientSpec {
  import opened Words
  import opened ErrorTracker

  /** Which of lwIP's callbacks are registered for the connection. */
  datatype Hook =
    | Unhooked      // none: cleared by the client, or the pcb is gone
    | HookedErr     // connecting: only the connect and error callbacks
    | HookedAll     // recv, sent, poll and error

  datatype Origin = ByRecv | ByAck | ByClose

  /** One call into lwIP.  `live` says whether the pcb passed was still owned. */
  datatype LwipCall =
    | TcpWrite(data: bytes, ok: bool)
    | TcpOutput(live: bool, ok: bool, at: u32)   // `at` is read once it has succeeded
    | TcpRecved(live: bool, origin: Origin, len: nat)
    | TcpClose(ok: bool)
    | TcpAbort

  /** lwIP's side of the connection. */
  datatype Tcp = Tcp(
    hook: Hook,
    established: bool,      // pcb->state == ESTABLISHED
    cap: nat,               // the whole send buffer
    queued: bytes,          // everything tcp_write has accepted, in order
    acked: nat,             // how much of it the peer has acknowledged
    calls: seq<LwipCall>)   // the calls received, in order
  {
    function Outstanding(): int { |queued| - acked }

    ghost predicate Sound() { 0 <= Outstanding() <= cap < 0x1_0000 }
  }

  /** The invocations of the application's handlers. */
  datatype Notice =
    | OnConnect
    | OnDisconnect
    | OnError(err: Err)
    | OnAck(len: u32, time: u32)
    | OnData(data: bytes)
    | OnTimeout(time: u32)
    | OnPoll

  /** The calls an application may make; the flags are lwIP's answers. */
  datatype Api =
    | Write(data: bytes, writeOk: bool, outputOk: bool, now: u32)
    | Add(data: bytes, writeOk: bool)
    | Send(outputOk: bool, now: u32)
    | Ack(len: nat)
    | AckLater
    | Close(immediately: bool)
    | Abort
    | SetRxTimeout(t: u32)
    | SetAckTimeout(t: u32)

  type Program = seq<Api>

  /** What the environment fixes for one connection: the answer of the only
      `tcp_close`, and the handlers that can run at most once. */
  datatype Env = Env(closeOk: bool, onError: Program, onDisconnect: Program)

  datatype Client = Client(
    pcb: bool,              // _pcb != NULL
    pcbBusy: bool,
    pcbSentAt: u32,
    closePcb: bool,
    ackPcb: bool,
    txUnackedLen: u32,
    txAckedLen: u32,
    rxAckLen: nat,
    rxLastPacket: u32,
    rxSinceTimeout: u32,
    ackTimeout: u32,
    tracker: Tracker,
    tcp: Tcp,
    notices: seq<Notice>,   // handler invocations so far
    processed: nat,         // bytes of pbufs whose processing is complete
    replies: seq<Err>)      // what the callbacks returned to lwIP

  const ASYNC_MAX_ACK_TIME: u32 := 3000
  const ASYNC_MAX_RX_TIME: u32 := 5

  function Rank(c: Client): nat { if c.pcb then 1 else 0 }

  function Log(c: Client, call: LwipCall): Client { c.(tcp := c.tcp.(calls := c.tcp.calls + [call])) }

  function Note(c: Client, n: Notice): Client { c.(notices := c.notices + [n]) }

  function Connected(c: Client): bool { c.pcb && c.tcp.established }

  function Space(c: Client): nat {
    if Connected(c) && c.tcp.Outstanding() <= c.tcp.cap then c.tcp.cap - c.tcp.Outstanding() else 0
  }

  function CanSend(c: Client): bool { !c.pcbBusy && Space(c) > 0 }

  // ---- sending

  function AddTo(c: Client, data: bytes, writeOk: bool): (Client, nat) {
    if !c.pcb || |data| == 0 || Space(c) == 0 then (c, 0)
    else
      var willSend := Min(Space(c), |data|);
      var c1 := Log(c, TcpWrite(data[..willSend], writeOk));
      if !writeOk then (c1, 0)
      else (c1.(txUnackedLen := Plus32(c.txUnackedLen, willSend),
                tcp := c1.tcp.(queued := c.tcp.queued + data[..willSend])), willSend)
  }

  function SendNow(c: Client, outputOk: bool, now: u32): (Client, bool) {
    var c1 := Log(c, TcpOutput(c.pcb, outputOk, now));
    if outputOk then (c1.(pcbBusy := true, pcbSentAt := now), true) else (c1, false)
  }

  function WriteTo(c: Client, data: bytes, writeOk: bool, outputOk: bool, now: u32): (Client, nat) {
    var (c1, willSend) := AddTo(c, data, writeOk);
    if willSend == 0 then (c1, 0)
    else
      var (c2, sent) := SendNow(c1, outputOk, now);
      (c2, if sent then willSend else 0)
  }

  // ---- acknowledging received data

  function AckBytes(c: Client, len: nat): (Client, nat) {
    var n := Min(len, c.rxAckLen);
    var c1 := if n > 0 then Log(c, TcpRecved(c.pcb, ByAck, n)) else c;
    (c1.(rxAckLen := c.rxAckLen - n), n)
  }

  // ---- teardown

  /** `_error` from the point where `_pcb` is NULL. */
  function Fail(e: Env, c: Client, err: Err): (r: Client)
    requires !c.pcb
    ensures !r.pcb
    decreases Rank(c), 5 + |e.onError| + |e.onDisconnect|
  {
    var c1 := Run(e, Note(c, OnError(err)), e.onError);
    Run(e, Note(c1, OnDisconnect), e.onDisconnect)
  }

  /** `_s_error`: lwIP has already freed the pcb. */
  function ErrorCallback(e: Env, c: Client, err: Err): (r: Client)
    requires !c.pcb
    ensures !r.pcb
    decreases Rank(c), 6 + |e.onError| + |e.onDisconnect|
  {
    var t := WithErrored(WithCloseError(c.tracker, err), EeErrorCb);
    Fail(e, c.(tracker := t, tcp := c.tcp.(hook := Unhooked)), err)
  }

  /** `abort`.  `tcp_abort` reports ERR_ABRT through the error callback when one
      is still registered. */
  function AbortNow(e: Env, c: Client): (r: Client)
    ensures r.pcb ==> c.pcb
    ensures !r.pcb
    decreases Rank(c), 0
  {
    if !c.pcb then c
    else
      var c1 := Log(c, TcpAbort);
      var c2 := if c.tcp.hook == Unhooked then c1.(pcb := false)
                else ErrorCallback(e, c1.(pcb := false), ErrAbrt);
      c2.(tracker := WithCloseError(c2.tracker, ErrAbrt))
  }

  /** `_close`. */
  function CloseNow(e: Env, c: Client): (r: Client)
    ensures !r.pcb
    decreases Rank(c), 1
  {
    if !c.pcb then c
    else
      var c1 := Log(c.(tcp := c.tcp.(hook := Unhooked)), TcpClose(e.closeOk));
      var c2 := if e.closeOk then c1.(pcb := false, tracker := WithCloseError(c1.tracker, ErrOk))
                else AbortNow(e, c1);
      Run(e, Note(c2, OnDisconnect), e.onDisconnect)
  }

  /** `close(now)`. */
  function CloseCall(e: Env, c: Client, immediately: bool): (r: Client)
    ensures r.pcb ==> c.pcb && !immediately
    decreases Rank(c), 2
  {
    var c1 := if c.pcb then Log(c, TcpRecved(true, ByClose, c.rxAckLen)) else c;
    if immediately then CloseNow(e, c1) else c1.(closePcb := true)
  }

  // ---- calls made by the application

  function Do(e: Env, c: Client, a: Api): (r: Client)
    ensures r.pcb ==> c.pcb
    decreases Rank(c), 3
  {
    match a
    case Write(data, writeOk, outputOk, now) => WriteTo(c, data, writeOk, outputOk, now).0
    case Add(data, writeOk) => AddTo(c, data, writeOk).0
    case Send(outputOk, now) => SendNow(c, outputOk, now).0
    case Ack(len) => AckBytes(c, len).0
    case AckLater => c.(ackPcb := false)
    case Close(immediately) => CloseCall(e, c, immediately)
    case Abort => AbortNow(e, c)
    case SetRxTimeout(t) => c.(rxSinceTimeout := t)
    case SetAckTimeout(t) => c.(ackTimeout := t)
  }

  function Run(e: Env, c: Client, prog: Program): (r: Client)
    ensures r.pcb ==> c.pcb
    decreases Rank(c), 4 + |prog|
  {
    if prog == [] then c else Run(e, Do(e, c, prog[0]), prog[1..])
  }

  // ---- callbacks from lwIP

  /** One pbuf of a received chain and the calls the data handler makes for it. */
  datatype Packet = Packet(data: bytes, handler: Program)

  function ConnectedCallback(e: Env, c: Client, err: Err, now: u32, handler: Program): Client {
    if err != ErrOk then
      var t := WithErrored(WithCloseError(c.tracker, err), EeConnectedCb);
      Fail(e, c.(pcb := false, tracker := t, tcp := c.tcp.(hook := Unhooked)), err)
    else
      var c1 := c.(pcb := true, pcbBusy := false, rxLastPacket := now,
                   tcp := c.tcp.(hook := HookedAll, established := true));
      Run(e, Note(c1, OnConnect), handler)
  }

  /** `_sent` up to the handler: the counters after `len` more bytes are acked. */
  function SentCounted(c: Client, len: nat, now: u32): (r: Client)
    requires len < 0x1_0000
    ensures r.pcb == c.pcb
  {
    c.(rxLastPacket := now,
       txUnackedLen := c.txUnackedLen - Min(c.txUnackedLen, len),
       txAckedLen := Plus32(c.txAckedLen, len),
       tcp := c.tcp.(acked := c.tcp.acked + len))
  }

  /** `_sent` when nothing is left outstanding, up to the handler's first call. */
  function SentNotified(c: Client, at: u32): (r: Client)
    ensures r.pcb == c.pcb
  {
    Note(c.(pcbBusy := false, tracker := WithCloseError(c.tracker, ErrOk)),
         OnAck(c.txAckedLen, Minus32(at, c.pcbSentAt)))
  }

  function SentCallback(e: Env, c: Client, len: nat, now: u32, at: u32, handler: Program): (r: Client)
    requires len < 0x1_0000
  {
    var c1 := SentCounted(c, len, now);
    if c1.txUnackedLen != 0 then c1
    else Run(e, SentNotified(c1, at), handler).(txAckedLen := 0)
  }

  /** One pbuf: the data handler, then the credit. */
  function Deliver(e: Env, c: Client, p: Packet): Client {
    Run(e, Note(c.(ackPcb := true), OnData(p.data)), p.handler)
  }

  function Credit(c: Client, len: nat): Client {
    if c.ackPcb then Log(c, TcpRecved(c.pcb, ByRecv, len)).(processed := c.processed + len)
    else c.(rxAckLen := c.rxAckLen + len, processed := c.processed + len)
  }

  function Receive(e: Env, c: Client, p: Packet): Client { Credit(Deliver(e, c, p), |p.data|) }

  function ReceiveAll(e: Env, c: Client, chain: seq<Packet>): Client
    decreases |chain|
  {
    if chain == [] then c else ReceiveAll(e, Receive(e, c, chain[0]), chain[1..])
  }

  /** `_recv`; the empty chain is the NULL pbuf that announces the peer's close. */
  function RecvCallback(e: Env, c: Client, chain: seq<Packet>, err: Err, now: u32): Client {
    if err != ErrOk then
      var t := WithErrored(WithCloseError(c.tracker, err), EeRecvCb);
      Fail(e, c.(pcb := false, tracker := t, tcp := c.tcp.(hook := Unhooked)), err)
    else if chain == [] then CloseNow(e, c)
    else ReceiveAll(e, c.(rxLastPacket := now, tracker := WithCloseError(c.tracker, ErrOk)), chain)
  }

  function AckTimedOut(c: Client, now: u32): bool {
    c.pcbBusy && c.ackTimeout != 0 && Minus32(now, c.pcbSentAt) >= c.ackTimeout
  }

  function RxTimedOut(c: Client, now: u32): bool {
    c.rxSinceTimeout != 0 && Minus32(now, c.rxLastPacket) >= (c.rxSinceTimeout * 1000) % WORD
  }

  /** `_poll`: which handler it ends up calling; `handler` is what that one does. */
  datatype PollHandler = NoHandler | TimeoutHandler | IdleHandler

  function PollChecked(e: Env, c: Client, now: u32): (Client, PollHandler) {
    var c1 := c.(tracker := WithCloseError(c.tracker, ErrOk));
    if c1.closePcb then (CloseNow(e, c1.(closePcb := false)), NoHandler)
    else if AckTimedOut(c1, now) then
      (Note(c1.(pcbBusy := false), OnTimeout(Minus32(now, c1.pcbSentAt))), TimeoutHandler)
    else if RxTimedOut(c1, now) then (CloseNow(e, c1), NoHandler)
    else (Note(c1, OnPoll), IdleHandler)
  }

  function PollCallback(e: Env, c: Client, now: u32, handler: Program): Client {
    var r := PollChecked(e, c, now);
    if r.1 == NoHandler then r.0 else Run(e, r.0, handler)
  }

  /** What a trampoline does last: answer lwIP. */
  function Reply(c: Client): Client {
    c.(replies := c.replies + [Answer(c.tracker)], tracker := Asked(c.tracker))
  }

  // ---- whole runs

  datatype Event =
    | Call(api: Api)                                         // from outside any callback
    | LwipConnected(err: Err, now: u32, handler: Program)
    | LwipSent(len: nat, now: u32, at: u32, handler: Program)
    | LwipRecv(chain: seq<Packet>, err: Err, now: u32)
    | LwipPoll(now: u32, handler: Program)
    | LwipError(err: Err)
    | LwipState(established: bool)

  /** lwIP's obligations: it calls back only through registered callbacks, and
      acknowledges only what was queued. */
  predicate Allowed(c: Client, ev: Event) {
    match ev
    case Call(_) => true
    case LwipConnected(_, _, _) => c.tcp.hook == HookedErr
    case LwipSent(len, _, _, _) => c.tcp.hook == HookedAll && len < 0x1_0000 && len <= c.tcp.Outstanding()
    case LwipRecv(_, _, _) => c.tcp.hook == HookedAll
    case LwipPoll(_, _) => c.tcp.hook == HookedAll
    case LwipError(err) => c.tcp.hook != Unhooked
    case LwipState(_) => c.tcp.hook == HookedAll
  }

  /** The events whose callback returns an answer to lwIP. */
  predicate Answered(ev: Event) {
    ev.LwipConnected? || ev.LwipSent? || ev.LwipRecv? || ev.LwipPoll?
  }

  ghost function Handled(e: Env, c: Client, ev: Event): Client
    requires Allowed(c, ev)
  {
    match ev
    case Call(api) => Do(e, c, api)
    case LwipConnected(err, now, handler) => ConnectedCallback(e, c, err, now, handler)
    case LwipSent(len, now, at, handler) => SentCallback(e, c, len, now, at, handler)
    case LwipRecv(chain, err, now) => RecvCallback(e, c, chain, err, now)
    case LwipPoll(now, handler) => PollCallback(e, c, now, handler)
    case LwipError(err) => ErrorCallback(e, c.(pcb := false), err)
    case LwipState(established) => c.(tcp := c.tcp.(established := established))
  }

  ghost function Step(e: Env, c: Client, ev: Event): Client
    requires Allowed(c, ev)
  {
    var c1 := Handled(e, c, ev);
    if Answered(ev) then Reply(c1) else c1
  }

  /** `c'` is reached from `c` by the events of `run`, each of them allowed. */
  ghost predicate Reaches(e: Env, c: Client, run: seq<Event>, c': Client)
    decreases |run|
  {
    if run == [] then c' == c
    else Allowed(c, run[0]) && Reaches(e, Step(e, c, run[0]), run[1..], c')
  }

  /** A fresh client: wrapped around an accepted pcb, or connecting. */
  ghost predicate FreshClient(c: Client) {
    && !c.pcbBusy && !c.closePcb && c.ackPcb
    && c.txUnackedLen == c.txAckedLen == 0 && c.rxAckLen == 0
    && c.rxSinceTimeout == ASYNC_MAX_RX_TIME && c.ackTimeout == ASYNC_MAX_ACK_TIME
    && c.tracker == FRESH_TRACKER
    && c.tcp.queued == [] && c.tcp.acked == 0 && c.tcp.cap < 0x1_0000 && c.tcp.calls == []
    && c.tcp.hook == (if c.pcb then HookedAll else HookedErr)
    && c.notices == [] && c.processed == 0 && c.replies == []
  }
}
