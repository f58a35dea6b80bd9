/** What each call of the application achieves, in terms of the send buffer, the receive
    window and the connection. */
module ClientCalls {
  import opened Words
  import opened ErrorTracker
  import opened ClientSpec
  import opened ClientProofs
  import opened ClientRuns

  /** There is a connection, and lwIP has room. */
  predicate Roomy(c: Client) { c.pcb && c.tcp.established && c.tcp.Outstanding() < c.tcp.cap }

  /** `add` queues as much as fits, from the front: all of the data, or enough to fill the
      send buffer; unless lwIP refuses, and then nothing.  It counts and reports exactly
      what it queued. */
  lemma AddQueuesWhatFits(c: Client, data: bytes, writeOk: bool)
    requires c.tcp.Sound()
    ensures var (r, n) := AddTo(c, data, writeOk);
      if !Roomy(c) || data == [] then r == c && n == 0
      else if !writeOk then n == 0 && r.tcp.queued == c.tcp.queued && r.txUnackedLen == c.txUnackedLen
      else
        && 0 < n <= |data| && (n == |data| || r.tcp.Outstanding() == r.tcp.cap) && r.tcp.Sound()
        && r.tcp.queued == c.tcp.queued + data[..n] && r.txUnackedLen == Plus32(c.txUnackedLen, n)
        && r.tcp.calls == c.tcp.calls + [TcpWrite(data[..n], true)]
  {
  }

  /** What `write` reports is what it queued, if it could also be sent; only then is the
      client busy because of it. */
  lemma WriteReportsSent(c: Client, data: bytes, writeOk: bool, outputOk: bool, now: u32)
    requires c.tcp.Sound()
    ensures var (r, n) := WriteTo(c, data, writeOk, outputOk, now);
      var queued := |r.tcp.queued| - |c.tcp.queued|;
      && n == (if outputOk then queued else 0)
      && (n > 0 ==> r.pcbBusy && r.pcbSentAt == now)
      && (n == 0 ==> r.pcbBusy == c.pcbBusy && r.pcbSentAt == c.pcbSentAt)
      && (queued > 0 <==> Roomy(c) && data != [] && writeOk)
  {
    AddQueuesWhatFits(c, data, writeOk);
  }

  /** `ack` credits all that is asked for, or all that is withheld; what it credits is no
      longer withheld. */
  lemma AckCreditsWhatItCan(c: Client, len: nat)
    ensures var (r, n) := AckBytes(c, len);
      && n <= len && (n == len || r.rxAckLen == 0) && r.rxAckLen + n == c.rxAckLen
      && r.tcp.calls == c.tcp.calls + if n > 0 then [TcpRecved(c.pcb, ByAck, n)] else []
  {
  }

  /** Until something is acknowledged the free space of a connection is what the send
      buffer holds less what is outstanding; without one there is none. */
  lemma SpaceIsFree(c: Client)
    requires c.tcp.Sound()
    ensures if c.pcb && c.tcp.established then Space(c) + c.tcp.Outstanding() == c.tcp.cap else Space(c) == 0
    ensures CanSend(c) <==> Roomy(c) && !c.pcbBusy
  {
  }

  /** What lwIP says about the state of a connection decides whether data can be sent. */
  lemma StateDecides(e: Env, c: Client, established: bool)
    requires Healthy(c)
    ensures Space(Step(e, c, LwipState(established))) == if established then c.tcp.cap - c.tcp.Outstanding() else 0
  {
  }

  /** A connection that has just been made can send at once. */
  lemma ConnectOpens(e: Env, c: Client, now: u32)
    requires Dialing(c) && c.tcp.acked == 0 && c.tcp.cap > 0
    ensures CanSend(ConnectedCallback(e, c, ErrOk, now, []))
  {
    SpaceIsFree(ConnectedCallback(e, c, ErrOk, now, []));
  }
}
