/** What a handler that gives up the connection from inside a callback does to the
    credit at the end of `_recv`. */
module ClientHandlers {
  import opened Words
  import opened ErrorTracker
  import opened ClientSpec
  import opened ClientProofs
  import opened ClientRuns

  /** The calls that give up the pcb at once. */
  predicate GivesUp(a: Api) { a.Abort? || (a.Close? && a.immediately) }

  predicate KeepsPcb(prog: Program) { forall k :: 0 <= k < |prog| ==> !GivesUp(prog[k]) }

  lemma GivesUpPcb(e: Env, c: Client, a: Api)
    requires c.pcb
    ensures Do(e, c, a).pcb <==> !GivesUp(a)
  {
    match a
    case Close(immediately) =>
    case Abort =>
    case _ =>
  }

  /** A handler leaves the client its pcb if and only if it neither aborts nor closes
      at once. */
  lemma {:induction false} HandlerKeepsPcb(e: Env, c: Client, prog: Program)
    requires c.pcb
    ensures Run(e, c, prog).pcb <==> KeepsPcb(prog)
    decreases |prog|
  {
    if prog != [] {
      GivesUpPcb(e, c, prog[0]);
      KeepsRest(prog);
      if !GivesUp(prog[0]) {
        HandlerKeepsPcb(e, Do(e, c, prog[0]), prog[1..]);
      }
    }
  }

  lemma KeepsRest(prog: Program)
    requires prog != []
    ensures KeepsPcb(prog) <==> !GivesUp(prog[0]) && KeepsPcb(prog[1..])
  {
    assert prog == [prog[0]] + prog[1..];
  }

  // ---- whether the packet is still to be credited

  /** A call that withholds the packet, itself or through the handlers it runs. */
  predicate Withholds(e: Env, a: Api, live: bool) {
    || a.AckLater?
    || (live && a.Abort? && (AckLater in e.onError || AckLater in e.onDisconnect))
    || (live && a.Close? && a.immediately && AckLater in e.onDisconnect)
  }

  /** Whether a handler started with the pcb owned, or not, withholds its packet. */
  predicate WithheldBy(e: Env, prog: Program, live: bool)
    decreases |prog|
  {
    prog != [] && (Withholds(e, prog[0], live) || WithheldBy(e, prog[1..], live && !GivesUp(prog[0])))
  }

  lemma {:induction false} DeadRunWithholds(e: Env, c: Client, prog: Program)
    requires !c.pcb
    ensures Run(e, c, prog).ackPcb <==> c.ackPcb && AckLater !in prog
    decreases |prog|
  {
    if prog != [] {
      assert prog == [prog[0]] + prog[1..];
      DeadDoWithholds(e, c, prog[0]);
      DeadRunWithholds(e, Do(e, c, prog[0]), prog[1..]);
    }
  }

  lemma DeadDoWithholds(e: Env, c: Client, a: Api)
    requires !c.pcb
    ensures Do(e, c, a).ackPcb <==> c.ackPcb && !a.AckLater?
  {
    match a
    case Close(_) => assert CloseNow(e, c) == c;
    case _ =>
  }

  lemma AbortWithholds(e: Env, c: Client)
    requires c.pcb
    ensures AbortNow(e, c).ackPcb <==>
      c.ackPcb && (c.tcp.hook == Unhooked || (AckLater !in e.onError && AckLater !in e.onDisconnect))
  {
    if c.tcp.hook != Unhooked {
      var c2 := Note(Aborted(c), OnError(ErrAbrt));
      DeadRunWithholds(e, c2, e.onError);
      var c3 := Note(Run(e, c2, e.onError), OnDisconnect);
      DeadRunWithholds(e, c3, e.onDisconnect);
      AbortIsFail(e, c);
    }
  }

  lemma CloseWithholds(e: Env, c: Client)
    requires c.pcb
    ensures CloseNow(e, c).ackPcb <==> c.ackPcb && AckLater !in e.onDisconnect
  {
    CloseIsHung(e, c);
    DeadRunWithholds(e, Note(Hung(e, c), OnDisconnect), e.onDisconnect);
  }

  /** The pcb, while owned, has all its callbacks registered. */
  predicate Attached(c: Client) { c.pcb ==> c.tcp.hook == HookedAll }

  lemma DoWithholds(e: Env, c: Client, a: Api)
    requires Attached(c)
    ensures Do(e, c, a).ackPcb <==> c.ackPcb && !Withholds(e, a, c.pcb)
    ensures Attached(Do(e, c, a))
  {
    if !c.pcb {
      DeadDoWithholds(e, c, a);
    } else if a.Close? {
      CloseWithholds(e, Log(c, TcpRecved(true, ByClose, c.rxAckLen)));
    } else if a.Abort? {
      AbortWithholds(e, c);
    } else {
      OtherWithholds(e, c, a);
    }
  }

  lemma OtherWithholds(e: Env, c: Client, a: Api)
    requires !a.Close? && !a.Abort?
    ensures var r := Do(e, c, a); (r.ackPcb <==> c.ackPcb && !a.AckLater?) && r.tcp.hook == c.tcp.hook && r.pcb == c.pcb
  {
    match a
    case Write(_, _, _, _) =>
    case Add(_, _) =>
    case Send(_, _) =>
    case Ack(_) =>
    case AckLater =>
    case SetRxTimeout(_) =>
    case SetAckTimeout(_) =>
  }

  lemma {:induction false} HandlerWithholds(e: Env, c: Client, prog: Program)
    requires Attached(c)
    ensures Run(e, c, prog).ackPcb <==> c.ackPcb && !WithheldBy(e, prog, c.pcb)
    ensures Attached(Run(e, c, prog))
    decreases |prog|
  {
    if prog != [] {
      DoWithholds(e, c, prog[0]);
      if c.pcb {
        GivesUpPcb(e, c, prog[0]);
      }
      HandlerWithholds(e, Do(e, c, prog[0]), prog[1..]);
    }
  }

  // ---- one pbuf, and a chain of them

  /** What `_recv` credits for one pbuf whose handler starts with the pcb owned, or not:
      its whole length, unless it is withheld; to a pcb given up, if the handler or an
      earlier one gave it up. */
  function CreditOf(e: Env, p: Packet, live: bool): seq<LwipCall> {
    if WithheldBy(e, p.handler, live) then []
    else [TcpRecved(live && KeepsPcb(p.handler), ByRecv, |p.data|)]
  }

  function CreditsOf(e: Env, chain: seq<Packet>, live: bool): seq<LwipCall>
    decreases |chain|
  {
    if chain == [] then []
    else CreditOf(e, chain[0], live) + CreditsOf(e, chain[1..], live && KeepsPcb(chain[0].handler))
  }

  lemma ReceiveCredits(e: Env, c: Client, p: Packet)
    requires Attached(c)
    ensures var r := Receive(e, c, p);
      && ByRecvCredits(r.tcp.calls) == ByRecvCredits(c.tcp.calls) + CreditOf(e, p, c.pcb)
      && Attached(r) && (r.pcb <==> c.pcb && KeepsPcb(p.handler))
  {
    var c0 := Note(c.(ackPcb := true), OnData(p.data));
    KeptRun(e, c0, p.handler);
    HandlerWithholds(e, c0, p.handler);
    if c.pcb {
      HandlerKeepsPcb(e, c0, p.handler);
    }
    CreditLogged(Deliver(e, c, p), |p.data|);
  }

  lemma CreditLogged(c: Client, len: nat)
    ensures ByRecvCredits(Credit(c, len).tcp.calls) ==
      ByRecvCredits(c.tcp.calls) + if c.ackPcb then [TcpRecved(c.pcb, ByRecv, len)] else []
  {
    CallAdded(c.tcp.calls, TcpRecved(c.pcb, ByRecv, len));
    assert ByRecvCredits(c.tcp.calls) + [] == ByRecvCredits(c.tcp.calls);
  }

  lemma Joined<T>(s: seq<T>, t: seq<T>, u: seq<T>)
    ensures s + t + u == s + (t + u)
  {
  }

  /** A chain is credited exactly as these functions of its handlers say. */
  lemma {:induction false} ChainCredits(e: Env, c: Client, chain: seq<Packet>)
    requires Attached(c)
    ensures ByRecvCredits(ReceiveAll(e, c, chain).tcp.calls) ==
      ByRecvCredits(c.tcp.calls) + CreditsOf(e, chain, c.pcb)
    decreases |chain|
  {
    if chain != [] {
      var r := Receive(e, c, chain[0]);
      ReceiveCredits(e, c, chain[0]);
      ChainCredits(e, r, chain[1..]);
      Joined(ByRecvCredits(c.tcp.calls), CreditOf(e, chain[0], c.pcb), CreditsOf(e, chain[1..], r.pcb));
    }
  }

  /** The lengths of the credits to a pcb still owned, or to one given up. */
  function Lengths(calls: seq<LwipCall>, live: bool): seq<nat>
    decreases |calls|
  {
    if calls == [] then []
    else
      (if calls[0].TcpRecved? && calls[0].live == live then [calls[0].len] else []) + Lengths(calls[1..], live)
  }

  lemma {:induction false} LengthsJoin(s: seq<LwipCall>, t: seq<LwipCall>, live: bool)
    ensures Lengths(s + t, live) == Lengths(s, live) + Lengths(t, live)
    decreases |s|
  {
    if s == [] {
      assert s + t == t;
    } else {
      assert (s + t)[1..] == s[1..] + t;
      LengthsJoin(s[1..], t, live);
    }
  }

  /** What `_recv` credited to the window of a live connection. */
  function LiveCredits(calls: seq<LwipCall>): seq<nat> { Lengths(ByRecvCredits(calls), true) }

  /** What it credited to a pcb already given up. */
  function StrayCredits(calls: seq<LwipCall>): seq<nat> { Lengths(ByRecvCredits(calls), false) }

  /** The pbufs that are credited at once: those whose handler, like all before it, keeps
      the pcb, and does not withhold. */
  function ClearedOf(e: Env, chain: seq<Packet>, live: bool): seq<nat>
    decreases |chain|
  {
    if chain == [] then []
    else
      var keeps := live && KeepsPcb(chain[0].handler);
      (if keeps && !WithheldBy(e, chain[0].handler, true) then [|chain[0].data|] else [])
        + ClearedOf(e, chain[1..], keeps)
  }

  function StraysOf(e: Env, chain: seq<Packet>, live: bool): seq<nat>
    decreases |chain|
  {
    if chain == [] then []
    else StrayOf(e, chain[0], live) + StraysOf(e, chain[1..], live && KeepsPcb(chain[0].handler))
  }

  /** What one pbuf credits to a pcb given up: its length, or nothing. */
  function StrayOf(e: Env, p: Packet, live: bool): seq<nat> {
    if (live && KeepsPcb(p.handler)) || WithheldBy(e, p.handler, live) then [] else [|p.data|]
  }

  lemma {:induction false} CreditsSplit(e: Env, chain: seq<Packet>, live: bool)
    ensures Lengths(CreditsOf(e, chain, live), true) == ClearedOf(e, chain, live)
    ensures Lengths(CreditsOf(e, chain, live), false) == StraysOf(e, chain, live)
    decreases |chain|
  {
    if chain != [] {
      var one, rest := CreditOf(e, chain[0], live), CreditsOf(e, chain[1..], live && KeepsPcb(chain[0].handler));
      CreditsSplit(e, chain[1..], live && KeepsPcb(chain[0].handler));
      LengthsJoin(one, rest, true);
      LengthsJoin(one, rest, false);
      assert one != [] ==> one[1..] == [];
    }
  }

  /** A chain that reaches a live client: the window is credited exactly the pbufs, in
      order, whose handler keeps the pcb and does not withhold. */
  lemma LiveCreditsExactly(e: Env, c: Client, chain: seq<Packet>, now: u32)
    requires Healthy(c) && chain != []
    ensures LiveCredits(Step(e, c, LwipRecv(chain, ErrOk, now)).tcp.calls) ==
      LiveCredits(c.tcp.calls) + ClearedOf(e, chain, true)
  {
    RecvEventCredits(e, c, chain, now);
    LengthsJoin(ByRecvCredits(c.tcp.calls), CreditsOf(e, chain, true), true);
    CreditsSplit(e, chain, true);
  }

  lemma RecvEventCredits(e: Env, c: Client, chain: seq<Packet>, now: u32)
    requires Healthy(c) && chain != []
    ensures ByRecvCredits(Step(e, c, LwipRecv(chain, ErrOk, now)).tcp.calls) ==
      ByRecvCredits(c.tcp.calls) + CreditsOf(e, chain, true)
  {
    ChainCredits(e, c.(rxLastPacket := now, tracker := WithCloseError(c.tracker, ErrOk)), chain);
  }

  /** `_recv` credits a pbuf to a pcb already given up if and only if the data handler, or
      an earlier one, gave it up and this handler does not withhold. */
  lemma RecvEventStrays(e: Env, c: Client, chain: seq<Packet>, now: u32)
    requires Healthy(c) && chain != []
    ensures StrayCredits(Step(e, c, LwipRecv(chain, ErrOk, now)).tcp.calls) ==
      StrayCredits(c.tcp.calls) + StraysOf(e, chain, true)
  {
    RecvEventCredits(e, c, chain, now);
    LengthsJoin(ByRecvCredits(c.tcp.calls), CreditsOf(e, chain, true), false);
    CreditsSplit(e, chain, true);
  }

  // ---- what is withheld

  predicate NoAcks(prog: Program) { forall k :: 0 <= k < |prog| ==> !prog[k].Ack? }

  predicate NoAcksIn(chain: seq<Packet>) { forall k :: 0 <= k < |chain| ==> NoAcks(chain[k].handler) }

  /** Neither of the handlers that end a connection acknowledges anything. */
  predicate QuietEnv(e: Env) { NoAcks(e.onError) && NoAcks(e.onDisconnect) }

  lemma {:induction false} DeadRunWithheld(e: Env, c: Client, prog: Program)
    requires !c.pcb && NoAcks(prog)
    ensures Run(e, c, prog).rxAckLen == c.rxAckLen
    decreases |prog|
  {
    if prog != [] {
      DeadDoWithheld(e, c, prog[0]);
      DeadRunWithheld(e, Do(e, c, prog[0]), prog[1..]);
    }
  }

  lemma DeadDoWithheld(e: Env, c: Client, a: Api)
    requires !c.pcb && !a.Ack?
    ensures Do(e, c, a).rxAckLen == c.rxAckLen
  {
    match a
    case Close(_) => assert CloseNow(e, c) == c;
    case _ =>
  }

  lemma FailWithheld(e: Env, c: Client, err: Err)
    requires !c.pcb && QuietEnv(e)
    ensures Fail(e, c, err).rxAckLen == c.rxAckLen
  {
    var c1 := Run(e, Note(c, OnError(err)), e.onError);
    DeadRunWithheld(e, Note(c, OnError(err)), e.onError);
    DeadRunWithheld(e, Note(c1, OnDisconnect), e.onDisconnect);
  }

  lemma DoWithheld(e: Env, c: Client, a: Api)
    requires QuietEnv(e) && !a.Ack? && Attached(c)
    ensures Do(e, c, a).rxAckLen == c.rxAckLen
  {
    if !c.pcb {
      DeadDoWithheld(e, c, a);
    } else if a.Close? {
      CloseWithheld(e, c, a.immediately);
    } else if a.Abort? {
      AbortIsFail(e, c);
      FailWithheld(e, Aborted(c), ErrAbrt);
    } else {
      OtherWithheld(e, c, a);
    }
  }

  lemma CloseWithheld(e: Env, c: Client, immediately: bool)
    requires QuietEnv(e) && c.pcb
    ensures CloseCall(e, c, immediately).rxAckLen == c.rxAckLen
  {
    var c1 := Log(c, TcpRecved(true, ByClose, c.rxAckLen));
    CloseIsHung(e, c1);
    DeadRunWithheld(e, Note(Hung(e, c1), OnDisconnect), e.onDisconnect);
  }

  lemma OtherWithheld(e: Env, c: Client, a: Api)
    requires !a.Ack? && !a.Close? && !a.Abort?
    ensures Do(e, c, a).rxAckLen == c.rxAckLen
  {
    match a
    case Write(_, _, _, _) =>
    case Add(_, _) =>
    case Send(_, _) =>
    case AckLater =>
    case SetRxTimeout(_) =>
    case SetAckTimeout(_) =>
  }

  lemma {:induction false} RunWithheld(e: Env, c: Client, prog: Program)
    requires QuietEnv(e) && NoAcks(prog) && Attached(c)
    ensures Run(e, c, prog).rxAckLen == c.rxAckLen
    decreases |prog|
  {
    if prog != [] {
      DoWithheld(e, c, prog[0]);
      DoWithholds(e, c, prog[0]);
      RunWithheld(e, Do(e, c, prog[0]), prog[1..]);
    }
  }

  /** The bytes of the pbufs that are withheld, by their own handlers or what these set off. */
  function WithheldOf(e: Env, chain: seq<Packet>, live: bool): nat
    decreases |chain|
  {
    if chain == [] then 0
    else
      var rest := WithheldOf(e, chain[1..], live && KeepsPcb(chain[0].handler));
      if WithheldBy(e, chain[0].handler, live) then |chain[0].data| + rest else rest
  }

  lemma ReceiveWithheld(e: Env, c: Client, p: Packet)
    requires QuietEnv(e) && NoAcks(p.handler) && Attached(c)
    ensures Receive(e, c, p).rxAckLen == c.rxAckLen + if WithheldBy(e, p.handler, c.pcb) then |p.data| else 0
  {
    var c0 := Note(c.(ackPcb := true), OnData(p.data));
    RunWithheld(e, c0, p.handler);
    HandlerWithholds(e, c0, p.handler);
  }

  lemma {:induction false} ChainWithheld(e: Env, c: Client, chain: seq<Packet>)
    requires QuietEnv(e) && NoAcksIn(chain) && Attached(c)
    ensures ReceiveAll(e, c, chain).rxAckLen == c.rxAckLen + WithheldOf(e, chain, c.pcb)
    decreases |chain|
  {
    if chain != [] {
      ReceiveWithheld(e, c, chain[0]);
      ReceiveCredits(e, c, chain[0]);
      ChainWithheld(e, Receive(e, c, chain[0]), chain[1..]);
    }
  }

  /** As long as no handler acknowledges anything itself, what a chain leaves to be
      acknowledged later is exactly the bytes that were withheld. */
  lemma WithheldExactly(e: Env, c: Client, chain: seq<Packet>, now: u32)
    requires Healthy(c) && chain != [] && QuietEnv(e) && NoAcksIn(chain)
    ensures Step(e, c, LwipRecv(chain, ErrOk, now)).rxAckLen == c.rxAckLen + WithheldOf(e, chain, true)
  {
    ChainWithheld(e, c.(rxLastPacket := now, tracker := WithCloseError(c.tracker, ErrOk)), chain);
  }

  /** Whether the handlers of the first `k` pbufs leave the pcb alone. */
  predicate LiveBefore(chain: seq<Packet>, k: nat)
    requires k <= |chain|
  {
    forall j :: 0 <= j < k ==> KeepsPcb(chain[j].handler)
  }

  /** Pbuf `k` is credited to a pcb given up. */
  predicate StrayAt(e: Env, chain: seq<Packet>, live: bool, k: nat)
    requires k < |chain|
  {
    !(live && LiveBefore(chain, k + 1)) && !WithheldBy(e, chain[k].handler, live && LiveBefore(chain, k))
  }

  /** There is a stray credit if and only if some handler gave up the pcb and it or
      a later one does not withhold its pbuf. */
  lemma {:induction false} StraysExactly(e: Env, chain: seq<Packet>, live: bool)
    ensures StraysOf(e, chain, live) != [] <==> exists k :: 0 <= k < |chain| && StrayAt(e, chain, live, k)
    decreases |chain|
  {
    if chain != [] {
      var rest, live' := chain[1..], live && KeepsPcb(chain[0].handler);
      StraysExactly(e, rest, live');
      assert StrayOf(e, chain[0], live) != [] <==> StrayAt(e, chain, live, 0);
      forall k | 0 <= k < |rest| ensures StrayAt(e, rest, live', k) == StrayAt(e, chain, live, k + 1) {
        LiveShift(chain, k);
        LiveShift(chain, k + 1);
      }
      if k :| 0 <= k < |chain| && StrayAt(e, chain, live, k) {
        if k > 0 {
          assert StrayAt(e, rest, live', k - 1);
        }
      }
    }
  }

  lemma LiveShift(chain: seq<Packet>, k: nat)
    requires chain != [] && k < |chain|
    ensures LiveBefore(chain, k + 1) <==> KeepsPcb(chain[0].handler) && LiveBefore(chain[1..], k)
  {
    if LiveBefore(chain, k + 1) {
      forall j | 0 <= j < k ensures KeepsPcb(chain[1..][j].handler) {
        assert chain[1..][j] == chain[j + 1];
      }
    }
    if KeepsPcb(chain[0].handler) && LiveBefore(chain[1..], k) {
      forall j | 0 <= j < k + 1 ensures KeepsPcb(chain[j].handler) {
        if j > 0 {
          assert chain[j] == chain[1..][j - 1];
        }
      }
    }
  }
}
