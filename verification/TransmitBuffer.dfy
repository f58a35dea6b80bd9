/** The transmit half of the AsyncTCPBuffer object: a heap-linked chain of queues
    that is grown at the tail and freed at the head. */
module TransmitBufferObject {
  import opened Words
  import opened ErrorTracker
  import opened ClientSpec
  import opened Transmit
  import opened TransmitRuns
  import opened TransmitWrite
  import opened CbufObject
  import opened AsyncClientObject

  /** The bytes stored in each node. */
  ghost function Contents(chain: seq<Cbuf>): seq<bytes>
    reads chain
  {
    seq(|chain|, k requires 0 <= k < |chain| reads chain => chain[k].data)
  }

  /** What may happen while `flush` yields to the system in `delay(0)`. */
  datatype Delay =
    | AckArrives(len: nat, now: u32, at: u32)
    | Polls(closeOk: bool, now: u32)
    | ConnectionLost      // the disconnect handler clears `_client`

  /** One turn of the loop in `write`. */
  lemma WriteLoopTurns(t: Tx, left: bytes, heap: seq<bool>, cap: nat, now: u32)
    requires |t.nodes| > 0 && 0 < cap && |Last(t.nodes)| <= cap && left != []
    ensures var w := Taken(t, left, cap);
      var grow := NeedsNode(Filled(t, left, cap, now), left[w..], cap);
      WriteLoop(t, left, heap, cap, now) ==
        if grow && Refused(heap) then (Filled(t, left, cap, now), w)
        else Plus(WriteLoop(Again(t, left, cap, now), left[w..],
                            if grow && heap != [] then heap[1..] else heap, cap, now), w)
    ensures var w := Taken(t, left, cap);
      !(NeedsNode(Filled(t, left, cap, now), left[w..], cap) && Refused(heap)) ==>
      Shrinks(t, left, Again(t, left, cap, now), left[w..], cap)
  {
  }

  /** The measure on which `write` terminates: bytes left, then whether the tail is full. */
  ghost predicate Shrinks(t: Tx, left: bytes, t': Tx, left': bytes, cap: nat)
    requires |t.nodes| > 0 && |t'.nodes| > 0
  {
    |left'| < |left| || (left' == left && |Last(t.nodes)| == cap && |Last(t'.nodes)| < cap)
  }

  ghost function Plus(r: (Tx, nat), n: nat): (Tx, nat) { (r.0, r.1 + n) }

  class TransmitBuffer {
    var client: AsyncClient?
    var txRead: Cbuf         // _TXbufferRead, the head
    var txWrite: Cbuf        // _TXbufferWrite, the tail
    const cap: nat           // TCP_MSS
    ghost const peer: AsyncClient
    ghost var chain: seq<Cbuf>
    ghost var repr: set<Cbuf>   // all nodes ever linked

    /** The nodes reachable from the head, in order: distinct, linked, ending at
        the tail. */
    ghost predicate Linked()
      reads this, chain
    {
      && (client == null || client == peer)
      && |chain| > 0 && 0 < cap
      && (forall k :: 0 <= k < |chain| ==> chain[k] in repr)
      && txRead == chain[0] && txWrite == chain[|chain| - 1]
      && (forall j, k :: 0 <= j < k < |chain| ==> chain[j] != chain[k])
      && (forall k {:trigger chain[k].next} :: 0 <= k < |chain| - 1 ==> chain[k].next == chain[k + 1])
      && chain[|chain| - 1].next == null
      && (forall k {:trigger chain[k].cap} {:trigger chain[k].data} :: 0 <= k < |chain| ==> chain[k].cap == cap && |chain[k].data| <= cap)
    }

    /** What holds outside the public methods and whenever `SendBuffer` starts. */
    ghost predicate Valid()
      reads this, chain
    {
      Linked() && Settled(Contents(chain), cap)
    }

    /** The object as a value of the specification. */
    ghost function View(faults: seq<Fault>): Tx
      reads this, chain, peer, peer.errorTracker, peer.lwip
    {
      Tx(Contents(chain), client != null, peer.View(), faults)
    }

    constructor (c: AsyncClient, mss: nat)
      requires 0 < mss
      ensures Valid() && client == peer == c && cap == mss && Contents(chain) == [[]]
      ensures fresh(repr)
    {
      var n := new Cbuf(mss);
      client, peer := c, c;
      cap := mss;
      txWrite := n;
      txRead := n;
      chain := [n];
      repr := {n};
    }

    /** `remove` on the head. */
    method TrimHead(n: nat)
      requires Linked() && n <= |txRead.data|
      modifies txRead`data
      ensures Linked() && Contents(chain) == [old(Contents(chain))[0][n..]] + old(Contents(chain))[1..]
    {
      ghost var nodes := Contents(chain);
      txRead.Remove(n);
      assert forall k :: 1 <= k < |chain| ==> chain[k] != txRead;
      assert Contents(chain) == [nodes[0][n..]] + nodes[1..];
    }

    /** Frees the head once it is drained and another node follows it. */
    method DropEmptyHead()
      requires Linked()
      modifies this`txRead, this`chain
      ensures Linked()
      ensures var nodes := old(Contents(chain));
        Contents(chain) == if nodes[0] == [] && |nodes| > 1 then nodes[1..] else nodes
    {
      assert |chain| > 1 ==> chain[0].next == chain[1];
      if txRead.data == [] && txRead.next != null {
        ghost var nodes := Contents(chain);
        txRead := txRead.next;
        chain := chain[1..];
        assert Contents(chain) == nodes[1..];
      }
    }

    /** The end of the send loop's body: remove what was sent. */
    method RemoveSent(n: nat)
      requires Linked() && n <= |txRead.data|
      modifies this`txRead, this`chain, txRead`data
      ensures Linked() && Contents(chain) == Consume(old(Contents(chain)), n)
    {
      ghost var nodes := Contents(chain);
      TrimHead(n);
      assert ([nodes[0][n..]] + nodes[1..])[1..] == nodes[1..];
      DropEmptyHead();
    }

    /** `_sendBuffer` */
    method SendBuffer(faults: seq<Fault>, now: u32) returns (rest: seq<Fault>)
      requires Valid()
      modifies this`txRead, this`chain, repr, peer, peer.lwip
      ensures Valid()
      ensures View(rest) == SendLoop(old(View(faults)), now)
    {
      if |txRead.data| == 0 || client == null || !client.IsConnected() || !client.MaySend() {
        assert !Ready(View(faults));
        return faults;
      }
      rest := SendWhileReady(faults, now);
    }

    /** Its loop. */
    method SendWhileReady(faults: seq<Fault>, now: u32) returns (rest: seq<Fault>)
      requires Valid() && client != null
      modifies this`txRead, this`chain, repr, peer, peer.lwip
      ensures Valid()
      ensures View(rest) == SendLoop(old(View(faults)), now)
    {
      rest := faults;
      while client.IsConnected() && client.SpaceLeft() > 0 && |txRead.data| > 0 && client.MaySend()
        invariant Valid() && client == peer
        invariant SendLoop(View(rest), now) == SendLoop(old(View(faults)), now)
        decreases |rest|, if client.pcbBusy then 0 else 1
      {
        ghost var t := View(rest);
        assert Ready(t);
        var f := Head(rest);
        rest := Tail(rest);
        if f == NoMemory {
          return;
        }
        assert txRead in repr;
        SendOnce(f, t, now);
      }
    }

    /** Copy what the client has room for out of the head and write it. */
    method OfferHead(f: Fault, ghost t: Tx, now: u32) returns (send: nat)
      requires Linked() && client == peer && |t.nodes| > 0 && Ready(t)
      requires t == View(t.faults) && f == Head(t.faults)
      modifies peer, peer.lwip
      ensures Linked() && Contents(chain) == t.nodes && peer.errorTracker.View() == t.client.tracker
      ensures (peer.View(), send) == WriteTo(t.client, Offered(t), f != WriteFails, f != OutputFails, now)
      ensures send <= |txRead.data|
    {
      var available := |txRead.data|;
      if available > client.SpaceLeft() {
        available := client.SpaceLeft();
      }
      var out := txRead.Peek(available);
      assert out == Offered(t);
      send := client.Write(out, f != WriteFails, f != OutputFails, now);
    }

    /** The body of that loop once the copy buffer is allocated. */
    method SendOnce(f: Fault, ghost t: Tx, now: u32)
      requires Valid() && client == peer && t == View(t.faults)
      requires Ready(t) && f == Head(t.faults)
      modifies this`txRead, this`chain, txRead`data, peer, peer.lwip
      ensures Valid() && client == peer
      ensures View(Tail(t.faults)) == Turn(t, now)
    {
      var send := OfferHead(f, t, now);
      ConsumeKeepsShape(t.nodes, send, cap);
      RemoveSent(send);
    }

    // ---- write

    /** `_TXbufferWrite->write` */
    method FillTail(d: bytes) returns (w: nat)
      requires Linked() && Chain(Contents(chain), cap)
      modifies txWrite`data
      ensures Linked()
      ensures w == Min(cap - |Last(old(Contents(chain)))|, |d|)
      ensures Contents(chain) == Fill(old(Contents(chain)), d, cap)
    {
      ghost var nodes := Contents(chain);
      w := txWrite.Write(d);
      assert forall k :: 0 <= k < |chain| - 1 ==> chain[k] != txWrite;
      assert Contents(chain) == Fill(nodes, d, cap);
    }

    /** Link a new node behind the tail and make it the tail. */
    method AddNode()
      requires Linked()
      modifies this`txWrite, this`chain, this`repr, txWrite`next
      ensures Linked() && Contents(chain) == old(Contents(chain)) + [[]]
      ensures fresh(repr - old(repr))
    {
      ghost var nodes := Contents(chain);
      var next := new Cbuf(cap);
      assert forall k :: 0 <= k < |chain| - 1 ==> chain[k] != txWrite;
      txWrite.next := next;
      txWrite := next;
      chain := chain + [next];
      repr := repr + {next};
      assert Contents(chain) == nodes + [[]];
    }

    /** One pass of the loop in `write`, up to the memory test. */
    method FillAndSend(left: bytes, faults: seq<Fault>, now: u32) returns (w: nat, rest: seq<Fault>)
      requires Linked() && Chain(Contents(chain), cap) && left != []
      modifies this`txRead, this`chain, repr, peer, peer.lwip
      ensures Valid() && client == old(client)
      ensures w == Taken(old(View(faults)), left, cap)
      ensures View(rest) == Filled(old(View(faults)), left, cap, now)
    {
      FillKeepsShape(Contents(chain), left, cap);
      w := FillTail(left);
      rest := SendBuffer(faults, now);
    }

    /** The rest of that pass: when the tail is full and data is left, test for
        memory and add a node. */
    method GrowIfNeeded(left: bytes, heap: seq<bool>, ghost t1: Tx) returns (refused: bool, heap': seq<bool>)
      requires Valid() && t1 == View(t1.faults)
      modifies this`txWrite, this`chain, this`repr, txWrite`next
      ensures Linked()
      ensures refused == (NeedsNode(t1, left, cap) && Refused(heap))
      ensures refused ==> Settled(Contents(chain), cap) && View(t1.faults) == t1
      ensures !refused ==> Chain(Contents(chain), cap) && (left == [] ==> Settled(Contents(chain), cap))
      ensures !refused ==> View(t1.faults) == if NeedsNode(t1, left, cap) then Grown(t1) else t1
      ensures heap' == if NeedsNode(t1, left, cap) && heap != [] then heap[1..] else heap
      ensures fresh(repr - old(repr))
    {
      refused, heap' := false, heap;
      if txWrite.IsFull() && |left| > 0 {
        assert NeedsNode(t1, left, cap);
        heap' := if heap != [] then heap[1..] else heap;
        if Refused(heap) {
          refused := true;
          return;
        }
        GrownKeepsChain(t1, left, cap);
        AddNode();
      }
    }

    /** The body of the loop in `write`. */
    method WritePass(left: bytes, heap: seq<bool>, faults: seq<Fault>, now: u32)
      returns (w: nat, refused: bool, heap': seq<bool>, rest: seq<Fault>)
      requires Linked() && Chain(Contents(chain), cap) && left != []
      modifies this`txRead, this`txWrite, this`chain, this`repr, repr, peer, peer.lwip
      ensures Linked() && client == old(client)
      ensures var t := old(View(faults));
        && w == Taken(t, left, cap)
        && var grow := NeedsNode(Filled(t, left, cap, now), left[w..], cap);
           && refused == (grow && Refused(heap))
           && heap' == (if grow && heap != [] then heap[1..] else heap)
           && View(rest) == (if refused then Filled(t, left, cap, now) else Again(t, left, cap, now))
      ensures Chain(Contents(chain), cap)
      ensures refused || w == |left| ==> Settled(Contents(chain), cap)
      ensures fresh(repr - old(repr))
    {
      w, rest := FillAndSend(left, faults, now);
      ghost var t1 := View(rest);
      assert txWrite in repr;
      refused, heap' := GrowIfNeeded(left[w..], heap, t1);
    }

    /** What is still to come of the loop of `write`, from the present state. */
    ghost function ToCome(refused: bool, left: bytes, heap: seq<bool>, faults: seq<Fault>, now: u32): (Tx, nat)
      requires |chain| > 0 && 0 < cap && |Last(Contents(chain))| <= cap
      reads this, chain, peer, peer.errorTracker, peer.lwip
    {
      if refused then (View(faults), 0) else WriteLoop(View(faults), left, heap, cap, now)
    }

    ghost predicate Writing(refused: bool, left: bytes)
      reads this, chain
    {
      Linked() && Chain(Contents(chain), cap) && (left == [] || refused ==> Settled(Contents(chain), cap))
    }

    /** The same pass, as one turn of the loop that `WriteLoop` describes; the
        whole loop yields `outcome`, and `taken` bytes have been taken before. */
    method WriteTurn(left: bytes, heap: seq<bool>, faults: seq<Fault>, now: u32,
                     ghost outcome: (Tx, nat), ghost taken: nat)
      returns (w: nat, refused: bool, heap': seq<bool>, rest: seq<Fault>)
      requires Writing(false, left) && left != []
      requires outcome.0 == ToCome(false, left, heap, faults, now).0
      requires outcome.1 == ToCome(false, left, heap, faults, now).1 + taken
      modifies this`txRead, this`txWrite, this`chain, this`repr, repr, peer, peer.lwip
      ensures w <= |left| && Writing(refused, left[w..]) && fresh(repr - old(repr))
      ensures outcome.0 == ToCome(refused, left[w..], heap', rest, now).0
      ensures outcome.1 == ToCome(refused, left[w..], heap', rest, now).1 + taken + w
      ensures !refused ==> Shrinks(old(View(faults)), left, View(rest), left[w..], cap)
    {
      WriteLoopTurns(View(faults), left, heap, cap, now);
      w, refused, heap', rest := WritePass(left, heap, faults, now);
    }

    /** `write`; reports how many bytes of `data` were accepted. */
    method Write(data: bytes, heap: seq<bool>, faults: seq<Fault>, now: u32)
      returns (accepted: nat, rest: seq<Fault>)
      requires Valid()
      modifies this`txRead, this`txWrite, this`chain, this`repr, repr, peer, peer.lwip
      ensures Valid()
      ensures View(rest) == WriteData(old(View(faults)), data, heap, cap, now).0
      ensures accepted == WriteData(old(View(faults)), data, heap, cap, now).1
      ensures accepted <= |data|
      ensures old(client != null && client.IsConnected()) && false !in heap ==> accepted == |data|
      ensures accepted < |data| && old(client != null && client.IsConnected()) ==> |txWrite.data| == cap
      ensures fresh(repr - old(repr))
    {
      ghost var t := View(faults);
      if client != null && client.IsConnected() {
        WriteAnswers(t, data, heap, cap, now);
      }
      if client == null || !client.IsConnected() || |data| == 0 {
        return 0, faults;
      }
      accepted, rest := WriteAll(data, heap, faults, now);
    }

    /** Its loop. */
    method WriteAll(data: bytes, heap: seq<bool>, faults: seq<Fault>, now: u32)
      returns (accepted: nat, rest: seq<Fault>)
      requires Valid()
      modifies this`txRead, this`txWrite, this`chain, this`repr, repr, peer, peer.lwip
      ensures Valid()
      ensures View(rest) == WriteLoop(old(View(faults)), data, heap, cap, now).0
      ensures accepted == WriteLoop(old(View(faults)), data, heap, cap, now).1
      ensures fresh(repr - old(repr))
    {
      rest := faults;
      var left, answers, refused := data, heap, false;
      accepted := 0;
      ghost var outcome := ToCome(false, data, heap, faults, now);
      while |left| > 0 && !refused
        invariant Writing(refused, left)
        invariant outcome.0 == ToCome(refused, left, answers, rest, now).0
        invariant outcome.1 == ToCome(refused, left, answers, rest, now).1 + accepted
        invariant fresh(repr - old(repr))
        decreases !refused, |left|, if |Last(Contents(chain))| == cap then 1 else 0
      {
        var w;
        w, refused, answers, rest := WriteTurn(left, answers, rest, now, outcome, accepted);
        left := left[w..];
        accepted := accepted + w;
      }
    }

    // ---- the handlers attached to the client

    /** The attached poll handler tests the head before it pumps; the test makes no
        difference to the outcome. */
    method PollHandler(faults: seq<Fault>, now: u32) returns (rest: seq<Fault>)
      requires Valid()
      modifies this`txRead, this`chain, repr, peer, peer.lwip
      ensures Valid() && repr == old(repr)
      ensures View(rest) == SendLoop(old(View(faults)), now)
    {
      rest := faults;
      if |txRead.data| > 0 {
        rest := SendBuffer(faults, now);
      }
    }

    /** The attached ack handler, when it is called at all. */
    method AckHandler(notify: bool, faults: seq<Fault>, now: u32) returns (rest: seq<Fault>)
      requires Valid()
      modifies this`txRead, this`chain, repr, peer, peer.lwip
      ensures Valid() && repr == old(repr)
      ensures View(rest) == if notify then SendLoop(old(View(faults)), now) else old(View(faults))
    {
      rest := faults;
      if notify {
        rest := SendBuffer(faults, now);
      }
    }

    /** `_s_sent` when the attached ack handler, which pumps, is the one it calls. */
    method OnAck(c: AsyncClient, len: nat, now: u32, at: u32, faults: seq<Fault>) returns (rest: seq<Fault>)
      requires Valid() && c == peer && len < 0x1_0000
      modifies this`txRead, this`chain, repr, peer, peer.errorTracker, peer.lwip
      ensures Valid() && repr == old(repr)
      ensures View(rest) == Acknowledged(old(View(faults)), len, now, at)
    {
      var notify := StartAck(c, len, now, at, faults);
      rest := AckHandler(notify, faults, now);
      FinishAck(c, notify, rest);
    }

    /** What comes before that handler. */
    method StartAck(c: AsyncClient, len: nat, now: u32, at: u32, ghost faults: seq<Fault>) returns (notify: bool)
      requires Valid() && c == peer && len < 0x1_0000
      modifies peer, peer.errorTracker, peer.lwip
      ensures Valid()
      ensures notify == (SentCounted(old(peer.View()), len, now).txUnackedLen == 0)
      ensures View(faults) == AckCounted(old(View(faults)), len, now, at)
    {
      notify := c.BeginSent(len, now, at);
      assert Contents(chain) == old(Contents(chain));
    }

    /** What comes after it. */
    method FinishAck(c: AsyncClient, notify: bool, ghost faults: seq<Fault>)
      requires Valid() && c == peer
      modifies peer, peer.errorTracker
      ensures Valid()
      ensures View(faults) == if notify then Settle(old(View(faults))) else Unsettled(old(View(faults)))
    {
      c.EndSent(notify);
      assert Contents(chain) == old(Contents(chain));
    }

    /** `_s_poll` when the handlers it may call are the buffer's. */
    method OnPoll(c: AsyncClient, env: Env, faults: seq<Fault>, now: u32) returns (rest: seq<Fault>)
      requires Valid() && c == peer
      modifies this`client, this`txRead, this`chain, repr, peer, peer.errorTracker, peer.lwip
      ensures Valid() && repr == old(repr)
      ensures View(rest) == PollReaches(env, old(View(faults)), now)
    {
      var h := StartPoll(c, env, now, faults);
      rest := HandlePoll(c, h, env, faults, now);
      AnswerPoll(c, rest);
    }

    method StartPoll(c: AsyncClient, env: Env, now: u32, ghost faults: seq<Fault>) returns (h: PollHandler)
      requires Valid() && c == peer
      modifies peer, peer.errorTracker, peer.lwip
      ensures Valid()
      ensures h == PollChecked(env, old(peer.View()), now).1
      ensures View(faults) == old(View(faults)).(client := PollChecked(env, old(peer.View()), now).0)
    {
      h := c.PollChecks(env, now);
      assert Contents(chain) == old(Contents(chain));
    }

    /** The handler of the buffer that a poll ends in. */
    method HandlePoll(c: AsyncClient, h: PollHandler, env: Env, faults: seq<Fault>, now: u32) returns (rest: seq<Fault>)
      requires Valid() && c == peer
      modifies this`client, this`txRead, this`chain, repr, peer, peer.errorTracker, peer.lwip
      ensures Valid() && repr == old(repr)
      ensures var t := old(View(faults));
        View(rest) == match h
          case NoHandler => t.(hasClient := false)
          case TimeoutHandler => t.(client := CloseCall(env, t.client, false))
          case IdleHandler => SendLoop(t, now)
    {
      rest := faults;
      match h
      case NoHandler => client := null;
      case TimeoutHandler =>
        c.Close(env, false);
        assert Contents(chain) == old(Contents(chain));
      case IdleHandler => rest := PollHandler(faults, now);
    }

    method AnswerPoll(c: AsyncClient, ghost faults: seq<Fault>)
      requires Valid() && c == peer
      modifies peer, peer.errorTracker
      ensures Valid() && View(faults) == Unsettled(old(View(faults)))
    {
      c.Answer();
      assert Contents(chain) == old(Contents(chain));
    }

    // ---- flush

    method Wait(c: AsyncClient, d: Delay, faults: seq<Fault>) returns (rest: seq<Fault>)
      requires Valid() && c == peer
      modifies this`client, this`txRead, this`chain, repr, peer, peer.errorTracker, peer.lwip
      ensures Valid() && repr == old(repr)
      ensures Extends(old(View(faults)), View(rest), [])
    {
      rest := faults;
      ghost var t := View(faults);
      assert Stream(t) + [] == Stream(t);
      match d
      case AckArrives(len, now, at) =>
        if len < 0x1_0000 && len <= c.lwip.tcp.Outstanding() {
          AcknowledgedExtends(t, len, now, at);
          rest := OnAck(c, len, now, at, faults);
        }
      case Polls(closeOk, now) =>
        if c.pcb {
          PollExtends(Env(closeOk, [], []), t, now);
          rest := OnPoll(c, Env(closeOk, [], []), faults, now);
        }
      case ConnectionLost => client := null;
    }

    /** The inner loop of `flush`: yield until the client can send or is gone. */
    method WaitUntilSendable(c: AsyncClient, delays: seq<Delay>, faults: seq<Fault>)
      returns (left: seq<Delay>, rest: seq<Fault>)
      requires Valid() && c == peer
      modifies this`client, this`txRead, this`chain, repr, peer, peer.errorTracker, peer.lwip
      ensures Valid() && repr == old(repr)
      ensures |left| < |delays| || (left == delays && rest == faults && View(rest) == old(View(faults)))
      ensures left != [] ==> client == null || !client.IsConnected() || client.MaySend()
      ensures Extends(old(View(faults)), View(rest), [])
    {
      left, rest := delays, faults;
      ghost var t0 := View(faults);
      assert Stream(t0) + [] == Stream(t0);
      while client != null && client.IsConnected() && !client.MaySend() && left != []
        invariant Valid() && repr == old(repr)
        invariant |left| < |delays| || (left == delays && rest == faults && View(rest) == t0)
        invariant Extends(t0, View(rest), [])
        decreases |left|
      {
        ghost var t := View(rest);
        rest := Wait(c, left[0], rest);
        left := left[1..];
        ExtendsOn(t0, t, View(rest), [], []);
      }
    }

    /** One turn of the outer loop once the client can send. */
    method PumpForFlush(faults: seq<Fault>, now: u32) returns (rest: seq<Fault>)
      requires Valid() && client == peer && peer.IsConnected() && peer.MaySend()
      modifies this`txRead, this`chain, repr, peer, peer.lwip
      ensures Valid() && repr == old(repr)
      ensures old(txWrite.data) != [] ==>
        |rest| < |faults| || (|rest| == |faults| && !old(peer.pcbBusy) && peer.pcbBusy)
      ensures Extends(old(View(faults)), View(rest), [])
    {
      EmptyTestsAgree(Contents(chain), cap);
      if txWrite.data != [] {
        PumpAdvances(View(faults), now);
      }
      SendExtends(View(faults), now);
      rest := SendBuffer(faults, now);
    }

    /** One turn of that loop; `stop` says that `flush` returns, and `done` why. */
    method FlushTurn(c: AsyncClient, delays: seq<Delay>, faults: seq<Fault>, now: u32, ghost t0: Tx)
      returns (stop: bool, done: bool, left: seq<Delay>, rest: seq<Fault>)
      requires Valid() && c == peer && txWrite.data != [] && Extends(t0, View(faults), [])
      modifies this`client, this`txRead, this`chain, repr, peer, peer.errorTracker, peer.lwip
      ensures Valid() && repr == old(repr) && Extends(t0, View(rest), [])
      ensures stop && done ==> client == null || !client.IsConnected()
      ensures stop && !done ==> client != null && client.IsConnected() && !client.MaySend()
      ensures stop || |left| < |delays| || (left == delays && |rest| < |faults|)
           || (left == delays && |rest| == |faults| && !old(peer.pcbBusy) && peer.pcbBusy)
    {
      ghost var t := View(faults);
      stop, done := true, true;
      left, rest := WaitUntilSendable(c, delays, faults);
      ExtendsOn(t0, t, View(rest), [], []);
      if client == null || !client.IsConnected() {
        return;
      }
      if !client.MaySend() {
        done := false;
        return;
      }
      t := View(rest);
      rest := PumpForFlush(rest, now);
      ExtendsOn(t0, t, View(rest), [], []);
      stop := false;
    }

    /** `flush`.  It returns with nothing pending or with the connection gone, and
        otherwise is still waiting when `delays` ends; it moves the stream on
        without adding to it. */
    method Flush(c: AsyncClient, delays: seq<Delay>, faults: seq<Fault>, now: u32)
      returns (done: bool, rest: seq<Fault>)
      requires Valid() && c == peer
      modifies this`client, this`txRead, this`chain, repr, peer, peer.errorTracker, peer.lwip
      ensures Valid()
      ensures done ==> Flat(Contents(chain)) == [] || client == null || !client.IsConnected()
      ensures !done ==> client != null && client.IsConnected() && !client.MaySend()
      ensures Extends(old(View(faults)), View(rest), [])
    {
      rest := faults;
      var left := delays;
      ghost var t0 := View(faults);
      assert Stream(t0) + [] == Stream(t0);
      while |txWrite.data| > 0
        invariant Valid() && repr == old(repr)
        invariant Extends(t0, View(rest), [])
        decreases |left|, |rest|, if c.pcbBusy then 0 else 1
      {
        var stop;
        stop, done, left, rest := FlushTurn(c, left, rest, now, t0);
        if stop {
          return;
        }
      }
      EmptyTestsAgree(Contents(chain), cap);
      return true, rest;
    }
  }
}
