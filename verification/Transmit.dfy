/** The transmit half of AsyncTCPBuffer (src/ESPAsyncTCPBuffer.cpp) over values:
    a chain of bounded buffers between the application and the client. */
module Transmit {
  import opened Words
  import opened ErrorTracker
  import opened ClientSpec

  /** What goes wrong in one turn of the send loop.  A run is given a finite list
      of these; once it is used up every turn is `Fine`. */
  datatype Fault =
    | Fine
    | NoMemory        // the copy buffer cannot be allocated
    | WriteFails      // tcp_write refuses
    | OutputFails     // tcp_write queues, tcp_output then fails

  /** The chain from head to tail, the client below it (`hasClient` is
      `_client != NULL`), and the faults to come. */
  datatype Tx = Tx(nodes: seq<bytes>, hasClient: bool, client: Client, faults: seq<Fault>)

  function Last<T>(s: seq<T>): T
    requires |s| > 0
  {
    s[|s| - 1]
  }

  /** Everything in the chain, head to tail. */
  function Flat(nodes: seq<bytes>): bytes {
    if nodes == [] then [] else nodes[0] + Flat(nodes[1..])
  }

  function Head(f: seq<Fault>): Fault { if f == [] then Fine else f[0] }

  function Tail(f: seq<Fault>): seq<Fault> { if f == [] then [] else f[1..] }

  // ---- _sendBuffer

  predicate Ready(t: Tx)
    requires |t.nodes| > 0
  {
    t.hasClient && Connected(t.client) && Space(t.client) > 0 && |t.nodes[0]| > 0 && CanSend(t.client)
  }

  function Offered(t: Tx): bytes
    requires |t.nodes| > 0
  {
    t.nodes[0][..Min(|t.nodes[0]|, Space(t.client))]
  }

  /** Remove `n` bytes from the head, and the head itself when it is drained and
      not the only node. */
  function Consume(nodes: seq<bytes>, n: nat): (r: seq<bytes>)
    requires |nodes| > 0 && n <= |nodes[0]|
    ensures |r| > 0 && |Last(r)| <= |Last(nodes)|
  {
    var head := nodes[0][n..];
    if head == [] && |nodes| > 1 then nodes[1..] else [head] + nodes[1..]
  }

  /** One turn of the loop in which the client is offered data. */
  function Turn(t: Tx, now: u32): (r: Tx)
    requires |t.nodes| > 0 && Ready(t)
    ensures |r.nodes| > 0 && |Last(r.nodes)| <= |Last(t.nodes)|
    ensures |r.faults| < |t.faults| || (t.faults == [] && r.faults == [] && r.client.pcbBusy)
  {
    var f := Head(t.faults);
    var (c1, n) := WriteTo(t.client, Offered(t), f != WriteFails, f != OutputFails, now);
    Tx(Consume(t.nodes, n), t.hasClient, c1, Tail(t.faults))
  }

  function SendLoop(t: Tx, now: u32): (r: Tx)
    requires |t.nodes| > 0
    ensures |r.nodes| > 0 && |Last(r.nodes)| <= |Last(t.nodes)|
    decreases |t.faults|, if t.client.pcbBusy then 0 else 1
  {
    if !Ready(t) then t
    else if Head(t.faults) == NoMemory then t.(faults := Tail(t.faults))
    else SendLoop(Turn(t, now), now)
  }

  // ---- write

  /** Append as much of `data` to the tail as it can hold. */
  function Fill(nodes: seq<bytes>, data: bytes, cap: nat): (r: seq<bytes>)
    requires |nodes| > 0 && |Last(nodes)| <= cap
    ensures |r| == |nodes| && |Last(r)| <= cap
  {
    nodes[|nodes| - 1 := Last(nodes) + data[..Min(cap - |Last(nodes)|, |data|)]]
  }

  /** One pass of the loop in `write` up to the memory test: fill the tail, send. */
  function Filled(t: Tx, data: bytes, cap: nat, now: u32): (r: Tx)
    requires |t.nodes| > 0 && |Last(t.nodes)| <= cap
    ensures |r.nodes| > 0 && |Last(r.nodes)| <= cap
  {
    SendLoop(t.(nodes := Fill(t.nodes, data, cap)), now)
  }

  function Taken(t: Tx, data: bytes, cap: nat): nat
    requires |t.nodes| > 0 && |Last(t.nodes)| <= cap
  {
    Min(cap - |Last(t.nodes)|, |data|)
  }

  /** Whether the pass that left `t1` must add a node for the rest of the data. */
  predicate NeedsNode(t1: Tx, left: bytes, cap: nat)
    requires |t1.nodes| > 0
  {
    left != [] && |Last(t1.nodes)| == cap
  }

  function Grown(t1: Tx): (r: Tx)
    ensures |r.nodes| > 0 && Last(r.nodes) == []
  {
    t1.(nodes := t1.nodes + [[]])
  }

  /** The state in which the loop of `write` goes round again. */
  function Again(t: Tx, data: bytes, cap: nat, now: u32): (r: Tx)
    requires |t.nodes| > 0 && 0 < cap && |Last(t.nodes)| <= cap
    ensures |r.nodes| > 0 && |Last(r.nodes)| <= cap
  {
    var t1 := Filled(t, data, cap, now);
    if NeedsNode(t1, data[Taken(t, data, cap)..], cap) then Grown(t1) else t1
  }

  predicate Refused(heap: seq<bool>) { heap != [] && !heap[0] }

  /** The loop of `write`; `heap` answers the free-memory test before each new
      node (true when there is enough).  The second result is how many bytes of
      `data` were taken. */
  function WriteLoop(t: Tx, data: bytes, heap: seq<bool>, cap: nat, now: u32): (r: (Tx, nat))
    requires |t.nodes| > 0 && 0 < cap && |Last(t.nodes)| <= cap
    ensures |r.0.nodes| > 0 && |Last(r.0.nodes)| <= cap && r.1 <= |data|
    decreases |data|, if |Last(t.nodes)| == cap then 1 else 0
  {
    if data == [] then (t, 0)
    else
      var w := Taken(t, data, cap);
      var t1 := Filled(t, data, cap, now);
      var grow := NeedsNode(t1, data[w..], cap);
      if grow && Refused(heap) then (t1, w)
      else
        var heap' := if grow && heap != [] then heap[1..] else heap;
        var more := WriteLoop(Again(t, data, cap, now), data[w..], heap', cap, now);
        (more.0, w + more.1)
  }

  /** `write`. */
  function WriteData(t: Tx, data: bytes, heap: seq<bool>, cap: nat, now: u32): (r: (Tx, nat))
    requires |t.nodes| > 0 && 0 < cap && |Last(t.nodes)| <= cap
    ensures |r.0.nodes| > 0 && |Last(r.0.nodes)| <= cap
  {
    if !t.hasClient || !Connected(t.client) || |data| == 0 then (t, 0)
    else WriteLoop(t, data, heap, cap, now)
  }

  /** `write` takes everything unless the memory test before a new node fails. */
  lemma {:induction false} TakesAllUnlessRefused(t: Tx, data: bytes, heap: seq<bool>, cap: nat, now: u32)
    requires |t.nodes| > 0 && 0 < cap && |Last(t.nodes)| <= cap
    requires false !in heap
    ensures WriteLoop(t, data, heap, cap, now).1 == |data|
    decreases |data|, if |Last(t.nodes)| == cap then 1 else 0
  {
    if data != [] {
      var w := Taken(t, data, cap);
      var t1 := Filled(t, data, cap, now);
      var grow := NeedsNode(t1, data[w..], cap);
      var heap' := if grow && heap != [] then heap[1..] else heap;
      TakesAllUnlessRefused(Again(t, data, cap, now), data[w..], heap', cap, now);
    }
  }

  // ---- the shape of the chain

  /** No node overflows, only the tail may be empty, and every node between the
      head and the tail is full. */
  ghost predicate Chain(nodes: seq<bytes>, cap: nat) {
    && |nodes| > 0
    && (forall k :: 0 <= k < |nodes| ==> |nodes[k]| <= cap)
    && (forall k :: 0 <= k < |nodes| - 1 ==> nodes[k] != [])
    && (forall k :: 0 < k < |nodes| - 1 ==> |nodes[k]| == cap)
  }

  /** The shape outside the public methods and at every entry to `_sendBuffer`:
      the tail is empty only when it is the whole chain. */
  ghost predicate Settled(nodes: seq<bytes>, cap: nat) {
    Chain(nodes, cap) && (|nodes| > 1 ==> Last(nodes) != [])
  }

  /** Testing the head (as poll and `_sendBuffer` do) and testing the tail (as
      `flush` does) are both tests that nothing is pending. */
  lemma EmptyTestsAgree(nodes: seq<bytes>, cap: nat)
    requires Settled(nodes, cap)
    ensures nodes[0] == [] <==> Flat(nodes) == []
    ensures Last(nodes) == [] <==> Flat(nodes) == []
  {
    if |nodes| == 1 {
      assert nodes[1..] == [];
      assert Flat(nodes) == nodes[0] + Flat([]);
    }
  }

  lemma ConsumeKeepsShape(nodes: seq<bytes>, n: nat, cap: nat)
    requires Settled(nodes, cap) && n <= |nodes[0]|
    ensures Settled(Consume(nodes, n), cap)
  {
  }

  /** `r` is where sending from a settled chain ends. */
  lemma {:induction false} SendKeepsShape(t: Tx, now: u32, r: Tx, cap: nat)
    requires Settled(t.nodes, cap) && r == SendLoop(t, now)
    ensures Settled(r.nodes, cap)
    decreases |t.faults|, if t.client.pcbBusy then 0 else 1
  {
    if Ready(t) && Head(t.faults) != NoMemory {
      var f := Head(t.faults);
      ConsumeKeepsShape(t.nodes, WriteTo(t.client, Offered(t), f != WriteFails, f != OutputFails, now).1, cap);
      SendKeepsShape(Turn(t, now), now, r, cap);
    }
  }

  lemma FillKeepsShape(nodes: seq<bytes>, data: bytes, cap: nat)
    requires Chain(nodes, cap) && 0 < cap && data != []
    ensures Settled(Fill(nodes, data, cap), cap)
  {
  }

  lemma FilledKeepsShape(t: Tx, data: bytes, cap: nat, now: u32)
    requires 0 < cap && Chain(t.nodes, cap) && data != []
    ensures Settled(Filled(t, data, cap, now).nodes, cap)
  {
    FillKeepsShape(t.nodes, data, cap);
    SendKeepsShape(t.(nodes := Fill(t.nodes, data, cap)), now, Filled(t, data, cap, now), cap);
  }

  lemma GrownKeepsChain(t: Tx, left: bytes, cap: nat)
    requires 0 < cap && Settled(t.nodes, cap) && NeedsNode(t, left, cap)
    ensures Chain(Grown(t).nodes, cap)
  {
  }

  /** `write` enters its loop and every `_sendBuffer` with a settled chain and
      leaves one, over any pattern of faults and refusals of memory. */
  lemma {:induction false} WriteKeepsShape(t: Tx, data: bytes, heap: seq<bool>, cap: nat, now: u32)
    requires 0 < cap && Chain(t.nodes, cap) && (data == [] ==> Settled(t.nodes, cap))
    ensures Settled(WriteLoop(t, data, heap, cap, now).0.nodes, cap)
    decreases |data|, if |Last(t.nodes)| == cap then 1 else 0
  {
    if data != [] {
      var w := Taken(t, data, cap);
      FilledKeepsShape(t, data, cap, now);
      var t1 := Filled(t, data, cap, now);
      var grow := NeedsNode(t1, data[w..], cap);
      if grow {
        GrownKeepsChain(t1, data[w..], cap);
      }
      if !(grow && Refused(heap)) {
        var heap' := if grow && heap != [] then heap[1..] else heap;
        WriteKeepsShape(Again(t, data, cap, now), data[w..], heap', cap, now);
      }
    }
  }

  // ---- first in, first out

  /** How often data was queued by `tcp_write` but `tcp_output` then failed. */
  function FailedOutputs(calls: seq<LwipCall>): nat {
    if calls == [] then 0
    else FailedOutputs(calls[..|calls| - 1]) +
         (if Last(calls).TcpOutput? && !Last(calls).ok then 1 else 0)
  }

  lemma OutputAdded(calls: seq<LwipCall>, x: LwipCall)
    ensures FailedOutputs(calls + [x]) == FailedOutputs(calls) + (if x.TcpOutput? && !x.ok then 1 else 0)
  {
    assert (calls + [x])[..|calls|] == calls;
  }

  function Failed(t: Tx): nat { FailedOutputs(t.client.tcp.calls) }

  /** The bytes handed to TCP so far, then the bytes still pending. */
  function Stream(t: Tx): bytes { t.client.tcp.queued + Flat(t.nodes) }

  /** From `t` to `r`, `data` joined the stream: exactly, as long as no further
      output failed, and with at least one byte too many per failure. */
  ghost predicate Extends(t: Tx, r: Tx, data: bytes) {
    && Failed(t) <= Failed(r)
    && |Stream(r)| >= |Stream(t)| + |data| + Failed(r) - Failed(t)
    && (Failed(r) == Failed(t) ==> Stream(r) == Stream(t) + data)
  }

  lemma ExtendsOn(t: Tx, r: Tx, s: Tx, d1: bytes, d2: bytes)
    requires Extends(t, r, d1) && Extends(r, s, d2)
    ensures Extends(t, s, d1 + d2)
  {
    assert Stream(t) + (d1 + d2) == Stream(t) + d1 + d2;
  }

  lemma FlatCons(head: bytes, rest: seq<bytes>)
    ensures Flat([head] + rest) == head + Flat(rest)
  {
    assert ([head] + rest)[1..] == rest;
  }

  lemma FlatConsume(nodes: seq<bytes>, n: nat)
    requires |nodes| > 0 && n <= |nodes[0]|
    ensures nodes[0][..n] + Flat(Consume(nodes, n)) == Flat(nodes)
  {
    var taken, head, rest := nodes[0][..n], nodes[0][n..], nodes[1..];
    if head == [] && |nodes| > 1 {
      assert taken == nodes[0];
    } else {
      FlatCons(head, rest);
      assert taken + (head + Flat(rest)) == nodes[0] + Flat(rest);
    }
  }

  lemma {:induction false} FlatAppend(nodes: seq<bytes>, more: bytes)
    requires |nodes| > 0
    ensures Flat(nodes[|nodes| - 1 := Last(nodes) + more]) == Flat(nodes) + more
    decreases |nodes|
  {
    var r := nodes[|nodes| - 1 := Last(nodes) + more];
    if |nodes| == 1 {
      assert nodes[1..] == [] && r[1..] == [];
    } else {
      FlatAppend(nodes[1..], more);
      assert r[1..] == nodes[1..][|nodes[1..]| - 1 := Last(nodes[1..]) + more];
    }
  }

  lemma {:induction false} FlatNewTail(nodes: seq<bytes>)
    ensures Flat(nodes + [[]]) == Flat(nodes)
    decreases |nodes|
  {
    if nodes == [] {
      assert (nodes + [[]])[1..] == nodes;
    } else {
      assert (nodes + [[]])[1..] == nodes[1..] + [[]];
      FlatNewTail(nodes[1..]);
    }
  }

  /** What one client write of the offered bytes does to lwIP's log. */
  lemma WriteEffect(c: Client, data: bytes, writeOk: bool, outputOk: bool, now: u32)
    requires Connected(c) && 0 < |data| <= Space(c)
    ensures var (r, n) := WriteTo(c, data, writeOk, outputOk, now);
      && r.tcp.queued == c.tcp.queued + (if writeOk then data else [])
      && n == (if writeOk && outputOk then |data| else 0)
      && FailedOutputs(r.tcp.calls) == FailedOutputs(c.tcp.calls) + (if writeOk && !outputOk then 1 else 0)
  {
    assert data[..|data|] == data;
    var calls := c.tcp.calls + [TcpWrite(data, writeOk)];
    OutputAdded(c.tcp.calls, TcpWrite(data, writeOk));
    OutputAdded(calls, TcpOutput(true, outputOk, now));
  }

  lemma TurnExtends(t: Tx, now: u32)
    requires |t.nodes| > 0 && Ready(t)
    ensures Extends(t, Turn(t, now), [])
  {
    var f := Head(t.faults);
    var out := Offered(t);
    WriteEffect(t.client, out, f != WriteFails, f != OutputFails, now);
    var n := WriteTo(t.client, out, f != WriteFails, f != OutputFails, now).1;
    FlatConsume(t.nodes, n);
    var r := Turn(t, now);
    assert Stream(t) + [] == Stream(t);
    assert t.client.tcp.queued + (t.nodes[0][..n] + Flat(r.nodes)) == (t.client.tcp.queued + t.nodes[0][..n]) + Flat(r.nodes);
  }

  lemma {:induction false} SendExtends(t: Tx, now: u32)
    requires |t.nodes| > 0
    ensures Extends(t, SendLoop(t, now), [])
    decreases |t.faults|, if t.client.pcbBusy then 0 else 1
  {
    assert Stream(t) + [] == Stream(t);
    if Ready(t) && Head(t.faults) != NoMemory {
      TurnExtends(t, now);
      SendExtends(Turn(t, now), now);
      ExtendsOn(t, Turn(t, now), SendLoop(t, now), [], []);
    }
  }

  lemma FilledExtends(t: Tx, data: bytes, cap: nat, now: u32)
    requires |t.nodes| > 0 && |Last(t.nodes)| <= cap
    ensures Extends(t, Filled(t, data, cap, now), data[..Taken(t, data, cap)])
  {
    var taken := data[..Taken(t, data, cap)];
    var t0 := t.(nodes := Fill(t.nodes, data, cap));
    FlatAppend(t.nodes, taken);
    assert Stream(t0) == Stream(t) + taken;
    SendExtends(t0, now);
    ExtendsOn(t, t0, Filled(t, data, cap, now), taken, []);
    assert taken + [] == taken;
  }

  lemma GrownExtends(t: Tx, t1: Tx, taken: bytes)
    requires Extends(t, t1, taken)
    ensures Extends(t, Grown(t1), taken)
  {
    FlatNewTail(t1.nodes);
  }

  lemma AgainExtends(t: Tx, data: bytes, cap: nat, now: u32)
    requires |t.nodes| > 0 && 0 < cap && |Last(t.nodes)| <= cap
    ensures Extends(t, Again(t, data, cap, now), data[..Taken(t, data, cap)])
  {
    FilledExtends(t, data, cap, now);
    GrownExtends(t, Filled(t, data, cap, now), data[..Taken(t, data, cap)]);
  }

  ghost predicate TakenExactly(t: Tx, r: Tx, n: nat, data: bytes) {
    n <= |data| && Extends(t, r, data[..n])
  }

  lemma TakenOn(t: Tx, t1: Tx, r: Tx, n: nat, data: bytes, w: nat)
    requires w <= |data| && Extends(t, t1, data[..w]) && TakenExactly(t1, r, n, data[w..])
    ensures TakenExactly(t, r, w + n, data)
  {
    ExtendsOn(t, t1, r, data[..w], data[w..][..n]);
    assert data[..w] + data[w..][..n] == data[..w + n];
  }

  /** The loop of `write` stops here: nothing is left, or memory is refused. */
  predicate WriteEnds(t: Tx, data: bytes, heap: seq<bool>, cap: nat, now: u32)
    requires |t.nodes| > 0 && 0 < cap && |Last(t.nodes)| <= cap
  {
    data == [] || (NeedsNode(Filled(t, data, cap, now), data[Taken(t, data, cap)..], cap) && Refused(heap))
  }

  function HeapAfter(t: Tx, data: bytes, heap: seq<bool>, cap: nat, now: u32): seq<bool>
    requires |t.nodes| > 0 && 0 < cap && |Last(t.nodes)| <= cap
  {
    if NeedsNode(Filled(t, data, cap, now), data[Taken(t, data, cap)..], cap) && heap != [] then heap[1..] else heap
  }

  lemma WriteEndsHere(t: Tx, data: bytes, heap: seq<bool>, cap: nat, now: u32)
    requires |t.nodes| > 0 && 0 < cap && |Last(t.nodes)| <= cap && WriteEnds(t, data, heap, cap, now)
    ensures var r := WriteLoop(t, data, heap, cap, now); TakenExactly(t, r.0, r.1, data)
  {
    if data == [] {
      assert Stream(t) + data[..0] == Stream(t);
    } else {
      FilledExtends(t, data, cap, now);
    }
  }

  lemma WriteGoesOn(t: Tx, data: bytes, heap: seq<bool>, cap: nat, now: u32, r: (Tx, nat))
    requires |t.nodes| > 0 && 0 < cap && |Last(t.nodes)| <= cap && !WriteEnds(t, data, heap, cap, now)
    requires r == WriteLoop(Again(t, data, cap, now), data[Taken(t, data, cap)..], HeapAfter(t, data, heap, cap, now), cap, now)
    ensures WriteLoop(t, data, heap, cap, now).0 == r.0
    ensures WriteLoop(t, data, heap, cap, now).1 == Taken(t, data, cap) + r.1
  {
  }

  /** `write` adds to the stream exactly the prefix it reports as accepted. */
  lemma {:induction false} WriteExtends(t: Tx, data: bytes, heap: seq<bool>, cap: nat, now: u32)
    requires |t.nodes| > 0 && 0 < cap && |Last(t.nodes)| <= cap
    ensures var r := WriteLoop(t, data, heap, cap, now); TakenExactly(t, r.0, r.1, data)
    decreases |data|, if |Last(t.nodes)| == cap then 1 else 0
  {
    if WriteEnds(t, data, heap, cap, now) {
      WriteEndsHere(t, data, heap, cap, now);
    } else {
      var w := Taken(t, data, cap);
      var t2 := Again(t, data, cap, now);
      var heap' := HeapAfter(t, data, heap, cap, now);
      var r := WriteLoop(t2, data[w..], heap', cap, now);
      WriteExtends(t2, data[w..], heap', cap, now);
      AgainExtends(t, data, cap, now);
      TakenOn(t, t2, r.0, r.1, data, w);
      WriteGoesOn(t, data, heap, cap, now, r);
    }
  }
}
