/** What `write` of the buffer answers, and how much one pump hands to TCP. */
module TransmitWrite {
  import opened Words
  import opened ErrorTracker
  import opened ClientSpec
  import opened ClientProofs
  import opened Transmit
  import opened TransmitRuns

  /** There is a connection to write to. */
  predicate Writable(t: Tx) { t.hasClient && t.client.pcb && t.client.tcp.established }

  ghost predicate Usable(t: Tx, cap: nat) { |t.nodes| > 0 && 0 < cap && |Last(t.nodes)| <= cap }

  // ---- every write

  /** With a connection, `write` takes everything as long as no memory test fails. */
  lemma WriteTakesAll(t: Tx, data: bytes, heap: seq<bool>, cap: nat, now: u32)
    requires Usable(t, cap) && Writable(t) && false !in heap
    ensures WriteData(t, data, heap, cap, now).1 == |data|
  {
    TakesAllUnlessRefused(t, data, heap, cap, now);
  }

  /** Without one, or without data, it takes nothing and does nothing. */
  lemma NothingToWrite(t: Tx, data: bytes, heap: seq<bool>, cap: nat, now: u32)
    requires Usable(t, cap) && (!Writable(t) || data == [])
    ensures var r := WriteData(t, data, heap, cap, now); r.0 == t && r.1 == 0
  {
  }

  /** It stops short only at a full tail behind which memory is refused. */
  lemma {:induction false} LoopStopsRefused(t: Tx, data: bytes, heap: seq<bool>, cap: nat, now: u32)
    requires Usable(t, cap)
    ensures var r := WriteLoop(t, data, heap, cap, now);
      r.1 < |data| ==> false in heap && |Last(r.0.nodes)| == cap
    decreases |data|, if |Last(t.nodes)| == cap then 1 else 0
  {
    if !WriteEnds(t, data, heap, cap, now) {
      var w, heap' := Taken(t, data, cap), HeapAfter(t, data, heap, cap, now);
      var t2 := Again(t, data, cap, now);
      LoopStopsRefused(t2, data[w..], heap', cap, now);
      WriteGoesOn(t, data, heap, cap, now, WriteLoop(t2, data[w..], heap', cap, now));
    }
  }

  /** The answer of every write: a prefix of the data has joined the stream, all of it
      unless memory was refused behind a full tail. */
  lemma WriteAnswers(t: Tx, data: bytes, heap: seq<bool>, cap: nat, now: u32)
    requires Usable(t, cap) && Writable(t)
    ensures var r := WriteData(t, data, heap, cap, now);
      && r.1 <= |data| && Extends(t, r.0, data[..r.1])
      && (r.1 < |data| ==> false in heap && |Last(r.0.nodes)| == cap)
  {
    WriteExtends(t, data, heap, cap, now);
    LoopStopsRefused(t, data, heap, cap, now);
    assert data == [] ==> Stream(t) + data[..0] == Stream(t);
  }

  /** The answer is 0 if and only if there is no connection or no data, or the tail is full,
      sending leaves it full, and the first memory test is refused. */
  lemma WriteAnswersZero(t: Tx, data: bytes, heap: seq<bool>, cap: nat, now: u32)
    requires Usable(t, cap)
    ensures WriteData(t, data, heap, cap, now).1 == 0 <==>
      || !Writable(t) || data == []
      || (|Last(t.nodes)| == cap && |Last(SendLoop(t, now).nodes)| == cap && heap != [] && !heap[0])
  {
    if Writable(t) && data != [] {
      LoopAnswersZero(t, data, heap, cap, now);
    }
  }

  lemma LoopAnswersZero(t: Tx, data: bytes, heap: seq<bool>, cap: nat, now: u32)
    requires Usable(t, cap) && data != []
    ensures WriteLoop(t, data, heap, cap, now).1 == 0 <==>
      |Last(t.nodes)| == cap && |Last(SendLoop(t, now).nodes)| == cap && Refused(heap)
  {
    var w := Taken(t, data, cap);
    if w == 0 {
      NothingFilled(t, data, cap);
      assert data[0..] == data;
      if !WriteEnds(t, data, heap, cap, now) {
        TailTakesSome(Again(t, data, cap, now), data, HeapAfter(t, data, heap, cap, now), cap, now);
      }
    }
  }

  /** A full tail stays as it is. */
  lemma NothingFilled(t: Tx, data: bytes, cap: nat)
    requires |t.nodes| > 0 && |Last(t.nodes)| == cap
    ensures t.(nodes := Fill(t.nodes, data, cap)) == t
  {
    assert Last(t.nodes) + data[..0] == Last(t.nodes);
    assert Fill(t.nodes, data, cap) == t.nodes;
  }

  lemma TailTakesSome(t: Tx, data: bytes, heap: seq<bool>, cap: nat, now: u32)
    requires Usable(t, cap) && data != [] && |Last(t.nodes)| < cap
    ensures WriteLoop(t, data, heap, cap, now).1 > 0
  {
    assert Taken(t, data, cap) > 0;
  }

  // ---- a busy client

  /** What the nodes hold that may be added before memory is refused. */
  function GrantedRoom(heap: seq<bool>, cap: nat): nat
    decreases |heap|
  {
    if heap == [] || !heap[0] then 0 else cap + GrantedRoom(heap[1..], cap)
  }

  /** How much of `n` bytes the chain can store without sending anything: what the tail has
      room for, and the nodes that may be added. */
  function Storable(tail: nat, heap: seq<bool>, cap: nat, n: nat): nat
    requires tail <= cap
  {
    if false in heap then Min(n, cap - tail + GrantedRoom(heap, cap)) else n
  }

  lemma {:induction false} BusyTakes(t: Tx, data: bytes, heap: seq<bool>, cap: nat, now: u32)
    requires Usable(t, cap) && t.client.pcbBusy
    ensures WriteLoop(t, data, heap, cap, now).1 == Storable(|Last(t.nodes)|, heap, cap, |data|)
    decreases |data|, if |Last(t.nodes)| == cap then 1 else 0
  {
    var w := Taken(t, data, cap);
    BusyFilled(t, data, cap, now);
    StoredOn(|Last(t.nodes)|, heap, cap, |data|);
    if w < |data| && !Refused(heap) {
      var heap' := if heap != [] then heap[1..] else heap;
      var t2 := Again(t, data, cap, now);
      BusyTakes(t2, data[w..], heap', cap, now);
      WriteGoesOn(t, data, heap, cap, now, WriteLoop(t2, data[w..], heap', cap, now));
    } else {
      BusyEnds(t, data, heap, cap, now);
    }
  }

  lemma BusyEnds(t: Tx, data: bytes, heap: seq<bool>, cap: nat, now: u32)
    requires Usable(t, cap) && t.client.pcbBusy && (Taken(t, data, cap) == |data| || Refused(heap))
    ensures WriteLoop(t, data, heap, cap, now).1 == Taken(t, data, cap)
  {
    BusyFilled(t, data, cap, now);
  }

  /** One pass on a busy client fills the tail and sends nothing. */
  lemma BusyFilled(t: Tx, data: bytes, cap: nat, now: u32)
    requires Usable(t, cap) && t.client.pcbBusy
    ensures Filled(t, data, cap, now) == t.(nodes := Fill(t.nodes, data, cap))
    ensures NeedsNode(Filled(t, data, cap, now), data[Taken(t, data, cap)..], cap) <==> Taken(t, data, cap) < |data|
  {
  }

  lemma GrantedNext(heap: seq<bool>)
    requires heap != [] && heap[0]
    ensures false in heap <==> false in heap[1..]
  {
    assert heap == [heap[0]] + heap[1..];
  }

  /** Filling the tail and going on, in terms of what can be stored. */
  lemma StoredOn(tail: nat, heap: seq<bool>, cap: nat, n: nat)
    requires tail <= cap
    ensures var w := Min(cap - tail, n);
      Storable(tail, heap, cap, n) ==
        if w == n || Refused(heap) then w
        else w + Storable(0, if heap != [] then heap[1..] else heap, cap, n - w)
  {
    if heap != [] && heap[0] {
      GrantedNext(heap);
    }
  }

  /** A write to a busy client stores, behind what is pending, exactly what the tail and
      the nodes it may add can hold, and leaves the client alone. */
  lemma BusyWriteAppends(t: Tx, data: bytes, heap: seq<bool>, cap: nat, now: u32)
    requires Usable(t, cap) && Writable(t) && t.client.pcbBusy
    ensures var (r, n) := WriteData(t, data, heap, cap, now);
      && n == Storable(|Last(t.nodes)|, heap, cap, |data|)
      && Flat(r.nodes) == Flat(t.nodes) + data[..n] && r.client == t.client
  {
    BusyTakes(t, data, heap, cap, now);
    BusyWriteStores(t, data, heap, cap, now);
    WriteExtends(t, data, heap, cap, now);
    if data != [] {
      var (r, n) := WriteLoop(t, data, heap, cap, now);
      BehindQueued(t.client.tcp.queued, Flat(r.nodes), Flat(t.nodes) + data[..n]);
      assert Stream(t) + data[..n] == t.client.tcp.queued + (Flat(t.nodes) + data[..n]);
    } else {
      assert Flat(t.nodes) + data[..0] == Flat(t.nodes);
    }
  }

  lemma BehindQueued(queued: bytes, a: bytes, b: bytes)
    requires queued + a == queued + b
    ensures a == b
  {
    assert a == (queued + a)[|queued|..] && b == (queued + b)[|queued|..];
  }

  // ---- one pump

  /** A pump that nothing disturbs hands over as much of the head as fits, and marks the
      client busy; it does so if and only if there is a connection with room, something is
      pending at the head, and the client is not busy. */
  lemma PumpHandsOver(t: Tx, now: u32)
    requires |t.nodes| > 0 && t.faults == [] && t.client.tcp.Sound()
    ensures var r := SendLoop(t, now);
      if Writable(t) && t.client.tcp.Outstanding() < t.client.tcp.cap && t.nodes[0] != [] && !t.client.pcbBusy then
        var k := |r.client.tcp.queued| - |t.client.tcp.queued|;
        && 0 < k <= |t.nodes[0]| && r.client.tcp.queued == t.client.tcp.queued + t.nodes[0][..k]
        && (k == |t.nodes[0]| || r.client.tcp.Outstanding() == r.client.tcp.cap)
        && t.nodes[0][..k] + Flat(r.nodes) == Flat(t.nodes) && r.client.pcbBusy && r.client.pcbSentAt == now
      else r == t
  {
    if Ready(t) {
      PumpIsOneTurn(t, now);
      TurnHandsOver(t, now);
      FlatConsume(t.nodes, |Offered(t)|);
    }
  }

  lemma TurnHandsOver(t: Tx, now: u32)
    requires |t.nodes| > 0 && Ready(t) && t.faults == [] && t.client.tcp.Sound()
    ensures var (r, k) := (Turn(t, now), |Offered(t)|);
      && r.client.tcp.queued == t.client.tcp.queued + t.nodes[0][..k] && 0 < k <= |t.nodes[0]|
      && (k == |t.nodes[0]| || r.client.tcp.Outstanding() == r.client.tcp.cap)
      && r.nodes == Consume(t.nodes, k) && r.client.pcbBusy && r.client.pcbSentAt == now
  {
    WriteEffect(t.client, Offered(t), true, true, now);
    assert t.nodes[0][..|Offered(t)|] == Offered(t);
  }
}
