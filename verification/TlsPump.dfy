/** The engine pump of src/tcp_bearssl.cpp over values: `process_ssl_engine` moves
    decrypted data to the data callback and finished records to TCP until the engine
    has nothing to move.  Its callbacks may call `tcp_ssl_write`, which pumps again,
    so pumps nest to any depth.  What the engine and lwIP do is a script, of which
    every turn of every loop, nested or not, takes the next entry. */
module TlsPump {
  import opened Words

  const IN_BUFFER_SIZE: nat := 1024
  const OUT_BUFFER_SIZE: nat := 1024

  // ---- the state

  /** The two streams inside the engine: what it has decrypted and not yet been told is
      taken, what it has made into records and not yet been told is gone, and all it
      ever decrypted and made. */
  datatype Engine = Engine(incoming: bytes, outgoing: bytes, decrypted: bytes, made: bytes)

  /** lwIP's side: the free space of the send buffer, and everything `tcp_write` has
      queued. */
  datatype Tcp = Tcp(room: nat, wire: bytes)

  /** What has happened; `told` says that the callback is attached and was called. */
  datatype TlsEvent =
    | Delivered(app: bytes, told: bool)
    | Written(record: bytes, queued: bool)
    | Handshake(told: bool)
    | Closed(told: bool)
    | Freed(n: nat)

  datatype Pump = Pump(attached: bool, done: bool, eng: Engine, tcp: Tcp, delivered: bytes, log: seq<TlsEvent>)

  // ---- what the surroundings do

  /** One call of `tcp_ssl_write`: whether the engine takes application data, how much it
      has room for, and the record bytes it makes of what it is given. */
  datatype AppWrite = AppWrite(data: bytes, sendapp: bool, room: nat, records: bytes)

  /** One turn of the loop: what the engine has decrypted and made since the last one;
      whether it is closed; how much of either stream its buffers hold out; whether
      `tcp_write` succeeds; whether the session is established.  `writes` are the
      calls made by the callback of this turn. */
  datatype Turn = Turn(
    decrypted: bytes,
    records: bytes,
    closed: bool,
    appOffer: nat,
    recordOffer: nat,
    queued: bool,
    ready: bool,
    writes: seq<AppWrite>)

  /** The connection after a pump, and the turns it did not take. */
  datatype Rest = Rest(pump: Pump, script: seq<Turn>)

  // ---- single steps

  function Note(p: Pump, e: TlsEvent): Pump { p.(log := p.log + [e]) }

  function Makes(eng: Engine, records: bytes): Engine {
    eng.(outgoing := eng.outgoing + records, made := eng.made + records)
  }

  function Decrypts(eng: Engine, plain: bytes): Engine {
    eng.(incoming := eng.incoming + plain, decrypted := eng.decrypted + plain)
  }

  function Refreshed(p: Pump, t: Turn): Pump { p.(eng := Makes(Decrypts(p.eng, t.decrypted), t.records)) }

  /** `br_ssl_engine_recvapp_buf` and `br_ssl_engine_sendrec_buf`. */
  function HeldApp(p: Pump, t: Turn): bytes { p.eng.incoming[..Min(t.appOffer, |p.eng.incoming|)] }

  function HeldRecord(p: Pump, t: Turn): bytes { p.eng.outgoing[..Min(t.recordOffer, |p.eng.outgoing|)] }

  /** `br_ssl_engine_recvapp_ack` and `br_ssl_engine_sendrec_ack`. */
  function AppTaken(p: Pump, n: nat): Pump
    requires n <= |p.eng.incoming|
  {
    p.(eng := p.eng.(incoming := p.eng.incoming[n..]))
  }

  function RecordGone(p: Pump, n: nat): Pump
    requires n <= |p.eng.outgoing|
  {
    p.(eng := p.eng.(outgoing := p.eng.outgoing[n..]))
  }

  /** The data callback, if it is attached. */
  function Told(p: Pump, app: bytes): Pump {
    Note(if p.attached then p.(delivered := p.delivered + app) else p, Delivered(app, p.attached))
  }

  /** `tcp_write`. */
  function TcpWrite(p: Pump, record: bytes, queued: bool): Pump
    requires |record| <= p.tcp.room
  {
    Note(if queued then p.(tcp := p.tcp.(room := p.tcp.room - |record|, wire := p.tcp.wire + record)) else p,
         Written(record, queued))
  }

  predicate Readable(p: Pump, t: Turn) { 0 < |HeldApp(p, t)| < IN_BUFFER_SIZE }

  predicate Sendable(p: Pump, t: Turn) {
    0 < |HeldRecord(p, t)| < OUT_BUFFER_SIZE && p.tcp.room >= |HeldRecord(p, t)|
  }

  /** Taking decrypted data: the engine is told first, then the callback. */
  function TakeApp(p: Pump, t: Turn): Pump { Told(AppTaken(p, |HeldApp(p, t)|), HeldApp(p, t)) }

  /** Sending a record: TCP first, then the engine is told, whatever TCP answered. */
  function SendRecord(p: Pump, t: Turn): Pump
    requires Sendable(p, t)
  {
    RecordGone(TcpWrite(p, HeldRecord(p, t), t.queued), |HeldRecord(p, t)|)
  }

  // ---- the pump

  /** `process_ssl_engine`; a script that has ended is an engine with nothing to move. */
  function Process(p: Pump, script: seq<Turn>): (r: Rest)
    ensures |r.script| <= |script|
    decreases |script|, 0
  {
    if script == [] then Rest(p, script)
    else
      var t, later, q := script[0], script[1..], Refreshed(p, script[0]);
      if t.closed then Callback(Note(q, Closed(q.attached)), t.writes, later)
      else if Readable(q, t) then
        var r := Callback(TakeApp(q, t), t.writes, later);
        Process(r.pump, r.script)
      else if Sendable(q, t) then Process(SendRecord(q, t), later)
      else if !q.done && t.ready then Callback(Note(q.(done := true), Handshake(q.attached)), t.writes, later)
      else Rest(q, later)
  }

  /** A callback that makes the calls `writes`, if it is attached. */
  function Callback(p: Pump, writes: seq<AppWrite>, script: seq<Turn>): (r: Rest)
    ensures |r.script| <= |script|
    decreases |script|, 2 + |writes|
  {
    if !p.attached || writes == [] then Rest(p, script)
    else
      var r := SslWrite(p, writes[0], script);
      Callback(r.pump, writes[1..], r.script)
  }

  /** How much of the data `tcp_ssl_write` reports as taken. */
  function TakenBy(w: AppWrite): nat { if w.sendapp then Min(|w.data|, w.room) else 0 }

  function SslWrite(p: Pump, w: AppWrite, script: seq<Turn>): (r: Rest)
    ensures |r.script| <= |script|
    decreases |script|, 1
  {
    if !w.sendapp then Rest(p, script)
    else if w.room == 0 then Process(p, script)
    else Process(p.(eng := Makes(p.eng, w.records)), script)
  }

  // ---- whole runs

  /** What enters the pump from outside: `tcp_ssl_read` and `tcp_ssl_new_client` pump,
      the application writes, the client attaches its callbacks, and acknowledgements
      free space in TCP's send buffer. */
  datatype Entry =
    | Pumps(script: seq<Turn>)
    | Writes(write: AppWrite, script: seq<Turn>)
    | Attaches
    | Frees(n: nat)

  function Enter(p: Pump, e: Entry): Pump {
    match e
    case Pumps(script) => Process(p, script).pump
    case Writes(write, script) => SslWrite(p, write, script).pump
    case Attaches => p.(attached := true)
    case Frees(n) => Note(p.(tcp := p.tcp.(room := p.tcp.room + n)), Freed(n))
  }

  function RunEntries(p: Pump, run: seq<Entry>): Pump
    decreases |run|
  {
    if run == [] then p else RunEntries(Enter(p, run[0]), run[1..])
  }

  /** A new connection on a pcb with `room` bytes of send buffer. */
  function FreshPump(room: nat): Pump {
    Pump(false, false, Engine([], [], [], []), Tcp(room, []), [], [])
  }

  // ---- what a log says

  function Handshakes(log: seq<TlsEvent>): nat
    decreases |log|
  {
    if log == [] then 0
    else Handshakes(log[..|log| - 1]) + if log[|log| - 1].Handshake? then 1 else 0
  }

  /** The bytes of the records `tcp_write` did not take. */
  function Refused(log: seq<TlsEvent>): nat
    decreases |log|
  {
    if log == [] then 0
    else
      var e := log[|log| - 1];
      Refused(log[..|log| - 1]) + if e.Written? && !e.queued then |e.record| else 0
  }

  /** The bytes decrypted before there was a data callback to tell. */
  function Missed(log: seq<TlsEvent>): nat
    decreases |log|
  {
    if log == [] then 0
    else
      var e := log[|log| - 1];
      Missed(log[..|log| - 1]) + if e.Delivered? && !e.told then |e.app| else 0
  }

  /** The free space when `room` bytes were free before the events of `log`. */
  function FreeAfter(room: nat, log: seq<TlsEvent>): int
    decreases |log|
  {
    if log == [] then room
    else
      var e := log[|log| - 1];
      FreeAfter(room, log[..|log| - 1]) +
        match e
        case Written(record, queued) => if queued then -|record| else 0
        case Freed(n) => n
        case _ => 0
  }

  /** Every record handed to TCP fitted the space that was free at that moment. */
  ghost predicate EachFits(room: nat, log: seq<TlsEvent>) {
    forall k :: 0 <= k < |log| && log[k].Written? ==> |log[k].record| <= FreeAfter(room, log[..k])
  }

  lemma FitsToo(room: nat, log: seq<TlsEvent>, e: TlsEvent)
    requires EachFits(room, log) && (e.Written? ==> |e.record| <= FreeAfter(room, log))
    ensures EachFits(room, log + [e])
  {
    var more := log + [e];
    assert more[..|log|] == log;
    forall k | 0 <= k < |more| && more[k].Written? ensures |more[k].record| <= FreeAfter(room, more[..k]) {
      assert k < |log| ==> more[..k] == log[..k] && more[k] == log[k];
    }
  }

  lemma EventAdded(log: seq<TlsEvent>, e: TlsEvent)
    ensures Handshakes(log + [e]) == Handshakes(log) + if e.Handshake? then 1 else 0
    ensures Refused(log + [e]) == Refused(log) + if e.Written? && !e.queued then |e.record| else 0
    ensures Missed(log + [e]) == Missed(log) + if e.Delivered? && !e.told then |e.app| else 0
  {
    assert (log + [e])[..|log|] == log;
  }

  /** Every `tcp_write` of the run succeeded; every chunk of data had a callback. */
  ghost predicate AllQueued(log: seq<TlsEvent>) {
    forall k :: 0 <= k < |log| && log[k].Written? ==> log[k].queued
  }

  ghost predicate AllTold(log: seq<TlsEvent>) {
    forall k :: 0 <= k < |log| && log[k].Delivered? ==> log[k].told
  }

  /** Nothing empty is ever written or delivered. */
  ghost predicate NothingEmpty(log: seq<TlsEvent>) {
    forall k :: 0 <= k < |log| ==> (log[k].Written? ==> log[k].record != []) && (log[k].Delivered? ==> log[k].app != [])
  }

  lemma {:induction false} RefusedNone(log: seq<TlsEvent>)
    requires NothingEmpty(log)
    ensures Refused(log) == 0 <==> AllQueued(log)
    ensures Missed(log) == 0 <==> AllTold(log)
    decreases |log|
  {
    if log != [] {
      var front := log[..|log| - 1];
      assert forall k :: 0 <= k < |front| ==> front[k] == log[k];
      RefusedNone(front);
      assert AllQueued(log) <==> AllQueued(front) && (log[|log| - 1].Written? ==> log[|log| - 1].queued);
      assert AllTold(log) <==> AllTold(front) && (log[|log| - 1].Delivered? ==> log[|log| - 1].told);
    }
  }

  // ---- what every step keeps

  /** What went out, what was refused and what is still inside are what was made; in
      order, when nothing was refused. */
  ghost predicate Outward(p: Pump) {
    && |p.tcp.wire| + |p.eng.outgoing| + Refused(p.log) == |p.eng.made|
    && (Refused(p.log) == 0 ==> p.tcp.wire + p.eng.outgoing == p.eng.made)
  }

  /** The same of decrypted data on its way to the data callback. */
  ghost predicate Inward(p: Pump) {
    && |p.delivered| + |p.eng.incoming| + Missed(p.log) == |p.eng.decrypted|
    && (Missed(p.log) == 0 ==> p.delivered + p.eng.incoming == p.eng.decrypted)
  }

  /** TCP was never given more than it had space for, and has the space that is left. */
  ghost predicate Fits(p: Pump, room: nat) { p.tcp.room == FreeAfter(room, p.log) && EachFits(room, p.log) }

  /** The handshake is reported exactly when it is marked done. */
  ghost predicate Reported(p: Pump) { Handshakes(p.log) == if p.done then 1 else 0 }

  ghost predicate PumpInvariant(p: Pump, room: nat) {
    Outward(p) && Inward(p) && Fits(p, room) && Reported(p) && NothingEmpty(p.log)
  }

  /** What one event changes, given that it fits if it is a write. */
  lemma Logging(room: nat, log: seq<TlsEvent>, e: TlsEvent)
    requires EachFits(room, log) && (e.Written? ==> |e.record| <= FreeAfter(room, log))
    ensures EachFits(room, log + [e])
    ensures FreeAfter(room, log + [e]) == FreeAfter(room, log) +
      if e.Written? && e.queued then -|e.record| else if e.Freed? then e.n else 0
  {
    FitsToo(room, log, e);
    assert (log + [e])[..|log|] == log;
  }

  lemma MakesKeeps(room: nat, p: Pump, records: bytes)
    requires PumpInvariant(p, room)
    ensures PumpInvariant(p.(eng := Makes(p.eng, records)), room)
  {
    assert p.tcp.wire + (p.eng.outgoing + records) == p.tcp.wire + p.eng.outgoing + records;
  }

  lemma DecryptsKeeps(room: nat, p: Pump, plain: bytes)
    requires PumpInvariant(p, room)
    ensures PumpInvariant(p.(eng := Decrypts(p.eng, plain)), room)
  {
    assert p.delivered + (p.eng.incoming + plain) == p.delivered + p.eng.incoming + plain;
  }

  lemma RefreshKeeps(room: nat, p: Pump, t: Turn)
    requires PumpInvariant(p, room)
    ensures PumpInvariant(Refreshed(p, t), room)
  {
    DecryptsKeeps(room, p, t.decrypted);
    MakesKeeps(room, p.(eng := Decrypts(p.eng, t.decrypted)), t.records);
  }

  lemma ClosedKeeps(room: nat, p: Pump, told: bool)
    requires PumpInvariant(p, room)
    ensures PumpInvariant(Note(p, Closed(told)), room)
  {
    EventAdded(p.log, Closed(told));
    Logging(room, p.log, Closed(told));
  }

  lemma HandshakeKeeps(room: nat, p: Pump, told: bool)
    requires PumpInvariant(p, room) && !p.done
    ensures PumpInvariant(Note(p.(done := true), Handshake(told)), room)
  {
    EventAdded(p.log, Handshake(told));
    Logging(room, p.log, Handshake(told));
  }

  /** A chunk moved from the front of one sequence to the end of another. */
  lemma MovedAcross(front: bytes, back: bytes, n: nat)
    requires n <= |back|
    ensures front + back[..n] + back[n..] == front + back
  {
    assert back == back[..n] + back[n..];
  }

  lemma TakeAppKeeps(room: nat, p: Pump, t: Turn)
    requires PumpInvariant(p, room) && Readable(p, t)
    ensures PumpInvariant(TakeApp(p, t), room)
  {
    var app := HeldApp(p, t);
    EventAdded(p.log, Delivered(app, p.attached));
    Logging(room, p.log, Delivered(app, p.attached));
    MovedAcross(p.delivered, p.eng.incoming, |app|);
  }

  lemma SendRecordKeeps(room: nat, p: Pump, t: Turn)
    requires PumpInvariant(p, room) && Sendable(p, t)
    ensures PumpInvariant(SendRecord(p, t), room)
  {
    var record := HeldRecord(p, t);
    EventAdded(p.log, Written(record, t.queued));
    Logging(room, p.log, Written(record, t.queued));
    MovedAcross(p.tcp.wire, p.eng.outgoing, |record|);
  }

  lemma {:induction false} ProcessKeeps(room: nat, p: Pump, script: seq<Turn>)
    requires PumpInvariant(p, room)
    ensures PumpInvariant(Process(p, script).pump, room)
    decreases |script|, 0
  {
    if script != [] {
      var t, later, q := script[0], script[1..], Refreshed(p, script[0]);
      RefreshKeeps(room, p, t);
      if t.closed {
        ClosedKeeps(room, q, q.attached);
        CallbackKeeps(room, Note(q, Closed(q.attached)), t.writes, later);
      } else if Readable(q, t) {
        TakeAppKeeps(room, q, t);
        CallbackKeeps(room, TakeApp(q, t), t.writes, later);
        var r := Callback(TakeApp(q, t), t.writes, later);
        ProcessKeeps(room, r.pump, r.script);
      } else if Sendable(q, t) {
        SendRecordKeeps(room, q, t);
        ProcessKeeps(room, SendRecord(q, t), later);
      } else if !q.done && t.ready {
        HandshakeKeeps(room, q, q.attached);
        CallbackKeeps(room, Note(q.(done := true), Handshake(q.attached)), t.writes, later);
      }
    }
  }

  lemma {:induction false} CallbackKeeps(room: nat, p: Pump, writes: seq<AppWrite>, script: seq<Turn>)
    requires PumpInvariant(p, room)
    ensures PumpInvariant(Callback(p, writes, script).pump, room)
    decreases |script|, 2 + |writes|
  {
    if p.attached && writes != [] {
      SslWriteKeeps(room, p, writes[0], script);
      var r := SslWrite(p, writes[0], script);
      CallbackKeeps(room, r.pump, writes[1..], r.script);
    }
  }

  lemma {:induction false} SslWriteKeeps(room: nat, p: Pump, w: AppWrite, script: seq<Turn>)
    requires PumpInvariant(p, room)
    ensures PumpInvariant(SslWrite(p, w, script).pump, room)
    decreases |script|, 1
  {
    if w.sendapp {
      MakesKeeps(room, p, w.records);
      ProcessKeeps(room, if w.room == 0 then p else p.(eng := Makes(p.eng, w.records)), script);
    }
  }

  lemma FreesKeeps(room: nat, p: Pump, n: nat)
    requires PumpInvariant(p, room)
    ensures PumpInvariant(Enter(p, Frees(n)), room)
  {
    EventAdded(p.log, Freed(n));
    Logging(room, p.log, Freed(n));
  }

  lemma EnterKeeps(room: nat, p: Pump, e: Entry)
    requires PumpInvariant(p, room)
    ensures PumpInvariant(Enter(p, e), room)
  {
    match e
    case Pumps(script) => ProcessKeeps(room, p, script);
    case Writes(write, script) => SslWriteKeeps(room, p, write, script);
    case Attaches =>
    case Frees(n) => FreesKeeps(room, p, n);
  }

  lemma {:induction false} RunKeeps(room: nat, p: Pump, run: seq<Entry>)
    requires PumpInvariant(p, room)
    ensures PumpInvariant(RunEntries(p, run), room)
    decreases |run|
  {
    if run != [] {
      EnterKeeps(room, p, run[0]);
      RunKeeps(room, Enter(p, run[0]), run[1..]);
    }
  }

  // ---- the theorems

  /** However deeply the callbacks pump again, over the life of a connection the
      handshake is completed at most once, and exactly once if it is marked done. */
  lemma HandshakeOnce(room: nat, run: seq<Entry>)
    ensures var p := RunEntries(FreshPump(room), run);
      Handshakes(p.log) <= 1 && (p.done <==> Handshakes(p.log) == 1)
  {
    RunKeeps(room, FreshPump(room), run);
  }

  /** What has been queued on TCP, and then what the engine still holds, is all it ever
      made into records, in order, if and only if `tcp_write` never failed: its answer
      is not looked at, and the engine is told that the record is gone. */
  lemma RecordsReachTcp(room: nat, run: seq<Entry>)
    ensures var p := RunEntries(FreshPump(room), run);
      p.tcp.wire + p.eng.outgoing == p.eng.made <==> AllQueued(p.log)
  {
    RunKeeps(room, FreshPump(room), run);
    RefusedNone(RunEntries(FreshPump(room), run).log);
  }

  /** Every record handed to TCP, however deep in nested pumps, fitted whole into the
      space that the writes and acknowledgements before it had left. */
  lemma RecordsFitTcp(room: nat, run: seq<Entry>)
    ensures EachFits(room, RunEntries(FreshPump(room), run).log)
  {
    RunKeeps(room, FreshPump(room), run);
  }

  /** And TCP's free space is always what those writes and acknowledgements have left. */
  lemma RoomIsExact(room: nat, run: seq<Entry>)
    ensures var p := RunEntries(FreshPump(room), run); p.tcp.room == FreeAfter(room, p.log)
  {
    RunKeeps(room, FreshPump(room), run);
  }

  /** What the data callback was given, and then what the engine still holds, is all it
      ever decrypted, in order, if and only if there was a callback whenever data was taken. */
  lemma DataReachesCallback(room: nat, run: seq<Entry>)
    ensures var p := RunEntries(FreshPump(room), run);
      p.delivered + p.eng.incoming == p.eng.decrypted <==> AllTold(p.log)
  {
    RunKeeps(room, FreshPump(room), run);
    RefusedNone(RunEntries(FreshPump(room), run).log);
  }

  // ---- a pump leaves no work behind

  /** Turn `t` finds nothing that a pump in this state would move. */
  predicate AtRest(p: Pump, t: Turn) { t.closed || (!Readable(p, t) && !Sendable(p, t)) }

  /** The last thing logged is something moved. */
  predicate Moved(log: seq<TlsEvent>) {
    log != [] && (log[|log| - 1].Delivered? || log[|log| - 1].Written?)
  }

  /** The handshake is done if turn `t` finds the session established. */
  predicate Shaken(p: Pump, t: Turn) { !t.closed && t.ready ==> p.done }

  /** Turn `t` finds no decrypted data to take. */
  predicate Drained(p: Pump, t: Turn) { t.closed || !Readable(p, t) }

  /** `r` has taken part of `script`.  If some of it is left, the last turn taken finds
      the pump at rest, and with the handshake done if it finds the session established.
      If the script is used up, its last turn has either moved something or found nothing
      to take; what a callback writes after it may still wait to be sent. */
  ghost predicate Idle(script: seq<Turn>, r: Rest) {
    && |r.script| <= |script|
    && var k := |script| - |r.script|;
       && r.script == script[k..]
       && (k > 0 && r.script != [] ==> AtRest(r.pump, script[k - 1]) && Shaken(r.pump, script[k - 1]))
       && (k > 0 && r.script == [] ==>
             Moved(r.pump.log) || (Drained(r.pump, script[k - 1]) && Shaken(r.pump, script[k - 1])))
  }

  /** What later steps may not undo. */
  ghost predicate Onward(p: Pump, q: Pump) { (p.done ==> q.done) && p.attached == q.attached }

  /** Either `r` has not taken anything and is where `p` was, or it has come to rest. */
  ghost predicate Taking(p: Pump, script: seq<Turn>, r: Rest) {
    && Idle(script, r) && Onward(p, r.pump)
    && (|r.script| == |script| && script != [] ==> SameWork(p, r.pump))
    && (script == [] ==> SameButMade(p, r.pump))
  }

  /** Without any turn to take, at most records are made. */
  ghost predicate SameButMade(p: Pump, q: Pump) {
    q.log == p.log && q.eng.incoming == p.eng.incoming && q.done == p.done
  }

  /** The streams and the space, on which `AtRest` depends. */
  ghost predicate SameWork(p: Pump, q: Pump) { p.eng == q.eng && p.tcp == q.tcp }

  lemma TakingOn(p: Pump, s: seq<Turn>, q: Rest, r: Rest)
    requires Taking(p, s, q) && Taking(q.pump, q.script, r)
    ensures Taking(p, s, r)
  {
  }

  /** A turn that stops the loop at `q`, and then whatever its callback takes. */
  lemma StopsThen(p: Pump, script: seq<Turn>, q: Pump, r: Rest)
    requires script != [] && AtRest(q, script[0]) && Onward(p, q) && Taking(q, script[1..], r)
    requires !script[0].closed && script[0].ready ==> q.done
    ensures Taking(p, script, r)
  {
  }

  /** A turn that moves something, and then the rest of the loop. */
  lemma MovesThen(p: Pump, script: seq<Turn>, q: Pump, r: Rest)
    requires script != [] && Onward(p, q) && Taking(q, script[1..], r) && Moved(q.log)
    requires script[1..] != [] ==> |r.script| < |script[1..]|
    ensures Taking(p, script, r)
  {
  }

  lemma {:induction false} ProcessIdles(p: Pump, script: seq<Turn>)
    ensures Taking(p, script, Process(p, script))
    ensures script != [] ==> |Process(p, script).script| < |script|
    decreases |script|, 1
  {
    if script != [] {
      var t, q := script[0], Refreshed(p, script[0]);
      if t.closed {
        StopIdles(p, script, Note(q, Closed(q.attached)));
      } else if Readable(q, t) {
        ReadIdles(p, script);
      } else if Sendable(q, t) {
        SendIdles(p, script);
      } else if !q.done && t.ready {
        StopIdles(p, script, Note(q.(done := true), Handshake(q.attached)));
      } else {
        StopsThen(p, script, q, Rest(q, script[1..]));
      }
    }
  }

  /** A turn that stops the loop after one last callback on `q`. */
  lemma {:induction false} StopIdles(p: Pump, script: seq<Turn>, q: Pump)
    requires script != [] && AtRest(q, script[0]) && Onward(p, q)
    requires !script[0].closed && script[0].ready ==> q.done
    ensures Taking(p, script, Callback(q, script[0].writes, script[1..]))
    decreases |script|, 0
  {
    CallbackIdles(q, script[0].writes, script[1..]);
    StopsThen(p, script, q, Callback(q, script[0].writes, script[1..]));
  }

  lemma SendMoves(p: Pump, t: Turn)
    requires Sendable(p, t)
    ensures Onward(p, SendRecord(p, t)) && Moved(SendRecord(p, t).log)
  {
  }

  lemma {:induction false} SendIdles(p: Pump, script: seq<Turn>)
    requires script != [] && !script[0].closed
    requires var q := Refreshed(p, script[0]); !Readable(q, script[0]) && Sendable(q, script[0])
    ensures Taking(p, script, Process(p, script))
    decreases |script|, 0
  {
    var q := SendRecord(Refreshed(p, script[0]), script[0]);
    SendMoves(Refreshed(p, script[0]), script[0]);
    ProcessIdles(q, script[1..]);
    MovesThen(p, script, q, Process(q, script[1..]));
  }

  lemma {:induction false} ReadIdles(p: Pump, script: seq<Turn>)
    requires script != [] && !script[0].closed && Readable(Refreshed(p, script[0]), script[0])
    ensures Taking(p, script, Process(p, script))
    ensures |Process(p, script).script| < |script|
    decreases |script|, 0
  {
    var t, later := script[0], script[1..];
    var q := TakeApp(Refreshed(p, t), t);
    CallbackIdles(q, t.writes, later);
    var r := Callback(q, t.writes, later);
    ProcessIdles(r.pump, r.script);
    TakingOn(q, later, r, Process(r.pump, r.script));
    MovesThen(p, script, q, Process(r.pump, r.script));
  }

  lemma {:induction false} CallbackIdles(p: Pump, writes: seq<AppWrite>, script: seq<Turn>)
    ensures Taking(p, script, Callback(p, writes, script))
    decreases |script|, 3 + |writes|
  {
    if p.attached && writes != [] {
      SslWriteIdles(p, writes[0], script);
      var r := SslWrite(p, writes[0], script);
      CallbackIdles(r.pump, writes[1..], r.script);
      TakingOn(p, script, r, Callback(r.pump, writes[1..], r.script));
    }
  }

  lemma {:induction false} SslWriteIdles(p: Pump, w: AppWrite, script: seq<Turn>)
    ensures Taking(p, script, SslWrite(p, w, script))
    decreases |script|, 2
  {
    if !w.sendapp {
      assert script[0..] == script;
    } else {
      var q := if w.room == 0 then p else p.(eng := Makes(p.eng, w.records));
      ProcessIdles(q, script);
      StartsFrom(p, script, q, Process(q, script));
    }
  }

  lemma StartsFrom(p: Pump, script: seq<Turn>, q: Pump, r: Rest)
    requires Onward(p, q) && SameButMade(p, q) && Taking(q, script, r) && (script != [] ==> |r.script| < |script|)
    ensures Taking(p, script, r)
  {
  }

  // ---- what one turn and one write do

  /** A turn whose callback makes no calls moves one thing at most, decrypted data before
      records: data if the engine holds out less than a buffer of it, a record if it holds
      out less than a buffer and TCP has room for all of it.  With nothing to move it
      completes the handshake if the session has just been established. */
  lemma TurnDecides(p: Pump, t: Turn)
    requires t.writes == []
    ensures var r, incoming, outgoing := Process(p, [t]).pump, p.eng.incoming + t.decrypted, p.eng.outgoing + t.records;
      var n, m := Min(t.appOffer, |incoming|), Min(t.recordOffer, |outgoing|);
      if t.closed then
        r.log == p.log + [Closed(p.attached)] && r.eng.incoming == incoming && r.eng.outgoing == outgoing
      else if 0 < n < 1024 then
        && r.log == p.log + [Delivered(incoming[..n], p.attached)]
        && r.eng.incoming == incoming[n..] && r.eng.outgoing == outgoing
      else if 0 < m < 1024 && m <= p.tcp.room then
        && r.log == p.log + [Written(outgoing[..m], t.queued)]
        && r.eng.incoming == incoming && r.eng.outgoing == outgoing[m..]
        && r.tcp == if t.queued then Tcp(p.tcp.room - m, p.tcp.wire + outgoing[..m]) else p.tcp
      else
        && r.log == p.log + (if !p.done && t.ready then [Handshake(p.attached)] else [])
        && r.done == (p.done || t.ready) && r.eng.incoming == incoming && r.eng.outgoing == outgoing
  {
    assert [t][1..] == [] && p.log + [] == p.log;
  }

  /** A TLS write takes what the engine has room for, all of the data if it can, and pumps
      if and only if the engine takes application data at all. */
  lemma WriteTakesAndPumps(p: Pump, w: AppWrite, script: seq<Turn>)
    ensures var n, r := TakenBy(w), SslWrite(p, w, script);
      && n <= |w.data| && (w.sendapp ==> n == |w.data| || n == w.room) && (!w.sendapp ==> n == 0 && r == Rest(p, script))
      && (w.sendapp ==> n <= w.room && (script != [] ==> |r.script| < |script|))
  {
    if w.sendapp {
      ProcessTakes(if w.room == 0 then p else p.(eng := Makes(p.eng, w.records)), script);
    }
  }

  lemma ProcessTakes(p: Pump, script: seq<Turn>)
    ensures script != [] ==> |Process(p, script).script| < |script|
  {
    ProcessIdles(p, script);
  }

  /** What the engine makes of the writes of one callback. */
  function RecordsOf(writes: seq<AppWrite>): bytes
    decreases |writes|
  {
    if writes == [] then []
    else (if writes[0].sendapp && writes[0].room > 0 then writes[0].records else []) + RecordsOf(writes[1..])
  }

  /** A callback that is attached makes all its calls, in order; one that is not makes none. */
  lemma {:induction false} CallbackMakesCalls(p: Pump, writes: seq<AppWrite>)
    ensures Callback(p, writes, []).pump.eng.made == p.eng.made + if p.attached then RecordsOf(writes) else []
    decreases |writes|
  {
    if p.attached && writes != [] {
      var q := SslWrite(p, writes[0], []).pump;
      CallbackMakesCalls(q, writes[1..]);
      assert q.eng.made == p.eng.made + if writes[0].sendapp && writes[0].room > 0 then writes[0].records else [];
    }
  }

  /** The callback of a turn, of whichever kind, is called and makes its calls exactly when
      the turn finds the engine closed, takes data, or completes the handshake. */
  lemma TurnCallsBack(p: Pump, t: Turn)
    ensures var incoming, outgoing := p.eng.incoming + t.decrypted, p.eng.outgoing + t.records;
      var n, m := Min(t.appOffer, |incoming|), Min(t.recordOffer, |outgoing|);
      var called := t.closed || 0 < n < 1024 || (!(0 < m < 1024 && m <= p.tcp.room) && !p.done && t.ready);
      Process(p, [t]).pump.eng.made == p.eng.made + t.records + if called && p.attached then RecordsOf(t.writes) else []
  {
    var q := Refreshed(p, t);
    assert [t][1..] == [];
    var q1 := if t.closed then Note(q, Closed(q.attached))
              else if Readable(q, t) then TakeApp(q, t)
              else Note(q.(done := true), Handshake(q.attached));
    CallbackMakesCalls(q1, t.writes);
    CallbackTakesNone(q1, t.writes);
  }

  lemma {:induction false} CallbackTakesNone(p: Pump, writes: seq<AppWrite>)
    ensures Callback(p, writes, []).script == []
    decreases |writes|
  {
    if p.attached && writes != [] {
      CallbackTakesNone(SslWrite(p, writes[0], []).pump, writes[1..]);
    }
  }

  lemma EnterAttaches(p: Pump, e: Entry)
    ensures Enter(p, e).attached <==> p.attached || e.Attaches?
  {
    match e
    case Pumps(script) => ProcessIdles(p, script);
    case Writes(write, script) => SslWriteIdles(p, write, script);
    case Attaches =>
    case Frees(_) =>
  }

  /** The callbacks are attached exactly once the client has attached them. */
  lemma {:induction false} AttachedOnceAttached(p: Pump, run: seq<Entry>)
    ensures RunEntries(p, run).attached <==> p.attached || Attaches in run
    decreases |run|
  {
    if run != [] {
      EnterAttaches(p, run[0]);
      AttachedOnceAttached(Enter(p, run[0]), run[1..]);
      assert run == [run[0]] + run[1..];
    }
  }
}
