/** The pump as an object that its own callbacks call back into. */
module TlsEngineObject {
  import opened Words
  import opened TlsPump

  class TlsEngine {
    var attached: bool             // on_data, on_handshake and on_error are set
    var handshakeDone: bool        // handshake_done
    var incoming: bytes            // held by the engine for the application
    var outgoing: bytes            // held by the engine for TCP
    var room: nat                  // tcp_sndbuf
    var wire: bytes                // queued by tcp_write
    var script: seq<Turn>          // what the engine, TCP and the callbacks do next
    ghost var decrypted: bytes
    ghost var made: bytes
    ghost var delivered: bytes
    ghost var log: seq<TlsEvent>

    ghost function View(): Pump
      reads this
    {
      Pump(attached, handshakeDone, Engine(incoming, outgoing, decrypted, made), Tcp(room, wire), delivered, log)
    }

    ghost function State(): Rest
      reads this
    {
      Rest(View(), script)
    }

    constructor (space: nat)
      ensures View() == FreshPump(space) && script == []
    {
      attached, handshakeDone, room := false, false, space;
      incoming, outgoing, wire, script := [], [], [], [];
      decrypted, made, delivered, log := [], [], [], [];
    }

    // ---- the engine and TCP

    /** What the engine does between two turns. */
    method Refresh(t: Turn)
      modifies this`incoming, this`outgoing, this`decrypted, this`made
      ensures View() == Refreshed(old(View()), t)
    {
      incoming, decrypted := incoming + t.decrypted, decrypted + t.decrypted;
      outgoing, made := outgoing + t.records, made + t.records;
    }

    /** Take decrypted data: the engine is told, then the data callback gets it. */
    method TakeData(t: Turn)
      requires Readable(View(), t)
      modifies this`incoming, this`delivered, this`log
      ensures View() == TakeApp(old(View()), t)
    {
      var n := if t.appOffer < |incoming| then t.appOffer else |incoming|;
      var app := incoming[..n];
      incoming := incoming[n..];
      if attached {
        delivered := delivered + app;
      }
      log := log + [Delivered(app, attached)];
    }

    /** Send a record: `tcp_write`, whatever it answers; then the engine is told. */
    method Send(t: Turn)
      requires Sendable(View(), t)
      modifies this`outgoing, this`room, this`wire, this`log
      ensures View() == SendRecord(old(View()), t)
    {
      var n := if t.recordOffer < |outgoing| then t.recordOffer else |outgoing|;
      var record := outgoing[..n];
      if t.queued {
        wire := wire + record;
        room := room - n;
      }
      log := log + [Written(record, t.queued)];
      outgoing := outgoing[n..];
    }

    // ---- the pump

    /** `process_ssl_engine` */
    method ProcessEngine()
      modifies this
      ensures State() == Process(old(View()), old(script))
      decreases |script|, 0
    {
      var ready, calls := false, [];
      while script != []
        invariant !ready && |script| <= |old(script)|
        invariant Process(View(), script) == Process(old(View()), old(script))
        decreases |script|
      {
        var t := script[0];
        script := script[1..];
        Refresh(t);
        if t.closed {
          log := log + [Closed(attached)];
          MakeCalls(t.writes);
          return;
        }
        var moved := Move(t);
        if !moved {
          ready, calls := t.ready, t.writes;
          break;
        }
      }
      if !handshakeDone && ready {
        handshakeDone := true;
        log := log + [Handshake(attached)];
        MakeCalls(calls);
      }
    }

    /** The body of that loop once the engine is found open: move data to the callback, or
        else a record to TCP, if either can be moved. */
    method Move(t: Turn) returns (moved: bool)
      modifies this
      ensures var q := old(View());
        State() == (if Readable(q, t) then Callback(TakeApp(q, t), t.writes, old(script))
                    else Rest(if Sendable(q, t) then SendRecord(q, t) else q, old(script)))
      ensures moved == (Readable(old(View()), t) || Sendable(old(View()), t))
      decreases |script|, 3 + |t.writes|
    {
      var inLen := if t.appOffer < |incoming| then t.appOffer else |incoming|;
      if 0 < inLen && inLen < IN_BUFFER_SIZE {
        TakeData(t);
        MakeCalls(t.writes);
        return true;
      }
      var outLen := if t.recordOffer < |outgoing| then t.recordOffer else |outgoing|;
      if 0 < outLen && outLen < OUT_BUFFER_SIZE {
        if room >= outLen {
          Send(t);
          return true;
        }
      }
      return false;
    }

    /** A callback at work. */
    method MakeCalls(writes: seq<AppWrite>)
      modifies this
      ensures State() == Callback(old(View()), writes, old(script))
      decreases |script|, 2 + |writes|
    {
      if !attached {
        return;
      }
      var left := writes;
      while left != []
        invariant attached && |script| <= |old(script)| && |left| <= |writes|
        invariant Callback(View(), left, script) == Callback(old(View()), writes, old(script))
        decreases |left|
      {
        SslWriteIdles(View(), left[0], script);
        var taken := Write(left[0]);
        left := left[1..];
      }
    }

    /** `tcp_ssl_write` on a connection that is in the list */
    method Write(w: AppWrite) returns (code: nat)
      modifies this
      ensures State() == SslWrite(old(View()), w, old(script))
      ensures code == TakenBy(w)
      ensures code <= |w.data| && (w.sendapp ==> code == |w.data| || code == w.room) && (!w.sendapp ==> code == 0)
      decreases |script|, 1
    {
      if !w.sendapp {
        return 0;
      }
      if w.room == 0 {
        ProcessEngine();
        return 0;
      }
      code := if |w.data| > w.room then w.room else |w.data|;
      // the engine takes this much and makes records of it
      outgoing, made := outgoing + w.records, made + w.records;
      ProcessEngine();
    }
  }
}
