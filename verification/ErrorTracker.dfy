/** The close-error tracker (src/ESPAsyncTCPErrorTracker.cpp): it decides what a
    callback returns to lwIP, so that ERR_ABRT is reported once at most. */
module ErrorTracker {

  /** lwIP's `err_t`, with the two values the client distinguishes. */
  datatype Err = ErrOk | ErrAbrt | ErrOther(code: int)

  datatype ErrorEvent = EeOk | EeAborted | EeErrorCb | EeConnectedCb | EeRecvCb

  /** The fields of a tracker, as a value. */
  datatype Tracker = Tracker(closeError: Err, errored: ErrorEvent)

  const FRESH_TRACKER: Tracker := Tracker(ErrOk, EeOk)

  function WithCloseError(t: Tracker, e: Err): Tracker {
    if t.errored == EeOk then t.(closeError := e) else t
  }

  function WithErrored(t: Tracker, ev: ErrorEvent): Tracker {
    if t.errored == EeOk then t.(errored := ev) else t
  }

  /** What `getCallbackCloseError` answers. */
  function Answer(t: Tracker): Err {
    if t.errored != EeOk then ErrOk else t.closeError
  }

  /** The tracker after `getCallbackCloseError`. */
  function Asked(t: Tracker): Tracker {
    if t.errored == EeOk && t.closeError == ErrAbrt then WithErrored(t, EeAborted) else t
  }

  /** The tracker operations a run may perform, in any order. */
  datatype Op = SetClose(e: Err) | SetError(ev: ErrorEvent) | Ask

  function Apply(t: Tracker, op: Op): Tracker {
    match op
    case SetClose(e) => WithCloseError(t, e)
    case SetError(ev) => WithErrored(t, ev)
    case Ask => Asked(t)
  }

  /** The answers given, in order, while `ops` run from `t`. */
  function Answers(t: Tracker, ops: seq<Op>): seq<Err>
    decreases |ops|
  {
    if ops == [] then []
    else (if ops[0] == Ask then [Answer(t)] else []) + Answers(Apply(t, ops[0]), ops[1..])
  }

  /** Once an error event is recorded every later answer is ERR_OK. */
  lemma {:induction false} SilentAfterError(t: Tracker, ops: seq<Op>)
    requires t.errored != EeOk
    ensures forall k :: 0 <= k < |Answers(t, ops)| ==> Answers(t, ops)[k] == ErrOk
    decreases |ops|
  {
    if ops != [] {
      SilentAfterError(Apply(t, ops[0]), ops[1..]);
    }
  }

  /** ERR_ABRT is answered at most once in any run of operations, and
      every answer after it is ERR_OK. */
  lemma {:induction false} AbortAnsweredOnce(t: Tracker, ops: seq<Op>, j: nat, k: nat)
    requires j < k < |Answers(t, ops)|
    requires Answers(t, ops)[j] == ErrAbrt
    ensures Answers(t, ops)[k] == ErrOk
    decreases |ops|
  {
    var rest := Apply(t, ops[0]);
    if ops[0] == Ask {
      if j == 0 {
        SilentAfterError(rest, ops[1..]);
      } else {
        AbortAnsweredOnce(rest, ops[1..], j - 1, k - 1);
      }
    } else {
      AbortAnsweredOnce(rest, ops[1..], j, k);
    }
  }

  /** The tracker object. */
  class ACErrorTracker {
    var closeError: Err
    var errored: ErrorEvent

    function View(): Tracker
      reads this
    {
      Tracker(closeError, errored)
    }

    constructor ()
      ensures View() == FRESH_TRACKER
    {
      closeError, errored := ErrOk, EeOk;
    }

    method SetCloseError(e: Err)
      modifies this
      ensures View() == WithCloseError(old(View()), e)
    {
      if errored == EeOk {
        closeError := e;
      }
    }

    method SetErrored(ev: ErrorEvent)
      modifies this
      ensures View() == WithErrored(old(View()), ev)
    {
      if errored == EeOk {
        errored := ev;
      }
    }

    method GetCallbackCloseError() returns (e: Err)
      modifies this
      ensures e == Answer(old(View()))
      ensures View() == Asked(old(View()))
    {
      if errored != EeOk {
        return ErrOk;
      }
      if closeError == ErrAbrt {
        SetErrored(EeAborted);
      }
      return closeError;
    }
  }
}
