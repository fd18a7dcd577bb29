/** The session's cancellation context and the connection-state callback that cancels it.
    Both relay variants install the same callback: `done()` is called when the peer
    connection reports Failed or when it reports Closed; every other state leaves the
    context alone. */
module Lifecycle {

  /** The states a peer connection reports to `OnConnectionStateChange`. */
  datatype PeerConnectionState =
    | Unknown | New | Connecting | Connected | Disconnected | Failed | Closed

  /** The context returned by `context.WithCancel`: once `done` it stays done. */
  class Context {
    var done: bool

    constructor ()
      ensures !done
    {
      done := false;
    }
  }

  /** The callback body: cancel on Failed, cancel on Closed, ignore the rest. */
  method OnConnectionStateChange(ctx: Context, state: PeerConnectionState)
    modifies ctx
    ensures ctx.done == DoneAfter(old(ctx.done), [state])
  {
    if state == Failed {
      ctx.done := true;
    }
    if state == Closed {
      ctx.done := true;
    }
  }

  /** Whether the context is cancelled after the callback has seen `states` in order;
      once cancelled it stays cancelled. */
  function DoneAfter(done: bool, states: seq<PeerConnectionState>): (d: bool)
    ensures done ==> d
    decreases states
  {
    if states == [] then done
    else DoneAfter(done || states[0] == Failed || states[0] == Closed, states[1..])
  }

  /** Starting from a fresh context, it is cancelled exactly when some reported state was
      Failed or Closed; in particular it is never un-cancelled. */
  lemma {:induction false} DoneIffTerminalSeen(done: bool, states: seq<PeerConnectionState>)
    ensures DoneAfter(done, states) <==>
            done || exists k :: 0 <= k < |states| && (states[k] == Failed || states[k] == Closed)
    decreases states
  {
    if states != [] {
      var d := done || states[0] == Failed || states[0] == Closed;
      DoneIffTerminalSeen(d, states[1..]);
      if exists k :: 0 <= k < |states| - 1 && (states[1..][k] == Failed || states[1..][k] == Closed) {
        var k :| 0 <= k < |states| - 1 && (states[1..][k] == Failed || states[1..][k] == Closed);
        assert states[k + 1] == states[1..][k];
      }
      if exists k :: 0 <= k < |states| && (states[k] == Failed || states[k] == Closed) {
        var k :| 0 <= k < |states| && (states[k] == Failed || states[k] == Closed);
        if k > 0 {
          assert states[1..][k - 1] == states[k];
        }
      }
    }
  }
}
