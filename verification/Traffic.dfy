/** One traffic event on a connection (`contribute/agonet/simple/simple_event_handler.go`,
    `contribute/agonet/event_loop.go`). */
module Traffic {
  import opened Connection
  import opened Framing

  const DEFAULT_INBOUND_LIMIT := 16 * 1024 * 1024
  const MIN_INBOUND_LIMIT := 1024 * 1024

  /** How many bytes an open connection may retain. */
  function ResolveInboundLimit(configured: int): (limit: int)
    ensures limit >= MIN_INBOUND_LIMIT
    ensures configured >= MIN_INBOUND_LIMIT ==> limit == configured
    ensures 0 < configured < MIN_INBOUND_LIMIT ==> limit == MIN_INBOUND_LIMIT
    ensures configured <= 0 ==> limit == DEFAULT_INBOUND_LIMIT
  {
    var limit := if configured > 0 then configured else DEFAULT_INBOUND_LIMIT;
    if limit < MIN_INBOUND_LIMIT then MIN_INBOUND_LIMIT else limit
  }

  /** Why a connection is no longer open. */
  datatype Status = Open | ClosedOnError | ClosedOnOverflow | ClosedByOthers

  /** What one event does to a connection holding `s`: at most one frame is handed on, and a further
      Wake is asked for when bytes are left after a frame. `failed`: the exception handlers are called,
      because the stream was refused, or because a handler behind the decoder panicked (`threw`) on the
      frame; then no Wake is asked for. */
  datatype Effect = Effect(fired: seq<seq<byte>>, rest: seq<byte>, wake: bool, failed: bool)

  function EffectOn(d: Decoder, s: seq<byte>, threw: bool): Effect {
    match Decode(d, s)
    case NoFrame => Effect([], s, false, false)
    case Frame(body, size) => Effect([body], s[size..], size < |s| && !threw, threw)
    case Rejected(_) => Effect([], s, false, true)
  }

  /** The connection after the event: closed if something failed and the exception handlers did not cope
      (`handled`), or if a packet left more bytes than the limit allows. */
  function StatusAfter(e: Effect, packet: bool, limit: int, handled: bool): Status {
    if e.failed && !handled then ClosedOnError
    else if packet && |e.rest| > limit then ClosedOnOverflow
    else Open
  }

  /** An incomplete frame changes nothing. A whole frame is handed on and taken out of the bytes, and what is
      left asks for a Wake unless the handler panicked. A refused stream hands nothing on, stays, asks for no
      Wake, and counts as a failure. */
  lemma EffectByOutcome(d: Decoder, s: seq<byte>, threw: bool)
    ensures var e := EffectOn(d, s, threw);
      && (Decode(d, s).NoFrame? ==> e.fired == [] && e.rest == s && !e.wake && !e.failed)
      && (Decode(d, s).Frame? ==>
            && |e.fired| == 1 && s[..Decode(d, s).size] + e.rest == s
            && e.fired[0] == s[d.initialBytesToStrip..Decode(d, s).size]
            && (e.wake <==> e.rest != [] && !threw) && (e.failed <==> threw))
      && (Decode(d, s).Rejected? ==> e.fired == [] && e.rest == s && !e.wake && e.failed)
  {
    hide Decode;
  }

  /** When a connection with these bytes in hand does not stay open: the exception handlers were called, for a
      refused stream or a panic, and did not cope; or a packet left more than the limit allows. */
  lemma StatusByOutcome(d: Decoder, s: seq<byte>, threw: bool, packet: bool, limit: int, handled: bool)
    ensures var status := StatusAfter(EffectOn(d, s, threw), packet, limit, handled);
      var failed := Decode(d, s).Rejected? || (Decode(d, s).Frame? && threw);
      var left := |s| - if Decode(d, s).Frame? then Decode(d, s).size else 0;
      && (status == ClosedOnError <==> failed && !handled)
      && (status == ClosedOnOverflow <==> (failed ==> handled) && packet && left > limit)
      && status != ClosedByOthers
  {
    hide Decode;
  }

  /** The handler of the source: one decode attempt, a Wake if bytes are left and some were used. A panic of
      a handler the frame is handed to skips the Wake; a refused stream closes the connection if the exception
      handlers do not cope. */
  method OnTraffic(d: Decoder, c: Conn, threw: bool, handled: bool)
    returns (fired: seq<seq<byte>>, wake: bool, close: bool)
    requires !c.closed
    modifies c`inbound, c`buffer, c`cache
    ensures var e := EffectOn(d, old(c.Contents()), threw);
      && fired == e.fired && wake == e.wake && close == (e.failed && !handled)
      && c.Contents() == e.rest
    ensures var outcome := Decode(d, old(c.Contents()));
      && (close <==> (outcome.Rejected? || (outcome.Frame? && threw)) && !handled)
      && (wake <==> outcome.Frame? && !threw && outcome.size < |old(c.Contents())|)
      && fired == (if outcome.Frame? then [outcome.body] else [])
    ensures |c.buffer| <= |old(c.buffer)|
  {
    hide Decode;
    fired, wake, close := [], false, false;
    var before := c.InboundBuffered();
    var outcome := DoDecode(d, c);
    match outcome {
      case NoFrame =>
      case Frame(body, _) =>
        fired := [body];
        if threw {
          return fired, false, !handled;
        }
      case Rejected(_) => return [], false, !handled;
    }
    var after := c.InboundBuffered();
    wake := after > 0 && after != before;
  }

  /** A packet event of the loop. Between events the packet buffer is empty, and what an open connection
      retains is within the limit. */
  method ReadEvent(d: Decoder, c: Conn, packet: seq<byte>, limit: int, threw: bool, handled: bool)
    returns (fired: seq<seq<byte>>, wake: bool, status: Status)
    requires !c.closed
    modifies c
    ensures var e := EffectOn(d, old(c.Contents()) + packet, threw);
      && fired == e.fired && wake == e.wake && status == StatusAfter(e, true, limit, handled)
      && c.closed == !status.Open?
      && c.Contents() == (if status.Open? then e.rest else [])
    ensures c.buffer == []
    ensures status.Open? ==> |c.Contents()| <= limit
    ensures Decode(d, old(c.Contents()) + packet).Rejected? && !handled ==> status == ClosedOnError && c.closed
  {
    hide EffectOn;
    StatusByOutcome(d, c.Contents() + packet, threw, true, limit, handled);
    var _ := c.Unpack(packet);
    var close;
    fired, wake, close := OnTraffic(d, c, threw, handled);
    status := Open;
    if close {
      status := ClosedOnError;
      c.Release();
      return;
    }
    var retained := c.InboundBuffered();
    if retained > limit {
      status := ClosedOnOverflow;
      c.Release();
      return;
    }
    c.Flush();
  }

  /** A Wake event of the loop: no packet, and no check of the limit. */
  method WakeEvent(d: Decoder, c: Conn, limit: int, threw: bool, handled: bool)
    returns (fired: seq<seq<byte>>, wake: bool, status: Status)
    requires !c.closed && c.buffer == []
    modifies c
    ensures var e := EffectOn(d, old(c.Contents()), threw);
      && fired == e.fired && wake == e.wake && status == StatusAfter(e, false, limit, handled)
      && c.closed == !status.Open?
      && c.Contents() == (if status.Open? then e.rest else [])
    ensures c.buffer == []
    ensures Decode(d, old(c.Contents())).Rejected? && !handled ==> status == ClosedOnError && c.closed
  {
    hide EffectOn;
    StatusByOutcome(d, c.Contents(), threw, false, limit, handled);
    var close;
    fired, wake, close := OnTraffic(d, c, threw, handled);
    status := Open;
    if close {
      status := ClosedOnError;
      c.Release();
    }
  }
}
