/** Framing over whole runs of an event loop: whatever way a stream is cut into packets, the frames
    handed on are those of the stream. */
module FramingRun {
  import opened Connection
  import opened Framing
  import opened Traffic

  datatype Event = Packet(bytes: seq<byte>) | Wake

  datatype Config = Config(decoder: Decoder, capacity: nat, limit: int)

  /** One connection, the queue of its loop, the Wakes waiting in the worker pool for a free place in the
      queue, and the bytes the peer sent that have not been read. */
  datatype State = State(
    status: Status,
    contents: seq<byte>,
    queue: seq<Event>,
    delayed: nat,
    wire: seq<byte>,
    delivered: seq<seq<byte>>)

  function Init(stream: seq<byte>): State {
    State(Open, [], [], 0, stream, [])
  }

  /** Whether a handler behind the decoder panics on the frame it is given, and whether the exception
      handlers cope with such a panic, or with a stream that is refused. */
  datatype Panic = Panic(threw: bool, handled: bool)

  /** What becomes of the Wake an event asks for. */
  datatype Fate = Posted | Delayed | Refused

  datatype Step =
    | Arrive(size: nat)                    // the reader posts the next bytes as a packet
    | ForeignWake                          // somebody else wakes the connection
    | Post                                 // a Wake from the pool finds a place
    | Handle(fate: Fate, panic: Panic)     // the loop takes the next event
    | CloseByOthers                        // the peer, the application or the engine closes

  function BytesOf(e: Event): seq<byte> {
    if e.Packet? then e.bytes else []
  }

  predicate Enabled(cfg: Config, s: State, step: Step) {
    match step
    case Arrive(size) => 0 < size <= |s.wire| && |s.queue| < cfg.capacity
    case ForeignWake => |s.queue| < cfg.capacity
    case Post => s.delayed > 0 && |s.queue| < cfg.capacity
    case Handle(fate, _) => s.queue != [] && (fate.Posted? ==> |s.queue| <= cfg.capacity)
    case CloseByOthers => true
  }

  function Apply(cfg: Config, s: State, step: Step): State
    requires Enabled(cfg, s, step)
  {
    match step
    case Arrive(size) => s.(queue := s.queue + [Packet(s.wire[..size])], wire := s.wire[size..])
    case ForeignWake => s.(queue := s.queue + [Wake])
    case Post => s.(queue := s.queue + [Wake], delayed := s.delayed - 1)
    case CloseByOthers => if s.status.Open? then s.(status := ClosedByOthers, contents := []) else s
    case Handle(fate, panic) =>
      if !s.status.Open? then s.(queue := s.queue[1..])
      else
        var e := EffectOn(cfg.decoder, s.contents + BytesOf(s.queue[0]), panic.threw);
        var status := StatusAfter(e, s.queue[0].Packet?, cfg.limit, panic.handled);
        State(
          status,
          if status.Open? then e.rest else [],
          s.queue[1..] + (if e.wake && fate.Posted? then [Wake] else []),
          s.delayed + (if e.wake && fate.Delayed? then 1 else 0),
          s.wire,
          s.delivered + e.fired)
  }

  ghost predicate IsRun(cfg: Config, run: seq<State>, steps: seq<Step>) {
    && |run| == |steps| + 1
    && forall i :: 0 <= i < |steps| ==> Enabled(cfg, run[i], steps[i]) && run[i + 1] == Apply(cfg, run[i], steps[i])
  }

  // ----- The invariant -----

  function QueuedBytes(queue: seq<Event>): seq<byte> {
    if queue == [] then [] else BytesOf(queue[0]) + QueuedBytes(queue[1..])
  }

  lemma {:induction false} QueuedBytesOfLonger(queue: seq<Event>, e: Event)
    ensures QueuedBytes(queue + [e]) == QueuedBytes(queue) + BytesOf(e)
  {
    if queue == [] {
      assert queue + [e] == [e];
    } else {
      assert (queue + [e])[1..] == queue[1..] + [e];
      QueuedBytesOfLonger(queue[1..], e);
    }
  }

  /** The part of the stream not used up yet: retained, queued, and still on the wire. */
  function Remaining(s: State): seq<byte> {
    s.contents + QueuedBytes(s.queue) + s.wire
  }

  /** The loop takes an event of an open connection, and leaves a whole frame behind without a Wake for it: a
      handler behind the decoder panicked on the frame before it, or the pool refused the Wake. */
  predicate DropsWake(cfg: Config, s: State, step: Step) {
    && Handles(s, step) && (step.panic.threw || step.fate.Refused?)
    && Decode(cfg.decoder, InHand(s)).Frame?
    && Decode(cfg.decoder, EffectOn(cfg.decoder, InHand(s), step.panic.threw).rest).Frame?
  }

  predicate Handles(s: State, step: Step) {
    step.Handle? && s.status.Open? && s.queue != []
  }

  /** The last event that the loop took of the open connection dropped its Wake. */
  ghost predicate Stalled(cfg: Config, run: seq<State>, steps: seq<Step>, i: nat)
    requires i <= |run| && i <= |steps|
  {
    exists k :: 0 <= k < i && DropsWake(cfg, run[k], steps[k]) && forall j :: k < j < i ==> !Handles(run[j], steps[j])
  }

  lemma StalledStep(cfg: Config, run: seq<State>, steps: seq<Step>, i: nat)
    requires 0 < i <= |run| && i <= |steps|
    ensures Stalled(cfg, run, steps, i) <==>
      if Handles(run[i - 1], steps[i - 1]) then DropsWake(cfg, run[i - 1], steps[i - 1]) else Stalled(cfg, run, steps, i - 1)
  {
    hide DropsWake, Handles;
    DropsMeansHandles(cfg, run[i - 1], steps[i - 1]);
    if Stalled(cfg, run, steps, i) {
      var k :| 0 <= k < i && DropsWake(cfg, run[k], steps[k]) && forall j :: k < j < i ==> !Handles(run[j], steps[j]);
    }
  }

  lemma DropsMeansHandles(cfg: Config, s: State, step: Step)
    ensures DropsWake(cfg, s, step) ==> Handles(s, step)
  {}

  /** Whether the connection is stalled after a step. */
  ghost predicate StalledAfter(cfg: Config, s: State, step: Step, stalled: bool) {
    if Handles(s, step) then DropsWake(cfg, s, step) else stalled
  }

  ghost predicate Invariant(cfg: Config, stream: seq<byte>, s: State, stalled: bool) {
    && s.delivered <= DecodeAll(cfg.decoder, stream)
    && (s.status.Open? ==>
          && s.delivered + DecodeAll(cfg.decoder, Remaining(s)) == DecodeAll(cfg.decoder, stream)
          && (Decode(cfg.decoder, s.contents).Frame? ==> s.queue != [] || s.delayed > 0 || stalled)
          && (stalled ==> Decode(cfg.decoder, s.contents).Frame?)
          && (|s.contents| <= cfg.limit || s.contents == []))
  }

  lemma InitInvariant(cfg: Config, stream: seq<byte>)
    ensures Invariant(cfg, stream, Init(stream), false)
  {
    hide Decode;
    NothingDecoded(cfg.decoder);
    assert Remaining(Init(stream)) == stream;
  }

  /** Handing on the frame at the front of what is retained leaves the frames of the rest. */
  lemma EffectKeepsFrames(d: Decoder, s: seq<byte>, t: seq<byte>, threw: bool)
    ensures var e := EffectOn(d, s, threw);
      && DecodeAll(d, s + t) == e.fired + DecodeAll(d, e.rest + t)
      && (Decode(d, e.rest).Frame? ==> e.wake || e.failed)
      && |e.rest| <= |s| && (e.fired != [] ==> |e.rest| < |s|)
      && (e.failed && !threw ==> DecodeAll(d, s + t) == [])
  {
    hide Decode;
    NothingDecoded(d);
    if Decode(d, s) != NoFrame {
      DecodeLonger(d, s, t);
    }
    if Decode(d, s).Frame? {
      var size := Decode(d, s).size;
      assert (s + t)[size..] == s[size..] + t;
    }
  }

  lemma StepKeepsInvariant(cfg: Config, stream: seq<byte>, s: State, step: Step, stalled: bool)
    requires Invariant(cfg, stream, s, stalled) && Enabled(cfg, s, step)
    ensures Invariant(cfg, stream, Apply(cfg, s, step), StalledAfter(cfg, s, step, stalled))
  {
    hide Decode, DecodeAll, EffectOn;
    var s' := Apply(cfg, s, step);
    match step
    case Arrive(size) =>
      QueuedBytesOfLonger(s.queue, Packet(s.wire[..size]));
      assert Remaining(s') == Remaining(s);
    case ForeignWake =>
      QueuedBytesOfLonger(s.queue, Wake);
      assert Remaining(s') == Remaining(s);
    case Post =>
      QueuedBytesOfLonger(s.queue, Wake);
      assert Remaining(s') == Remaining(s);
    case CloseByOthers =>
    case Handle(fate, panic) =>
      if s.status.Open? {
        HandleKeepsInvariant(cfg, stream, s, fate, panic, stalled);
      }
  }

  /** What the loop works on when it takes an event, and what is still to come. */
  function InHand(s: State): seq<byte>
    requires s.queue != []
  {
    s.contents + BytesOf(s.queue[0])
  }

  function ToCome(s: State): seq<byte>
    requires s.queue != []
  {
    QueuedBytes(s.queue[1..]) + s.wire
  }

  lemma Regroup(a: seq<byte>, b: seq<byte>, c: seq<byte>, d: seq<byte>)
    ensures a + (b + c) + d == (a + b) + (c + d)
    ensures a + c + d == a + (c + d)
  {}

  lemma QueuedAfterHandle(queue: seq<Event>, again: bool)
    ensures QueuedBytes(queue + (if again then [Wake] else [])) == QueuedBytes(queue)
  {
    hide QueuedBytes;
    if again {
      QueuedBytesOfLonger(queue, Wake);
    } else {
      assert queue + [] == queue;
    }
  }

  lemma RemainingAfterHandle(cfg: Config, s: State, fate: Fate, panic: Panic)
    requires Enabled(cfg, s, Handle(fate, panic)) && s.status.Open?
    ensures Remaining(s) == InHand(s) + ToCome(s)
    ensures var s' := Apply(cfg, s, Handle(fate, panic));
      s'.status.Open? ==> Remaining(s') == EffectOn(cfg.decoder, InHand(s), panic.threw).rest + ToCome(s)
  {
    hide EffectOn;
    var e := EffectOn(cfg.decoder, InHand(s), panic.threw);
    Regroup(s.contents, BytesOf(s.queue[0]), QueuedBytes(s.queue[1..]), s.wire);
    QueuedAfterHandle(s.queue[1..], e.wake && fate.Posted?);
    Regroup(e.rest, [], QueuedBytes(s.queue[1..]), s.wire);
  }

  lemma HandleKeepsInvariant(cfg: Config, stream: seq<byte>, s: State, fate: Fate, panic: Panic, stalled: bool)
    requires Invariant(cfg, stream, s, stalled) && Enabled(cfg, s, Handle(fate, panic)) && s.status.Open?
    ensures Invariant(cfg, stream, Apply(cfg, s, Handle(fate, panic)), DropsWake(cfg, s, Handle(fate, panic)))
  {
    var s' := Apply(cfg, s, Handle(fate, panic));
    var e := EffectOn(cfg.decoder, InHand(s), panic.threw);
    EffectKeepsFrames(cfg.decoder, InHand(s), ToCome(s), panic.threw);
    RemainingAfterHandle(cfg, s, fate, panic);
    RestIsWithinLimit(cfg, s, fate, panic);
    hide Decode, DecodeAll, EffectOn, Remaining, InHand, ToCome;
    Delivered(s.delivered, e.fired, DecodeAll(cfg.decoder, e.rest + ToCome(s)));
  }

  lemma Delivered(a: seq<seq<byte>>, b: seq<seq<byte>>, c: seq<seq<byte>>)
    ensures a + (b + c) == (a + b) + c && a + b <= (a + b) + c
  {}

  lemma RestIsWithinLimit(cfg: Config, s: State, fate: Fate, panic: Panic)
    requires Enabled(cfg, s, Handle(fate, panic)) && s.status.Open?
    requires |s.contents| <= cfg.limit || s.contents == []
    ensures var s' := Apply(cfg, s, Handle(fate, panic)); |s'.contents| <= cfg.limit || s'.contents == []
  {
    hide Decode;
  }

  lemma {:induction false} RunKeepsInvariant(cfg: Config, stream: seq<byte>, run: seq<State>, steps: seq<Step>, i: nat)
    requires IsRun(cfg, run, steps) && run[0] == Init(stream) && i < |run|
    ensures Invariant(cfg, stream, run[i], Stalled(cfg, run, steps, i))
  {
    hide Invariant, Apply, Enabled, DropsWake, Handles;
    if i == 0 {
      InitInvariant(cfg, stream);
    } else {
      RunKeepsInvariant(cfg, stream, run, steps, i - 1);
      StalledStep(cfg, run, steps, i);
      StepKeepsInvariant(cfg, stream, run[i - 1], steps[i - 1], Stalled(cfg, run, steps, i - 1));
    }
  }

  // ----- Results over whole runs -----

  /** Nothing is under way for the connection. */
  predicate Quiescent(s: State) {
    s.queue == [] && s.delayed == 0 && s.wire == []
  }

  /** For every decoder and every stream, however the stream is cut into packets and whatever Wakes, panics of
      handlers and closings are interleaved: the frames handed on are the first frames of the stream, in
      order; when an open connection has nothing under way they are all of them if and only if the last event
      that the loop took of it did not drop its Wake with a whole frame behind;
      and an open connection retains no more than the limit. */
  lemma FramesAreThoseOfTheStream(cfg: Config, stream: seq<byte>, run: seq<State>, steps: seq<Step>, i: nat)
    requires IsRun(cfg, run, steps) && run[0] == Init(stream) && i < |run|
    ensures run[i].delivered <= DecodeAll(cfg.decoder, stream)
    ensures run[i].status.Open? && Quiescent(run[i]) ==>
      (run[i].delivered == DecodeAll(cfg.decoder, stream) <==> !Stalled(cfg, run, steps, i))
    ensures run[i].status.Open? && cfg.limit >= 0 ==> |run[i].contents| <= cfg.limit
  {
    hide Decode, Apply, Enabled;
    RunKeepsInvariant(cfg, stream, run, steps, i);
    var s := run[i];
    if s.status.Open? && Quiescent(s) {
      assert Remaining(s) == s.contents;
      FramesLeft(cfg.decoder, s.contents);
    }
  }

  lemma FramesLeft(d: Decoder, s: seq<byte>)
    ensures DecodeAll(d, s) == [] <==> !Decode(d, s).Frame?
  {
    hide Decode;
    NothingDecoded(d);
  }

  /** What the matching encoder wrote arrives: a prefix of the bodies at any time, every body at
      quiescence. */
  lemma EncodedBodiesArrive(cfg: Config, e: Encoder, bodies: seq<seq<byte>>, run: seq<State>, steps: seq<Step>, i: nat)
    requires Undoes(cfg.decoder, e) && forall k :: 0 <= k < |bodies| ==> Transmissible(cfg.decoder, bodies[k])
    requires AllEncode(e, bodies)
    requires IsRun(cfg, run, steps) && run[0] == Init(EncodeAll(e, bodies)) && i < |run|
    ensures run[i].delivered <= bodies
    ensures run[i].status.Open? && Quiescent(run[i]) ==> (run[i].delivered == bodies <==> !Stalled(cfg, run, steps, i))
  {
    hide Transmissible, IsRun, DecodeAll, EncodeAll, AllEncode;
    StreamRoundTrip(e, cfg.decoder, bodies);
    FramesAreThoseOfTheStream(cfg, EncodeAll(e, bodies), run, steps, i);
  }

  /** No event drops the Wake it should ask for. */
  predicate KeepsWake(step: Step) {
    step.Handle? ==> !step.panic.threw && !step.fate.Refused?
  }

  lemma NeverStalled(cfg: Config, run: seq<State>, steps: seq<Step>, i: nat)
    requires i <= |run| && i <= |steps| && forall k :: 0 <= k < |steps| ==> KeepsWake(steps[k])
    ensures !Stalled(cfg, run, steps, i)
  {
    hide Decode, EffectOn;
  }

  /** Where no Wake is refused and no handler panics, every frame is handed on. */
  lemma UndisturbedRunsDeliverAll(cfg: Config, stream: seq<byte>, run: seq<State>, steps: seq<Step>, i: nat)
    requires IsRun(cfg, run, steps) && run[0] == Init(stream) && i < |run|
    requires forall k :: 0 <= k < |steps| ==> KeepsWake(steps[k])
    requires run[i].status.Open? && Quiescent(run[i])
    ensures run[i].delivered == DecodeAll(cfg.decoder, stream)
  {
    hide Decode, DecodeAll, EffectOn, Apply, Enabled, Stalled, Quiescent, KeepsWake;
    FramesAreThoseOfTheStream(cfg, stream, run, steps, i);
    NeverStalled(cfg, run, steps, i);
  }

  /** A panic of a handler with which the exception handlers cope strands the frames that came with the one it
      was given: the connection stays open, nothing is under way, and they are not handed on. */
  lemma PanicStrandsFrames(cfg: Config, stream: seq<byte>) returns (run: seq<State>, steps: seq<Step>)
    requires cfg.capacity > 0 && Decode(cfg.decoder, stream).Frame?
    requires var rest := stream[Decode(cfg.decoder, stream).size..];
      Decode(cfg.decoder, rest).Frame? && |rest| <= cfg.limit
    ensures IsRun(cfg, run, steps) && run[0] == Init(stream) && |run| == 3
    ensures run[2].status.Open? && Quiescent(run[2]) && Stalled(cfg, run, steps, 2)
    ensures run[2].delivered != DecodeAll(cfg.decoder, stream)
  {
    hide Decode, DecodeAll;
    var arrive, handle := Arrive(|stream|), Handle(Posted, Panic(true, true));
    var s := Init(stream);
    FrameNeedsBytes(cfg.decoder, stream);
    var s1 := Apply(cfg, s, arrive);
    assert stream[..|stream|] == stream && stream[|stream|..] == [];
    assert s1 == s.(queue := [Packet(stream)], wire := []);
    assert [Packet(stream)][1..] == [] && [] + stream == stream;
    var s2 := Apply(cfg, s1, handle);
    run, steps := [s, s1, s2], [arrive, handle];
    assert DropsWake(cfg, run[1], steps[1]);
    FramesAreThoseOfTheStream(cfg, stream, run, steps, 2);
  }

  lemma FrameNeedsBytes(d: Decoder, s: seq<byte>)
    requires Decode(d, s).Frame?
    ensures s != []
  {
    hide Decode;
    NothingDecoded(d);
  }

  // ----- Exactly when the loop closes the connection -----

  /** In every run: an event closes the connection on an error exactly if the bytes in hand are refused, or the
      handler of the frame panics, and the exception handlers do not cope; on an overflow exactly if a packet
      leaves more than the limit otherwise. Refused bytes hand nothing on and ask for no Wake. */
  lemma ClosedExactlyOnFailure(cfg: Config, run: seq<State>, steps: seq<Step>, i: nat)
    requires IsRun(cfg, run, steps) && i < |steps| && Handles(run[i], steps[i])
    ensures var s, s', panic, d := run[i], run[i + 1], steps[i].panic, cfg.decoder;
      var outcome := Decode(d, InHand(s));
      var failed := outcome.Rejected? || (outcome.Frame? && panic.threw);
      var left := |InHand(s)| - if outcome.Frame? then outcome.size else 0;
      && (s'.status == ClosedOnError <==> failed && !panic.handled)
      && (s'.status == ClosedOnOverflow <==> (failed ==> panic.handled) && s.queue[0].Packet? && left > cfg.limit)
      && (s'.status == Open <==> (failed ==> panic.handled) && (s.queue[0].Packet? ==> left <= cfg.limit))
      && s'.delivered == s.delivered + (if outcome.Frame? then [outcome.body] else [])
      && (outcome.Rejected? ==> s'.queue == s.queue[1..] && s'.delayed == s.delayed)
  {
    hide Decode, EffectOn, StatusAfter;
    var s, panic := run[i], steps[i].panic;
    assert Enabled(cfg, s, steps[i]) && run[i + 1] == Apply(cfg, s, steps[i]);
    EffectByOutcome(cfg.decoder, InHand(s), panic.threw);
    StatusByOutcome(cfg.decoder, InHand(s), panic.threw, s.queue[0].Packet?, cfg.limit, panic.handled);
    DecodedBody(cfg.decoder, InHand(s));
  }

  /** Others close it at any time, and only they do so otherwise. */
  lemma ClosedByOthersExactly(cfg: Config, run: seq<State>, steps: seq<Step>, i: nat)
    requires IsRun(cfg, run, steps) && i < |steps| && run[i].status.Open?
    ensures run[i + 1].status == ClosedByOthers <==> steps[i].CloseByOthers?
    ensures !steps[i].CloseByOthers? && !Handles(run[i], steps[i]) ==> run[i + 1].status.Open?
  {
    hide EffectOn;
    assert Enabled(cfg, run[i], steps[i]) && run[i + 1] == Apply(cfg, run[i], steps[i]);
  }

  lemma DecodedBody(d: Decoder, s: seq<byte>)
    ensures Decode(d, s).Frame? ==> Decode(d, s).body == s[d.initialBytesToStrip..Decode(d, s).size]
  {
    hide Decode;
  }

  // ----- The connection is not closed without cause -----

  /** The loop has not closed the connection, and what is left of the stream decodes. */
  ghost predicate NotAtFault(cfg: Config, stream: seq<byte>, s: State) {
    && !s.status.ClosedOnError? && !s.status.ClosedOnOverflow?
    && (s.status.Open? ==> exists k :: 0 <= k <= |stream| && Remaining(s) == stream[k..] && Decodable(cfg.decoder, stream[k..]))
  }

  /** The stream is a sequence of whole frames. */
  predicate Decodable(d: Decoder, s: seq<byte>)
    decreases |s|
  {
    s == [] || (Decode(d, s).Frame? && Decodable(d, s[Decode(d, s).size..]))
  }

  lemma {:induction false} EncodedIsDecodable(e: Encoder, d: Decoder, bodies: seq<seq<byte>>)
    requires Undoes(d, e) && AllEncode(e, bodies) && forall i :: 0 <= i < |bodies| ==> Transmissible(d, bodies[i])
    ensures Decodable(d, EncodeAll(e, bodies))
  {
    hide Transmissible, Decode, Encode;
    if bodies != [] {
      var rest := EncodeAll(e, bodies[1..]);
      EncodedIsDecodable(e, d, bodies[1..]);
      FrameRoundTrip(e, d, bodies[0], rest);
      EncodedSize(e, d, bodies[0]);
      assert EncodeAll(e, bodies)[d.format.width + |bodies[0]|..] == rest;
    }
  }

  lemma HandleIsNotAtFault(cfg: Config, stream: seq<byte>, s: State, fate: Fate, panic: Panic)
    requires NotAtFault(cfg, stream, s) && Enabled(cfg, s, Handle(fate, panic)) && s.status.Open?
    requires |stream| <= cfg.limit && !(panic.threw && !panic.handled)
    ensures NotAtFault(cfg, stream, Apply(cfg, s, Handle(fate, panic)))
  {
    hide *;
    var k := DecodableFrom(cfg, stream, s);
    HandleGoesOn(cfg, stream, s, fate, panic, k);
  }

  lemma DecodableFrom(cfg: Config, stream: seq<byte>, s: State) returns (k: nat)
    requires NotAtFault(cfg, stream, s) && s.status.Open?
    ensures k <= |stream| && Remaining(s) == stream[k..] && Decodable(cfg.decoder, stream[k..])
  {
    hide Remaining, Decodable;
    k :| 0 <= k <= |stream| && Remaining(s) == stream[k..] && Decodable(cfg.decoder, stream[k..]);
  }

  lemma HandleGoesOn(cfg: Config, stream: seq<byte>, s: State, fate: Fate, panic: Panic, k: nat)
    requires k <= |stream| && Remaining(s) == stream[k..] && Decodable(cfg.decoder, stream[k..])
    requires Enabled(cfg, s, Handle(fate, panic)) && s.status.Open?
    requires |stream| <= cfg.limit && (panic.threw ==> panic.handled)
    ensures NotAtFault(cfg, stream, Apply(cfg, s, Handle(fate, panic)))
  {
    hide *;
    StatusOfHandle(cfg, s, fate, panic);
    var s', hand := Apply(cfg, s, Handle(fate, panic)), InHand(s);
    var e := EffectOn(cfg.decoder, hand, panic.threw);
    RemainingAfterHandle(cfg, s, fate, panic);
    FrontOfDecodable(cfg.decoder, hand, ToCome(s), panic.threw);
    Suffix(stream, k, hand, ToCome(s), e.rest);
    StaysOpen(e, s.queue[0].Packet?, cfg.limit, panic.handled);
    OpenIsNotAtFault(cfg, stream, s', k + |hand| - |e.rest|);
  }

  lemma OpenIsNotAtFault(cfg: Config, stream: seq<byte>, s: State, k: int)
    requires s.status.Open? && 0 <= k <= |stream| && Remaining(s) == stream[k..] && Decodable(cfg.decoder, stream[k..])
    ensures NotAtFault(cfg, stream, s)
  {
    hide Remaining, Decodable;
  }

  lemma StaysOpen(e: Effect, packet: bool, limit: int, handled: bool)
    requires (e.failed ==> handled) && |e.rest| <= limit
    ensures StatusAfter(e, packet, limit, handled) == Open
  {}

  lemma StatusOfHandle(cfg: Config, s: State, fate: Fate, panic: Panic)
    requires Enabled(cfg, s, Handle(fate, panic)) && s.status.Open?
    ensures s.queue != []
    ensures Apply(cfg, s, Handle(fate, panic)).status ==
      StatusAfter(EffectOn(cfg.decoder, InHand(s), panic.threw), s.queue[0].Packet?, cfg.limit, panic.handled)
  {
    hide EffectOn, StatusAfter;
  }

  lemma Suffix(stream: seq<byte>, k: nat, a: seq<byte>, b: seq<byte>, rest: seq<byte>)
    requires k <= |stream| && stream[k..] == a + b && |rest| <= |a| && rest == a[|a| - |rest|..]
    ensures k + |a| - |rest| <= |stream| && |rest| <= |stream|
    ensures rest + b == stream[k + |a| - |rest|..]
  {
    assert stream[k + |a| - |rest|..] == stream[k..][|a| - |rest|..];
  }

  lemma FrontOfDecodable(d: Decoder, s: seq<byte>, t: seq<byte>, threw: bool)
    requires Decodable(d, s + t)
    ensures var e := EffectOn(d, s, threw);
      && (e.failed ==> threw) && Decodable(d, e.rest + t) && |e.rest| <= |s| && e.rest == s[|s| - |e.rest|..]
  {
    hide Decode;
    if Decode(d, s) != NoFrame {
      DecodeLonger(d, s, t);
      if s + t == [] {
        NothingDecoded(d);
      } else {
        var size := Decode(d, s).size;
        assert (s + t)[size..] == s[size..] + t;
      }
    }
  }

  lemma StepIsNotAtFault(cfg: Config, stream: seq<byte>, s: State, step: Step)
    requires NotAtFault(cfg, stream, s) && Enabled(cfg, s, step) && |stream| <= cfg.limit && !Unhandled(step)
    ensures NotAtFault(cfg, stream, Apply(cfg, s, step))
    ensures s.status.Open? && !step.CloseByOthers? ==> Apply(cfg, s, step).status.Open?
  {
    hide Decode, EffectOn, Decodable;
    var s' := Apply(cfg, s, step);
    match step
    case Arrive(size) =>
      QueuedBytesOfLonger(s.queue, Packet(s.wire[..size]));
      assert Remaining(s') == Remaining(s);
    case ForeignWake =>
      QueuedBytesOfLonger(s.queue, Wake);
      assert Remaining(s') == Remaining(s);
    case Post =>
      QueuedBytesOfLonger(s.queue, Wake);
      assert Remaining(s') == Remaining(s);
    case CloseByOthers =>
    case Handle(fate, panic) =>
      if s.status.Open? {
        HandleIsNotAtFault(cfg, stream, s, fate, panic);
        StatusIsOpenOrAtFault(cfg, s, fate, panic);
      }
  }

  lemma StatusIsOpenOrAtFault(cfg: Config, s: State, fate: Fate, panic: Panic)
    requires Enabled(cfg, s, Handle(fate, panic)) && s.status.Open?
    ensures var status := Apply(cfg, s, Handle(fate, panic)).status;
      status.Open? || status.ClosedOnError? || status.ClosedOnOverflow?
  {
    hide EffectOn;
  }

  /** A panic with which the exception handlers do not cope. */
  predicate Unhandled(step: Step) {
    step.Handle? && step.panic.threw && !step.panic.handled
  }

  /** A stream of whole frames within the limit makes the loop close the connection only after a panic of a
      handler with which the exception handlers do not cope. */
  lemma {:induction false} GoodStreamsStayOpen(cfg: Config, stream: seq<byte>, run: seq<State>, steps: seq<Step>, i: nat)
    requires Decodable(cfg.decoder, stream) && |stream| <= cfg.limit
    requires IsRun(cfg, run, steps) && run[0] == Init(stream) && i < |run|
    requires forall k :: 0 <= k < |steps| ==> !steps[k].CloseByOthers? && !Unhandled(steps[k])
    ensures NotAtFault(cfg, stream, run[i]) && run[i].status.Open?
  {
    hide Decode, Apply, Enabled, Decodable;
    if i == 0 {
      assert stream[0..] == stream == Remaining(Init(stream));
    } else {
      GoodStreamsStayOpen(cfg, stream, run, steps, i - 1);
      StepIsNotAtFault(cfg, stream, run[i - 1], steps[i - 1]);
    }
  }

  /** The queue of the loop holds no more events than its capacity, and what was closed stays so and is handed
      nothing. */
  lemma {:induction false} RunKeepsBounds(cfg: Config, stream: seq<byte>, run: seq<State>, steps: seq<Step>, i: nat, j: nat)
    requires IsRun(cfg, run, steps) && run[0] == Init(stream) && i <= j < |run|
    ensures |run[j].queue| <= cfg.capacity
    ensures !run[i].status.Open? ==>
      run[j].status == run[i].status && run[j].delivered == run[i].delivered && run[j].contents == []
    decreases j
  {
    hide EffectOn, StatusAfter;
    if i < j {
      RunKeepsBounds(cfg, stream, run, steps, i, j - 1);
    } else if i > 0 {
      RunKeepsBounds(cfg, stream, run, steps, i - 1, i - 1);
    }
  }

  /** What the matching encoder wrote, within the limit, is closed by the loop only so. */
  lemma EncodedStreamsStayOpen(cfg: Config, e: Encoder, bodies: seq<seq<byte>>, run: seq<State>, steps: seq<Step>, i: nat)
    requires Undoes(cfg.decoder, e) && forall k :: 0 <= k < |bodies| ==> Transmissible(cfg.decoder, bodies[k])
    requires AllEncode(e, bodies) && |EncodeAll(e, bodies)| <= cfg.limit
    requires IsRun(cfg, run, steps) && run[0] == Init(EncodeAll(e, bodies)) && i < |run|
    requires forall k :: 0 <= k < |steps| ==> !steps[k].CloseByOthers? && !Unhandled(steps[k])
    ensures run[i].status.Open?
  {
    hide Transmissible, IsRun, EncodeAll, AllEncode, Decodable, NotAtFault;
    EncodedIsDecodable(e, cfg.decoder, bodies);
    GoodStreamsStayOpen(cfg, EncodeAll(e, bodies), run, steps, i);
  }

  // ----- Quiescence is reached -----

  /** The work left: unread bytes, bytes not used up, queued events, Wakes on their way. */
  function Work(s: State): nat {
    2 * |s.wire| + 2 * |Remaining(s)| + |s.queue| + 2 * s.delayed
  }

  predicate FromOutside(step: Step) {
    step.ForeignWake? || step.CloseByOthers?
  }

  function Outside(steps: seq<Step>): nat {
    if steps == [] then 0 else Outside(steps[..|steps| - 1]) + if FromOutside(steps[|steps| - 1]) then 1 else 0
  }

  /** Every step of the loop and its reader leaves less work; a step from outside adds at most one unit. */
  lemma StepsReduceWork(cfg: Config, s: State, step: Step)
    requires Enabled(cfg, s, step)
    ensures Work(Apply(cfg, s, step)) <= Work(s) + (if FromOutside(step) then 1 else -1)
  {
    match step
    case Arrive(size) =>
      QueuedBytesOfLonger(s.queue, Packet(s.wire[..size]));
    case Post => QueuedBytesOfLonger(s.queue, Wake);
    case ForeignWake => QueuedBytesOfLonger(s.queue, Wake);
    case CloseByOthers =>
    case Handle(fate, panic) =>
      if s.status.Open? {
        EffectKeepsFrames(cfg.decoder, InHand(s), ToCome(s), panic.threw);
        WakeMeansFrame(cfg.decoder, InHand(s), panic.threw);
        RemainingAfterHandle(cfg, s, fate, panic);
        QueuedAfterHandle(s.queue[1..], EffectOn(cfg.decoder, InHand(s), panic.threw).wake && fate.Posted?);
        hide Decode, EffectOn, DecodeAll, QueuedBytes;
      }
  }

  /** No run lasts: its length is bounded by the stream and by what comes from outside. As long as
      something is under way there is a step to take (`BusyMeansEnabled`), so the loop always reaches
      quiescence, where every frame has been handed on. */
  lemma {:induction false} RunsAreBounded(cfg: Config, stream: seq<byte>, run: seq<State>, steps: seq<Step>)
    requires IsRun(cfg, run, steps) && run[0] == Init(stream)
    ensures |steps| + Work(run[|steps|]) <= 4 * |stream| + 2 * Outside(steps)
  {
    hide Enabled, Apply;
    if steps == [] {
      assert Remaining(run[0]) == stream;
    } else {
      var n := |steps| - 1;
      RunsAreBounded(cfg, stream, run[..n + 1], steps[..n]);
      StepsReduceWork(cfg, run[n], steps[n]);
    }
  }

  lemma WakeMeansFrame(d: Decoder, s: seq<byte>, threw: bool)
    ensures EffectOn(d, s, threw).wake ==> EffectOn(d, s, threw).fired != []
  {
    hide Decode;
  }

  /** As long as something is under way, the loop or its reader has a step to take. */
  lemma BusyMeansEnabled(cfg: Config, s: State) returns (step: Step)
    requires cfg.capacity > 0 && !Quiescent(s)
    ensures Enabled(cfg, s, step) && !step.ForeignWake? && !step.CloseByOthers?
  {
    step := if s.queue != [] then Handle(Delayed, Panic(false, true)) else if s.delayed > 0 then Post else Arrive(1);
  }
}
