/** Length-field framing: one decode attempt on a connection, and the encoder it undoes
    (`contribute/agonet/simple/codec_length_field_decoder.go`, `codec_length_field_str_decoder.go`,
    `codec_length_field_encoder.go`, `codec_length_field_str_encoder.go`). */
module Framing {
  import opened Connection
  import opened LengthField
  import opened Options

  /** How the length is written: the binary codec and the decimal codec differ in nothing else. */
  datatype FieldFormat = Binary(order: ByteOrder, width: nat) | Decimal(width: nat)

  predicate ValidFormat(f: FieldFormat) {
    f.width > 0 && (f.Binary? ==> IsBinaryWidth(f.width))
  }

  function ReadField(f: FieldFormat, s: seq<byte>): Option<int64> {
    if f.Binary? then Some(BinaryValue(f.order, s)) else UnpackDecimal(s)
  }

  function WriteField(f: FieldFormat, n: int64): (r: Option<seq<byte>>)
    requires ValidFormat(f)
    ensures r.Some? ==> |r.value| == f.width
  {
    if f.Decimal? then PackDecimal(f.width, n)
    else if n <= Capacity(f.width) then Some(BinaryField(f.order, f.width, n))
    else None
  }

  // ----- The decoder -----

  datatype DecoderRaw = Decoder(
    format: FieldFormat,
    maxFrameLength: int64,
    lengthFieldOffset: int64,
    lengthAdjustment: int64,
    initialBytesToStrip: int64)
  {
    /** What the constructor of the source asserts. */
    predicate Constructed() {
      && ValidFormat(format)
      && maxFrameLength > 0 && lengthFieldOffset >= 0 && initialBytesToStrip >= 0
      && lengthFieldOffset + format.width <= maxFrameLength
    }

    /** Where the length field ends. */
    function End(): int {
      lengthFieldOffset + format.width
    }
  }

  type Decoder = d: DecoderRaw | d.Constructed()
    witness Decoder(Binary(BigEndian, 1), 1, 0, 0, 0)

  datatype Reason = Closed | BadField | NegativeField | TooShort | TooLong | StripTooLong

  datatype Outcome = NoFrame | Frame(body: seq<byte>, size: nat) | Rejected(reason: Reason)

  /** The frame at the front of `s`, in unbounded arithmetic. */
  function Decode(d: Decoder, s: seq<byte>): (r: Outcome)
    ensures r.Frame? ==> d.End() <= r.size <= |s| && r.size <= d.maxFrameLength
    ensures r.Frame? ==> d.initialBytesToStrip <= r.size && r.body == s[d.initialBytesToStrip..r.size]
  {
    if |s| < d.End() then NoFrame
    else match ReadField(d.format, s[d.lengthFieldOffset..d.End()])
      case None => Rejected(BadField)
      case Some(field) =>
        var size := field + d.lengthAdjustment + d.End();
        if field < 0 then Rejected(NegativeField)
        else if size < d.End() || size > MAX_INT64 || d.lengthAdjustment + d.End() > MAX_INT64 then Rejected(TooShort)
        else if size > d.maxFrameLength then Rejected(TooLong)
        else if |s| < size then NoFrame
        else if d.initialBytesToStrip > size then Rejected(StripTooLong)
        else Frame(s[d.initialBytesToStrip..size], size)
  }

  /** With 64-bit arithmetic that wraps around, the checks of the source let the same frames through as
      the unbounded sum does. */
  lemma WrappedSize(field: int64, adjustment: int64, end: int64, size: int64)
    requires field >= 0 && end >= 1
    requires size == Wrap(field + Wrap(adjustment + end))
    ensures size >= end <==>
      end <= field + adjustment + end <= MAX_INT64 && adjustment + end <= MAX_INT64
    ensures size >= end ==> size == field + adjustment + end
  {}

  /** One decode attempt of the source: it takes exactly one frame from the connection, or nothing. */
  method DoDecode(d: Decoder, c: Conn) returns (r: Outcome)
    modifies c`inbound, c`buffer, c`cache
    ensures r == if c.closed then Rejected(Closed) else Decode(d, old(c.Contents()))
    ensures c.Contents() == if r.Frame? then old(c.Contents())[r.size..] else old(c.Contents())
    ensures |c.buffer| <= |old(c.buffer)|
  {
    hide ReadField, Wrap;
    ghost var s := c.Contents();
    var end: int64 := d.lengthFieldOffset + d.format.width;
    var peeked := c.Peek(end);
    if peeked.Err? {
      return if peeked.error == ShortBuffer then NoFrame else Rejected(Closed);
    }
    assert peeked.value[d.lengthFieldOffset..end] == s[d.lengthFieldOffset..end];
    var field := ReadField(d.format, peeked.value[d.lengthFieldOffset..end]);
    if field == None {
      return Rejected(BadField);
    }
    var frameLength: int64 := field.value;
    if frameLength < 0 {
      return Rejected(NegativeField);
    }
    frameLength := Wrap(frameLength + Wrap(d.lengthAdjustment + end));
    WrappedSize(field.value, d.lengthAdjustment, end, frameLength);
    if frameLength < end {
      return Rejected(TooShort);
    }
    if frameLength > d.maxFrameLength {
      return Rejected(TooLong);
    }
    var buffered := c.InboundBuffered();
    if buffered < frameLength {
      return NoFrame;
    }
    var msgLength: int64 := frameLength;
    if d.initialBytesToStrip > 0 {
      if d.initialBytesToStrip > frameLength {
        return Rejected(StripTooLong);
      }
      var _ := c.Discard(d.initialBytesToStrip);
      msgLength := msgLength - d.initialBytesToStrip;
    }
    var body := c.Next(msgLength);
    assert body.value == s[d.initialBytesToStrip..][..msgLength];
    return Frame(body.value, frameLength);
  }

  // ----- Where a frame is found -----

  lemma WrittenIsBounded(f: FieldFormat, n: int64)
    requires ValidFormat(f) && n >= 0 && WriteField(f, n).Some?
    ensures n <= FieldMax(f)
  {
    hide Pow;
    if f.Decimal? {
      DecimalFieldRoundTrip(f.width, n);
    }
  }

  lemma FieldInside(head: seq<byte>, field: seq<byte>, tail: seq<byte>)
    ensures (head + field + tail)[|head|..|head| + |field|] == field
  {}

  lemma DecodesWritten(d: Decoder, head: seq<byte>, field: seq<byte>, tail: seq<byte>, n: int64)
    requires |head| == d.lengthFieldOffset && n >= 0 && WriteField(d.format, n) == Some(field)
    ensures var s, header := head + field + tail, |head| + |field|;
      var size := n + d.lengthAdjustment + header;
      Decode(d, s) ==
        if size < header || size > MAX_INT64 || d.lengthAdjustment + header > MAX_INT64 then Rejected(TooShort)
        else if size > d.maxFrameLength then Rejected(TooLong)
        else if |s| < size then NoFrame
        else if size < d.initialBytesToStrip then Rejected(StripTooLong)
        else Frame(s[d.initialBytesToStrip..size], size)
  {
    WrittenIsBounded(d.format, n);
    FieldRoundTrip(d.format, n);
    FieldInside(head, field, tail);
    hide ReadField, WriteField, FieldMax;
  }

  /** The length field stands behind `head`, whatever that is. Its number, the adjustment and the header make the
      size; a size below the header or out of the 64-bit range is refused as too short, one beyond the
      maximum as too long; then the bytes are waited for; then a frame shorter than what is to be stripped
      is refused, and any other is handed on without what is to be stripped. */
  lemma FrameBehindHeader(d: Decoder, head: seq<byte>, field: seq<byte>, tail: seq<byte>, n: int64)
    requires |head| == d.lengthFieldOffset && n >= 0 && WriteField(d.format, n) == Some(field)
    ensures var s, header := head + field + tail, |head| + |field|;
      var size := n + d.lengthAdjustment + header;
      var tooShort := size < header || size > MAX_INT64 || d.lengthAdjustment + header > MAX_INT64;
      && (Decode(d, s) == Rejected(TooShort) <==> tooShort)
      && (Decode(d, s) == Rejected(TooLong) <==> !tooShort && size > d.maxFrameLength)
      && (Decode(d, s) == NoFrame <==> !tooShort && |s| < size <= d.maxFrameLength)
      && (Decode(d, s) == Rejected(StripTooLong) <==>
            !tooShort && size <= d.maxFrameLength && size <= |s| && size < d.initialBytesToStrip)
      && (!tooShort && size <= d.maxFrameLength && d.initialBytesToStrip <= size <= |s| ==>
            Decode(d, s) == Frame(s[d.initialBytesToStrip..size], size))
  {
    hide Decode, WriteField;
    DecodesWritten(d, head, field, tail, n);
  }

  /** With a negative number in it, or no number at all, the stream is refused; before the field has arrived
      nothing is decided. */
  lemma FieldWithoutLength(d: Decoder, head: seq<byte>, field: seq<byte>, tail: seq<byte>)
    requires |head| == d.lengthFieldOffset && |field| == d.format.width
    ensures Decode(d, head + field + tail) == Rejected(BadField) <==>
      d.format.Decimal? && UnpackDecimal(field).None?
    ensures Decode(d, head + field + tail) == Rejected(NegativeField) <==>
      var n := if d.format.Binary? then Some(BinaryValue(d.format.order, field)) else UnpackDecimal(field);
      n.Some? && n.value < 0
    ensures forall k :: 0 <= k < |head| + |field| ==> Decode(d, (head + field)[..k]) == NoFrame
  {
    FieldInside(head, field, tail);
    hide UnpackDecimal;
  }

  // ----- Frames in a stream -----

  lemma {:induction false} DecodeLonger(d: Decoder, s: seq<byte>, t: seq<byte>)
    requires Decode(d, s) != NoFrame
    ensures Decode(d, s + t) == Decode(d, s)
  {
    hide ReadField;
    assert (s + t)[d.lengthFieldOffset..d.End()] == s[d.lengthFieldOffset..d.End()];
    if Decode(d, s).Frame? {
      assert (s + t)[d.initialBytesToStrip..Decode(d, s).size] == s[d.initialBytesToStrip..Decode(d, s).size];
    }
  }

  /** The bodies of the frames in a stream, up to the first incomplete or refused one. */
  function DecodeAll(d: Decoder, s: seq<byte>): seq<seq<byte>>
    decreases |s|
  {
    match Decode(d, s)
    case Frame(body, size) => [body] + DecodeAll(d, s[size..])
    case _ => []
  }

  // ----- The encoder -----

  datatype Encoder = Encoder(format: FieldFormat, lengthAdjustment: int64, includesLengthField: bool)

  /** Header and body; nothing when the length does not fit the field, where the source panics. */
  function Encode(e: Encoder, body: seq<byte>): Option<seq<byte>>
    requires ValidFormat(e.format)
  {
    var length := Wrap(|body| + e.lengthAdjustment);
    var length' := if e.includesLengthField then Wrap(length + e.format.width) else length;
    match WriteField(e.format, length')
    case None => None
    case Some(header) => Some(header + body)
  }

  /** The decoder that undoes an encoder: the field at the front, the header stripped, and the
      encoder's adjustment taken back. */
  predicate Undoes(d: Decoder, e: Encoder) {
    && d.format == e.format
    && d.lengthFieldOffset == 0
    && d.initialBytesToStrip == e.format.width
    && d.lengthAdjustment + e.lengthAdjustment + (if e.includesLengthField then e.format.width else 0) == 0
  }

  function FieldMax(f: FieldFormat): int
    requires ValidFormat(f)
  {
    if f.Binary? then Capacity(f.width) else Min(Pow(10, f.width) - 1, MAX_INT64)
  }

  /** The bodies that get through: the length is a number the field can hold, and the frame is not too
      long for the decoder. */
  predicate Transmissible(d: Decoder, body: seq<byte>) {
    && 0 <= |body| - d.lengthAdjustment <= FieldMax(d.format)
    && d.format.width + |body| <= d.maxFrameLength
  }

  lemma WrapTwice(x: int, y: int)
    ensures Wrap(Wrap(x) + y) == Wrap(x + y)
  {}

  lemma FieldRoundTrip(f: FieldFormat, n: int64)
    requires ValidFormat(f) && 0 <= n <= FieldMax(f)
    ensures WriteField(f, n).Some? && ReadField(f, WriteField(f, n).value) == Some(n)
  {
    hide Pow;
    if f.Binary? {
      BinaryFieldRoundTrip(f.order, f.width, n);
    } else {
      DecimalFieldRoundTrip(f.width, n);
    }
  }

  lemma FieldIsBounded(f: FieldFormat, s: seq<byte>)
    requires ValidFormat(f) && |s| == f.width && ReadField(f, s).Some? && ReadField(f, s).value >= 0
    ensures ReadField(f, s).value <= FieldMax(f)
  {
    if f.Binary? {
      PowersOf256(f.width);
      NumberBound(256, Octets(Ordered(f.order, s)));
      hide Pow, Number;
    } else {
      DecimalIsBounded(s);
    }
  }

  lemma {:induction false} TrimShortens(s: seq<byte>)
    ensures |TrimRight(s)| <= |s| && |TrimLeft(s)| <= |s|
    decreases |s|
  {
    if s != [] {
      TrimShortens(s[1..]);
      TrimShortens(s[..|s| - 1]);
    }
  }

  lemma {:induction false} PowGrows(a: nat, b: nat)
    requires a <= b
    ensures Pow(10, a) <= Pow(10, b)
  {
    if a < b {
      PowGrows(a, b - 1);
      PowIsPositive(b - 1);
    }
  }

  lemma DecimalIsBounded(s: seq<byte>)
    requires UnpackDecimal(s).Some?
    ensures UnpackDecimal(s).value < Pow(10, |s|)
  {
    TrimShortens(s);
    TrimShortens(TrimLeft(s));
    var t := TrimRight(TrimLeft(s));
    hide TrimRight, TrimLeft, Pow, Number;
    var signed := t != [] && (t[0] == 43 || t[0] == 45);
    var numerals := if signed then t[1..] else t;
    NumberBound(10, DigitsIn(numerals));
    PowGrows(|numerals|, |s|);
  }

  lemma EncodeWrites(e: Encoder, d: Decoder, body: seq<byte>)
    requires Undoes(d, e)
    ensures var field := WriteField(e.format, Wrap(|body| - d.lengthAdjustment));
      Encode(e, body) == if field.Some? then Some(field.value + body) else None
  {
    hide WriteField;
    WrapTwice(|body| + e.lengthAdjustment, e.format.width);
  }

  /** A body is the frame the matching decoder finds, whatever follows it, exactly when it is
      transmissible. */
  lemma FrameRoundTrip(e: Encoder, d: Decoder, body: seq<byte>, rest: seq<byte>)
    requires Undoes(d, e)
    ensures Transmissible(d, body) <==>
      && Encode(e, body).Some?
      && Decode(d, Encode(e, body).value + rest) == Frame(body, d.format.width + |body|)
  {
    hide ReadField, WriteField, FieldMax, Encode, Wrap;
    EncodeWrites(e, d, body);
    var n := |body| - d.lengthAdjustment;
    var field := WriteField(e.format, Wrap(n));
    if field.Some? {
      var s := field.value + body + rest;
      assert s[0..d.End()] == field.value;
      assert s[d.End()..d.End() + |body|] == body;
      if Decode(d, s) == Frame(body, d.format.width + |body|) {
        FieldIsBounded(d.format, field.value);
      }
    }
    if Transmissible(d, body) {
      FieldMaxFits(d.format);
      WrapIsIdentity(n);
      FieldRoundTrip(d.format, n);
    }
  }

  lemma FieldMaxFits(f: FieldFormat)
    requires ValidFormat(f)
    ensures FieldMax(f) <= MAX_INT64
  {
    hide Pow;
  }

  predicate AllEncode(e: Encoder, bodies: seq<seq<byte>>)
    requires ValidFormat(e.format)
  {
    forall i :: 0 <= i < |bodies| ==> Encode(e, bodies[i]).Some?
  }

  /** What the encoder puts on the wire for the bodies, one after the other. */
  function EncodeAll(e: Encoder, bodies: seq<seq<byte>>): seq<byte>
    requires ValidFormat(e.format) && AllEncode(e, bodies)
  {
    if bodies == [] then [] else Encode(e, bodies[0]).value + EncodeAll(e, bodies[1..])
  }

  lemma TransmissibleEncode(e: Encoder, d: Decoder, bodies: seq<seq<byte>>)
    requires Undoes(d, e) && forall i :: 0 <= i < |bodies| ==> Transmissible(d, bodies[i])
    ensures AllEncode(e, bodies)
  {
    hide Transmissible, Decode, Encode;
    forall i | 0 <= i < |bodies| ensures Encode(e, bodies[i]).Some? {
      FrameRoundTrip(e, d, bodies[i], []);
    }
  }

  /** The decoder finds in the stream of the encoder just the bodies written, in order. */
  lemma {:induction false} StreamRoundTrip(e: Encoder, d: Decoder, bodies: seq<seq<byte>>)
    requires Undoes(d, e) && forall i :: 0 <= i < |bodies| ==> Transmissible(d, bodies[i])
    ensures AllEncode(e, bodies) && DecodeAll(d, EncodeAll(e, bodies)) == bodies
  {
    TransmissibleEncode(e, d, bodies);
    if bodies == [] {
      NothingDecoded(d);
    } else {
      var body, rest := bodies[0], bodies[1..];
      StreamRoundTrip(e, d, rest);
      FrameRoundTrip(e, d, body, EncodeAll(e, rest));
      EncodedSize(e, d, body);
      DecodeAllStep(d, Encode(e, body).value, EncodeAll(e, rest), body);
      hide *;
      assert EncodeAll(e, bodies) == Encode(e, body).value + EncodeAll(e, rest) by { EncodeAllStep(e, bodies); }
      assert [body] + rest == bodies;
    }
  }

  lemma EncodeAllStep(e: Encoder, bodies: seq<seq<byte>>)
    requires ValidFormat(e.format) && AllEncode(e, bodies) && bodies != []
    ensures AllEncode(e, bodies[1..]) && EncodeAll(e, bodies) == Encode(e, bodies[0]).value + EncodeAll(e, bodies[1..])
  {}

  lemma DecodeAllStep(d: Decoder, frame: seq<byte>, rest: seq<byte>, body: seq<byte>)
    requires Decode(d, frame + rest) == Frame(body, |frame|)
    ensures DecodeAll(d, frame + rest) == [body] + DecodeAll(d, rest)
  {
    hide Decode;
    assert (frame + rest)[|frame|..] == rest;
  }

  lemma EncodedSize(e: Encoder, d: Decoder, body: seq<byte>)
    requires Undoes(d, e) && Encode(e, body).Some?
    ensures |Encode(e, body).value| == d.format.width + |body|
  {}

  lemma NothingDecoded(d: Decoder)
    ensures Decode(d, []) == NoFrame
  {}
}
