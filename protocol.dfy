/**
 * The frame layer (protocol.go): a header byte carrying the frame type in its
 * high nibble, the remaining length as 7-bit groups with a continuation bit
 * (the Remaining Length scheme of section 2.2.3 of MQTT 3.1.1, except that 0
 * takes no bytes and a fourth continuation byte is not rejected), then the
 * type's body.
 *
 * LengthField is the reading of the length field; DecodeLength is the
 * source's loop, proved equal to it. DecodeFramer and DecodeFrame are the
 * source's buffer decoders, as functions. FrameWire is the image a frame is
 * written as; EncodeFrameWithWriter and EncodeFrame are the source's writers,
 * proved to write it. FrameRoundTrip ties the two directions together.
 */
module Protocol {
  import opened Ints
  import opened Errors
  import opened Varint
  import opened Wire
  import opened Encoding
  import opened Framing
  import opened SendCodec
  import opened RecvCodec

  /** The largest body a frame may announce: 1 MiB. */
  const MaxRemaingLength: uint32 := 1024 * 1024

  /** The largest SEND payload the encoder accepts: math.MaxInt16. */
  const PayloadMaxSize: nat := 0x7FFF

  /*
   * The remaining-length field.
   */

  /** encodeVariable: the bytes of the remaining-length field for size. */
  method EncodeVariable(size: uint32) returns (ret: Bytes)
    ensures ret == VarintBytes(size)
  {
    ret := [];
    var n: uint32 := size;
    while n > 0
      invariant ret + VarintBytes(n) == VarintBytes(size)
      decreases n
    {
      ghost var before := n;
      var digit: uint8 := n % 0x80;
      n := n / 0x80;
      if n > 0 {
        SetHighBit(digit);
        digit := ((digit as bv8) | 0x80) as uint8;
      }
      Emitted(ret, before, digit);
      ret := ret + [digit];
    }
    assert ret + [] == ret;
  }

  /** Moving the first digit of the encoding onto the bytes already emitted. */
  lemma Emitted(done: Bytes, n: nat, digit: uint8)
    requires n > 0 && digit == n % 0x80 + (if n / 0x80 > 0 then 0x80 else 0)
    ensures done + VarintBytes(n) == (done + [digit]) + VarintBytes(n / 0x80)
  {
    FirstDigit(n, digit);
    Associative(done, [digit], VarintBytes(n / 0x80));
  }

  /** encodeVariable2: the same bytes, written to the encoder one by one. */
  method EncodeVariable2(size: uint32, enc: Encoder)
    modifies enc
    ensures enc.data == old(enc.data) + VarintBytes(size)
  {
    var n: uint32 := size;
    while n > 0
      invariant enc.data + VarintBytes(n) == old(enc.data) + VarintBytes(size)
      decreases n
    {
      ghost var before := n;
      var digit: uint8 := n % 0x80;
      n := n / 0x80;
      if n > 0 {
        SetHighBit(digit);
        digit := ((digit as bv8) | 0x80) as uint8;
      }
      FirstDigit(before, digit);
      Associative(enc.data, [digit], VarintBytes(n));
      enc.WriteByte(digit);
    }
  }

  /** The first byte of the encoding, and the encoding of the quotient after it. */
  lemma FirstDigit(n: nat, digit: uint8)
    requires n > 0 && digit == n % 0x80 + (if n / 0x80 > 0 then 0x80 else 0)
    ensures VarintBytes(n) == [digit] + VarintBytes(n / 0x80)
  {
  }

  /** A decoded body carries the envelope it was decoded under. */
  lemma BodyFramer(framer: Framer, body: Bytes, version: Version)
    ensures var r := DecodeBody(framer, body, version);
      r.Ok? ==> FramerOf(r.value) == framer
  {
  }

  /** Setting bit 7 of a digit below 0x80 adds 0x80. */
  lemma SetHighBit(d: uint8)
    requires d < 0x80
    ensures ((d as bv8) | 0x80) as int == d + 0x80
  {
  }

  /** The continuation test, on a byte as an integer. */
  lemma HighBit(d: uint8)
    ensures ((d as bv8) & 0x80 == 0) <==> !Continues(d)
  {
  }

  /** What decodeLength reports on success: the length and how many bytes it says the field took. */
  datatype RemainingLength = RemainingLength(value: uint32, width: nat)

  /** The bytes data[..k] all carry a continuation bit. */
  ghost predicate AllContinue(data: Bytes, k: nat)
    requires k <= |data|
  {
    forall j :: 0 <= j < k ==> Continues(data[j])
  }

  /**
   * decodeLength's reading from index i on, the bytes before i having all
   * carried a continuation bit: a terminating byte among the first four ends
   * the field; four continuation bytes end it too, reported as five bytes
   * wide; data running out first is errDecodeLength.
   */
  function LengthFrom(data: Bytes, i: nat): (r: Result<RemainingLength>)
    requires i <= 4 && i <= |data| && AllContinue(data, i)
    ensures r.Err? <==> |data| < 4 && AllContinue(data, |data|)
    ensures r.Err? ==> r.error == Errors.DecodeLength
    ensures r.Ok? ==> i < r.value.width <= 5 && r.value.value < 0x1000_0000
    ensures r.Ok? && r.value.width <= 4 ==>
      r.value.width <= |data| && AllContinue(data, r.value.width - 1) && !Continues(data[r.value.width - 1])
      && r.value.value == VarintValue(data[..r.value.width])
    ensures r.Ok? && r.value.width == 5 ==>
      4 <= |data| && AllContinue(data, 4) && r.value.value == VarintValue(data[..4])
    decreases 4 - i
  {
    if i == 4 then
      Below2To28(data[..4]);
      Ok(RemainingLength(VarintValue(data[..4]), 5))
    else if i == |data| then Err(Errors.DecodeLength)
    else if !Continues(data[i]) then
      Below2To28(data[..i + 1]);
      Ok(RemainingLength(VarintValue(data[..i + 1]), i + 1))
    else
      LengthFrom(data, i + 1)
  }

  /** At most four groups of seven bits: below 2^28. */
  lemma Below2To28(bs: Bytes)
    requires |bs| <= 4
    ensures VarintValue(bs) < 0x1000_0000
  {
    VarintBytesLength(VarintValue(bs), |bs|);
    VarintBytesLength(VarintValue(bs), 4);
    Pow128Values();
  }

  /**
   * The remaining-length field at the front of data, as decodeLength reads it:
   * the value of the 7-bit groups up to the first byte with bit 7 clear, and
   * the field's width; after four continuation bytes the field ends anyway
   * and is reported five bytes wide; running out of data before either is
   * errDecodeLength. The value is always below 2^28.
   */
  function LengthField(data: Bytes): (r: Result<RemainingLength>)
    ensures r.Err? <==> |data| < 4 && AllContinue(data, |data|)
    ensures r.Err? ==> r.error == Errors.DecodeLength
    ensures r.Ok? ==> 1 <= r.value.width <= 5 && r.value.value < 0x1000_0000
    ensures r.Ok? && r.value.width <= 4 ==>
      r.value.width <= |data| && AllContinue(data, r.value.width - 1) && !Continues(data[r.value.width - 1])
      && r.value.value == VarintValue(data[..r.value.width])
    ensures r.Ok? && r.value.width == 5 ==>
      4 <= |data| && AllContinue(data, 4) && r.value.value == VarintValue(data[..4])
  {
    LengthFrom(data, 0)
  }

  /** decodeLength: the loop that reads the remaining-length field. */
  method DecodeLength(data: Bytes) returns (r: Result<RemainingLength>)
    ensures r == LengthField(data)
  {
    var rLength: uint32 := 0;
    var multiplier: nat := 0;
    var offset: nat := 0;
    while multiplier < 27
      invariant multiplier == 7 * offset && offset <= 4 && offset <= |data|
      invariant AllContinue(data, offset)
      invariant rLength == VarintValue(data[..offset])
      invariant LengthFrom(data, offset) == LengthField(data)
      decreases 27 - multiplier
    {
      if offset >= |data| {
        return Err(Errors.DecodeLength);
      }
      var digit := data[offset];
      HighBit(digit);
      assert data[..offset + 1] == data[..offset] + [digit];
      VarintValueSnoc(data[..offset], digit);
      Pow2Septets(offset);
      Below2To28(data[..offset + 1]);
      // `rLength |= uint32(digit&127) << multiplier`: the mask keeps the low
      // seven bits, and rLength is below 2^multiplier, so the OR of the
      // shifted group is an addition.
      rLength := rLength + (digit % 0x80) * Pow2(multiplier);
      if (digit as bv8) & 0x80 == 0 {
        break;
      }
      multiplier := multiplier + 7;
      offset := offset + 1;
    }
    return Ok(RemainingLength(rLength, offset + 1));
  }

  /**
   * Any strict prefix of the field written for 0 < n < 2^28, at most four
   * bytes long, holds only continuation bytes and is incomplete.
   */
  lemma LengthFieldPrefix(n: nat, cut: nat)
    requires 0 < n < 0x1000_0000 && cut < |VarintBytes(n)|
    ensures LengthField(VarintBytes(n)[..cut]) == Err(Errors.DecodeLength)
  {
    VarintBytesShape(n);
    VarintBytesLength(n, 4);
    Pow128Values();
  }

  /**
   * The field the encoder writes for 0 < n < 2^28 reads back as n, with its
   * own width, whatever follows it.
   */
  lemma LengthRoundTrip(n: nat, rest: Bytes)
    requires 0 < n < 0x1000_0000
    ensures LengthField(VarintBytes(n) + rest) == Ok(RemainingLength(n, |VarintBytes(n)|))
  {
    var v := VarintBytes(n);
    var data := v + rest;
    VarintBytesShape(n);
    VarintBytesLength(n, 4);
    Pow128Values();
    assert data[..|v|] == v;
    assert forall j :: 0 <= j < |v| ==> data[j] == v[j];
    LengthFromStops(data, 0, |v|);
  }

  /** Reading from i reaches the terminator at k - 1. */
  lemma {:induction false} LengthFromStops(data: Bytes, i: nat, k: nat)
    requires i < k <= 4 && k <= |data| && AllContinue(data, i)
    requires AllContinue(data, k - 1) && !Continues(data[k - 1])
    ensures var r := LengthFrom(data, i); r.Ok? && r.value.value == VarintValue(data[..k]) && r.value.width == k
    decreases k - i
  {
    if i < k - 1 {
      LengthFromStops(data, i + 1, k);
    }
  }

  /** The encoding of 0 is empty, so the field after it is whatever the body begins with. */
  lemma ZeroLengthTakesNoBytes(rest: Bytes)
    requires |rest| >= 1 && !Continues(rest[0]) && rest[0] != 0
    ensures VarintBytes(0) == []
    ensures LengthField(VarintBytes(0) + rest) == Ok(RemainingLength(rest[0], 1))
  {
    assert (VarintBytes(0) + rest)[..1] == [rest[0]];
  }

  /*
   * Frames.
   */

  /** The frame types that have neither a codec in this model nor a special case here. */
  type OtherType = t: FrameType | t != PING && t != PONG && t != SEND && t != RECV

  /**
   * A frame. PING and PONG are headers alone; SEND and RECV carry their
   * packets; every other type carries its body bytes, its codec not being
   * part of this model.
   */
  datatype Frame =
    | PingFrame(framer: Framer)
    | PongFrame(framer: Framer)
    | SendFrame(send: SendPacket)
    | RecvFrame(recv: RecvPacket)
    | OtherFrame(kind: OtherType, framer: Framer, body: Bytes)

  /** GetFrameType. */
  function TypeOf(f: Frame): (t: FrameType)
    ensures t == PING <==> f.PingFrame?
    ensures t == PONG <==> f.PongFrame?
    ensures t == SEND <==> f.SendFrame?
    ensures t == RECV <==> f.RecvFrame?
  {
    match f
    case PingFrame(_) => PING
    case PongFrame(_) => PONG
    case SendFrame(_) => SEND
    case RecvFrame(_) => RECV
    case OtherFrame(kind, _, _) => kind
  }

  /** The envelope a frame carries. */
  function FramerOf(f: Frame): Framer
  {
    match f
    case PingFrame(framer) => framer
    case PongFrame(framer) => framer
    case SendFrame(p) => p.framer
    case RecvFrame(p) => p.framer
    case OtherFrame(_, framer, _) => framer
  }

  /** ToFixHeaderUint8: the frame's type over its envelope's flags. */
  function HeaderByte(f: Frame): (b: uint8)
    ensures b / 16 == TypeOf(f)
  {
    FixHeader(TypeOf(f), FramerOf(f).flags)
  }

  /** The types packetDecodeMap has a decoder for. */
  predicate Registered(t: FrameType)
  {
    t == CONNECT || t == CONNACK || t == SEND || t == SENDACK || t == RECV
    || t == RECVACK || t == DISCONNECT || t == SUB || t == SUBACK
  }

  /**
   * The packetDecodeMap dispatch: SEND and RECV to their codecs, the other
   * registered types to a stand-in that keeps the body, the rest unsupported.
   */
  function DecodeBody(framer: Framer, body: Bytes, version: Version): (r: Result<Frame>)
    ensures r.Err? && !Registered(framer.frameType) ==> r.error == Unsupported
    ensures !Registered(framer.frameType) ==> r.Err?
    ensures r.Ok? ==> TypeOf(r.value) == framer.frameType
  {
    var t := framer.frameType;
    if !Registered(t) then Err(Unsupported)
    else if t == SEND then
      match ParseSend(framer, body, version)
      case Ok(p) => Ok(SendFrame(p))
      case Err(e) => Err(e)
    else if t == RECV then
      match ParseRecv(framer, body, version)
      case Ok(p) => Ok(RecvFrame(p))
      case Err(e) => Err(e)
    else Ok(OtherFrame(t, framer, body))
  }

  /** decodeFramer's result: the envelope and the width of its length field. */
  datatype Header = Header(framer: Framer, lengthWidth: nat)

  /**
   * decodeFramer: the envelope from the header byte and, except for PING and
   * PONG, the remaining-length field after it; frameSize is the length of
   * the whole buffer. A length field cut short gives the zero Framer, whose
   * type is UNKNOWN, and no error.
   */
  function DecodeFramer(data: Bytes): (r: Result<Header>)
    requires |data| >= 1
    ensures r.Ok?
    ensures var f := FramerFromUint8(data[0]);
      f.frameType == PING || f.frameType == PONG ==>
        r.value == Header(f.(frameSize := |data|), 0)
    ensures var f := FramerFromUint8(data[0]);
      f.frameType != PING && f.frameType != PONG && LengthField(data[1..]).Ok? ==>
        var len := LengthField(data[1..]).value;
        r.value == Header(f.(remainingLength := len.value, frameSize := |data|), len.width)
    ensures var f := FramerFromUint8(data[0]);
      f.frameType != PING && f.frameType != PONG && LengthField(data[1..]).Err? ==>
        r.value == Header(EmptyFramer, 0)
  {
    var p := FramerFromUint8(data[0]);
    if p.frameType != PING && p.frameType != PONG then
      match LengthField(data[1..])
      case Err(e) =>
        if e == Errors.DecodeLength then Ok(Header(EmptyFramer, 0)) else Err(e)
      case Ok(len) =>
        Ok(Header(p.(remainingLength := len.value, frameSize := |data|), len.width))
    else
      Ok(Header(p.(frameSize := |data|), 0))
  }

  /** DecodeFrame's three kinds of answer: try again with more data, a frame and its size, or an error. */
  datatype FrameResult =
    | NeedMore
    | Decoded(frame: Frame, consumed: nat)
    | Failed(error: Error)

  /**
   * DecodeFrame: one frame from the front of a buffer. An incomplete length
   * field, type UNKNOWN, and a body not yet fully buffered all ask for more
   * data; PING and PONG consume their header byte alone; a body announced
   * above 1 MiB is an error; otherwise the type's decoder gets exactly the
   * announced body and the frame consumes header, length field and body.
   */
  function DecodeFrame(data: Bytes, version: Version): (r: FrameResult)
    requires |data| >= 1
    ensures r.Decoded? && (r.frame.PingFrame? || r.frame.PongFrame?) ==> r.consumed == 1
    ensures r.Decoded? ==> 1 <= r.consumed <= |data| && TypeOf(r.frame) == FramerOf(r.frame).frameType
    ensures r.Decoded? && !r.frame.PingFrame? && !r.frame.PongFrame? ==>
      var h := DecodeFramer(data).value;
      && 1 + h.lengthWidth + h.framer.remainingLength == r.consumed
      && h.framer.remainingLength <= MaxRemaingLength
      && DecodeBody(h.framer, data[1 + h.lengthWidth..r.consumed], version) == Ok(r.frame)
    ensures var f := DecodeFramer(data).value.framer;
      r == Failed(TooLarge) <==>
        f.frameType != UNKNOWN && f.frameType != PING && f.frameType != PONG && f.remainingLength > MaxRemaingLength
    ensures FramerFromUint8(data[0]).frameType == UNKNOWN ==> r == NeedMore
  {
    var h := DecodeFramer(data);
    if h.Err? then NeedMore
    else
      match ExtentOf(data, h.value)
      case Short => NeedMore
      case Alone(frame) => Decoded(frame, 1)
      case Oversized => Failed(TooLarge)
      case Body(framer, body, size) =>
        match DecodeBody(framer, body, version)
        case Err(e) =>
          BodyErrors(framer, body, version);
          Failed(e)
        case Ok(frame) =>
          BodyFramer(framer, body, version);
          Decoded(frame, size)
  }

  /**
   * What DecodeFrame makes of the buffer once the header is read, before any
   * body decoder runs: wait for more data, a PING or PONG alone, a body
   * announced too large, or the whole body, buffered, and the size of the frame.
   */
  datatype Extent =
    | Short
    | Alone(frame: Frame)
    | Oversized
    | Body(framer: Framer, body: Bytes, size: nat)

  /** DecodeFrame's checks on the type and on the announced size, in the source's order. */
  function ExtentOf(data: Bytes, h: Header): (r: Extent)
    ensures h.framer.frameType == UNKNOWN ==> r == Short
    ensures h.framer.frameType == PING ==> r == Alone(PingFrame(h.framer))
    ensures h.framer.frameType == PONG ==> r == Alone(PongFrame(h.framer))
    ensures r == Oversized <==>
      h.framer.frameType != UNKNOWN && h.framer.frameType != PING && h.framer.frameType != PONG
      && h.framer.remainingLength > MaxRemaingLength
    ensures r.Body? ==>
      && h.framer.frameType != UNKNOWN && h.framer.frameType != PING && h.framer.frameType != PONG
      && r.framer == h.framer && r.size == 1 + h.lengthWidth + h.framer.remainingLength <= |data|
      && h.framer.remainingLength <= MaxRemaingLength
      && r.body == data[1 + h.lengthWidth..r.size]
  {
    var framer := h.framer;
    var frameType := framer.frameType;
    if frameType == UNKNOWN then Short
    else if frameType == PING then Alone(PingFrame(framer))
    else if frameType == PONG then Alone(PongFrame(framer))
    else if framer.remainingLength > MaxRemaingLength then Oversized
    else
      var msgLen := framer.remainingLength + 1 + h.lengthWidth;
      if |data| < msgLen then Short
      else Body(framer, data[1 + h.lengthWidth..msgLen], msgLen)
  }

  /** A body decoder fails only on a short body, a bad prefix or an unregistered type. */
  lemma BodyErrors(framer: Framer, body: Bytes, version: Version)
    ensures var r := DecodeBody(framer, body, version);
      r.Err? ==> r.error == Underrun || r.error == NegativeLength || r.error == Unsupported
  {
  }

  /*
   * Encoding frames.
   */

  /** A Go int converted to uint32 keeps its low 32 bits. */
  function ToUint32(n: nat): (r: uint32)
    ensures n < 0x1_0000_0000 ==> r == n
  {
    n % 0x1_0000_0000
  }

  /** The body a frame writes after its header. */
  function BodyWire(f: Frame, version: Version): Bytes
  {
    match f
    case PingFrame(_) => []
    case PongFrame(_) => []
    case SendFrame(p) => SendWire(p, version)
    case RecvFrame(p) => RecvWire(p, version)
    case OtherFrame(_, _, body) => body
  }

  /**
   * The bytes encodeFrameWithWriter emits for a frame: PING and PONG as the
   * type in the high nibble and no flags; a SEND whose payload is above PayloadMaxSize is
   * refused; every type with a case as header byte, size field, body; a type
   * with no case as nothing at all.
   */
  function FrameWire(f: Frame, version: Version): (r: Result<Bytes>)
    ensures r.Err? <==> f.SendFrame? && |f.send.payload| > PayloadMaxSize
    ensures r.Err? ==> r.error == PayloadTooLarge
    ensures r.Ok? && (f.PingFrame? || f.PongFrame?) ==> r.value == [FixHeader(TypeOf(f), 0)]
    ensures r.Ok? && !f.PingFrame? && !f.PongFrame? && Registered(TypeOf(f)) ==>
      r.value == [HeaderByte(f)] + VarintBytes(ToUint32(|BodyWire(f, version)|)) + BodyWire(f, version)
    ensures r.Ok? && !Registered(TypeOf(f)) && !f.PingFrame? && !f.PongFrame? ==> r.value == []
  {
    var t := TypeOf(f);
    if t == PING || t == PONG then Ok([FixHeader(t, 0)])
    else if f.SendFrame? && |f.send.payload| > PayloadMaxSize then Err(PayloadTooLarge)
    else if Registered(t) then
      var body := BodyWire(f, version);
      Ok([HeaderByte(f)] + VarintBytes(ToUint32(|body|)) + body)
    else Ok([])
  }

  /** encodeFrame: the header byte, then the size field. */
  method EncodeFrameHeader(f: Frame, enc: Encoder, remainingLength: uint32)
    modifies enc
    ensures enc.data == old(enc.data) + [HeaderByte(f)] + VarintBytes(remainingLength)
  {
    enc.WriteByte(HeaderByte(f));
    EncodeVariable2(remainingLength, enc);
  }

  /** encodeFrameWithWriter: writes FrameWire, or nothing and the error. */
  method EncodeFrameWithWriter(w: Encoder, f: Frame, version: Version) returns (err: Outcome)
    modifies w
    ensures FrameWire(f, version).Ok? ==> err == Pass && w.data == old(w.data) + FrameWire(f, version).value
    ensures FrameWire(f, version).Err? ==> err == Fail(FrameWire(f, version).error) && w.data == old(w.data)
  {
    var frameType := TypeOf(f);
    if frameType == PING || frameType == PONG {
      w.WriteByte(FixHeader(frameType, 0));
      return Pass;
    }
    err := Pass;
    ghost var start := w.data;
    match f
    case SendFrame(packet) =>
      if |packet.payload| > PayloadMaxSize {
        return Fail(PayloadTooLarge);
      }
      var size := EncodeSendSize(packet, version);
      EncodeFrameHeader(f, w, ToUint32(size));
      err := EncodeSend(packet, w, version);
      Framed(start, f, version);
    case RecvFrame(packet) =>
      var size := EncodeRecvSize(packet, version);
      EncodeFrameHeader(f, w, ToUint32(size));
      err := EncodeRecv(packet, w, version);
      Framed(start, f, version);
    case OtherFrame(kind, _, body) =>
      if Registered(kind) {
        EncodeFrameHeader(f, w, ToUint32(|body|));
        w.WriteBytes(body);
        Framed(start, f, version);
      }
  }

  /** Header, size field and body appended one after the other are the frame's image appended once. */
  lemma Framed(start: Bytes, f: Frame, version: Version)
    requires !f.PingFrame? && !f.PongFrame? && Registered(TypeOf(f)) && FrameWire(f, version).Ok?
    ensures var body := BodyWire(f, version);
      start + [HeaderByte(f)] + VarintBytes(ToUint32(|body|)) + body == start + FrameWire(f, version).value
  {
  }

  /** EncodeFrame: the frame's bytes in a fresh buffer, or the error. */
  method EncodeFrame(f: Frame, version: Version) returns (r: Result<Bytes>)
    ensures r == FrameWire(f, version)
  {
    var buffer := new Encoder();
    var err := EncodeFrameWithWriter(buffer, f, version);
    if err.Fail? {
      return Err(err.error);
    }
    ghost var wire := FrameWire(f, version);
    assert wire.Ok?;
    assert buffer.data == [] + wire.value;
    assert [] + wire.value == wire.value;
    return Ok(buffer.data);
  }

  /*
   * Round trips.
   */

  /** The envelope the decoder builds for a frame read from data. */
  function ReadFramer(f: Frame, version: Version, data: Bytes): Framer
  {
    Framer(TypeOf(f), FramerOf(f).flags, ToUint32(|BodyWire(f, version)|), |data|)
  }

  /** What decoding gives back for a frame: the stated fields, read through the envelope the decoder builds. */
  function Restored(f: Frame, version: Version, data: Bytes): Frame
    requires !f.PingFrame? && !f.PongFrame?
  {
    var framer := ReadFramer(f, version, data);
    match f
    case SendFrame(p) => SendFrame(SendCodec.Received(p, framer, version))
    case RecvFrame(p) => RecvFrame(RecvCodec.Received(p, framer, version))
    case OtherFrame(kind, _, body) => OtherFrame(kind, framer, body)
  }

  /** A body the encoder can write and the decoder accepts back. */
  predicate Encodable(f: Frame, version: Version)
  {
    && 0 < |BodyWire(f, version)| <= MaxRemaingLength
    && (f.SendFrame? ==> SendFits(f.send, version))
    && (f.RecvFrame? ==> RecvFits(f.recv, version))
  }

  /** The header of a frame with a body: its envelope and the width of its size field. */
  lemma FramedHeader(h: uint8, body: Bytes, rest: Bytes)
    requires var t := FramerFromUint8(h).frameType; t != PING && t != PONG
    requires 0 < |body| <= MaxRemaingLength
    ensures var data := [h] + VarintBytes(|body|) + body + rest;
      var framer := FramerFromUint8(h).(remainingLength := |body|, frameSize := |data|);
      DecodeFramer(data) == Ok(Header(framer, |VarintBytes(|body|)|))
  {
    var n := |body|;
    var len := VarintBytes(n);
    var data := [h] + len + body + rest;
    assert data[0] == h;
    assert data[1..] == len + (body + rest);
    LengthRoundTrip(n, body + rest);
  }

  /**
   * A header byte of a type with a body, its size field, the body and
   * anything after: the type's decoder gets exactly the body, and the frame
   * spans header, size field and body.
   */
  lemma FramedExtent(h: uint8, body: Bytes, rest: Bytes)
    requires var t := FramerFromUint8(h).frameType; t != UNKNOWN && t != PING && t != PONG
    requires 0 < |body| <= MaxRemaingLength
    ensures var data := [h] + VarintBytes(|body|) + body + rest;
      var framer := FramerFromUint8(h).(remainingLength := |body|, frameSize := |data|);
      var size := 1 + |VarintBytes(|body|)| + |body|;
      DecodeFramer(data).Ok? && ExtentOf(data, DecodeFramer(data).value) == Body(framer, body, size)
  {
    var len := VarintBytes(|body|);
    var data := [h] + len + body + rest;
    FramedHeader(h, body, rest);
    assert data[1 + |len|..1 + |len| + |body|] == body;
  }

  /** DecodeFrame on a buffer whose header locates a whole body: the frame the type's decoder makes of it. */
  lemma DecodedBody(data: Bytes, version: Version, framer: Framer, body: Bytes, size: nat, frame: Frame)
    requires |data| >= 1 && DecodeFramer(data).Ok?
    requires ExtentOf(data, DecodeFramer(data).value) == Body(framer, body, size)
    requires DecodeBody(framer, body, version) == Ok(frame)
    ensures DecodeFrame(data, version) == Decoded(frame, size)
  {
  }

  /** DecodeFrame on a buffer whose header says to wait asks for more data. */
  lemma DecodedShort(data: Bytes, version: Version)
    requires |data| >= 1 && DecodeFramer(data).Ok?
    requires ExtentOf(data, DecodeFramer(data).value) == Short
    ensures DecodeFrame(data, version) == NeedMore
  {
  }

  /** Each type's decoder gives back, from the body its encoder writes, the fields it restores. */
  lemma BodyRoundTrip(f: Frame, version: Version, data: Bytes)
    requires !f.PingFrame? && !f.PongFrame? && Registered(TypeOf(f)) && Encodable(f, version)
    ensures DecodeBody(ReadFramer(f, version, data), BodyWire(f, version), version)
      == Ok(Restored(f, version, data))
  {
    var framer := ReadFramer(f, version, data);
    match f
    case SendFrame(p) =>
      SendRoundTrip(p, framer, version);
    case RecvFrame(p) =>
      RecvRoundTrip(p, framer, version);
    case OtherFrame(_, _, _) =>
  }

  /**
   * A registered frame whose strings fit their prefixes and whose body is
   * non-empty and at most 1 MiB decodes from its own bytes, whatever follows
   * them, to the frame with the fields its type restores, consuming exactly
   * those bytes.
   */
  lemma FrameRoundTrip(f: Frame, version: Version, rest: Bytes)
    requires !f.PingFrame? && !f.PongFrame? && Registered(TypeOf(f))
    requires Encodable(f, version) && FrameWire(f, version).Ok?
    ensures var wire := FrameWire(f, version).value;
      DecodeFrame(wire + rest, version) == Decoded(Restored(f, version, wire + rest), |wire|)
  {
    var wire := FrameWire(f, version).value;
    var data := wire + rest;
    FrameExtent(f, version, rest);
    BodyRoundTrip(f, version, data);
    DecodedBody(data, version, ReadFramer(f, version, data), BodyWire(f, version), |wire|,
      Restored(f, version, data));
  }

  /** The header of an encoded frame locates its body and spans the whole encoding. */
  lemma FrameExtent(f: Frame, version: Version, rest: Bytes)
    requires !f.PingFrame? && !f.PongFrame? && Registered(TypeOf(f))
    requires Encodable(f, version) && FrameWire(f, version).Ok?
    ensures var wire := FrameWire(f, version).value; var data := wire + rest;
      DecodeFramer(data).Ok?
      && ExtentOf(data, DecodeFramer(data).value)
         == Body(ReadFramer(f, version, data), BodyWire(f, version), |wire|)
  {
    var body := BodyWire(f, version);
    var h := HeaderByte(f);
    var wire := FrameWire(f, version).value;
    assert wire == [h] + VarintBytes(|body|) + body;
    var data := wire + rest;
    FramedExtent(h, body, rest);
    assert FramerFromUint8(h).(remainingLength := |body|, frameSize := |data|)
      == ReadFramer(f, version, data);
  }

  /** PING and PONG come back as their type alone; the envelope's flags are not written. */
  lemma PingPongRoundTrip(f: Frame, version: Version, rest: Bytes)
    requires f.PingFrame? || f.PongFrame?
    ensures var wire := FrameWire(f, version).value;
      && wire == [FixHeader(TypeOf(f), 0)]
      && DecodeFrame(wire + rest, version) == Decoded(
           (if f.PingFrame? then PingFrame(Framer(PING, 0, 0, 1 + |rest|))
            else PongFrame(Framer(PONG, 0, 0, 1 + |rest|))), 1)
  {
    var wire := FrameWire(f, version).value;
    var data := wire + rest;
    assert data[0] == FixHeader(TypeOf(f), 0);
  }

  /**
   * A header byte of a type that has a body, followed by a length field cut
   * short or by less body than the field announces, asks for more data.
   */
  lemma ShortBuffer(data: Bytes, version: Version)
    requires |data| >= 1
    requires var t := FramerFromUint8(data[0]).frameType; t != UNKNOWN && t != PING && t != PONG
    requires var len := LengthField(data[1..]);
      len.Err? || (len.value.value <= MaxRemaingLength && |data| < 1 + len.value.width + len.value.value)
    ensures DecodeFrame(data, version) == NeedMore
  {
    ShortExtent(data);
    DecodedShort(data, version);
  }

  /** ShortBuffer before the body decoders: the header alone says to wait. */
  lemma ShortExtent(data: Bytes)
    requires |data| >= 1
    requires var t := FramerFromUint8(data[0]).frameType; t != UNKNOWN && t != PING && t != PONG
    requires var len := LengthField(data[1..]);
      len.Err? || (len.value.value <= MaxRemaingLength && |data| < 1 + len.value.width + len.value.value)
    ensures ExtentOf(data, DecodeFramer(data).value) == Short
  {
  }

  /** A header byte of a type with a body, and less than its size field and body: the header says to wait. */
  lemma FramedPrefix(h: uint8, body: Bytes, cut: nat)
    requires var t := FramerFromUint8(h).frameType; t != UNKNOWN && t != PING && t != PONG
    requires 0 < |body| <= MaxRemaingLength
    requires 1 <= cut < 1 + |VarintBytes(|body|)| + |body|
    ensures var data := ([h] + VarintBytes(|body|) + body)[..cut];
      |data| >= 1 && ExtentOf(data, DecodeFramer(data).value) == Short
  {
    var len := VarintBytes(|body|);
    if cut <= |len| {
      CutInLength(h, body, cut);
    } else {
      var part := body[..cut - 1 - |len|];
      assert ([h] + len + body)[..cut] == [h] + len + part;
      CutInBody(h, |body|, part);
    }
  }

  /** Cut inside the size field: the field is incomplete. */
  lemma CutInLength(h: uint8, body: Bytes, cut: nat)
    requires var t := FramerFromUint8(h).frameType; t != UNKNOWN && t != PING && t != PONG
    requires 0 < |body| <= MaxRemaingLength
    requires 1 <= cut <= |VarintBytes(|body|)|
    ensures var data := ([h] + VarintBytes(|body|) + body)[..cut];
      |data| >= 1 && ExtentOf(data, DecodeFramer(data).value) == Short
  {
    var n := |body|;
    var len := VarintBytes(n);
    var data := ([h] + len + body)[..cut];
    assert data[0] == h;
    assert data[1..] == len[..cut - 1];
    LengthFieldPrefix(n, cut - 1);
    ShortExtent(data);
  }

  /** A complete size field announcing n bytes, followed by fewer: the body is not all there. */
  lemma CutInBody(h: uint8, n: nat, part: Bytes)
    requires var t := FramerFromUint8(h).frameType; t != UNKNOWN && t != PING && t != PONG
    requires 0 < n <= MaxRemaingLength && |part| < n
    ensures var data := [h] + VarintBytes(n) + part;
      ExtentOf(data, DecodeFramer(data).value) == Short
  {
    var len := VarintBytes(n);
    var data := [h] + len + part;
    assert data[0] == h;
    assert data[1..] == len + part;
    LengthRoundTrip(n, part);
    ShortExtent(data);
  }

  /**
   * A buffer holding only part of an encoded frame, at least its header
   * byte, asks for more data.
   */
  lemma PrefixNeedsMore(f: Frame, version: Version, cut: nat)
    requires !f.PingFrame? && !f.PongFrame? && Registered(TypeOf(f))
    requires Encodable(f, version) && FrameWire(f, version).Ok?
    requires 1 <= cut < |FrameWire(f, version).value|
    ensures DecodeFrame(FrameWire(f, version).value[..cut], version) == NeedMore
  {
    var body := BodyWire(f, version);
    assert FrameWire(f, version).value == [HeaderByte(f)] + VarintBytes(|body|) + body;
    FramedPrefix(HeaderByte(f), body, cut);
    DecodedShort(FrameWire(f, version).value[..cut], version);
  }

  /*
   * The empty buffer.
   */

  /** What running the source's DecodeFrame does: panic, or return a result. */
  datatype Run = Panics | Returns(result: FrameResult)

  /**
   * DecodeFrame as written, on every buffer: decodeFramer indexes data[0]
   * without a guard, so an empty buffer panics; any other buffer gets
   * DecodeFrame's answer.
   */
  function DecodeFrameAsWritten(data: Bytes, version: Version): (r: Run)
    ensures r == Panics <==> data == []
    ensures data != [] ==> r == Returns(DecodeFrame(data, version))
  {
    if |data| == 0 then Panics else Returns(DecodeFrame(data, version))
  }

  /** The empty buffer, which a caller polling a socket may hold, makes the decoder panic. */
  lemma EmptyBufferPanics(version: Version)
    ensures DecodeFrameAsWritten([], version) == Panics
  {
  }

  /**
   * The decoder with the guard the unguarded index lacks: an empty buffer,
   * like any other incomplete one, asks for more data.
   */
  function DecodeBuffer(data: Bytes, version: Version): (r: FrameResult)
    ensures data == [] ==> r == NeedMore
    ensures data != [] ==> r == DecodeFrame(data, version)
  {
    if |data| == 0 then NeedMore else DecodeFrame(data, version)
  }

  /** Every strict prefix of an encoded frame, the empty one included, asks for more data. */
  lemma BufferPrefixNeedsMore(f: Frame, version: Version, cut: nat)
    requires !f.PingFrame? && !f.PongFrame? && Registered(TypeOf(f))
    requires Encodable(f, version) && FrameWire(f, version).Ok?
    requires cut < |FrameWire(f, version).value|
    ensures DecodeBuffer(FrameWire(f, version).value[..cut], version) == NeedMore
  {
    if cut > 0 {
      PrefixNeedsMore(f, version, cut);
    }
  }

  /** The guard changes nothing for a buffer that holds a whole frame. */
  lemma BufferRoundTrip(f: Frame, version: Version, rest: Bytes)
    requires !f.PingFrame? && !f.PongFrame? && Registered(TypeOf(f))
    requires Encodable(f, version) && FrameWire(f, version).Ok?
    ensures var wire := FrameWire(f, version).value;
      DecodeBuffer(wire + rest, version) == Decoded(Restored(f, version, wire + rest), |wire|)
  {
    FrameRoundTrip(f, version, rest);
  }
}
