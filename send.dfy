/**
 * The SEND body (send.go): what a client sends to post a message. Fields
 * travel in a fixed order; the stream number is gated by the protocol version
 * and the Setting's stream bit, the expiry by the version, the topic by the
 * Setting's topic bit; the payload is the unprefixed tail.
 *
 * SendWire is the body image; ParseSend is the decoder's reading of a body.
 * DecodeSend, EncodeSend and EncodeSendSize are the source's cursor-based
 * procedures, each proved equal to its specification function.
 */
module SendCodec {
  import opened Ints
  import opened Errors
  import opened Wire
  import opened Decoding
  import opened Encoding
  import opened Framing

  datatype SendPacket = SendPacket(
    framer: Framer,
    setting: uint8,
    msgKey: Bytes,
    expire: uint32,
    clientSeq: uint64,
    clientMsgNo: Bytes,
    streamNo: Bytes,
    channelID: Bytes,
    channelType: uint8,
    topic: Bytes,
    payload: Bytes)

  /*
   * The body bytes encodeSend writes, in wire order, in three stretches; each
   * stretch is written in front of the bytes that follow it.
   */

  /** Setting, ClientSeq as a uint32, ClientMsgNo, and StreamNo when streaming. */
  function SendHeadWire(p: SendPacket, version: Version, rest: Bytes): Bytes
  {
    [p.setting]
    + (Uint32Bytes(Low32(p.clientSeq))
    + (StringBytes(p.clientMsgNo)
    + (Optional(StreamOn(p.setting, version), StringBytes(p.streamNo))
    + rest)))
  }

  /** ChannelID, ChannelType, and Expire from version 3 on. */
  function SendBodyWire(p: SendPacket, version: Version, rest: Bytes): Bytes
  {
    StringBytes(p.channelID)
    + ([p.channelType]
    + (Optional(ExpireOn(version), Uint32Bytes(p.expire))
    + rest))
  }

  /** MsgKey, Topic when the Setting asks for it, and the unprefixed payload. */
  function SendTailWire(p: SendPacket): Bytes
  {
    StringBytes(p.msgKey)
    + (Optional(TopicOn(p.setting), StringBytes(p.topic))
    + p.payload)
  }

  function SendWire(p: SendPacket, version: Version): Bytes
  {
    SendHeadWire(p, version, SendBodyWire(p, version, SendTailWire(p)))
  }

  /** Every string the body carries has a length its int16 prefix can state. */
  predicate SendFits(p: SendPacket, version: Version)
  {
    && Fits(p.clientMsgNo)
    && (StreamOn(p.setting, version) ==> Fits(p.streamNo))
    && Fits(p.channelID)
    && Fits(p.msgKey)
    && (TopicOn(p.setting) ==> Fits(p.topic))
  }

  /**
   * What decoding the image of p yields: the framer handed in, the sequence
   * number cut to 32 bits, and the zero value for every field the gates kept
   * off the wire.
   */
  function Received(p: SendPacket, framer: Framer, version: Version): SendPacket
  {
    p.(framer := framer,
       clientSeq := Low32(p.clientSeq),
       streamNo := if StreamOn(p.setting, version) then p.streamNo else [],
       expire := if ExpireOn(version) then p.expire else 0,
       topic := if TopicOn(p.setting) then p.topic else [])
  }

  /** The packet decodeSend starts from: the framer handed in, every field zero. */
  function EmptySend(framer: Framer): SendPacket
  {
    SendPacket(framer, 0, [], 0, 0, [], [], [], 0, [], [])
  }

  /** The reads of the head stretch, filling the empty packet. */
  function TakeSendHead(framer: Framer, data: Bytes, version: Version): (r: Result<Got<SendPacket>>)
    ensures r.Ok? ==> var p := r.value.value;
      && p == EmptySend(framer).(setting := p.setting, clientSeq := p.clientSeq,
                                  clientMsgNo := p.clientMsgNo, streamNo := p.streamNo)
      && data == SendHeadWire(p, version, r.value.rest)
      && p.clientSeq < 0x1_0000_0000
      && Fits(p.clientMsgNo) && Fits(p.streamNo)
      && (!StreamOn(p.setting, version) ==> p.streamNo == [])
    ensures r.Err? ==> r.error == Underrun || r.error == NegativeLength
  {
    var start :- TakeSendStart(framer, data);
    var p := start.value;
    var streamNo :- TakeBinaryIf(StreamOn(p.setting, version), start.rest);
    Ok(Got(p.(streamNo := streamNo.value), streamNo.rest))
  }

  /** Setting, ClientSeq as a uint32 and ClientMsgNo, filling the empty packet. */
  function TakeSendStart(framer: Framer, data: Bytes): (r: Result<Got<SendPacket>>)
    ensures r.Ok? ==> var p := r.value.value;
      && p == EmptySend(framer).(setting := p.setting, clientSeq := p.clientSeq, clientMsgNo := p.clientMsgNo)
      && p.clientSeq < 0x1_0000_0000
      && data == [p.setting] + (Uint32Bytes(p.clientSeq) + (StringBytes(p.clientMsgNo) + r.value.rest))
      && Fits(p.clientMsgNo)
    ensures r.Err? ==> r.error == Underrun || r.error == NegativeLength
  {
    var setting :- TakeUint8(data);
    var clientSeq :- TakeUint32(setting.rest);
    var clientMsgNo :- TakeBinary(clientSeq.rest);
    Ok(Got(EmptySend(framer).(setting := setting.value, clientSeq := clientSeq.value,
                              clientMsgNo := clientMsgNo.value),
           clientMsgNo.rest))
  }

  /** The reads of the body stretch, filling its fields of p. */
  function TakeSendBody(p: SendPacket, s: Bytes, version: Version): (r: Result<Got<SendPacket>>)
    ensures r.Ok? ==> var q := r.value.value;
      && q == p.(channelID := q.channelID, channelType := q.channelType, expire := q.expire)
      && s == SendBodyWire(q, version, r.value.rest)
      && Fits(q.channelID)
      && (!ExpireOn(version) ==> q.expire == 0)
    ensures r.Err? ==> r.error == Underrun || r.error == NegativeLength
  {
    var channelID :- TakeBinary(s);
    var channelType :- TakeUint8(channelID.rest);
    var expire :- TakeUint32If(ExpireOn(version), channelType.rest);
    Ok(Got(p.(channelID := channelID.value, channelType := channelType.value, expire := expire.value),
           expire.rest))
  }

  /** The reads of the tail stretch; the payload takes whatever remains. */
  function TakeSendTail(p: SendPacket, s: Bytes): (r: Result<SendPacket>)
    ensures r.Ok? ==> var q := r.value;
      && q == p.(msgKey := q.msgKey, topic := q.topic, payload := q.payload)
      && s == SendTailWire(q)
      && Fits(q.msgKey) && Fits(q.topic)
      && (!TopicOn(q.setting) ==> q.topic == [])
    ensures r.Err? ==> r.error == Underrun || r.error == NegativeLength
  {
    var msgKey :- TakeBinary(s);
    var topic :- TakeBinaryIf(TopicOn(p.setting), msgKey.rest);
    Ok(p.(msgKey := msgKey.value, topic := topic.value, payload := TakeAll(topic.rest).value))
  }

  /**
   * decodeSend, as a function of the body bytes: it fails only on a short
   * body or a bad length prefix, copies the framer, and what it accepts is
   * the image of what it returns.
   */
  function ParseSend(framer: Framer, data: Bytes, version: Version): (r: Result<SendPacket>)
    ensures r.Ok? ==> r.value.framer == framer
    ensures r.Ok? ==> r.value.clientSeq < 0x1_0000_0000
    ensures r.Ok? && !StreamOn(r.value.setting, version) ==> r.value.streamNo == []
    ensures r.Ok? && !ExpireOn(version) ==> r.value.expire == 0
    ensures r.Ok? && !TopicOn(r.value.setting) ==> r.value.topic == []
    ensures r.Ok? ==> SendFits(r.value, version) && SendWire(r.value, version) == data
    ensures r.Err? ==> r.error == Underrun || r.error == NegativeLength
  {
    var head :- TakeSendHead(framer, data, version);
    var body :- TakeSendBody(head.value, head.rest, version);
    TakeSendTail(body.value, body.rest)
  }

  /** decodeSend: a fresh cursor over the body, read one stretch after another. */
  method DecodeSend(framer: Framer, data: Bytes, version: Version) returns (r: Result<SendPacket>)
    ensures r == ParseSend(framer, data, version)
  {
    var dec := new Decoder(data);
    var head :- DecodeSendHead(dec, framer, version);
    var body :- DecodeSendBody(dec, head, version);
    r := DecodeSendTail(dec, body);
  }

  /** The head reads of decodeSend, into the empty packet. */
  method DecodeSendHead(dec: Decoder, framer: Framer, version: Version) returns (r: Result<SendPacket>)
    requires dec.Valid()
    modifies dec
    ensures dec.Valid()
    ensures Performed(r, TakeSendHead(framer, dec.p[old(dec.offset)..], version), dec.p[dec.offset..])
  {
    var p :- DecodeSendStart(dec, framer);
    var streamNo: Bytes := [];
    if StreamOn(p.setting, version) {
      streamNo :- dec.String();
    }
    return Ok(p.(streamNo := streamNo));
  }

  /** The Setting, ClientSeq and ClientMsgNo reads of decodeSend. */
  method DecodeSendStart(dec: Decoder, framer: Framer) returns (r: Result<SendPacket>)
    requires dec.Valid()
    modifies dec
    ensures dec.Valid()
    ensures Performed(r, TakeSendStart(framer, dec.p[old(dec.offset)..]), dec.p[dec.offset..])
  {
    var setting :- dec.Uint8();
    var clientSeq :- dec.Uint32();
    var clientMsgNo :- dec.String();
    return Ok(EmptySend(framer).(setting := setting, clientSeq := clientSeq as uint64,
                                 clientMsgNo := clientMsgNo));
  }

  /** The body reads of decodeSend, filling in p. */
  method DecodeSendBody(dec: Decoder, p: SendPacket, version: Version) returns (r: Result<SendPacket>)
    requires dec.Valid()
    modifies dec
    ensures dec.Valid()
    ensures Performed(r, TakeSendBody(p, dec.p[old(dec.offset)..], version), dec.p[dec.offset..])
  {
    var channelID :- dec.String();
    var channelType :- dec.Uint8();
    var expire: uint32 := 0;
    if ExpireOn(version) {
      expire :- dec.Uint32();
    }
    return Ok(p.(channelID := channelID, channelType := channelType, expire := expire));
  }

  /** The tail reads of decodeSend: MsgKey, the gated Topic, and all that remains as payload. */
  method DecodeSendTail(dec: Decoder, p: SendPacket) returns (r: Result<SendPacket>)
    requires dec.Valid()
    modifies dec
    ensures dec.Valid() && (r.Ok? ==> dec.offset == |dec.p|)
    ensures r == TakeSendTail(p, dec.p[old(dec.offset)..])
  {
    var msgKey :- dec.String();
    var topic: Bytes := [];
    if TopicOn(p.setting) {
      topic :- dec.String();
    }
    var payload := dec.BinaryAll();  // never fails
    return Ok(p.(msgKey := msgKey, topic := topic, payload := payload.value));
  }

  /** encodeSend: appends the body image; it never reports an error. */
  method EncodeSend(p: SendPacket, enc: Encoder, version: Version) returns (err: Outcome)
    modifies enc
    ensures enc.data == old(enc.data) + SendWire(p, version)
    ensures err == Pass
  {
    ghost var topic := Optional(TopicOn(p.setting), StringBytes(p.topic)) + p.payload;
    ghost var msgKey := StringBytes(p.msgKey) + topic;
    ghost var expire := Optional(ExpireOn(version), Uint32Bytes(p.expire)) + msgKey;
    ghost var channelType := [p.channelType] + expire;
    ghost var channelID := StringBytes(p.channelID) + channelType;
    ghost var streamNo := Optional(StreamOn(p.setting, version), StringBytes(p.streamNo)) + channelID;
    ghost var clientMsgNo := StringBytes(p.clientMsgNo) + streamNo;
    ghost var clientSeq := Uint32Bytes(Low32(p.clientSeq)) + clientMsgNo;
    ghost var goal := old(enc.data) + SendWire(p, version);
    assert goal == enc.data + ([p.setting] + clientSeq);
    Associative(enc.data, [p.setting], clientSeq);
    enc.WriteByte(p.setting);
    Associative(enc.data, Uint32Bytes(Low32(p.clientSeq)), clientMsgNo);
    enc.WriteUint32(Low32(p.clientSeq));
    Associative(enc.data, StringBytes(p.clientMsgNo), streamNo);
    enc.WriteString(p.clientMsgNo);
    if StreamOn(p.setting, version) {
      Associative(enc.data, StringBytes(p.streamNo), channelID);
      enc.WriteString(p.streamNo);
    } else {
      Absent(StringBytes(p.streamNo), channelID);
    }
    Associative(enc.data, StringBytes(p.channelID), channelType);
    enc.WriteString(p.channelID);
    Associative(enc.data, [p.channelType], expire);
    enc.WriteUint8(p.channelType);
    if ExpireOn(version) {
      Associative(enc.data, Uint32Bytes(p.expire), msgKey);
      enc.WriteUint32(p.expire);
    } else {
      Absent(Uint32Bytes(p.expire), msgKey);
    }
    Associative(enc.data, StringBytes(p.msgKey), topic);
    enc.WriteString(p.msgKey);
    if TopicOn(p.setting) {
      Associative(enc.data, StringBytes(p.topic), p.payload);
      enc.WriteString(p.topic);
    } else {
      Absent(StringBytes(p.topic), p.payload);
    }
    assert goal == enc.data + p.payload;
    enc.WriteBytes(p.payload);
    return Pass;
  }

  /** encodeSendSize: the byte count of the body, field by field. */
  method EncodeSendSize(p: SendPacket, version: Version) returns (size: nat)
    ensures size == |SendWire(p, version)|
  {
    size := 0;
    size := size + SettingByteSize;
    size := size + ClientSeqByteSize;
    size := size + (|p.clientMsgNo| + StringFixLenByteSize);
    if StreamOn(p.setting, version) {
      size := size + (|p.streamNo| + StringFixLenByteSize);
    }
    size := size + (|p.channelID| + StringFixLenByteSize);
    size := size + ChannelTypeByteSize;
    if ExpireOn(version) {
      size := size + ExpireByteSize;
    }
    size := size + (|p.msgKey| + StringFixLenByteSize);
    if TopicOn(p.setting) {
      size := size + (|p.topic| + StringFixLenByteSize);
    }
    size := size + |p.payload|;
  }

  /** The head stretch reads back its fields, gated ones as the gate lets them through. */
  lemma SendHeadRoundTrip(p: SendPacket, framer: Framer, version: Version, rest: Bytes)
    requires Fits(p.clientMsgNo) && (StreamOn(p.setting, version) ==> Fits(p.streamNo))
    ensures TakeSendHead(framer, SendHeadWire(p, version, rest), version)
      == Ok(Got(EmptySend(framer).(setting := p.setting, clientSeq := Low32(p.clientSeq),
                                  clientMsgNo := p.clientMsgNo,
                                  streamNo := if StreamOn(p.setting, version) then p.streamNo else []),
                rest))
  {
    var stream := StreamOn(p.setting, version);
    var streamNo := Optional(stream, StringBytes(p.streamNo)) + rest;
    var clientMsgNo := StringBytes(p.clientMsgNo) + streamNo;
    var clientSeq := Uint32Bytes(Low32(p.clientSeq)) + clientMsgNo;
    ReadUint8Written(p.setting, clientSeq);
    ReadUint32Written(Low32(p.clientSeq), clientMsgNo);
    ReadStringWritten(p.clientMsgNo, streamNo);
    if stream {
      ReadStringWritten(p.streamNo, rest);
    } else {
      Absent(StringBytes(p.streamNo), rest);
    }
  }

  /** The middle stretch reads back ChannelID, ChannelType and, when gated in, Expire. */
  lemma SendBodyRoundTrip(p: SendPacket, q: SendPacket, version: Version, rest: Bytes)
    requires Fits(p.channelID)
    ensures TakeSendBody(q, SendBodyWire(p, version, rest), version)
      == Ok(Got(q.(channelID := p.channelID, channelType := p.channelType,
                   expire := if ExpireOn(version) then p.expire else 0), rest))
  {
    var expire := Optional(ExpireOn(version), Uint32Bytes(p.expire)) + rest;
    var channelType := [p.channelType] + expire;
    ReadStringWritten(p.channelID, channelType);
    ReadUint8Written(p.channelType, expire);
    if ExpireOn(version) {
      ReadUint32Written(p.expire, rest);
    } else {
      Absent(Uint32Bytes(p.expire), rest);
    }
  }

  /** The tail stretch reads back MsgKey, the gated Topic, and the payload. */
  lemma SendTailRoundTrip(p: SendPacket, q: SendPacket)
    requires Fits(p.msgKey) && (TopicOn(p.setting) ==> Fits(p.topic)) && q.setting == p.setting
    ensures TakeSendTail(q, SendTailWire(p))
      == Ok(q.(msgKey := p.msgKey, topic := if TopicOn(p.setting) then p.topic else [],
               payload := p.payload))
  {
    var topic := Optional(TopicOn(p.setting), StringBytes(p.topic)) + p.payload;
    ReadStringWritten(p.msgKey, topic);
    if TopicOn(p.setting) {
      ReadStringWritten(p.topic, p.payload);
    } else {
      Absent(StringBytes(p.topic), p.payload);
    }
  }

  /**
   * Decoding an encoded body gives back every field: the sequence number
   * cut to 32 bits, and the gated fields as their gates let them through.
   */
  lemma SendRoundTrip(p: SendPacket, framer: Framer, version: Version)
    requires SendFits(p, version)
    ensures ParseSend(framer, SendWire(p, version), version) == Ok(Received(p, framer, version))
  {
    var tail := SendTailWire(p);
    var body := SendBodyWire(p, version, tail);
    SendHeadRoundTrip(p, framer, version, body);
    var head := EmptySend(framer).(setting := p.setting, clientSeq := Low32(p.clientSeq),
                                   clientMsgNo := p.clientMsgNo,
                                   streamNo := if StreamOn(p.setting, version) then p.streamNo else []);
    SendBodyRoundTrip(p, head, version, tail);
    var middle := head.(channelID := p.channelID, channelType := p.channelType,
                        expire := if ExpireOn(version) then p.expire else 0);
    SendTailRoundTrip(p, middle);
  }

  /** The decoder accepts a body exactly when it is the image of some packet whose strings fit. */
  lemma SendAccepts(framer: Framer, data: Bytes, version: Version)
    ensures ParseSend(framer, data, version).Ok?
        <==> exists p :: SendFits(p, version) && SendWire(p, version) == data
  {
    if p :| SendFits(p, version) && SendWire(p, version) == data {
      SendRoundTrip(p, framer, version);
    }
  }

  /** The sequence number survives the trip modulo 2^32 and no better. */
  lemma SendClientSeqTruncated(p: SendPacket, framer: Framer, version: Version)
    requires SendFits(p, version)
    ensures var r := ParseSend(framer, SendWire(p, version), version);
      r.Ok? && r.value.clientSeq == p.clientSeq % 0x1_0000_0000
  {
    SendRoundTrip(p, framer, version);
  }
}
