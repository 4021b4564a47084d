/**
 * The RECV body (recv.go): a message delivered by the server. Fields travel
 * in a fixed order; the expiry is gated by the protocol version, the three
 * stream fields together by the version and the Setting's stream bit, the
 * topic by the Setting's topic bit; the payload is the unprefixed tail. The
 * client sequence number is carried in the struct but never encoded.
 *
 * RecvWire is the body image; ParseRecv is the decoder's reading of a body.
 * DecodeRecv, EncodeRecv and EncodeRecvSize are the source's cursor-based
 * procedures, each proved equal to its specification function.
 */
module RecvCodec {
  import opened Ints
  import opened Errors
  import opened Wire
  import opened Decoding
  import opened Encoding
  import opened Framing
  import opened Decimal

  datatype RecvPacket = RecvPacket(
    framer: Framer,
    setting: uint8,
    msgKey: Bytes,
    expire: uint32,
    messageID: int64,
    messageSeq: uint32,
    clientMsgNo: Bytes,
    streamNo: Bytes,
    streamId: uint64,
    streamFlag: uint8,
    timestamp: int32,
    channelID: Bytes,
    channelType: uint8,
    topic: Bytes,
    fromUID: Bytes,
    payload: Bytes,
    clientSeq: uint64)      // not part of the encoding

  /** Go's zero value `RecvPacket{}`, carrying the given framer. */
  function EmptyRecv(framer: Framer): RecvPacket
  {
    RecvPacket(framer, 0, [], 0, 0, 0, [], [], 0, 0, 0, [], 0, [], [], [], 0)
  }

  /*
   * The body bytes encodeRecv writes, in wire order, in three stretches; each
   * stretch is written in front of the bytes that follow it.
   */

  /** Setting, MsgKey, FromUID, ChannelID, ChannelType, and Expire from version 3 on. */
  function RecvHeadWire(p: RecvPacket, version: Version, rest: Bytes): Bytes
  {
    [p.setting]
    + (StringBytes(p.msgKey)
    + (StringBytes(p.fromUID)
    + (StringBytes(p.channelID)
    + ([p.channelType]
    + (Optional(ExpireOn(version), Uint32Bytes(p.expire))
    + rest)))))
  }

  /** ClientMsgNo, then StreamFlag, StreamNo and StreamId when streaming. */
  function RecvStreamWire(p: RecvPacket, version: Version, rest: Bytes): Bytes
  {
    StringBytes(p.clientMsgNo)
    + (if StreamOn(p.setting, version)
       then [p.streamFlag] + (StringBytes(p.streamNo) + (Uint64Bytes(p.streamId) + rest))
       else rest)
  }

  /** MessageID, MessageSeq, Timestamp, Topic when the Setting asks for it, and the payload. */
  function RecvTailWire(p: RecvPacket): Bytes
  {
    Int64Bytes(p.messageID)
    + (Uint32Bytes(p.messageSeq)
    + (Int32Bytes(p.timestamp)
    + (Optional(TopicOn(p.setting), StringBytes(p.topic))
    + p.payload)))
  }

  function RecvWire(p: RecvPacket, version: Version): Bytes
  {
    RecvHeadWire(p, version, RecvStreamWire(p, version, RecvTailWire(p)))
  }

  /** Every string the body carries has a length its int16 prefix can state. */
  predicate RecvFits(p: RecvPacket, version: Version)
  {
    && Fits(p.msgKey)
    && Fits(p.fromUID)
    && Fits(p.channelID)
    && Fits(p.clientMsgNo)
    && (StreamOn(p.setting, version) ==> Fits(p.streamNo))
    && (TopicOn(p.setting) ==> Fits(p.topic))
  }

  /**
   * What decoding the image of p yields: the framer handed in, a zero client
   * sequence number, and the zero value for every field the gates kept off
   * the wire.
   */
  function Received(p: RecvPacket, framer: Framer, version: Version): RecvPacket
  {
    var stream := StreamOn(p.setting, version);
    p.(framer := framer,
       clientSeq := 0,
       expire := if ExpireOn(version) then p.expire else 0,
       streamFlag := if stream then p.streamFlag else 0,
       streamNo := if stream then p.streamNo else [],
       streamId := if stream then p.streamId else 0,
       topic := if TopicOn(p.setting) then p.topic else [])
  }

  /** The reads of the head stretch, filling the empty packet. */
  function TakeRecvHead(framer: Framer, data: Bytes, version: Version): (r: Result<Got<RecvPacket>>)
    ensures r.Ok? ==> var p := r.value.value;
      && p == EmptyRecv(framer).(setting := p.setting, msgKey := p.msgKey, fromUID := p.fromUID,
                                  channelID := p.channelID, channelType := p.channelType,
                                  expire := p.expire)
      && data == RecvHeadWire(p, version, r.value.rest)
      && Fits(p.msgKey) && Fits(p.fromUID) && Fits(p.channelID)
      && (!ExpireOn(version) ==> p.expire == 0)
    ensures r.Err? ==> r.error == Underrun || r.error == NegativeLength
  {
    var sender :- TakeRecvSender(framer, data);
    TakeRecvChannel(sender.value, sender.rest, version)
  }

  /** Setting, MsgKey and FromUID, filling the empty packet. */
  function TakeRecvSender(framer: Framer, data: Bytes): (r: Result<Got<RecvPacket>>)
    ensures r.Ok? ==> var p := r.value.value;
      && p == EmptyRecv(framer).(setting := p.setting, msgKey := p.msgKey, fromUID := p.fromUID)
      && data == [p.setting] + (StringBytes(p.msgKey) + (StringBytes(p.fromUID) + r.value.rest))
      && Fits(p.msgKey) && Fits(p.fromUID)
    ensures r.Err? ==> r.error == Underrun || r.error == NegativeLength
  {
    var setting :- TakeUint8(data);
    var msgKey :- TakeBinary(setting.rest);
    var fromUID :- TakeBinary(msgKey.rest);
    Ok(Got(EmptyRecv(framer).(setting := setting.value, msgKey := msgKey.value, fromUID := fromUID.value),
           fromUID.rest))
  }

  /** ChannelID, ChannelType and, from version 3 on, Expire, filling those fields of p. */
  function TakeRecvChannel(p: RecvPacket, s: Bytes, version: Version): (r: Result<Got<RecvPacket>>)
    ensures r.Ok? ==> var q := r.value.value;
      && q == p.(channelID := q.channelID, channelType := q.channelType, expire := q.expire)
      && s == StringBytes(q.channelID) + ([q.channelType]
              + (Optional(ExpireOn(version), Uint32Bytes(q.expire)) + r.value.rest))
      && Fits(q.channelID)
      && (!ExpireOn(version) ==> q.expire == 0)
    ensures r.Err? ==> r.error == Underrun || r.error == NegativeLength
  {
    var channelID :- TakeBinary(s);
    var channelType :- TakeUint8(channelID.rest);
    var expire :- TakeUint32If(ExpireOn(version), channelType.rest);
    Ok(Got(p.(channelID := channelID.value, channelType := channelType.value, expire := expire.value),
           expire.rest))
  }

  /** The reads of the client-message-number and stream stretch, filling its fields of p. */
  function TakeRecvStream(p: RecvPacket, s: Bytes, version: Version): (r: Result<Got<RecvPacket>>)
    ensures r.Ok? ==> var q := r.value.value;
      && q == p.(clientMsgNo := q.clientMsgNo, streamFlag := q.streamFlag,
                 streamNo := q.streamNo, streamId := q.streamId)
      && s == RecvStreamWire(q, version, r.value.rest)
      && Fits(q.clientMsgNo) && Fits(q.streamNo)
      && (!StreamOn(q.setting, version) ==> q.streamFlag == 0 && q.streamNo == [] && q.streamId == 0)
    ensures r.Err? ==> r.error == Underrun || r.error == NegativeLength
  {
    var clientMsgNo :- TakeBinary(s);
    var q := p.(clientMsgNo := clientMsgNo.value);
    if StreamOn(p.setting, version) then TakeStreamFields(q, clientMsgNo.rest)
    else Ok(Got(q.(streamFlag := 0, streamNo := [], streamId := 0), clientMsgNo.rest))
  }

  /** The three reads of a streamed message: StreamFlag, StreamNo and StreamId. */
  function TakeStreamFields(p: RecvPacket, s: Bytes): (r: Result<Got<RecvPacket>>)
    ensures r.Ok? ==> var q := r.value.value;
      && q == p.(streamFlag := q.streamFlag, streamNo := q.streamNo, streamId := q.streamId)
      && s == [q.streamFlag] + (StringBytes(q.streamNo) + (Uint64Bytes(q.streamId) + r.value.rest))
      && Fits(q.streamNo)
    ensures r.Err? ==> r.error == Underrun || r.error == NegativeLength
  {
    var streamFlag :- TakeUint8(s);
    var streamNo :- TakeBinary(streamFlag.rest);
    var streamId :- TakeUint64(streamNo.rest);
    Ok(Got(p.(streamFlag := streamFlag.value, streamNo := streamNo.value, streamId := streamId.value),
           streamId.rest))
  }

  /** The reads of the tail stretch; the payload takes whatever remains. */
  function TakeRecvTail(p: RecvPacket, s: Bytes): (r: Result<RecvPacket>)
    ensures r.Ok? ==> var q := r.value;
      && q == p.(messageID := q.messageID, messageSeq := q.messageSeq, timestamp := q.timestamp,
                 topic := q.topic, payload := q.payload)
      && s == RecvTailWire(q)
      && (TopicOn(q.setting) ==> Fits(q.topic))
      && (!TopicOn(q.setting) ==> q.topic == [])
    ensures r.Err? ==> r.error == Underrun || r.error == NegativeLength
  {
    var messageID :- TakeInt64(s);
    var messageSeq :- TakeUint32(messageID.rest);
    var timestamp :- TakeInt32(messageSeq.rest);
    var topic :- TakeBinaryIf(TopicOn(p.setting), timestamp.rest);
    Ok(p.(messageID := messageID.value, messageSeq := messageSeq.value,
          timestamp := timestamp.value, topic := topic.value,
          payload := TakeAll(topic.rest).value))
  }

  /**
   * decodeRecv, as a function of the body bytes: it fails only on a short
   * body or a bad length prefix, copies the framer, leaves the client
   * sequence number zero, and what it accepts is the image of what it
   * returns.
   */
  function ParseRecv(framer: Framer, data: Bytes, version: Version): (r: Result<RecvPacket>)
    ensures r.Ok? ==> r.value.framer == framer && r.value.clientSeq == 0
    ensures r.Ok? && !ExpireOn(version) ==> r.value.expire == 0
    ensures r.Ok? && !StreamOn(r.value.setting, version) ==>
      r.value.streamFlag == 0 && r.value.streamNo == [] && r.value.streamId == 0
    ensures r.Ok? && !TopicOn(r.value.setting) ==> r.value.topic == []
    ensures r.Ok? ==> RecvFits(r.value, version) && RecvWire(r.value, version) == data
    ensures r.Err? ==> r.error == Underrun || r.error == NegativeLength
  {
    var head :- TakeRecvHead(framer, data, version);
    var stream :- TakeRecvStream(head.value, head.rest, version);
    TakeRecvTail(stream.value, stream.rest)
  }

  /** decodeRecv: a fresh cursor over the body, read one stretch after another. */
  method DecodeRecv(framer: Framer, data: Bytes, version: Version) returns (r: Result<RecvPacket>)
    ensures r == ParseRecv(framer, data, version)
  {
    var dec := new Decoder(data);
    var head :- DecodeRecvHead(dec, framer, version);
    var stream :- DecodeRecvStream(dec, head, version);
    r := DecodeRecvTail(dec, stream);
  }

  /** The head reads of decodeRecv, into the empty packet. */
  method DecodeRecvHead(dec: Decoder, framer: Framer, version: Version) returns (r: Result<RecvPacket>)
    requires dec.Valid()
    modifies dec
    ensures dec.Valid()
    ensures Performed(r, TakeRecvHead(framer, dec.p[old(dec.offset)..], version), dec.p[dec.offset..])
  {
    var sender :- DecodeRecvSender(dec, framer);
    r := DecodeRecvChannel(dec, sender, version);
  }

  /** The Setting, MsgKey and FromUID reads of decodeRecv. */
  method DecodeRecvSender(dec: Decoder, framer: Framer) returns (r: Result<RecvPacket>)
    requires dec.Valid()
    modifies dec
    ensures dec.Valid()
    ensures Performed(r, TakeRecvSender(framer, dec.p[old(dec.offset)..]), dec.p[dec.offset..])
  {
    var setting :- dec.Uint8();
    var msgKey :- dec.String();
    var fromUID :- dec.String();
    return Ok(EmptyRecv(framer).(setting := setting, msgKey := msgKey, fromUID := fromUID));
  }

  /** The ChannelID, ChannelType and gated Expire reads of decodeRecv, filling in p. */
  method DecodeRecvChannel(dec: Decoder, p: RecvPacket, version: Version) returns (r: Result<RecvPacket>)
    requires dec.Valid()
    modifies dec
    ensures dec.Valid()
    ensures Performed(r, TakeRecvChannel(p, dec.p[old(dec.offset)..], version), dec.p[dec.offset..])
  {
    var channelID :- dec.String();
    var channelType :- dec.Uint8();
    var expire: uint32 := 0;
    if ExpireOn(version) {
      expire :- dec.Uint32();
    }
    return Ok(p.(channelID := channelID, channelType := channelType, expire := expire));
  }

  /** The client-message-number and stream reads of decodeRecv, filling in p. */
  method DecodeRecvStream(dec: Decoder, p: RecvPacket, version: Version) returns (r: Result<RecvPacket>)
    requires dec.Valid()
    modifies dec
    ensures dec.Valid()
    ensures Performed(r, TakeRecvStream(p, dec.p[old(dec.offset)..], version), dec.p[dec.offset..])
  {
    var clientMsgNo :- dec.String();
    var q := p.(clientMsgNo := clientMsgNo);
    if StreamOn(p.setting, version) {
      r := DecodeStreamFields(dec, q);
    } else {
      r := Ok(q.(streamFlag := 0, streamNo := [], streamId := 0));
    }
  }

  /** The stream reads of decodeRecv, when the version and the Setting call for them. */
  method DecodeStreamFields(dec: Decoder, p: RecvPacket) returns (r: Result<RecvPacket>)
    requires dec.Valid()
    modifies dec
    ensures dec.Valid()
    ensures Performed(r, TakeStreamFields(p, dec.p[old(dec.offset)..]), dec.p[dec.offset..])
  {
    var streamFlag :- dec.Uint8();
    var streamNo :- dec.String();
    var streamId :- dec.Uint64();
    return Ok(p.(streamFlag := streamFlag, streamNo := streamNo, streamId := streamId));
  }

  /** The tail reads of decodeRecv: the message identity, the gated Topic, and the payload. */
  method DecodeRecvTail(dec: Decoder, p: RecvPacket) returns (r: Result<RecvPacket>)
    requires dec.Valid()
    modifies dec
    ensures dec.Valid() && (r.Ok? ==> dec.offset == |dec.p|)
    ensures r == TakeRecvTail(p, dec.p[old(dec.offset)..])
  {
    var messageID :- dec.Int64();
    var messageSeq :- dec.Uint32();
    var timestamp :- dec.Int32();
    var topic: Bytes := [];
    if TopicOn(p.setting) {
      topic :- dec.String();
    }
    var payload := dec.BinaryAll();  // never fails
    return Ok(p.(messageID := messageID, messageSeq := messageSeq, timestamp := timestamp,
                 topic := topic, payload := payload.value));
  }

  /** encodeRecv: appends the body image; it never reports an error. */
  method EncodeRecv(p: RecvPacket, enc: Encoder, version: Version) returns (err: Outcome)
    modifies enc
    ensures enc.data == old(enc.data) + RecvWire(p, version)
    ensures err == Pass
  {
    ghost var topic := Optional(TopicOn(p.setting), StringBytes(p.topic)) + p.payload;
    ghost var timestamp := Int32Bytes(p.timestamp) + topic;
    ghost var messageSeq := Uint32Bytes(p.messageSeq) + timestamp;
    ghost var messageID := Int64Bytes(p.messageID) + messageSeq;
    ghost var streamId := Uint64Bytes(p.streamId) + messageID;
    ghost var streamNo := StringBytes(p.streamNo) + streamId;
    ghost var streamFlag := [p.streamFlag] + streamNo;
    ghost var stream := if StreamOn(p.setting, version) then streamFlag else messageID;
    ghost var clientMsgNo := StringBytes(p.clientMsgNo) + stream;
    ghost var expire := Optional(ExpireOn(version), Uint32Bytes(p.expire)) + clientMsgNo;
    ghost var channelType := [p.channelType] + expire;
    ghost var channelID := StringBytes(p.channelID) + channelType;
    ghost var fromUID := StringBytes(p.fromUID) + channelID;
    ghost var msgKey := StringBytes(p.msgKey) + fromUID;
    ghost var goal := old(enc.data) + RecvWire(p, version);
    assert goal == enc.data + ([p.setting] + msgKey);
    Associative(enc.data, [p.setting], msgKey);
    enc.WriteByte(p.setting);
    Associative(enc.data, StringBytes(p.msgKey), fromUID);
    enc.WriteString(p.msgKey);
    Associative(enc.data, StringBytes(p.fromUID), channelID);
    enc.WriteString(p.fromUID);
    Associative(enc.data, StringBytes(p.channelID), channelType);
    enc.WriteString(p.channelID);
    Associative(enc.data, [p.channelType], expire);
    enc.WriteUint8(p.channelType);
    if ExpireOn(version) {
      Associative(enc.data, Uint32Bytes(p.expire), clientMsgNo);
      enc.WriteUint32(p.expire);
    } else {
      Absent(Uint32Bytes(p.expire), clientMsgNo);
    }
    Associative(enc.data, StringBytes(p.clientMsgNo), stream);
    enc.WriteString(p.clientMsgNo);
    if StreamOn(p.setting, version) {
      Associative(enc.data, [p.streamFlag], streamNo);
      enc.WriteUint8(p.streamFlag);
      Associative(enc.data, StringBytes(p.streamNo), streamId);
      enc.WriteString(p.streamNo);
      Associative(enc.data, Uint64Bytes(p.streamId), messageID);
      enc.WriteUint64(p.streamId);
    }
    Associative(enc.data, Int64Bytes(p.messageID), messageSeq);
    enc.WriteInt64(p.messageID);
    Associative(enc.data, Uint32Bytes(p.messageSeq), timestamp);
    enc.WriteUint32(p.messageSeq);
    Associative(enc.data, Int32Bytes(p.timestamp), topic);
    enc.WriteInt32(p.timestamp);
    if TopicOn(p.setting) {
      Associative(enc.data, StringBytes(p.topic), p.payload);
      enc.WriteString(p.topic);
    } else {
      Absent(StringBytes(p.topic), p.payload);
    }
    assert goal == enc.data + p.payload;
    enc.WriteBytes(p.payload);
    return Pass;
  }

  /** encodeRecvSize: the byte count of the body, field by field. */
  method EncodeRecvSize(p: RecvPacket, version: Version) returns (size: nat)
    ensures size == |RecvWire(p, version)|
  {
    size := 0;
    size := size + SettingByteSize;
    size := size + (|p.msgKey| + StringFixLenByteSize);
    size := size + (|p.fromUID| + StringFixLenByteSize);
    size := size + (|p.channelID| + StringFixLenByteSize);
    size := size + ChannelTypeByteSize;
    if ExpireOn(version) {
      size := size + ExpireByteSize;
    }
    size := size + (|p.clientMsgNo| + StringFixLenByteSize);
    if StreamOn(p.setting, version) {
      size := size + StreamFlagByteSize;
      size := size + (|p.streamNo| + StringFixLenByteSize);
      size := size + StreamIdByteSize;
    }
    size := size + MessageIDByteSize;
    size := size + MessageSeqByteSize;
    size := size + TimestampByteSize;
    if TopicOn(p.setting) {
      size := size + (|p.topic| + StringFixLenByteSize);
    }
    size := size + |p.payload|;
  }

  /** The head stretch reads back its fields, Expire as its gate lets it through. */
  lemma RecvHeadRoundTrip(p: RecvPacket, framer: Framer, version: Version, rest: Bytes)
    requires Fits(p.msgKey) && Fits(p.fromUID) && Fits(p.channelID)
    ensures TakeRecvHead(framer, RecvHeadWire(p, version, rest), version)
      == Ok(Got(EmptyRecv(framer).(setting := p.setting, msgKey := p.msgKey, fromUID := p.fromUID,
                                  channelID := p.channelID, channelType := p.channelType,
                                  expire := if ExpireOn(version) then p.expire else 0),
                rest))
  {
    var expire := Optional(ExpireOn(version), Uint32Bytes(p.expire)) + rest;
    var channelType := [p.channelType] + expire;
    var channelID := StringBytes(p.channelID) + channelType;
    var fromUID := StringBytes(p.fromUID) + channelID;
    var msgKey := StringBytes(p.msgKey) + fromUID;
    ReadUint8Written(p.setting, msgKey);
    ReadStringWritten(p.msgKey, fromUID);
    ReadStringWritten(p.fromUID, channelID);
    ReadStringWritten(p.channelID, channelType);
    ReadUint8Written(p.channelType, expire);
    if ExpireOn(version) {
      ReadUint32Written(p.expire, rest);
    } else {
      Absent(Uint32Bytes(p.expire), rest);
    }
  }

  /** The stream stretch reads back ClientMsgNo and, when gated in, the three stream fields. */
  lemma RecvStreamRoundTrip(p: RecvPacket, q: RecvPacket, version: Version, rest: Bytes)
    requires Fits(p.clientMsgNo) && (StreamOn(p.setting, version) ==> Fits(p.streamNo))
    requires q.setting == p.setting
    ensures var stream := StreamOn(p.setting, version);
      TakeRecvStream(q, RecvStreamWire(p, version, rest), version)
      == Ok(Got(q.(clientMsgNo := p.clientMsgNo, streamFlag := if stream then p.streamFlag else 0,
                   streamNo := if stream then p.streamNo else [],
                   streamId := if stream then p.streamId else 0), rest))
  {
    var stream := StreamOn(p.setting, version);
    var streamId := Uint64Bytes(p.streamId) + rest;
    var streamNo := StringBytes(p.streamNo) + streamId;
    var streamFlag := [p.streamFlag] + streamNo;
    ReadStringWritten(p.clientMsgNo, if stream then streamFlag else rest);
    if stream {
      ReadUint8Written(p.streamFlag, streamNo);
      ReadStringWritten(p.streamNo, streamId);
      ReadUint64Written(p.streamId, rest);
    }
  }

  /** The tail stretch reads back the message fields, the gated Topic, and the payload. */
  lemma RecvTailRoundTrip(p: RecvPacket, q: RecvPacket)
    requires (TopicOn(p.setting) ==> Fits(p.topic)) && q.setting == p.setting
    ensures TakeRecvTail(q, RecvTailWire(p))
      == Ok(q.(messageID := p.messageID, messageSeq := p.messageSeq, timestamp := p.timestamp,
               topic := if TopicOn(p.setting) then p.topic else [], payload := p.payload))
  {
    var topic := Optional(TopicOn(p.setting), StringBytes(p.topic)) + p.payload;
    var timestamp := Int32Bytes(p.timestamp) + topic;
    var messageSeq := Uint32Bytes(p.messageSeq) + timestamp;
    ReadInt64Written(p.messageID, messageSeq);
    ReadUint32Written(p.messageSeq, timestamp);
    ReadInt32Written(p.timestamp, topic);
    if TopicOn(p.setting) {
      ReadStringWritten(p.topic, p.payload);
    } else {
      Absent(StringBytes(p.topic), p.payload);
    }
  }

  /** Decoding an encoded body gives back every encoded field and what the gates let through. */
  lemma RecvRoundTrip(p: RecvPacket, framer: Framer, version: Version)
    requires RecvFits(p, version)
    ensures ParseRecv(framer, RecvWire(p, version), version) == Ok(Received(p, framer, version))
  {
    var stream := StreamOn(p.setting, version);
    var tail := RecvTailWire(p);
    var middle := RecvStreamWire(p, version, tail);
    RecvHeadRoundTrip(p, framer, version, middle);
    var head := EmptyRecv(framer).(setting := p.setting, msgKey := p.msgKey, fromUID := p.fromUID,
                                   channelID := p.channelID, channelType := p.channelType,
                                   expire := if ExpireOn(version) then p.expire else 0);
    RecvStreamRoundTrip(p, head, version, tail);
    var read := head.(clientMsgNo := p.clientMsgNo, streamFlag := if stream then p.streamFlag else 0,
                      streamNo := if stream then p.streamNo else [],
                      streamId := if stream then p.streamId else 0);
    RecvTailRoundTrip(p, read);
  }
}
