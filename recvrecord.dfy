/**
 * The RecvPacket struct as a mutable record (recv.go lines 42-100): Reset
 * clears it in place, Size measures its body, and VerityBytes appends the
 * text a message signature covers.
 */
module RecvRecords {
  import opened Ints
  import opened Wire
  import opened Framing
  import opened Decimal
  import opened RecvCodec

  /** The buffer VerityBytes appends to. */
  class ByteBuffer {
    var b: Bytes

    constructor ()
      ensures b == []
    {
      b := [];
    }
  }

  /** The RecvPacket struct, whose fields Reset overwrites in place. */
  class RecvRecord {
    var framer: Framer
    var setting: uint8
    var msgKey: Bytes
    var expire: uint32
    var messageID: int64
    var messageSeq: uint32
    var clientMsgNo: Bytes
    var streamNo: Bytes
    var streamId: uint64
    var streamFlag: uint8
    var timestamp: int32
    var channelID: Bytes
    var channelType: uint8
    var topic: Bytes
    var fromUID: Bytes
    var payload: Bytes
    var clientSeq: uint64

    constructor (p: RecvPacket)
      ensures Packet() == p
    {
      framer, setting, msgKey, expire := p.framer, p.setting, p.msgKey, p.expire;
      messageID, messageSeq, clientMsgNo := p.messageID, p.messageSeq, p.clientMsgNo;
      streamNo, streamId, streamFlag, timestamp := p.streamNo, p.streamId, p.streamFlag, p.timestamp;
      channelID, channelType, topic := p.channelID, p.channelType, p.topic;
      fromUID, payload, clientSeq := p.fromUID, p.payload, p.clientSeq;
    }

    /** The struct's current contents, as a value. */
    function Packet(): RecvPacket
      reads this
    {
      RecvPacket(framer, setting, msgKey, expire, messageID, messageSeq, clientMsgNo, streamNo,
                 streamId, streamFlag, timestamp, channelID, channelType, topic, fromUID,
                 payload, clientSeq)
    }

    /** Reset: every field back to its zero value, the framer included. */
    method Reset()
      modifies this
      ensures Packet() == EmptyRecv(EmptyFramer)
    {
      ClearHead();
      ClearTail();
    }

    /** The first eight fields of Reset, in the struct's order; the method frames only them. */
    method ClearHead()
      modifies this`framer, this`setting, this`msgKey, this`expire, this`messageID, this`messageSeq, this`clientMsgNo, this`streamNo
      ensures framer == EmptyFramer && setting == 0 && msgKey == [] && expire == 0
      ensures messageID == 0 && messageSeq == 0 && clientMsgNo == [] && streamNo == []
    {
      framer := EmptyFramer;
      setting, msgKey, expire, messageID, messageSeq := 0, [], 0, 0, 0;
      clientMsgNo, streamNo := [], [];
    }

    /** The remaining nine fields of Reset. */
    method ClearTail()
      modifies this`streamId, this`streamFlag, this`timestamp, this`channelID, this`channelType, this`topic, this`fromUID, this`payload, this`clientSeq
      ensures streamId == 0 && streamFlag == 0 && timestamp == 0 && channelID == [] && channelType == 0
      ensures topic == [] && fromUID == [] && payload == [] && clientSeq == 0
    {
      streamId, streamFlag, timestamp := 0, 0, 0;
      channelID, channelType, topic, fromUID, payload, clientSeq := [], 0, [], [], [], 0;
    }

    /** SizeWithProtoVersion: the body size at the given version. */
    method SizeWithProtoVersion(version: Version) returns (n: nat)
      ensures n == |RecvWire(Packet(), version)|
    {
      n := EncodeRecvSize(Packet(), version);
    }

    /** Size: the body size at the latest protocol version. */
    method Size() returns (n: nat)
      ensures n == |RecvWire(Packet(), LatestVersion)|
    {
      n := SizeWithProtoVersion(LatestVersion);
    }

    /**
     * VerityBytes: the text a message signature covers, appended to buf: the
     * decimal MessageID, MessageSeq, ClientMsgNo, decimal Timestamp, FromUID,
     * ChannelID, decimal ChannelType, and the payload.
     */
    method VerityBytes(buf: ByteBuffer)
      modifies buf
      ensures buf.b == old(buf.b) + VerityText(Packet())
    {
      ghost var r6 := Text(channelType) + payload;
      ghost var r5 := channelID + r6;
      ghost var r4 := fromUID + r5;
      ghost var r3 := Text(timestamp) + r4;
      ghost var r2 := clientMsgNo + r3;
      ghost var r1 := Text(messageSeq) + r2;
      Associative(buf.b, Text(messageID), r1);
      buf.b := buf.b + Text(messageID);
      Associative(buf.b, Text(messageSeq), r2);
      buf.b := buf.b + Text(messageSeq);
      Associative(buf.b, clientMsgNo, r3);
      buf.b := buf.b + clientMsgNo;
      Associative(buf.b, Text(timestamp), r4);
      buf.b := buf.b + Text(timestamp);
      Associative(buf.b, fromUID, r5);
      buf.b := buf.b + fromUID;
      Associative(buf.b, channelID, r6);
      buf.b := buf.b + channelID;
      Associative(buf.b, Text(channelType), payload);
      buf.b := buf.b + Text(channelType);
      buf.b := buf.b + payload;
    }
  }

  function VerityText(p: RecvPacket): Bytes
  {
    Text(p.messageID)
    + (Text(p.messageSeq)
    + (p.clientMsgNo
    + (Text(p.timestamp)
    + (p.fromUID
    + (p.channelID
    + (Text(p.channelType)
    + p.payload))))))
  }
}
