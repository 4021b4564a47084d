# MSIMGoProto frame codec, modelled in Dafny

This project models the binary frame codec of the MSIM instant-messaging protocol. It proves the codec's properties: bounds, exact cursor movement, size/encode agreement and decode-after-encode round trips.

## What is modelled

- **The cursor reader** (`Decoding`, from decoder.go).
  - `Decoder` is a class holding the byte slice `p` and a mutable `offset`.
  - Each read method is proved against a pure function of the unread suffix: a `Take*` function, or for `Variable` the 7-bit group sum `VarintValue` up to the first terminating byte, or for `BinaryAll` and `StringAll` the suffix itself.
  - The reads are big-endian fixed-width integers, `int16`-length-prefixed binary and string fields, the read of everything that remains, and the general base-128 varint `Variable`.
- **The writer** (`Encoding`). The source's `Encoder` lives in a file that is not part of this model. It is modelled as an append-only byte sink whose writes append exactly the images the decoder reads back (the `Read*Written` lemmas).
- **The frame layer** (`Protocol`, from protocol.go).
  - Writing the remaining-length field: the loops `encodeVariable` and `encodeVariable2`.
  - Reading it: the bounded loop `decodeLength`, proved equal to the function `LengthField`.
  - The header and buffer decoders `decodeFramer` and `DecodeFrame`, written as functions.
  - The `packetDecodeMap` dispatch.
  - The writers `encodeFrame`, `encodeFrameWithWriter` and `EncodeFrame`, proved to write the frame image `FrameWire`.
  - Frame-level round trips, and "incomplete input asks for more data" lemmas.
- **The SEND and RECV bodies** (`SendCodec`, `RecvCodec`, from send.go and recv.go).
  - `SendWire` and `RecvWire` give the wire image.
  - `ParseSend` and `ParseRecv` give the decoder's reading of a body.
  - The cursor procedures `decodeX`, `encodeX` and `encodeXSize` are methods proved equal to these functions.
  - Round-trip and acceptance lemmas relate the two directions.
- **The `RecvPacket` struct as a mutable record** (`RecvRecords`): `Reset`, `SizeWithProtoVersion`/`Size` and `VerityBytes`, with the decimal rendering of `strconv.AppendInt` in `Decimal`.
- **Go's integer types** (`Ints`) are subset types of `int`. Two's-complement reinterpretations (`int32(u)`, `uint32(x)`) and truncations (`uint32(x)` of a wider value) are written out explicitly.

The length-field scheme is the Remaining Length encoding of section 2.2.3 of MQTT 3.1.1, with two deviations the code makes:

- 0 is written as no bytes at all;
- after four continuation bytes the reader stops and reports a field five bytes wide, instead of rejecting it.

The model follows the code on both. `ZeroLengthTakesNoBytes` and `LengthField` state them.

### Collaborators that are not part of this model

The files defining `Encoder`, `Framer`, `FramerFromUint8`, `ToFixHeaderUint8`, `Setting`, the frame-type enumeration, the `*ByteSize` constants and the other frame codecs are not part of this model. They are modelled by what the core relies on:

- **Header byte.** The frame type sits in its high nibble (protocol.go line 157 writes `type << 4`). The flags are an abstract low nibble.
- **Frame-type codes.** They follow the enumeration's declaration order: UNKNOWN 0, CONNECT 1, …, PING 7, PONG 8, …, SUBACK 11. No proof depends on the numbers beyond their being distinct and below 16.
- **Setting bits.** The stream bit is 0x02 and the topic bit 0x08. The proofs hold for any masks.
- **`WriteString`.** It writes the length as a big-endian `int16` (its low 16 bits), then the bytes. This is what `Decoder.Binary` reads and what `StringFixLenByteSize = 2` counts.
- **Other frame types.** The registered types other than SEND and RECV decode to an `OtherFrame` that keeps its body bytes, and encode it back unchanged.

## Model

| member | source | states |
|---|---|---|
| Ints.BE | decoder.go:80 | the big-endian value of n bytes is below 256^n |
| Ints.BigEndian | decoder.go:80 | the n-byte big-endian image of x has n bytes and reads back as x |
| Ints.BigEndianOfBE | decoder.go:78-80 | a byte string is the image of its own big-endian value, so a big-endian read loses nothing |
| Ints.BETwoBytes | decoder.go:40 | two bytes read as b[0]·256 + b[1], the value of the shift-and-or expression |
| Ints.BEFourBytes | decoder.go:90 | four bytes read as the weighted sum that the shift-and-or expression computes |
| Ints.Int16FromBits | decoder.go:40 | reinterpreting 16 bits as an `int16` keeps the value modulo 2^16 |
| Ints.Uint16FromInt | decoder.go:48 | `uint16(i)` is i modulo 2^16 |
| Ints.Int32FromBits | decoder.go:90 | reinterpreting 32 bits as an `int32` keeps the value modulo 2^32 |
| Ints.Uint32FromInt | decoder.go:99 | `uint32(i)` is i modulo 2^32 |
| Ints.Int64FromBits | decoder.go:70 | reinterpreting 64 bits as an `int64` keeps the value modulo 2^64 |
| Ints.Uint64FromInt | recv.go:206 | the bits an `int64` is written with are its value modulo 2^64 |
| Ints.Low32 | send.go:112 | `uint32(ClientSeq)` is the low 32 bits, and the value itself when it fits |
| Varint.VarintValueSnoc | decoder.go:156-157 | one more byte adds its seven value bits at weight 128^k, the weight `mul` has reached |
| Varint.VarintBytes | protocol.go:250-261 | the digits written for n are empty exactly for 0, and their 7-bit groups sum back to n |
| Varint.VarintBytesShape | protocol.go:252-258 | every written digit but the last has bit 7 set, and the last has it clear |
| Varint.VarintBytesLength | protocol.go:250-261 | n takes at most k digits exactly when n < 128^k |
| Varint.Pow2Septets | protocol.go:282 | shifting by `multiplier = 7k` multiplies by 128^k |
| Wire.StringBytes | send.go:145 | a length-prefixed string occupies its length plus `StringFixLenByteSize` bytes |
| Framing.FixHeader | protocol.go:157 | the header byte holds the type in its high nibble and the flags in the low nibble |
| Framing.FramerFromUint8 | protocol.go:220 | the envelope read from a header byte packs back to that byte, with no length and no size yet |
| Decoding.TakeUint8 | decoder.go:24-31 | succeeds exactly when one byte remains; then it returns that byte and the rest, and otherwise fails with underrun |
| Decoding.TakeFixed | decoder.go:53-61 | succeeds exactly when n bytes remain; then it returns exactly those n bytes and the rest |
| Decoding.TakeInt16 | decoder.go:34-41 | succeeds exactly when two bytes remain; consumes the image of the value; the value is negative exactly when the first byte is at least 0x80 |
| Decoding.TakeUint16 | decoder.go:44-50 | succeeds exactly when two bytes remain, and consumes the `uint16` image of the value |
| Decoding.TakeInt32 | decoder.go:84-91 | succeeds exactly when four bytes remain, and consumes the two's-complement image of the value |
| Decoding.TakeUint32 | decoder.go:94-100 | succeeds exactly when four bytes remain, and consumes the big-endian image of the value |
| Decoding.Uint32WeightedSum | decoder.go:90-99 | Uint32 of four bytes is Σ b[i]·256^(3-i), the shift-and-or value read back as unsigned |
| Decoding.TakeInt64 | decoder.go:64-71 | succeeds exactly when eight bytes remain, and consumes the two's-complement image of the value |
| Decoding.TakeUint64 | decoder.go:74-81 | succeeds exactly when eight bytes remain, and consumes the big-endian image of the value |
| Decoding.TakeBinary | decoder.go:120-135 | succeeds exactly when the prefix is present, non-negative and no larger than what follows it; then it consumes exactly one length-prefixed image; a negative prefix fails with NegativeLength |
| Decoding.TakeBinaryIf | send.go:70-75 | a gated string is read when its gate holds, and is the empty string consuming nothing otherwise |
| Decoding.TakeUint32If | send.go:86-90 | a gated `uint32` is read when its gate holds, and is 0 consuming nothing otherwise |
| Decoding.TakeAll | decoder.go:138-143 | the read of everything remaining returns all of it and leaves nothing |
| Decoding.ModAccumulate | decoder.go:156-157 | adding and multiplying with `uint64` wrap-around at every step agrees with reducing the exact sum once |
| Decoding.BinaryStepOutcomes | decoder.go:120-135 | Binary's step relation is exactly its three outcomes: a short buffer fails without moving; a negative or oversized prefix fails after the prefix was consumed; otherwise the next `size` bytes |
| Decoding.Decoder.constructor | decoder.go:12-16 | a new decoder is at offset 0 |
| Decoding.Decoder.Len | decoder.go:19-21 | `offset + Len() == len(p)` |
| Decoding.Decoder.Uint8 | decoder.go:24-31 | succeeds exactly when `offset + 1 <= len(p)`; advances by 1 on success and stays put on failure; agrees with TakeUint8 |
| Decoding.Decoder.Int16 | decoder.go:34-41 | succeeds exactly when two bytes remain; advances by 2 or stays put; the big-endian value reinterpreted as `int16` |
| Decoding.Decoder.Uint16 | decoder.go:44-50 | as Int16, with the unsigned big-endian value |
| Decoding.Decoder.Bytes | decoder.go:53-61 | succeeds exactly when `num` bytes remain; returns `p[offset..offset+num]` and advances by `num`, or stays put |
| Decoding.Decoder.Int64 | decoder.go:64-71 | succeeds exactly when eight bytes remain; advances by 8 or stays put; the big-endian value reinterpreted as `int64` |
| Decoding.Decoder.Uint64 | decoder.go:74-81 | succeeds exactly when eight bytes remain; advances by 8 or stays put; the unsigned big-endian value |
| Decoding.Decoder.Int32 | decoder.go:84-91 | succeeds exactly when four bytes remain; advances by 4 or stays put; the big-endian value reinterpreted as `int32` |
| Decoding.Decoder.Uint32 | decoder.go:94-100 | as Int32, with the unsigned big-endian value |
| Decoding.Decoder.String | decoder.go:102-108 | behaves byte for byte as Binary |
| Decoding.Decoder.StringAll | decoder.go:111-117 | returns everything after the cursor and leaves `Len() == 0` |
| Decoding.Decoder.Binary | decoder.go:120-135 | follows TakeBinary on the unread bytes; on either error after the prefix, the prefix stays consumed |
| Decoding.Decoder.BinaryAll | decoder.go:138-143 | never fails, returns `p[offset:]` and leaves `Len() == 0` |
| Decoding.Decoder.Variable | decoder.go:146-163 | succeeds exactly when a byte with bit 7 clear remains; consumes up to and including the first such byte, all before it continuation bytes; returns Σ (b_k & 0x7F)·128^k modulo 2^64; fails having consumed the whole buffer |
| Encoding.Encoder.constructor | protocol.go:143 | a new buffer is empty |
| Encoding.Encoder.WriteByte | protocol.go:214 | appends the byte |
| Encoding.Encoder.WriteUint8 | send.go:123 | appends the byte |
| Encoding.Encoder.WriteInt32 | recv.go:210 | appends the two's-complement big-endian image |
| Encoding.Encoder.WriteUint32 | send.go:112 | appends the big-endian image |
| Encoding.Encoder.WriteInt64 | recv.go:206 | appends the two's-complement big-endian image |
| Encoding.Encoder.WriteUint64 | recv.go:203 | appends the big-endian image |
| Encoding.Encoder.WriteString | send.go:114 | appends the `int16` length prefix and the bytes |
| Encoding.Encoder.WriteBytes | send.go:135 | appends the bytes unprefixed |
| Encoding.ReadUint8Written | decoder.go:24-31 | Uint8 reads back the byte written, and stops where the next field starts |
| Encoding.ReadUint32Written | decoder.go:94-100 | Uint32 reads back the value written, and stops where the next field starts |
| Encoding.ReadInt32Written | decoder.go:84-91 | Int32 reads back the value written, and stops where the next field starts |
| Encoding.ReadInt64Written | decoder.go:64-71 | Int64 reads back the value written, and stops where the next field starts |
| Encoding.ReadUint64Written | decoder.go:74-81 | Uint64 reads back the value written, and stops where the next field starts |
| Encoding.ReadLengthWritten | decoder.go:121-128 | the `int16` prefix of a string that fits reads back as its length, which is not negative |
| Encoding.ReadStringWritten | decoder.go:120-135 | a string of at most 32767 bytes reads back from its image, and stops where the next field starts |
| Decimal.Digits | recv.go:93 | decimal digits: at least one, all ASCII digits, a leading '0' only for 0 |
| Decimal.DigitsRoundTrip | recv.go:93 | the digits spell the number back |
| Decimal.Text | recv.go:92 | `AppendInt` text: '-' exactly for negative values, then the digits of the magnitude |
| Decimal.TextRoundTrip | recv.go:92 | the text parses back to the integer |
| SendCodec.TakeSendHead | send.go:53-75 | reads Setting, ClientSeq as u32, ClientMsgNo and the gated StreamNo into the empty packet; what it consumed is their head image; StreamNo is empty when its gate is off |
| SendCodec.TakeSendStart | send.go:53-68 | reads Setting, ClientSeq as u32 and ClientMsgNo into the empty packet; ClientSeq is below 2^32; what it consumed is their image |
| SendCodec.TakeSendBody | send.go:76-90 | reads ChannelID, ChannelType and the version-gated Expire; what it consumed is their image; Expire is 0 before version 3 |
| SendCodec.TakeSendTail | send.go:91-103 | reads MsgKey, the topic-gated Topic, and the whole remainder as Payload; the input is exactly their image |
| SendCodec.ParseSend | send.go:43-105 | copies the framer; ClientSeq below 2^32; gated-off fields are zero; fails only with underrun or negative length; an accepted body is the image of the packet returned |
| SendCodec.DecodeSend | send.go:43-105 | the cursor decoder returns exactly ParseSend |
| SendCodec.DecodeSendHead | send.go:53-75 | the cursor reads do what TakeSendHead says and leave the cursor after them |
| SendCodec.DecodeSendStart | send.go:53-68 | the cursor reads do what TakeSendStart says and leave the cursor after them |
| SendCodec.DecodeSendBody | send.go:76-90 | the cursor reads do what TakeSendBody says and leave the cursor after them |
| SendCodec.DecodeSendTail | send.go:91-104 | the cursor reads do what TakeSendTail says and end at the end of the body |
| SendCodec.EncodeSend | send.go:107-138 | appends exactly SendWire, in the fixed field order and with the gates, and returns nil |
| SendCodec.EncodeSendSize | send.go:140-161 | equals the number of bytes EncodeSend appends |
| SendCodec.SendHeadRoundTrip | send.go:53-75 | the head stretch reads back Setting, ClientSeq mod 2^32, ClientMsgNo and StreamNo when gated in |
| SendCodec.SendBodyRoundTrip | send.go:76-90 | the middle stretch reads back ChannelID, ChannelType and Expire when gated in |
| SendCodec.SendTailRoundTrip | send.go:91-103 | the tail stretch reads back MsgKey, Topic when gated in, and the payload |
| SendCodec.SendRoundTrip | send.go:43-138 | decoding an encoded body whose strings fit gives back every field; ClientSeq comes back mod 2^32; gated-off fields come back as zero values |
| SendCodec.SendAccepts | send.go:43-105 | decoding succeeds exactly on the images of packets whose strings fit |
| SendCodec.SendClientSeqTruncated | send.go:60-64 | the sequence number survives the round trip modulo 2^32 |
| RecvCodec.TakeRecvHead | recv.go:112-139 | reads Setting, MsgKey, FromUID, ChannelID, ChannelType and the gated Expire into the empty packet; what it consumed is their image |
| RecvCodec.TakeRecvSender | recv.go:112-124 | reads Setting, MsgKey and FromUID; what it consumed is their image |
| RecvCodec.TakeRecvChannel | recv.go:125-139 | reads ChannelID, ChannelType and Expire from version 3 on; Expire is 0 otherwise |
| RecvCodec.TakeRecvStream | recv.go:140-158 | reads ClientMsgNo, then the three stream fields together when gated in; they are all zero otherwise |
| RecvCodec.TakeStreamFields | recv.go:145-158 | reads StreamFlag, StreamNo and StreamId; what it consumed is their image |
| RecvCodec.TakeRecvTail | recv.go:159-179 | reads MessageID, MessageSeq, Timestamp, the gated Topic and the whole remainder as Payload; the input is exactly their image |
| RecvCodec.ParseRecv | recv.go:107-181 | copies the framer; leaves ClientSeq 0; gated-off fields are zero; fails only with underrun or negative length; an accepted body is the image of the packet returned |
| RecvCodec.DecodeRecv | recv.go:107-181 | the cursor decoder returns exactly ParseRecv |
| RecvCodec.DecodeRecvHead | recv.go:112-139 | the cursor reads do what TakeRecvHead says |
| RecvCodec.DecodeRecvSender | recv.go:112-124 | the cursor reads do what TakeRecvSender says |
| RecvCodec.DecodeRecvChannel | recv.go:125-139 | the cursor reads do what TakeRecvChannel says |
| RecvCodec.DecodeRecvStream | recv.go:140-158 | the cursor reads do what TakeRecvStream says |
| RecvCodec.DecodeStreamFields | recv.go:145-158 | the cursor reads do what TakeStreamFields says |
| RecvCodec.DecodeRecvTail | recv.go:159-180 | the cursor reads do what TakeRecvTail says and end at the end of the body |
| RecvCodec.EncodeRecv | recv.go:183-217 | appends exactly RecvWire and always returns nil |
| RecvCodec.EncodeRecvSize | recv.go:219-243 | equals the number of bytes EncodeRecv appends |
| RecvCodec.RecvHeadRoundTrip | recv.go:112-139 | the head stretch reads back its fields, Expire when gated in |
| RecvCodec.RecvStreamRoundTrip | recv.go:140-158 | ClientMsgNo reads back, and the stream fields when gated in |
| RecvCodec.RecvTailRoundTrip | recv.go:159-179 | MessageID, MessageSeq, Timestamp, gated Topic and payload read back |
| RecvCodec.RecvRoundTrip | recv.go:107-217 | decoding an encoded body whose strings fit restores every encoded field; gated-off fields and ClientSeq come back as zero |
| RecvRecords.RecvRecord.Reset | recv.go:42-67 | every field, the framer included, is its zero value afterwards: type UNKNOWN, no flags, 0, "" and an empty payload |
| RecvRecords.RecvRecord.ClearHead | recv.go:43-57 | the framer and the first seven fields become zero |
| RecvRecords.RecvRecord.ClearTail | recv.go:58-66 | the remaining nine fields become zero |
| RecvRecords.RecvRecord.SizeWithProtoVersion | recv.go:78-80 | the size of the record's body image at the given version |
| RecvRecords.RecvRecord.Size | recv.go:74-76 | the size at LatestVersion, 4 |
| RecvRecords.RecvRecord.VerityBytes | recv.go:91-101 | appends decimal MessageID, decimal MessageSeq, ClientMsgNo, decimal Timestamp, FromUID, ChannelID, decimal ChannelType and Payload, in that order |
| Protocol.EncodeVariable | protocol.go:250-261 | returns exactly VarintBytes(size) |
| Protocol.EncodeVariable2 | protocol.go:263-272 | appends to the encoder exactly the bytes encodeVariable returns |
| Protocol.SetHighBit | protocol.go:256 | setting bit 7 of the digit adds 0x80 to a digit below 0x80 |
| Protocol.HighBit | protocol.go:283 | `digit & 128 == 0` is the end-of-field test |
| Protocol.LengthFrom | protocol.go:277-289 | reading on from byte i: an error exactly when fewer than 4 bytes, all continuation bytes, are there; a terminator at index k gives (value, k+1); four continuation bytes give width 5; the value is below 2^28 |
| Protocol.Below2To28 | protocol.go:277-288 | at most four 7-bit groups are below 2^28 |
| Protocol.LengthField | protocol.go:273-290 | the three outcomes of decodeLength: errDecodeLength exactly when the data ends before a terminator within four bytes; a terminator at index k gives (value of the groups, k+1); four continuation bytes give width 5; the value is below 2^28 |
| Protocol.DecodeLength | protocol.go:273-290 | the loop returns exactly LengthField, inspecting at most four bytes |
| Protocol.LengthFieldPrefix | protocol.go:278-280 | a strict prefix of the field written for 0 < n < 2^28 is errDecodeLength |
| Protocol.LengthRoundTrip | protocol.go:250-290 | for 0 < n < 2^28, decodeLength(encodeVariable(n) ++ rest) is (n, len(encodeVariable(n))) |
| Protocol.LengthFromStops | protocol.go:281-285 | the loop stops at the first terminating byte |
| Protocol.ZeroLengthTakesNoBytes | protocol.go:250-261 | 0 is written as no bytes, so the reader takes the next byte as the length field |
| Protocol.TypeOf | protocol.go:106 | PING, PONG, SEND and RECV frames are exactly those of their type |
| Protocol.HeaderByte | protocol.go:214 | the header byte's high nibble is the frame's type |
| Protocol.DecodeBody | protocol.go:53-63 | a type missing from packetDecodeMap is unsupported; a decoded frame has the envelope's type |
| Protocol.BodyFramer | protocol.go:129-134 | a decoded body carries the envelope it was decoded under |
| Protocol.BodyErrors | protocol.go:129-137 | a body fails only with underrun, negative length or unsupported |
| Protocol.DecodeFramer | protocol.go:218-234 | never errs; PING and PONG read no length; other types read the length field; a length field cut short gives the zero Framer; frameSize is the buffer length |
| Protocol.DecodeFrame | protocol.go:101-139 | PING and PONG consume 1 byte; UNKNOWN asks for more; too large exactly when a body type announces more than 1 MiB; a decoded body frame consumed header, length field and announced body; its decoder got exactly those body bytes |
| Protocol.ExtentOf | protocol.go:106-128 | DecodeFrame's checks in order: UNKNOWN waits; PING/PONG stand alone; oversized exactly above 1 MiB; otherwise the body is exactly `data[1+lenLen:msgLen]` when all buffered |
| Protocol.ToUint32 | protocol.go:176 | `uint32(size)` is the size itself when it fits |
| Protocol.FrameWire | protocol.go:152-207 | PING/PONG as `type << 4` alone; a SEND payload above 32767 is an error; other types with a case as header byte, size field and body; a type with no case as no bytes |
| Protocol.EncodeFrameHeader | protocol.go:213-216 | appends the header byte and the size field |
| Protocol.EncodeFrameWithWriter | protocol.go:152-207 | appends FrameWire and returns nil, or appends nothing and returns the error |
| Protocol.EncodeFrame | protocol.go:142-149 | returns exactly FrameWire |
| Protocol.FramedHeader | protocol.go:218-234 | decodeFramer reads back the type, flags and body length written, with the length field's width |
| Protocol.FramedExtent | protocol.go:121-128 | a written frame's header hands exactly the written body to the type's decoder |
| Protocol.DecodedBody | protocol.go:129-138 | a buffered body that the type's decoder accepts is the decoded frame, consuming the whole frame |
| Protocol.DecodedShort | protocol.go:124-127 | a header that says to wait gives "try later" |
| Protocol.BodyRoundTrip | protocol.go:129-137 | each registered type's decoder restores the body its encoder writes |
| Protocol.FrameRoundTrip | protocol.go:101-139 | a non-empty body of at most 1 MiB whose strings fit decodes from its own bytes, whatever follows, consuming exactly those bytes |
| Protocol.PingPongRoundTrip | protocol.go:110-119 | PING and PONG are written as one byte and decode from it, consuming 1 whatever follows |
| Protocol.ShortBuffer | protocol.go:102-127 | a length field cut short, or less body than announced, gives "try later" |
| Protocol.ShortExtent | protocol.go:121-127 | the same, before any body decoder runs |
| Protocol.FramedPrefix | protocol.go:124-127 | any cut of a written frame after its header byte is incomplete |
| Protocol.CutInLength | protocol.go:224-228 | a cut inside the size field gives the zero Framer, which waits |
| Protocol.CutInBody | protocol.go:124-127 | a complete size field followed by too little body waits |
| Protocol.PrefixNeedsMore | protocol.go:101-127 | a buffer holding only the first bytes of an encoded frame, at least its header byte, gives "try later" |
| Protocol.DecodeFrameAsWritten | protocol.go:218-220 | the source's decoder panics exactly on the empty buffer, and otherwise answers as DecodeFrame |
| Protocol.EmptyBufferPanics | protocol.go:219 | the unguarded `data[0]` panics on a buffer of zero bytes |
| Protocol.DecodeBuffer | protocol.go:101-105 | the guarded decoder: a zero-byte buffer asks for more data; any other buffer gets DecodeFrame's answer |
| Protocol.BufferPrefixNeedsMore | protocol.go:101-127 | every strict prefix of an encoded frame, the empty one included, asks for more data |
| Protocol.BufferRoundTrip | protocol.go:101-139 | the guarded decoder decodes a whole frame as DecodeFrame does, consuming exactly its bytes |

Four proof steps are helpers and have no row. Protocol.Emitted moves the first digit of a size field onto the bytes already emitted. Protocol.FirstDigit gives a size field's first byte and the quotient's field after it. Protocol.Framed shows that the header, size field and body appended one after another are the frame's image appended once. Protocol.FrameExtent shows that the header of an encoded frame locates its body, the step FrameRoundTrip builds on.

## Left out

- Protocol.DecodeFrame: it requires at least one byte, because the source indexes `data[0]` without a guard (protocol.go:219) and so panics on an empty buffer. That path is modelled separately by DecodeFrameAsWritten. The guarded DecodeBuffer answers "need more" for it; see Findings.
- Decoding.Decoder.Bytes: `num` is a `nat`. The source takes an `int`, and the slice-bounds panic on a negative `num` (decoder.go:57) is not modelled. No caller in the core passes a negative count.
- `DecodePacketWithConn`, `decodeFramerWithConn` and `decodeLengthWithConn` (protocol.go:66-98, 236-248, 291-305) are not modelled. They do blocking reads from an `io.Reader`, which is outside a model of buffers.
- The `sync.RWMutex` embedded in `MSProto` is not modelled: it is concurrency only, and no modelled operation locks it.
- `WriteFrame` is left out. It only calls `encodeFrameWithWriter`, whose model is `EncodeFrameWithWriter`.
- Error messages and `errors.Wrap` are left out. Errors are tags: `Underrun`, `NegativeLength`, `DecodeLength`, `TooLarge`, `PayloadTooLarge` and `Unsupported`.
- `String()`, `UniqueKey()`, `VerityString()` and the `bytebufferpool` pool are left out as formatting helpers. `VerityBytes` appends to a `ByteBuffer` class standing in for the pooled buffer.
- Go's distinction between a nil and an empty slice or string is not kept. `Reset`'s `Payload = nil` is modelled as the empty payload.
- The codecs of CONNECT, CONNACK, SENDACK, RECVACK, DISCONNECT, SUB and SUBACK are not part of this model. Protocol.DecodeBody: those types decode to an `OtherFrame` that keeps its body bytes, and never fail; their own decode errors are not modelled.
- The source's `Encoder` wraps a `Writer` and `End` flushes it. The model appends to an in-memory `data` sequence and leaves out buffering and `End`: nothing in the core reads the buffer before `End`.
- Protocol.DecodeFramer: the branch that returns a non-length error (protocol.go:229) is kept in the function but cannot be reached. `decodeLength` only ever returns `errDecodeLength`.
- Protocol.DecodeLength: `rLength |= uint32(digit&127) << multiplier` is modelled as an addition of `(digit % 0x80) * 2^multiplier`. The groups occupy disjoint bits, so OR and addition agree. `digit&127` is `digit % 0x80` throughout.
- Decoding.Decoder.Variable: Go's `uint64` wrap-around of `size` and `mul` is modelled explicitly modulo 2^64, so the contract holds for any number of bytes.
- Protocol.EncodeFrameWithWriter: `uint32(encodeXSize(...))` is modelled by ToUint32, the low 32 bits. The round-trip lemmas assume bodies of at most 1 MiB, for which it is the identity.
- Protocol.FrameRoundTrip: stated for non-empty bodies. An empty body writes no size byte, so the reader takes the next byte as the size field; ZeroLengthTakesNoBytes states this.
- Protocol.PingPongRoundTrip: the envelope's flags of a PING or PONG are not written (protocol.go:157), so they do not come back. The lemma states what does come back.
- The decoders of `decodeSend` and `decodeRecv` are split into the stretches TakeSendHead/…, and their cursor methods likewise. Each stretch and its method cover consecutive lines of the single Go function.
- `Reset` assigns every field in one method in the source. The model splits it into ClearHead and ClearTail so that each frames only its own fields; Reset calls both.

## Findings

| source | as written | input that shows it | evidently intended | confidence | as-written member | corrected member |
|---|---|---|---|---|---|---|
| protocol.go:219 | `decodeFramer` reads `data[0]` before any length check, so `DecodeFrame` panics on an empty slice | `DecodeFrame([]byte{}, v)`: index out of range | a buffer of zero bytes holds no frame yet: "no frame, 0 consumed", as for every other incomplete buffer | medium, not executed | Protocol.EmptyBufferPanics | Protocol.BufferPrefixNeedsMore |
