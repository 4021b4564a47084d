/**
 * The envelope every frame shares: the frame type, the header flags, the
 * decoded remaining length and the number of buffered bytes seen when the
 * header was decoded; and the Setting byte that gates optional body fields.
 *
 * The enumeration of frame types, the header-byte packing and the Setting
 * bits live in files that are not part of this model. What the core relies on
 * is kept: the type sits in the high nibble of the header byte (protocol.go
 * line 157 writes `type << 4`), the flags in the low nibble, and a Setting bit
 * is a mask ANDed with the setting. The flag-bit assignment inside the nibble stays
 * abstract; the numeric codes follow the enumeration's declaration order.
 */
module Framing {
  import opened Ints

  /** A frame-type discriminant, as the header's high nibble carries it. */
  type FrameType = t: int | 0 <= t < 16

  const UNKNOWN: FrameType := 0
  const CONNECT: FrameType := 1
  const CONNACK: FrameType := 2
  const SEND: FrameType := 3
  const SENDACK: FrameType := 4
  const RECV: FrameType := 5
  const RECVACK: FrameType := 6
  const PING: FrameType := 7
  const PONG: FrameType := 8
  const DISCONNECT: FrameType := 9
  const SUB: FrameType := 10
  const SUBACK: FrameType := 11

  /** The header's low nibble: NoPersist, RedDot, SyncOnce, DUP, HasServerVersion. */
  type Flags = x: int | 0 <= x < 16

  datatype Framer = Framer(
    frameType: FrameType,
    flags: Flags,
    remainingLength: uint32,
    frameSize: nat)         // int64(len(data)) of the buffer the header came from

  /** Go's zero value `Framer{}`. */
  const EmptyFramer := Framer(UNKNOWN, 0, 0, 0)

  /** The header byte: type in the high nibble, flags in the low nibble. */
  function FixHeader(t: FrameType, flags: Flags): (b: uint8)
    ensures b / 16 == t && b % 16 == flags
  {
    t * 16 + flags
  }

  /** FramerFromUint8: a Framer holding only what the header byte says. */
  function FramerFromUint8(b: uint8): (f: Framer)
    ensures FixHeader(f.frameType, f.flags) == b
    ensures f.remainingLength == 0 && f.frameSize == 0
  {
    Framer(b / 16, b % 16, 0, 0)
  }

  /** The Setting bits the SEND and RECV bodies consult. */
  const SettingStream: uint8 := 0x02
  const SettingTopic: uint8 := 0x08

  /** Setting.IsSet: some bit of the mask is set in the setting. */
  predicate IsSet(setting: uint8, mask: uint8)
  {
    (setting as bv8) & (mask as bv8) != 0
  }

  type Version = uint8

  /** The newest protocol version (protocol.go line 34), at which Size measures a RECV body. */
  const LatestVersion: Version := 4

  /** The stream fields travel from protocol version 2 on, when the Setting asks for them. */
  predicate StreamOn(setting: uint8, version: Version)
  {
    version >= 2 && IsSet(setting, SettingStream)
  }

  /** The expiry field travels from protocol version 3 on. */
  predicate ExpireOn(version: Version)
  {
    version >= 3
  }

  /** The topic field travels whenever the Setting asks for it, in every version. */
  predicate TopicOn(setting: uint8)
  {
    IsSet(setting, SettingTopic)
  }
}
