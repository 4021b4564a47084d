/**
 * The byte image of each kind of body field, shared by the Encoder, which
 * writes these images, and the Decoder, which reads them back, together with
 * the per-field byte-size constants the size functions add up.
 */
module Wire {
  import opened Ints

  const SettingByteSize: nat := 1
  const ClientSeqByteSize: nat := 4
  const StringFixLenByteSize: nat := 2
  const ChannelTypeByteSize: nat := 1
  const ExpireByteSize: nat := 4
  const StreamFlagByteSize: nat := 1
  const StreamIdByteSize: nat := 8
  const MessageIDByteSize: nat := 8
  const MessageSeqByteSize: nat := 4
  const TimestampByteSize: nat := 4

  function Uint16Bytes(x: uint16): (r: Bytes)
    ensures |r| == 2
  {
    BigEndian(x, 2)
  }

  function Int16Bytes(x: int16): (r: Bytes)
    ensures |r| == 2
  {
    Uint16Bytes(Uint16FromInt(x))
  }

  function Uint32Bytes(x: uint32): (r: Bytes)
    ensures |r| == 4
  {
    BigEndian(x, 4)
  }

  function Int32Bytes(x: int32): (r: Bytes)
    ensures |r| == 4
  {
    Uint32Bytes(Uint32FromInt(x))
  }

  function Uint64Bytes(x: uint64): (r: Bytes)
    ensures |r| == 8
  {
    BigEndian(x, 8)
  }

  function Int64Bytes(x: int64): (r: Bytes)
    ensures |r| == 8
  {
    Uint64Bytes(Uint64FromInt(x))
  }

  /**
   * A length-prefixed string or binary field: the length as a big-endian
   * int16 (a Go int converted to int16 keeps its low 16 bits), then the bytes.
   */
  function StringBytes(s: Bytes): (r: Bytes)
    ensures |r| == |s| + StringFixLenByteSize
  {
    BigEndian(|s| % 0x1_0000, 2) + s
  }

  /** A field that is present only when its gate holds. */
  function Optional(present: bool, image: Bytes): Bytes
  {
    if present then image else []
  }

  /** Appending in two steps is appending once. */
  lemma Associative(a: Bytes, b: Bytes, c: Bytes)
    ensures (a + b) + c == a + (b + c)
  {
  }

  /** An absent field leaves the bytes after it in place. */
  lemma Absent(image: Bytes, rest: Bytes)
    ensures Optional(false, image) + rest == rest
  {
  }

  /** A string whose length an int16 prefix states faithfully. */
  predicate Fits(s: Bytes) { |s| <= 0x7FFF }
}
