/**
 * The cursor writer: an append-only byte sink mirroring the Decoder. The
 * source's Encoder is not part of this model; it is modelled by what its
 * callers rely on, namely that each Write appends the field image the
 * matching Decoder read consumes (the lemmas below).
 */
module Encoding {
  import opened Ints
  import opened Wire
  import opened Errors
  import opened Decoding

  class Encoder {
    /** Everything written so far, in order. */
    var data: Bytes

    constructor ()
      ensures data == []
    {
      data := [];
    }

    method WriteByte(b: uint8)
      modifies this
      ensures data == old(data) + [b]
    {
      data := data + [b];
    }

    method WriteUint8(b: uint8)
      modifies this
      ensures data == old(data) + [b]
    {
      data := data + [b];
    }

    method WriteInt32(x: int32)
      modifies this
      ensures data == old(data) + Int32Bytes(x)
    {
      data := data + Int32Bytes(x);
    }

    method WriteUint32(x: uint32)
      modifies this
      ensures data == old(data) + Uint32Bytes(x)
    {
      data := data + Uint32Bytes(x);
    }

    method WriteInt64(x: int64)
      modifies this
      ensures data == old(data) + Int64Bytes(x)
    {
      data := data + Int64Bytes(x);
    }

    method WriteUint64(x: uint64)
      modifies this
      ensures data == old(data) + Uint64Bytes(x)
    {
      data := data + Uint64Bytes(x);
    }

    /** An int16 length prefix, then the bytes (see StringBytes). */
    method WriteString(s: Bytes)
      modifies this
      ensures data == old(data) + StringBytes(s)
    {
      data := data + StringBytes(s);
    }

    /** Raw bytes, unprefixed: the trailing payload. */
    method WriteBytes(b: Bytes)
      modifies this
      ensures data == old(data) + b
    {
      data := data + b;
    }
  }

  /*
   * Each read recovers what the matching write appended, and stops exactly
   * where the next field begins.
   */

  lemma ReadUint8Written(x: uint8, rest: Bytes)
    ensures TakeUint8([x] + rest) == Ok(Got(x, rest))
  {
  }

  lemma ReadUint32Written(x: uint32, rest: Bytes)
    ensures TakeUint32(Uint32Bytes(x) + rest) == Ok(Got(x, rest))
  {
    var s := Uint32Bytes(x) + rest;
    assert s[..4] == Uint32Bytes(x);
  }

  lemma ReadInt32Written(x: int32, rest: Bytes)
    ensures TakeInt32(Int32Bytes(x) + rest) == Ok(Got(x, rest))
  {
    var s := Int32Bytes(x) + rest;
    assert s[..4] == Int32Bytes(x);
  }

  lemma ReadInt64Written(x: int64, rest: Bytes)
    ensures TakeInt64(Int64Bytes(x) + rest) == Ok(Got(x, rest))
  {
    var s := Int64Bytes(x) + rest;
    assert s[..8] == Int64Bytes(x);
  }

  lemma ReadUint64Written(x: uint64, rest: Bytes)
    ensures TakeUint64(Uint64Bytes(x) + rest) == Ok(Got(x, rest))
  {
    var s := Uint64Bytes(x) + rest;
    assert s[..8] == Uint64Bytes(x);
  }

  /** A string survives its length prefix exactly when the int16 prefix can state its length. */
  lemma ReadStringWritten(x: Bytes, rest: Bytes)
    requires Fits(x)
    ensures TakeBinary(StringBytes(x) + rest) == Ok(Got(x, rest))
  {
    ReadLengthWritten(x, rest);
    assert (x + rest)[..|x|] == x;
    assert (x + rest)[|x|..] == rest;
  }

  /** The prefix of a string that fits reads back as its length, non-negative. */
  lemma ReadLengthWritten(x: Bytes, rest: Bytes)
    requires Fits(x)
    ensures TakeInt16(StringBytes(x) + rest) == Ok(Got(|x|, x + rest))
  {
    var s := StringBytes(x) + rest;
    var prefix := BigEndian(|x|, 2);
    assert s == prefix + (x + rest);
    assert s[..2] == prefix;
    assert s[2..] == x + rest;
  }
}
