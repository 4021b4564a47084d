/**
 * The cursor reader (decoder.go): an offset into an immutable byte slice,
 * with big-endian fixed-width reads, int16-length-prefixed binary and string
 * reads, a read of everything that remains, and a general varint.
 *
 * The Take functions are the same reads on the unread suffix, as values; the
 * per-type codec specifications are written with them, and each Decoder
 * method is proved to behave as its Take function on the bytes after the
 * cursor.
 */
module Decoding {
  import opened Ints
  import opened Errors
  import opened Wire
  import opened Varint

  /** What a read yields: its value, and the bytes after what it consumed. */
  datatype Got<+T> = Got(value: T, rest: Bytes)

  function TakeUint8(s: Bytes): (r: Result<Got<uint8>>)
    ensures r.Ok? <==> 1 <= |s|
    ensures r.Ok? ==> s == [r.value.value] + r.value.rest
    ensures r.Err? ==> r.error == Underrun
  {
    if |s| < 1 then Err(Underrun) else Ok(Got(s[0], s[1..]))
  }

  /** Bytes(n): the next n bytes, uninterpreted. */
  function TakeFixed(s: Bytes, n: nat): (r: Result<Got<Bytes>>)
    ensures r.Ok? <==> n <= |s|
    ensures r.Ok? ==> |r.value.value| == n && s == r.value.value + r.value.rest
    ensures r.Err? ==> r.error == Underrun
  {
    if |s| < n then Err(Underrun) else Ok(Got(s[..n], s[n..]))
  }

  function TakeInt16(s: Bytes): (r: Result<Got<int16>>)
    ensures r.Ok? <==> 2 <= |s|
    ensures r.Ok? ==> s == Int16Bytes(r.value.value) + r.value.rest
    ensures r.Ok? ==> (r.value.value < 0 <==> s[0] >= 0x80)
    ensures r.Err? ==> r.error == Underrun
  {
    var b :- TakeFixed(s, 2);
    BigEndianOfBE(b.value);
    BETwoBytes(b.value);
    Ok(Got(Int16FromBits(Uint16Of(b.value)), b.rest))
  }

  function TakeUint16(s: Bytes): (r: Result<Got<uint16>>)
    ensures r.Ok? <==> 2 <= |s|
    ensures r.Ok? ==> s == Uint16Bytes(r.value.value) + r.value.rest
    ensures r.Err? ==> r.error == Underrun
  {
    var i :- TakeInt16(s);
    Ok(Got(Uint16FromInt(i.value), i.rest))
  }

  function TakeInt32(s: Bytes): (r: Result<Got<int32>>)
    ensures r.Ok? <==> 4 <= |s|
    ensures r.Ok? ==> s == Int32Bytes(r.value.value) + r.value.rest
    ensures r.Err? ==> r.error == Underrun
  {
    var b :- TakeFixed(s, 4);
    BigEndianOfBE(b.value);
    Ok(Got(Int32FromBits(Uint32Of(b.value)), b.rest))
  }

  function TakeUint32(s: Bytes): (r: Result<Got<uint32>>)
    ensures r.Ok? <==> 4 <= |s|
    ensures r.Ok? ==> s == Uint32Bytes(r.value.value) + r.value.rest
    ensures r.Err? ==> r.error == Underrun
  {
    var i :- TakeInt32(s);
    Ok(Got(Uint32FromInt(i.value), i.rest))
  }

  /** Uint32 is the value of the next four bytes, most significant first: Σ b[i]·256^(3-i). */
  lemma Uint32WeightedSum(s: Bytes)
    requires 4 <= |s|
    ensures TakeUint32(s).Ok?
    ensures TakeUint32(s).value.value
      == s[0] as int * 0x100_0000 + s[1] as int * 0x1_0000 + s[2] as int * 0x100 + s[3] as int
  {
    var b := s[..4];
    assert TakeFixed(s, 4) == Ok(Got(b, s[4..]));
    var u := Uint32Of(b);
    assert TakeInt32(s) == Ok(Got(Int32FromBits(u), s[4..]));
    assert Uint32FromInt(Int32FromBits(u)) == u;
    BEFourBytes(b);
  }

  function TakeInt64(s: Bytes): (r: Result<Got<int64>>)
    ensures r.Ok? <==> 8 <= |s|
    ensures r.Ok? ==> s == Int64Bytes(r.value.value) + r.value.rest
    ensures r.Err? ==> r.error == Underrun
  {
    var b :- TakeFixed(s, 8);
    BigEndianOfBE(b.value);
    Ok(Got(Int64FromBits(Uint64Of(b.value)), b.rest))
  }

  function TakeUint64(s: Bytes): (r: Result<Got<uint64>>)
    ensures r.Ok? <==> 8 <= |s|
    ensures r.Ok? ==> s == Uint64Bytes(r.value.value) + r.value.rest
    ensures r.Err? ==> r.error == Underrun
  {
    var b :- TakeFixed(s, 8);
    BigEndianOfBE(b.value);
    Ok(Got(Uint64Of(b.value), b.rest))
  }

  /**
   * Binary (and String): an int16 length, then that many bytes. It succeeds
   * exactly when the prefix is present, non-negative and no larger than what
   * follows it, and then it consumed exactly a StringBytes image.
   */
  function TakeBinary(s: Bytes): (r: Result<Got<Bytes>>)
    ensures r.Ok? <==> 2 <= |s| && s[0] < 0x80 && BE(s[..2]) <= |s| - 2
    ensures r.Ok? ==> Fits(r.value.value) && s == StringBytes(r.value.value) + r.value.rest
    ensures r.Err? ==> r.error == Underrun || r.error == NegativeLength
    ensures r.Err? && 2 <= |s| && s[0] >= 0x80 ==> r.error == NegativeLength
  {
    var size :- TakeInt16(s);
    if size.value < 0 then Err(NegativeLength)
    else if |size.rest| < size.value then Err(Underrun)
    else
      var b := size.rest[..size.value];
      assert BE(s[..2]) == size.value by {
        assert s[..2] == Int16Bytes(size.value);
      }
      assert s == StringBytes(b) + size.rest[size.value..] by {
        assert s[..2] == BigEndian(|b| % 0x1_0000, 2);
        assert s == s[..2] + b + size.rest[size.value..];
      }
      Ok(Got(b, size.rest[size.value..]))
  }

  /** A gated string field: read when present, the empty string otherwise. */
  function TakeBinaryIf(present: bool, s: Bytes): (r: Result<Got<Bytes>>)
    ensures present ==> r == TakeBinary(s)
    ensures !present ==> r == Ok(Got([], s))
    ensures r.Ok? ==> Fits(r.value.value)
    ensures r.Ok? ==> s == Optional(present, StringBytes(r.value.value)) + r.value.rest
  {
    if present then TakeBinary(s) else Ok(Got([], s))
  }

  /** A gated uint32 field: read when present, zero otherwise. */
  function TakeUint32If(present: bool, s: Bytes): (r: Result<Got<uint32>>)
    ensures present ==> r == TakeUint32(s)
    ensures !present ==> r == Ok(Got(0, s))
    ensures r.Ok? ==> s == Optional(present, Uint32Bytes(r.value.value)) + r.value.rest
  {
    if present then TakeUint32(s) else Ok(Got(0, s))
  }

  /** BinaryAll (and StringAll): everything that remains; never fails. */
  function TakeAll(s: Bytes): (r: Got<Bytes>)
    ensures r.value == s && r.rest == []
  {
    Got(s, [])
  }

  lemma ModAddMultiple(x: int, q: int)
    ensures (x + 0x1_0000_0000_0000_0000 * q) % 0x1_0000_0000_0000_0000 == x % 0x1_0000_0000_0000_0000
  {
  }

  /** Accumulating modulo 2^64 at every step agrees with reducing the exact sum once. */
  lemma ModAccumulate(a: nat, b: nat, d: nat)
    ensures (a % 0x1_0000_0000_0000_0000 + d * (b % 0x1_0000_0000_0000_0000)) % 0x1_0000_0000_0000_0000
         == (a + d * b) % 0x1_0000_0000_0000_0000
  {
    var m := 0x1_0000_0000_0000_0000;
    assert b == m * (b / m) + b % m;
    assert d * b == d * (b % m) + m * (d * (b / m)) by {
      assert d * b == d * (m * (b / m) + b % m);
    }
    assert a + d * b == (a % m + d * (b % m)) + m * (a / m + d * (b / m));
    ModAddMultiple(a % m + d * (b % m), a / m + d * (b / m));
  }

  /**
   * A cursor read had result r and left `rest` unread exactly as the pure
   * read g of the previously unread bytes says.
   */
  ghost predicate Performed<T>(r: Result<T>, g: Result<Got<T>>, rest: Bytes)
  {
    match g
    case Ok(got) => r == Ok(got.value) && rest == got.rest
    case Err(e) => r == Err(e)
  }

  /**
   * The three outcomes of Binary on p from position `at`, ending at `offset`:
   * a negative prefix or one larger than what follows it fails after the two
   * prefix bytes were consumed; a short buffer fails without moving;
   * otherwise the next `size` bytes are returned.
   */
  ghost predicate BinaryRead(p: Bytes, at: nat, offset: nat, r: Result<Bytes>)
    requires at <= |p|
  {
    if at + 2 > |p| then r == Err(Underrun) && offset == at
    else if p[at] >= 0x80 then r == Err(NegativeLength) && offset == at + 2
    else
      var size := BE(p[at..at + 2]);
      if at + 2 + size > |p| then r == Err(Underrun) && offset == at + 2
      else r == Ok(p[at + 2..at + 2 + size]) && offset == at + 2 + size
  }

  /**
   * A Binary read from `at` that ended at `offset` with result r: it did what
   * TakeBinary says, and a failure left the cursor where the prefix check
   * stopped it (before a missing prefix, after a present one).
   */
  ghost predicate BinaryStep(p: Bytes, at: nat, offset: nat, r: Result<Bytes>)
    requires at <= |p| && offset <= |p|
  {
    && Performed(r, TakeBinary(p[at..]), p[offset..])
    && (r.Err? ==> offset == if at + 2 > |p| then at else at + 2)
  }

  /** The step relation and the three outcomes say the same thing. */
  lemma BinaryStepOutcomes(p: Bytes, at: nat, offset: nat, r: Result<Bytes>)
    requires at <= |p| && offset <= |p|
    ensures BinaryStep(p, at, offset, r) <==> BinaryRead(p, at, offset, r)
  {
    var s := p[at..];
    if at + 2 <= |p| {
      assert s[..2] == p[at..at + 2];
      BETwoBytes(p[at..at + 2]);
      var size := BE(p[at..at + 2]);
      if p[at] < 0x80 && at + 2 + size <= |p| {
        assert s[2..][..size] == p[at + 2..at + 2 + size];
        assert s[2..][size..] == p[at + 2 + size..];
        if p[offset..] == p[at + 2 + size..] {
          assert |p[offset..]| == |p[at + 2 + size..]|;
        }
      }
    }
  }

  class Decoder {
    const p: Bytes
    var offset: nat

    ghost predicate Valid()
      reads this
    {
      offset <= |p|
    }

    /** The bytes not yet read. */
    ghost function Rest(): Bytes
      reads this
      requires Valid()
    {
      p[offset..]
    }

    constructor (p: Bytes)
      ensures Valid() && this.p == p && offset == 0
    {
      this.p := p;
      offset := 0;
    }

    function Len(): (n: nat)
      reads this
      requires Valid()
      ensures offset + n == |p|
    {
      |p| - offset
    }

    method Uint8() returns (r: Result<uint8>)
      requires Valid()
      modifies this
      ensures Valid()
      ensures r.Ok? <==> old(offset) + 1 <= |p|
      ensures r.Ok? ==> offset == old(offset) + 1 && r.value == p[old(offset)]
      ensures r.Err? ==> offset == old(offset) && r.error == Underrun
      ensures Performed(r, TakeUint8(p[old(offset)..]), p[offset..])
    {
      if offset + 1 > |p| {
        return Err(Underrun);
      }
      var b := p[offset];
      offset := offset + 1;
      return Ok(b);
    }

    method Int16() returns (r: Result<int16>)
      requires Valid()
      modifies this
      ensures Valid()
      ensures r.Ok? <==> old(offset) + 2 <= |p|
      ensures r.Ok? ==> offset == old(offset) + 2 && r.value == Int16FromBits(Uint16Of(p[old(offset)..offset]))
      ensures r.Err? ==> offset == old(offset) && r.error == Underrun
      ensures Performed(r, TakeInt16(p[old(offset)..]), p[offset..])
    {
      if offset + 2 > |p| {
        return Err(Underrun);
      }
      var b := p[offset..offset + 2];
      assert Rest()[..2] == b && Rest()[2..] == p[offset + 2..];
      offset := offset + 2;
      return Ok(Int16FromBits(Uint16Of(b)));
    }

    method Uint16() returns (r: Result<uint16>)
      requires Valid()
      modifies this
      ensures Valid()
      ensures r.Ok? <==> old(offset) + 2 <= |p|
      ensures r.Ok? ==> offset == old(offset) + 2 && r.value == BE(p[old(offset)..offset])
      ensures r.Err? ==> offset == old(offset) && r.error == Underrun
      ensures Performed(r, TakeUint16(p[old(offset)..]), p[offset..])
    {
      var i :- Int16();
      return Ok(Uint16FromInt(i));
    }

    method Bytes(num: nat) returns (r: Result<Bytes>)
      requires Valid()
      modifies this
      ensures Valid()
      ensures r.Ok? <==> old(offset) + num <= |p|
      ensures r.Ok? ==> offset == old(offset) + num && r.value == p[old(offset)..offset]
      ensures r.Err? ==> offset == old(offset) && r.error == Underrun
      ensures Performed(r, TakeFixed(p[old(offset)..], num), p[offset..])
    {
      if offset + num > |p| {
        return Err(Underrun);
      }
      var b := p[offset..offset + num];
      assert Rest()[..num] == b && Rest()[num..] == p[offset + num..];
      offset := offset + num;
      return Ok(b);
    }

    method Int64() returns (r: Result<int64>)
      requires Valid()
      modifies this
      ensures Valid()
      ensures r.Ok? <==> old(offset) + 8 <= |p|
      ensures r.Ok? ==> offset == old(offset) + 8 && r.value == Int64FromBits(Uint64Of(p[old(offset)..offset]))
      ensures r.Err? ==> offset == old(offset) && r.error == Underrun
      ensures Performed(r, TakeInt64(p[old(offset)..]), p[offset..])
    {
      if offset + 8 > |p| {
        return Err(Underrun);
      }
      var b := p[offset..offset + 8];
      assert Rest()[..8] == b && Rest()[8..] == p[offset + 8..];
      offset := offset + 8;
      return Ok(Int64FromBits(Uint64Of(b)));
    }

    method Uint64() returns (r: Result<uint64>)
      requires Valid()
      modifies this
      ensures Valid()
      ensures r.Ok? <==> old(offset) + 8 <= |p|
      ensures r.Ok? ==> offset == old(offset) + 8 && r.value == BE(p[old(offset)..offset])
      ensures r.Err? ==> offset == old(offset) && r.error == Underrun
      ensures Performed(r, TakeUint64(p[old(offset)..]), p[offset..])
    {
      if offset + 8 > |p| {
        return Err(Underrun);
      }
      var b := p[offset..offset + 8];
      assert Rest()[..8] == b && Rest()[8..] == p[offset + 8..];
      offset := offset + 8;
      return Ok(Uint64Of(b));
    }

    method Int32() returns (r: Result<int32>)
      requires Valid()
      modifies this
      ensures Valid()
      ensures r.Ok? <==> old(offset) + 4 <= |p|
      ensures r.Ok? ==> offset == old(offset) + 4 && r.value == Int32FromBits(Uint32Of(p[old(offset)..offset]))
      ensures r.Err? ==> offset == old(offset) && r.error == Underrun
      ensures Performed(r, TakeInt32(p[old(offset)..]), p[offset..])
    {
      if offset + 4 > |p| {
        return Err(Underrun);
      }
      var b := p[offset..offset + 4];
      assert Rest()[..4] == b && Rest()[4..] == p[offset + 4..];
      offset := offset + 4;
      return Ok(Int32FromBits(Uint32Of(b)));
    }

    method Uint32() returns (r: Result<uint32>)
      requires Valid()
      modifies this
      ensures Valid()
      ensures r.Ok? <==> old(offset) + 4 <= |p|
      ensures r.Ok? ==> offset == old(offset) + 4 && r.value == BE(p[old(offset)..offset])
      ensures r.Err? ==> offset == old(offset) && r.error == Underrun
      ensures Performed(r, TakeUint32(p[old(offset)..]), p[offset..])
    {
      var i :- Int32();
      return Ok(Uint32FromInt(i));
    }

    method String() returns (r: Result<Bytes>)
      requires Valid()
      modifies this
      ensures Valid() && BinaryStep(p, old(offset), offset, r)
    {
      r := Binary();
    }

    method StringAll() returns (r: Result<Bytes>)
      requires Valid()
      modifies this
      ensures Valid()
      ensures r == Ok(p[old(offset)..]) && offset == |p|
    {
      r := BinaryAll();
    }

    method Binary() returns (r: Result<Bytes>)
      requires Valid()
      modifies this
      ensures Valid() && BinaryStep(p, old(offset), offset, r)
    {
      ghost var at := offset;
      var size :- Int16();
      BETwoBytes(p[at..at + 2]);
      if size < 0 {
        return Err(NegativeLength);
      }
      if offset + size > |p| {
        return Err(Underrun);
      }
      var b := p[offset..offset + size];
      assert old(Rest())[2..][..size] == b && old(Rest())[2..][size..] == p[offset + size..];
      offset := offset + size;
      return Ok(b);
    }

    method BinaryAll() returns (r: Result<Bytes>)
      requires Valid()
      modifies this
      ensures Valid()
      ensures r == Ok(p[old(offset)..]) && offset == |p|
    {
      var remains := Len();
      var b := p[offset..];
      offset := offset + remains;
      return Ok(b);
    }

    /**
     * A general varint: bytes up to and including the first one with bit 7
     * clear, accumulated as Σ (b_k & 0x7F)·128^k in a uint64 that wraps as
     * Go's does. Fails, having consumed the rest of the buffer, when no byte
     * with bit 7 clear remains.
     */
    method Variable() returns (r: Result<uint64>)
      requires Valid()
      modifies this
      ensures Valid()
      ensures r.Ok? <==> exists k :: old(offset) <= k < |p| && !Continues(p[k])
      ensures r.Ok? ==> old(offset) < offset && !Continues(p[offset - 1])
      ensures r.Ok? ==> forall k :: old(offset) <= k < offset - 1 ==> Continues(p[k])
      ensures r.Ok? ==> r.value == VarintValue(p[old(offset)..offset]) % 0x1_0000_0000_0000_0000
      ensures r.Err? ==> r.error == Underrun && offset == |p|
    {
      ghost var start := offset;
      var size: uint64 := 0;
      var mul: uint64 := 1;
      while true
        invariant Valid() && start <= offset
        invariant forall k :: start <= k < offset ==> Continues(p[k])
        invariant size == VarintValue(p[start..offset]) % 0x1_0000_0000_0000_0000
        invariant mul == Pow128(offset - start) % 0x1_0000_0000_0000_0000
        decreases |p| - offset
      {
        ghost var before := p[start..offset];
        var i :- Uint8();
        assert p[start..offset] == before + [i];
        VarintValueSnoc(before, i);
        ModAccumulate(VarintValue(before), Pow128(|before|), i % 0x80);
        ModAccumulate(0, Pow128(|before|), 0x80);
        size := (size + (i % 0x80) * mul) % 0x1_0000_0000_0000_0000;
        mul := (mul * 0x80) % 0x1_0000_0000_0000_0000;
        if i < 0x80 {
          break;
        }
      }
      return Ok(size);
    }
  }
}
