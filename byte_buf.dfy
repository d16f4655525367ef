/**
 * Netty's ByteBuf as the facade sync uses it: bytes appended by the writer
 * and consumed from a reader index. Multi-byte values are big-endian, and
 * an int written as a short or a byte keeps only its low bits. A read past
 * the written bytes fails and moves nothing (the source throws
 * IndexOutOfBoundsException).
 */
module ByteBufs {
  import opened Wrappers

  /** An unsigned byte as it is stored in the buffer. */
  newtype byte = b: int | 0 <= b < 256

  /** The low 8 bits of an int (writeByte's truncation, two's complement for negatives). */
  function LowByte(v: int): byte {
    (v % 256) as byte
  }

  /** writeShort's two bytes: the low 16 bits of `v`, high byte first. */
  function ShortBytes(v: int): seq<byte> {
    [LowByte(v / 256), LowByte(v)]
  }

  /** readUnsignedShort on two bytes. */
  function UnsignedShort(hi: byte, lo: byte): int {
    hi as int * 256 + lo as int
  }

  /** The low 16 bits split into the high and the low byte. */
  lemma SplitShort(v: int)
    ensures ((v / 256) % 256) * 256 + v % 256 == v % 65536
  {
    var q := v / 256;
    var r := v % 256;
    var h := q % 256;
    var t := q / 256;
    assert v == q * 256 + r;
    assert q == t * 256 + h;
    assert v == t * 65536 + (h * 256 + r);
    assert 0 <= h * 256 + r < 65536;
  }

  /** Reading back a short gives the written value modulo 2^16. */
  lemma ShortRoundTrip(v: int)
    ensures UnsignedShort(ShortBytes(v)[0], ShortBytes(v)[1]) == v % 65536
    ensures 0 <= UnsignedShort(ShortBytes(v)[0], ShortBytes(v)[1]) < 65536
  {
    SplitShort(v);
  }

  /** An unsigned short reads back as written. */
  lemma UnsignedShortRoundTrip(v: int)
    requires 0 <= v < 65536
    ensures UnsignedShort(ShortBytes(v)[0], ShortBytes(v)[1]) == v
  {
    ShortRoundTrip(v);
  }

  class ByteBuf {
    var data: seq<byte>
    var readerIndex: nat

    ghost predicate Valid()
      reads this
    {
      readerIndex <= |data|
    }

    constructor ()
      ensures Valid() && data == [] && readerIndex == 0
    {
      data := [];
      readerIndex := 0;
    }

    /** A buffer holding `bytes`, none of them read yet. */
    constructor Of(bytes: seq<byte>)
      ensures Valid() && data == bytes && readerIndex == 0
    {
      data := bytes;
      readerIndex := 0;
    }

    method WriteShort(v: int)
      modifies this`data
      ensures data == old(data) + ShortBytes(v)
    {
      data := data + ShortBytes(v);
    }

    /** writeByte: only the low 8 bits of the argument are written; callers pass them as a byte. */
    method WriteByte(b: byte)
      modifies this`data
      ensures data == old(data) + [b]
    {
      data := data + [b];
    }

    /** readUnsignedShort: the next two bytes as an unsigned big-endian value. */
    method ReadUnsignedShort() returns (r: Option<int>)
      requires Valid()
      modifies this`readerIndex
      ensures Valid()
      ensures old(readerIndex) + 2 <= |data| ==>
        && r == Some(UnsignedShort(data[old(readerIndex)], data[old(readerIndex) + 1]))
        && readerIndex == old(readerIndex) + 2
      ensures old(readerIndex) + 2 > |data| ==> r.None? && readerIndex == old(readerIndex)
      ensures r.Some? ==> 0 <= r.value < 65536
    {
      if readerIndex + 2 > |data| {
        return None;
      }
      r := Some(UnsignedShort(data[readerIndex], data[readerIndex + 1]));
      readerIndex := readerIndex + 2;
    }

    /** readUnsignedByte: the next byte. */
    method ReadUnsignedByte() returns (r: Option<byte>)
      requires Valid()
      modifies this`readerIndex
      ensures Valid()
      ensures old(readerIndex) < |data| ==> r == Some(data[old(readerIndex)]) && readerIndex == old(readerIndex) + 1
      ensures old(readerIndex) >= |data| ==> r.None? && readerIndex == old(readerIndex)
    {
      if readerIndex >= |data| {
        return None;
      }
      r := Some(data[readerIndex]);
      readerIndex := readerIndex + 1;
    }
  }
}
