/**
 * Java's fixed-width integers and the big-endian byte layout that
 * `DataOutput.writeInt`/`writeLong`/`writeByte` produce and `DataInput`
 * reads back. A stream is a sequence of octets; a reader returns the value
 * and the rest of the stream, or `EndOfStream` when too few bytes remain.
 */
module Bytes {
  import opened Wrappers

  /** An octet on the wire. */
  type Byte = b: int | 0 <= b < 256

  /** Java `byte` (signed). */
  type JByte = b: int | -0x80 <= b < 0x80

  /** Java `int`. */
  type Int32 = x: int | -0x8000_0000 <= x < 0x8000_0000

  /** Java `long`. */
  type Int64 = x: int | -0x8000_0000_0000_0000 <= x < 0x8000_0000_0000_0000

  /** An unsigned 32-bit pattern (the bits of an `int` or a `float`). */
  type Word = w: int | 0 <= w < 0x1_0000_0000

  const MAX_INT32: int := 0x7fff_ffff

  function Pow256(n: nat): (r: nat)
    ensures r >= 1
  {
    if n == 0 then 1 else 256 * Pow256(n - 1)
  }

  /** The n-byte big-endian representation of x. */
  function BigEndian(x: nat, n: nat): (r: seq<Byte>)
    requires x < Pow256(n)
    ensures |r| == n
  {
    if n == 0 then [] else BigEndian(x / 256, n - 1) + [x % 256]
  }

  /** The unsigned number a big-endian byte sequence denotes. */
  function FromBigEndian(s: seq<Byte>): (x: nat)
    ensures x < Pow256(|s|)
  {
    if s == [] then 0 else FromBigEndian(s[..|s| - 1]) * 256 + s[|s| - 1]
  }

  lemma {:induction false} BigEndianRoundTrip(x: nat, n: nat)
    requires x < Pow256(n)
    ensures FromBigEndian(BigEndian(x, n)) == x
  {
    if n > 0 {
      var s := BigEndian(x, n);
      assert s[..|s| - 1] == BigEndian(x / 256, n - 1);
      BigEndianRoundTrip(x / 256, n - 1);
    }
  }

  /** Two's-complement bit pattern of an int, and back. */
  function Unsigned32(x: Int32): Word { if x < 0 then x + 0x1_0000_0000 else x }
  function Signed32(w: Word): Int32 { if w >= 0x8000_0000 then w - 0x1_0000_0000 else w }

  function Unsigned64(x: Int64): (u: nat)
    ensures u < Pow256(8)
  {
    assert Pow256(8) == 0x1_0000_0000_0000_0000;
    if x < 0 then x + 0x1_0000_0000_0000_0000 else x
  }

  function Signed64(u: nat): Int64
    requires u < 0x1_0000_0000_0000_0000
  {
    if u >= 0x8000_0000_0000_0000 then u - 0x1_0000_0000_0000_0000 else u
  }

  /** `writeInt`: four bytes, high byte first. */
  function EncodeInt(x: Int32): (r: seq<Byte>)
    ensures |r| == 4
  {
    assert Pow256(4) == 0x1_0000_0000;
    BigEndian(Unsigned32(x), 4)
  }

  /** `writeLong`: eight bytes, high byte first. */
  function EncodeLong(x: Int64): (r: seq<Byte>)
    ensures |r| == 8
  {
    BigEndian(Unsigned64(x), 8)
  }

  /** `writeInt` of a bit pattern (as `writeFloat` does after `floatToIntBits`). */
  function EncodeWord(w: Word): (r: seq<Byte>)
    ensures |r| == 4
  {
    assert Pow256(4) == 0x1_0000_0000;
    BigEndian(w, 4)
  }

  /** `writeByte`: the low eight bits. */
  function EncodeByte(b: JByte): (r: seq<Byte>)
    ensures |r| == 1
  {
    [if b < 0 then b + 256 else b]
  }

  function ReadWord(s: seq<Byte>): Result<(Word, seq<Byte>)>
  {
    if |s| < 4 then Err(EndOfStream)
    else
      assert Pow256(4) == 0x1_0000_0000;
      Ok((FromBigEndian(s[..4]), s[4..]))
  }

  /** `readInt`. */
  function ReadInt(s: seq<Byte>): Result<(Int32, seq<Byte>)>
  {
    if |s| < 4 then Err(EndOfStream)
    else
      assert Pow256(4) == 0x1_0000_0000;
      Ok((Signed32(FromBigEndian(s[..4])), s[4..]))
  }

  /** `readLong`. */
  function ReadLong(s: seq<Byte>): Result<(Int64, seq<Byte>)>
  {
    if |s| < 8 then Err(EndOfStream)
    else
      assert Pow256(8) == 0x1_0000_0000_0000_0000;
      Ok((Signed64(FromBigEndian(s[..8])), s[8..]))
  }

  /** `readByte`: one octet read as a signed Java byte. */
  function ReadByte(s: seq<Byte>): Result<(JByte, seq<Byte>)>
  {
    if |s| < 1 then Err(EndOfStream)
    else
      var u: int := s[0];
      var b: JByte := if u >= 128 then u - 256 else u;
      Ok((b, s[1..]))
  }

  lemma WordRoundTrip(w: Word, rest: seq<Byte>)
    ensures ReadWord(EncodeWord(w) + rest) == Ok((w, rest))
  {
    var e := EncodeWord(w);
    assert (e + rest)[..4] == e;
    assert (e + rest)[4..] == rest;
    assert Pow256(4) == 0x1_0000_0000;
    BigEndianRoundTrip(w, 4);
  }

  lemma IntRoundTrip(x: Int32, rest: seq<Byte>)
    ensures ReadInt(EncodeInt(x) + rest) == Ok((x, rest))
  {
    var e := EncodeInt(x);
    assert (e + rest)[..4] == e;
    assert (e + rest)[4..] == rest;
    assert Pow256(4) == 0x1_0000_0000;
    BigEndianRoundTrip(Unsigned32(x), 4);
  }

  lemma LongRoundTrip(x: Int64, rest: seq<Byte>)
    ensures ReadLong(EncodeLong(x) + rest) == Ok((x, rest))
  {
    var e := EncodeLong(x);
    assert (e + rest)[..8] == e;
    assert (e + rest)[8..] == rest;
    assert Pow256(8) == 0x1_0000_0000_0000_0000;
    BigEndianRoundTrip(Unsigned64(x), 8);
  }

  lemma ByteRoundTrip(b: JByte, rest: seq<Byte>)
    ensures ReadByte(EncodeByte(b) + rest) == Ok((b, rest))
  {
    assert (EncodeByte(b) + rest)[1..] == rest;
  }

  /** The four octets of a word denote it. */
  lemma WordDecodes(w: Word)
    ensures FromBigEndian(EncodeWord(w)) == w
  {
    assert Pow256(4) == 0x1_0000_0000;
    BigEndianRoundTrip(w, 4);
  }

  lemma IntDecodes(x: Int32)
    ensures Signed32(FromBigEndian(EncodeInt(x))) == x
  {
    assert Pow256(4) == 0x1_0000_0000;
    BigEndianRoundTrip(Unsigned32(x), 4);
  }
}
