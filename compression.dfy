/**
 * Min/max linear quantisation of float vectors to 8-bit or 16-bit codes, and
 * the decoder. The integer code arithmetic is modelled exactly; the rounded
 * float arithmetic around it (`Math.round((v - min) * scale)` and
 * `min + level * scale`) is supplied by a `Quantizer`.
 */
module Compression {
  import opened Wrappers
  import opened Bytes
  import opened Floats

  const COMPRESSION_NONE: JByte := 0
  const COMPRESSION_QUANTIZED_8BIT: JByte := 1
  const COMPRESSION_QUANTIZED_16BIT: JByte := 2

  const LEVELS_8: int := 255
  const LEVELS_16: int := 65535

  datatype CompressedVector = CompressedVector(data: seq<Byte>, min: Bits32, max: Bits32, compressionType: JByte)

  /** The float arithmetic of the quantiser, not interpreted by the model.
      `level(v, min, max, n)` is `Math.round((v - min) * (n / (max - min)))`;
      `reconstruct(min, max, l, n)` is `min + l * ((max - min) / n)`. */
  datatype Quantizer = Quantizer(
    level: (Bits32, Bits32, Bits32, int) -> Int32,
    reconstruct: (Bits32, Bits32, int, int) -> Bits32)

  // ---------------------------------------------------------------- min / max

  /** The smallest element found by `if (v < min) min = v` from the given seed. */
  function RunningMin(v: Vector, seed: Bits32): Bits32
  {
    if v == [] then seed
    else
      var m := RunningMin(v[..|v| - 1], seed);
      if Less(v[|v| - 1], m) then v[|v| - 1] else m
  }

  /** The largest element found by `if (v > max) max = v` from the given seed. */
  function RunningMax(v: Vector, seed: Bits32): Bits32
  {
    if v == [] then seed
    else
      var m := RunningMax(v[..|v| - 1], seed);
      if Less(m, v[|v| - 1]) then v[|v| - 1] else m
  }

  // ---------------------------------------------------------------- integer codes

  /** Java `int` subtraction wraps modulo 2^32. */
  function Wrap32(x: int): Int32
  {
    (x + 0x8000_0000) % 0x1_0000_0000 - 0x8000_0000
  }

  /** `Math.max(lo, Math.min(hi, x))`. */
  function Clamp(x: int, lo: int, hi: int): int
    requires lo <= hi
  {
    if x > hi then hi else if x < lo then lo else x
  }

  /** The 8-bit code stored for a rounded level: `max(-128, min(127, level - 128))`. */
  function Code8(level: Int32): (c: int)
    ensures -128 <= c <= 127
    ensures 0 <= level ==> c == Clamp(level, 0, LEVELS_8) - 128
  {
    Clamp(Wrap32(level - 128), -128, 127)
  }

  /** The 16-bit code stored for a rounded level: `max(-32768, min(32767, level - 32768))`. */
  function Code16(level: Int32): (c: int)
    ensures -32768 <= c <= 32767
    ensures 0 <= level ==> c == Clamp(level, 0, LEVELS_16) - 32768
  {
    Clamp(Wrap32(level - 32768), -32768, 32767)
  }

  /** The octet a `(byte)` cast stores for an in-range code. */
  function Octet(c: int): Byte
    requires -128 <= c <= 127
  {
    if c < 0 then c + 256 else c
  }

  /** The two octets `putShort` writes for an in-range code, high byte first. */
  function ShortOctets(c: int): (r: seq<Byte>)
    requires -32768 <= c <= 32767
    ensures |r| == 2
  {
    assert Pow256(2) == 65536;
    BigEndian(if c < 0 then c + 65536 else c, 2)
  }

  /** The octets of a buffer into which the given codes were put in order. */
  function PackShorts(codes: seq<int>): (r: seq<Byte>)
    requires forall i :: 0 <= i < |codes| ==> -32768 <= codes[i] <= 32767
    ensures |r| == 2 * |codes|
  {
    if codes == [] then []
    else PackShorts(codes[..|codes| - 1]) + ShortOctets(codes[|codes| - 1])
  }

  /** The level the decoder recovers from a stored octet, as written:
      `(data[i] & 0xFF) + 128`. */
  function Level8AsWritten(b: Byte): int { b + 128 }

  /** The level the decoder recovers from two stored octets, as written:
      `(buffer.getShort() & 0xFFFF) + 32768`. */
  function Level16AsWritten(hi: Byte, lo: Byte): int { hi * 256 + lo + 32768 }

  /** The evidently intended recovery: the signed code plus 128. */
  function Level8(b: Byte): int { (if b >= 128 then b - 256 else b) + 128 }

  /** The evidently intended recovery: the signed short plus 32768. */
  function Level16(hi: Byte, lo: Byte): int
  {
    var u := hi * 256 + lo;
    (if u >= 32768 then u - 65536 else u) + 32768
  }

  // ---------------------------------------------------------------- compression

  /** The codes of the non-degenerate 8-bit branch. */
  function Codes8(v: Vector, min: Bits32, max: Bits32, q: Quantizer): (r: seq<int>)
    ensures |r| == |v|
    ensures forall i :: 0 <= i < |r| ==> -128 <= r[i] <= 127
  {
    var r := seq(|v|, i requires 0 <= i < |v| => Code8(q.level(v[i], min, max, LEVELS_8)));
    assert forall i :: 0 <= i < |r| ==> r[i] == Code8(q.level(v[i], min, max, LEVELS_8));
    r
  }

  /** The codes of the non-degenerate 16-bit branch. */
  function Codes16(v: Vector, min: Bits32, max: Bits32, q: Quantizer): (r: seq<int>)
    ensures |r| == |v|
    ensures forall i :: 0 <= i < |r| ==> -32768 <= r[i] <= 32767
  {
    var r := seq(|v|, i requires 0 <= i < |v| => Code16(q.level(v[i], min, max, LEVELS_16)));
    assert forall i :: 0 <= i < |r| ==> r[i] == Code16(q.level(v[i], min, max, LEVELS_16));
    r
  }

  /** 8-bit quantisation with `max` seeded by `maxSeed` (`min` by MAX_VALUE). */
  function Compress8With(v: Vector, q: Quantizer, maxSeed: Bits32): (c: CompressedVector)
    ensures c.compressionType == COMPRESSION_QUANTIZED_8BIT
    ensures |c.data| == |v|
  {
    if v == [] then CompressedVector([], POSITIVE_ZERO, POSITIVE_ZERO, COMPRESSION_QUANTIZED_8BIT)
    else
      var min := RunningMin(v, MAX_VALUE);
      var max := RunningMax(v, maxSeed);
      if DifferenceIsZero(max, min) then
        CompressedVector(seq(|v|, _ => 0), min, max, COMPRESSION_QUANTIZED_8BIT)
      else
        var codes := Codes8(v, min, max, q);
        CompressedVector(seq(|v|, i requires 0 <= i < |v| => Octet(codes[i])), min, max, COMPRESSION_QUANTIZED_8BIT)
  }

  /** 16-bit quantisation with `max` seeded by `maxSeed` (`min` by MAX_VALUE). */
  function Compress16With(v: Vector, q: Quantizer, maxSeed: Bits32): (c: CompressedVector)
    ensures c.compressionType == COMPRESSION_QUANTIZED_16BIT
    ensures |c.data| == 2 * |v|
  {
    if v == [] then CompressedVector([], POSITIVE_ZERO, POSITIVE_ZERO, COMPRESSION_QUANTIZED_16BIT)
    else
      var min := RunningMin(v, MAX_VALUE);
      var max := RunningMax(v, maxSeed);
      if DifferenceIsZero(max, min) then
        CompressedVector(seq(2 * |v|, _ => 0), min, max, COMPRESSION_QUANTIZED_16BIT)
      else
        CompressedVector(PackShorts(Codes16(v, min, max, q)), min, max, COMPRESSION_QUANTIZED_16BIT)
  }

  /** `compress8Bit` as written: `max` starts at `Float.MIN_VALUE`. */
  function Compress8(v: Vector, q: Quantizer): CompressedVector
  {
    Compress8With(v, q, MIN_VALUE)
  }

  /** `compress16Bit` as written: `max` starts at `Float.MIN_VALUE`. */
  function Compress16(v: Vector, q: Quantizer): CompressedVector
  {
    Compress16With(v, q, MIN_VALUE)
  }

  /** The evidently intended 8-bit compressor: `max` starts at `-Float.MAX_VALUE`. */
  function Compress8Corrected(v: Vector, q: Quantizer): CompressedVector
  {
    Compress8With(v, q, NEGATIVE_MAX_VALUE)
  }

  // ---------------------------------------------------------------- decompression

  /** `decompress8Bit`, with the level recovery passed in. */
  function Decompress8With(c: CompressedVector, q: Quantizer, recover: Byte -> int): (r: Vector)
    ensures |r| == |c.data|
  {
    if DifferenceIsZero(c.max, c.min) then seq(|c.data|, _ => c.min)
    else seq(|c.data|, i requires 0 <= i < |c.data| => q.reconstruct(c.min, c.max, recover(c.data[i]), LEVELS_8))
  }

  /** `decompress16Bit`, with the level recovery passed in. */
  function Decompress16With(c: CompressedVector, q: Quantizer, recover: (Byte, Byte) -> int): (r: Vector)
    ensures |r| == |c.data| / 2
  {
    var n := |c.data| / 2;
    if DifferenceIsZero(c.max, c.min) then seq(n, _ => c.min)
    else seq(n, i requires 0 <= i < n => q.reconstruct(c.min, c.max, recover(c.data[2 * i], c.data[2 * i + 1]), LEVELS_16))
  }

  /** The raw branch: every four octets are read back as one float's bits. */
  function RawFloats(data: seq<Byte>): (r: Vector)
    ensures |r| == |data| / 4
  {
    seq(|data| / 4, i requires 0 <= i < |data| / 4 => FromBigEndian(data[4 * i..4 * i + 4]))
  }

  /** `decompress` with the level recoveries passed in. */
  function DecompressWith(c: CompressedVector, q: Quantizer, recover8: Byte -> int, recover16: (Byte, Byte) -> int): (r: Vector)
    ensures |c.data| == 0 ==> r == []
    ensures c.compressionType == COMPRESSION_QUANTIZED_8BIT ==> |r| == |c.data|
    ensures c.compressionType == COMPRESSION_QUANTIZED_16BIT ==> |r| == |c.data| / 2
    ensures c.compressionType !in {COMPRESSION_QUANTIZED_8BIT, COMPRESSION_QUANTIZED_16BIT} ==> |r| == |c.data| / 4
  {
    if |c.data| == 0 then []
    else if c.compressionType == COMPRESSION_QUANTIZED_8BIT then Decompress8With(c, q, recover8)
    else if c.compressionType == COMPRESSION_QUANTIZED_16BIT then Decompress16With(c, q, recover16)
    else RawFloats(c.data)
  }

  /** `decompress` as written. */
  function Decompressed(c: CompressedVector, q: Quantizer): (r: Vector)
  {
    DecompressWith(c, q, Level8AsWritten, Level16AsWritten)
  }

  /** `decompress` with the evidently intended level recovery. */
  function DecompressedCorrected(c: CompressedVector, q: Quantizer): (r: Vector)
  {
    DecompressWith(c, q, Level8, Level16)
  }

  /** `CompressedVector.getCompressionRatio`: a fixed claim per tag. */
  function CompressionRatio(c: CompressedVector): real
  {
    if c.compressionType == COMPRESSION_QUANTIZED_8BIT then 4.0
    else if c.compressionType == COMPRESSION_QUANTIZED_16BIT then 2.0
    else 1.0
  }

  // ---------------------------------------------------------------- the loops

  /** The min/max loop shared by both compressors. */
  method FindRange(vector: Vector, maxSeed: Bits32) returns (min: Bits32, max: Bits32)
    ensures min == RunningMin(vector, MAX_VALUE) && max == RunningMax(vector, maxSeed)
  {
    min, max := MAX_VALUE, maxSeed;
    for i := 0 to |vector|
      invariant min == RunningMin(vector[..i], MAX_VALUE)
      invariant max == RunningMax(vector[..i], maxSeed)
    {
      assert vector[..i + 1][..i] == vector[..i];
      if Less(vector[i], min) {
        min := vector[i];
      }
      if Less(max, vector[i]) {
        max := vector[i];
      }
    }
    assert vector[..|vector|] == vector;
  }

  /** `compress8Bit`. */
  method Compress8Bit(vector: Vector, q: Quantizer) returns (c: CompressedVector)
    ensures c == Compress8(vector, q)
  {
    if |vector| == 0 {
      return CompressedVector([], POSITIVE_ZERO, POSITIVE_ZERO, COMPRESSION_QUANTIZED_8BIT);
    }
    var min, max := FindRange(vector, MIN_VALUE);
    var quantized := new Byte[|vector|];
    if DifferenceIsZero(max, min) {
      forall i | 0 <= i < quantized.Length {
        quantized[i] := 0;
      }
      assert quantized[..] == seq(|vector|, _ => 0);
      return CompressedVector(quantized[..], min, max, COMPRESSION_QUANTIZED_8BIT);
    }
    ghost var codes := Codes8(vector, min, max, q);
    for i := 0 to |vector|
      invariant forall j :: 0 <= j < i ==> quantized[j] == Octet(codes[j])
    {
      var quantizedValue := q.level(vector[i], min, max, LEVELS_8);
      quantized[i] := Octet(Code8(quantizedValue));
    }
    c := CompressedVector(quantized[..], min, max, COMPRESSION_QUANTIZED_8BIT);
    assert quantized[..] == seq(|vector|, i requires 0 <= i < |vector| => Octet(codes[i]));
  }

  /** `compress16Bit`: codes are put into the buffer two octets at a time. */
  method Compress16Bit(vector: Vector, q: Quantizer) returns (c: CompressedVector)
    ensures c == Compress16(vector, q)
  {
    if |vector| == 0 {
      return CompressedVector([], POSITIVE_ZERO, POSITIVE_ZERO, COMPRESSION_QUANTIZED_16BIT);
    }
    var min, max := FindRange(vector, MIN_VALUE);
    var buffer := new Byte[2 * |vector|];
    if DifferenceIsZero(max, min) {
      forall i | 0 <= i < buffer.Length {
        buffer[i] := 0;
      }
      assert buffer[..] == seq(2 * |vector|, _ => 0);
      return CompressedVector(buffer[..], min, max, COMPRESSION_QUANTIZED_16BIT);
    }
    ghost var codes := Codes16(vector, min, max, q);
    for i := 0 to |vector|
      invariant buffer[..2 * i] == PackShorts(codes[..i])
    {
      var quantizedValue := q.level(vector[i], min, max, LEVELS_16);
      var octets := ShortOctets(Code16(quantizedValue));
      buffer[2 * i] := octets[0];
      buffer[2 * i + 1] := octets[1];
      assert codes[..i + 1][..i] == codes[..i];
      assert buffer[..2 * (i + 1)] == buffer[..2 * i] + octets;
    }
    assert codes[..|vector|] == codes;
    assert buffer[..] == buffer[..2 * |vector|];
    c := CompressedVector(buffer[..], min, max, COMPRESSION_QUANTIZED_16BIT);
  }

  /** `decompress8Bit` as written. */
  method Decompress8Bit(c: CompressedVector, q: Quantizer) returns (result: Vector)
    ensures result == Decompress8With(c, q, Level8AsWritten)
  {
    var data := c.data;
    var out := new Bits32[|data|];
    if DifferenceIsZero(c.max, c.min) {
      for i := 0 to out.Length
        invariant forall j :: 0 <= j < i ==> out[j] == c.min
      {
        out[i] := c.min;
      }
      return out[..];
    }
    for i := 0 to |data|
      invariant forall j :: 0 <= j < i ==> out[j] == q.reconstruct(c.min, c.max, Level8AsWritten(data[j]), LEVELS_8)
    {
      var unsignedByte := data[i] as int + 128;
      out[i] := q.reconstruct(c.min, c.max, unsignedByte, LEVELS_8);
    }
    result := out[..];
    assert result == seq(|data|, i requires 0 <= i < |data| => q.reconstruct(c.min, c.max, Level8AsWritten(data[i]), LEVELS_8));
  }

  /** `decompress16Bit` as written: shorts are read two octets at a time. */
  method Decompress16Bit(c: CompressedVector, q: Quantizer) returns (result: Vector)
    ensures result == Decompress16With(c, q, Level16AsWritten)
  {
    var data := c.data;
    var n := |data| / 2;
    assert 2 * n <= |data|;
    var out := new Bits32[n];
    if DifferenceIsZero(c.max, c.min) {
      for i := 0 to n
        invariant forall j :: 0 <= j < i ==> out[j] == c.min
      {
        out[i] := c.min;
      }
      return out[..];
    }
    for i := 0 to n
      invariant forall j :: 0 <= j < i ==>
        out[j] == q.reconstruct(c.min, c.max, Level16AsWritten(data[2 * j], data[2 * j + 1]), LEVELS_16)
    {
      assert 2 * i + 1 < |data|;
      var unsignedShort := data[2 * i] as int * 256 + data[2 * i + 1] as int + 32768;
      out[i] := q.reconstruct(c.min, c.max, unsignedShort, LEVELS_16);
    }
    result := out[..];
    assert result == seq(n, i requires 0 <= i < n => q.reconstruct(c.min, c.max, Level16AsWritten(data[2 * i], data[2 * i + 1]), LEVELS_16));
  }

  /** `decompress`: dispatch on the tag; an unknown tag reads raw floats. */
  method Decompress(c: CompressedVector, q: Quantizer) returns (result: Vector)
    ensures result == Decompressed(c, q)
  {
    if |c.data| == 0 {
      return [];
    }
    if c.compressionType == COMPRESSION_QUANTIZED_8BIT {
      result := Decompress8Bit(c, q);
    } else if c.compressionType == COMPRESSION_QUANTIZED_16BIT {
      result := Decompress16Bit(c, q);
    } else {
      var data := c.data;
      var out := new Bits32[|data| / 4];
      for i := 0 to out.Length
        invariant forall j :: 0 <= j < i ==> out[j] == FromBigEndian(data[4 * j..4 * j + 4])
      {
        out[i] := FromBigEndian(data[4 * i..4 * i + 4]);
      }
      result := out[..];
    }
  }

  // ---------------------------------------------------------------- properties

  /** An empty vector compresses to no data, and no data decompresses to an empty vector. */
  lemma EmptyVectorRoundTrip(c: CompressedVector, q: Quantizer)
    requires c == Compress8([], q) || c == Compress16([], q)
    ensures c.data == [] && c.min == POSITIVE_ZERO && c.max == POSITIVE_ZERO
    ensures Decompressed(c, q) == [] && DecompressedCorrected(c, q) == []
  {
  }

  /** Decompressing a compressed vector gives back as many elements as went in. */
  lemma RoundTripKeepsLength(v: Vector, q: Quantizer)
    ensures |Decompressed(Compress8(v, q), q)| == |v|
    ensures |Decompressed(Compress16(v, q), q)| == |v|
    ensures |DecompressedCorrected(Compress8Corrected(v, q), q)| == |v|
  {
  }

  /** The compression ratio is a function of the tag alone. */
  lemma CompressionRatioOfCompressors(v: Vector, q: Quantizer, c: CompressedVector)
    ensures CompressionRatio(Compress8(v, q)) == 4.0
    ensures CompressionRatio(Compress16(v, q)) == 2.0
    ensures c.compressionType !in {COMPRESSION_QUANTIZED_8BIT, COMPRESSION_QUANTIZED_16BIT} ==> CompressionRatio(c) == 1.0
  {
  }

  /** A degenerate range decodes every element to `min`, whatever the data. */
  lemma ZeroRangeDecodesToMin(c: CompressedVector, q: Quantizer)
    requires DifferenceIsZero(c.max, c.min)
    requires c.compressionType in {COMPRESSION_QUANTIZED_8BIT, COMPRESSION_QUANTIZED_16BIT}
    ensures forall i :: 0 <= i < |Decompressed(c, q)| ==> Decompressed(c, q)[i] == c.min
  {
  }

  /** The stored code, read back by the evidently intended decoder, is the level the
      encoder clamped: the code plus 128. */
  lemma Level8Recovers(level: Int32)
    ensures Level8(Octet(Code8(level))) == Code8(level) + 128
    ensures 0 <= level ==> Level8(Octet(Code8(level))) == Clamp(level, 0, LEVELS_8)
  {
  }

  /** As written, the decoder adds 256 to every level below 128: it reads the
      octet unsigned where the encoder stored it signed. */
  lemma Level8AsWrittenRecovers(level: Int32)
    ensures Level8AsWritten(Octet(Code8(level))) == Code8(level) + 128 + (if Code8(level) < 0 then 256 else 0)
    ensures 0 <= level ==> (Level8AsWritten(Octet(Code8(level))) == Clamp(level, 0, LEVELS_8) <==> level >= 128)
  {
  }

  /** Level 0 (the minimum of the vector) is decoded as level 256. */
  lemma Level8AsWrittenAtMinimum()
    ensures Code8(0) == -128 && Octet(Code8(0)) == 128
    ensures Level8AsWritten(Octet(Code8(0))) == 256
    ensures Level8(Octet(Code8(0))) == 0
  {
  }

  /** The two octets of a stored short denote its unsigned pattern. */
  lemma ShortOctetsDenote(c: int)
    requires -32768 <= c <= 32767
    ensures ShortOctets(c)[0] as int * 256 + ShortOctets(c)[1] == if c < 0 then c + 65536 else c
  {
    var u := if c < 0 then c + 65536 else c;
    assert Pow256(2) == 65536;
    BigEndianRoundTrip(u, 2);
    var s := ShortOctets(c);
    assert s[..1] == [s[0]];
    assert FromBigEndian(s) == FromBigEndian(s[..1]) * 256 + s[1];
  }

  lemma Level16Recovers(level: Int32)
    ensures var o := ShortOctets(Code16(level)); Level16(o[0], o[1]) == Code16(level) + 32768
    ensures 0 <= level ==> var o := ShortOctets(Code16(level)); Level16(o[0], o[1]) == Clamp(level, 0, LEVELS_16)
  {
    ShortOctetsDenote(Code16(level));
  }

  lemma Level16AsWrittenRecovers(level: Int32)
    ensures var o := ShortOctets(Code16(level));
      Level16AsWritten(o[0], o[1]) == Code16(level) + 32768 + (if Code16(level) < 0 then 65536 else 0)
    ensures 0 <= level ==> var o := ShortOctets(Code16(level));
      (Level16AsWritten(o[0], o[1]) == Clamp(level, 0, LEVELS_16) <==> level >= 32768)
  {
    ShortOctetsDenote(Code16(level));
  }

  /** The i-th short put into the buffer occupies octets 2i and 2i+1. */
  lemma {:induction false} PackShortsAt(codes: seq<int>, i: int)
    requires forall j :: 0 <= j < |codes| ==> -32768 <= codes[j] <= 32767
    requires 0 <= i < |codes|
    ensures PackShorts(codes)[2 * i] == ShortOctets(codes[i])[0]
    ensures PackShorts(codes)[2 * i + 1] == ShortOctets(codes[i])[1]
  {
    var prefix := codes[..|codes| - 1];
    if i < |codes| - 1 {
      PackShortsAt(prefix, i);
    }
  }

  /** Element by element, what the 8-bit decoder makes of a non-degenerate compression:
      the evidently intended decoder reconstructs from the clamped level, the decoder
      as written from that level plus 256 whenever the level is below 128. */
  lemma DecodedLevels8(v: Vector, q: Quantizer)
    requires var c := Compress8(v, q); v != [] && !DifferenceIsZero(c.max, c.min)
    ensures var c := Compress8(v, q);
      forall i :: 0 <= i < |v| ==>
        var code := Code8(q.level(v[i], c.min, c.max, LEVELS_8));
        DecompressedCorrected(c, q)[i] == q.reconstruct(c.min, c.max, code + 128, LEVELS_8) &&
        Decompressed(c, q)[i] == q.reconstruct(c.min, c.max, code + 128 + (if code < 0 then 256 else 0), LEVELS_8)
  {
    var c := Compress8(v, q);
    var codes := Codes8(v, c.min, c.max, q);
    forall i | 0 <= i < |v|
      ensures var code := Code8(q.level(v[i], c.min, c.max, LEVELS_8));
        DecompressedCorrected(c, q)[i] == q.reconstruct(c.min, c.max, code + 128, LEVELS_8) &&
        Decompressed(c, q)[i] == q.reconstruct(c.min, c.max, code + 128 + (if code < 0 then 256 else 0), LEVELS_8)
    {
      assert c.data[i] == Octet(codes[i]);
      assert codes[i] == Code8(q.level(v[i], c.min, c.max, LEVELS_8));
      assert DecompressedCorrected(c, q) == Decompress8With(c, q, Level8);
      assert Decompressed(c, q) == Decompress8With(c, q, Level8AsWritten);
      assert Decompress8With(c, q, Level8)[i] == q.reconstruct(c.min, c.max, Level8(c.data[i]), LEVELS_8);
      assert Decompress8With(c, q, Level8AsWritten)[i] == q.reconstruct(c.min, c.max, Level8AsWritten(c.data[i]), LEVELS_8);
    }
  }

  /** The 16-bit counterpart of `DecodedLevels8`. */
  lemma DecodedLevels16(v: Vector, q: Quantizer)
    requires var c := Compress16(v, q); v != [] && !DifferenceIsZero(c.max, c.min)
    ensures var c := Compress16(v, q);
      forall i :: 0 <= i < |v| ==>
        var code := Code16(q.level(v[i], c.min, c.max, LEVELS_16));
        DecompressedCorrected(c, q)[i] == q.reconstruct(c.min, c.max, code + 32768, LEVELS_16) &&
        Decompressed(c, q)[i] == q.reconstruct(c.min, c.max, code + 32768 + (if code < 0 then 65536 else 0), LEVELS_16)
  {
    var c := Compress16(v, q);
    var codes := Codes16(v, c.min, c.max, q);
    forall i | 0 <= i < |v|
      ensures var code := Code16(q.level(v[i], c.min, c.max, LEVELS_16));
        DecompressedCorrected(c, q)[i] == q.reconstruct(c.min, c.max, code + 32768, LEVELS_16) &&
        Decompressed(c, q)[i] == q.reconstruct(c.min, c.max, code + 32768 + (if code < 0 then 65536 else 0), LEVELS_16)
    {
      PackShortsAt(codes, i);
      ShortOctetsDenote(codes[i]);
    }
  }

  // ---------------------------------------------------------------- constant vectors

  /** The running minimum of a constant vector denotes the smaller of the seed and the element. */
  lemma {:induction false} ConstantRunningMin(v: Vector, w: Bits32, seed: Bits32)
    requires IsFinite(w) && IsFinite(seed) && v != []
    requires forall i :: 0 <= i < |v| ==> v[i] == w
    ensures IsFinite(RunningMin(v, seed))
    ensures Value(RunningMin(v, seed)) == if Value(w) < Value(seed) then Value(w) else Value(seed)
  {
    if |v| > 1 {
      ConstantRunningMin(v[..|v| - 1], w, seed);
    }
  }

  /** The running maximum of a constant vector denotes the larger of the seed and the element. */
  lemma {:induction false} ConstantRunningMax(v: Vector, w: Bits32, seed: Bits32)
    requires IsFinite(w) && IsFinite(seed) && v != []
    requires forall i :: 0 <= i < |v| ==> v[i] == w
    ensures IsFinite(RunningMax(v, seed))
    ensures Value(RunningMax(v, seed)) == if Value(seed) < Value(w) then Value(w) else Value(seed)
  {
    if |v| > 1 {
      ConstantRunningMax(v[..|v| - 1], w, seed);
    }
  }

  /** As written, a constant vector takes the degenerate branch exactly when its
      element is at least `Float.MIN_VALUE`: a constant vector of zeros or of
      negative numbers is quantised against a spurious maximum. Where the branch is
      taken every element decodes to the constant. */
  lemma ConstantVectorAsWritten(v: Vector, w: Bits32, q: Quantizer)
    requires IsFinite(w) && v != []
    requires forall i :: 0 <= i < |v| ==> v[i] == w
    ensures var c := Compress8(v, q);
      DifferenceIsZero(c.max, c.min) <==> Value(w) >= Value(MIN_VALUE)
    ensures var c := Compress8(v, q);
      Value(w) < Value(MIN_VALUE) ==> c.max == MIN_VALUE
    ensures var c := Compress8(v, q);
      Value(w) >= Value(MIN_VALUE) ==> forall i :: 0 <= i < |v| ==> Value(Decompressed(c, q)[i]) == Value(w)
  {
    FiniteWithinMax(w);
    MinValueIsPositive();
    ConstantRunningMin(v, w, MAX_VALUE);
    ConstantRunningMax(v, w, MIN_VALUE);
    if Value(w) < Value(MIN_VALUE) {
      ConstantRunningMaxKeepsSeed(v, w, MIN_VALUE);
    }
  }

  /** When no element exceeds the seed, the running maximum is the seed itself. */
  lemma {:induction false} ConstantRunningMaxKeepsSeed(v: Vector, w: Bits32, seed: Bits32)
    requires IsFinite(w) && IsFinite(seed) && Value(w) <= Value(seed)
    requires forall i :: 0 <= i < |v| ==> v[i] == w
    ensures RunningMax(v, seed) == seed
  {
    if v != [] {
      ConstantRunningMaxKeepsSeed(v[..|v| - 1], w, seed);
    }
  }

  /** With `max` seeded by `-Float.MAX_VALUE`, every constant vector of finite
      floats takes the degenerate branch and decodes to the constant. */
  lemma ConstantVectorCorrected(v: Vector, w: Bits32, q: Quantizer)
    requires IsFinite(w) && v != []
    requires forall i :: 0 <= i < |v| ==> v[i] == w
    ensures var c := Compress8Corrected(v, q); DifferenceIsZero(c.max, c.min)
    ensures var c := Compress8Corrected(v, q);
      forall i :: 0 <= i < |v| ==> Value(DecompressedCorrected(c, q)[i]) == Value(w)
  {
    FiniteWithinMax(w);
    ConstantRunningMin(v, w, MAX_VALUE);
    ConstantRunningMax(v, w, NEGATIVE_MAX_VALUE);
  }
}
