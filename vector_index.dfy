/**
 * The per-file vector index: an append-only list of block metadata (centroid,
 * vector count, file offset, size in bytes) and its big-endian layout.
 * Metadata records are values; the index itself is an object whose list
 * grows in place and whose fields `readFields` overwrites from a stream.
 */
module BlockIndex {
  import opened Wrappers
  import opened Bytes
  import opened Floats
  import opened Streams

  /** `VectorIndex.VectorBlockMetadata`; its getters are the datatype's fields. */
  datatype VectorBlockMetadata = VectorBlockMetadata(
    centroid: Vector,
    vectorCount: Int32,
    blockOffset: Int64,
    blockSize: Int32)

  /** A Java array length fits an `int`. */
  predicate WritableBlock(m: VectorBlockMetadata) { |m.centroid| <= MAX_INT32 }

  predicate WritableBlocks(bs: seq<VectorBlockMetadata>)
  {
    |bs| <= MAX_INT32 && forall i :: 0 <= i < |bs| ==> WritableBlock(bs[i])
  }

  /** A block written by `writeFloat` reads back unchanged when its NaNs are canonical. */
  predicate RoundTrips(bs: seq<VectorBlockMetadata>)
  {
    forall i :: 0 <= i < |bs| ==> CanonicalVector(bs[i].centroid)
  }

  // ---------------------------------------------------------------- one block

  /** `VectorBlockMetadata.write`: length, floats, count, offset, size. */
  function EncodeBlock(m: VectorBlockMetadata): (r: seq<Byte>)
    requires WritableBlock(m)
    ensures |r| == 4 + 4 * |m.centroid| + 4 + 8 + 4
  {
    EncodeFloatArray(m.centroid) + EncodeInt(m.vectorCount) + EncodeLong(m.blockOffset) + EncodeInt(m.blockSize)
  }

  /** `VectorBlockMetadata.readFields`. */
  function DecodeBlock(s: seq<Byte>): Result<(VectorBlockMetadata, seq<Byte>)>
  {
    var (centroid, r1) :- DecodeFloatArray(s);
    var (count, r2) :- ReadInt(r1);
    var (offset, r3) :- ReadLong(r2);
    var (size, r4) :- ReadInt(r3);
    Ok((VectorBlockMetadata(centroid, count, offset, size), r4))
  }

  /** The layout: where each field sits in the encoding of a block. */
  lemma BlockLayout(m: VectorBlockMetadata)
    requires WritableBlock(m)
    ensures var e := EncodeBlock(m); var n := |m.centroid|;
      e[..4] == EncodeInt(n) &&
      e[4..4 + 4 * n] == EncodeFloats(m.centroid) &&
      e[4 + 4 * n..8 + 4 * n] == EncodeInt(m.vectorCount) &&
      e[8 + 4 * n..16 + 4 * n] == EncodeLong(m.blockOffset) &&
      e[16 + 4 * n..] == EncodeInt(m.blockSize)
  {
  }

  lemma BlockRoundTrip(m: VectorBlockMetadata, rest: seq<Byte>)
    requires WritableBlock(m) && CanonicalVector(m.centroid)
    ensures DecodeBlock(EncodeBlock(m) + rest) == Ok((m, rest))
  {
    var tail3 := EncodeInt(m.blockSize) + rest;
    var tail2 := EncodeLong(m.blockOffset) + tail3;
    var tail1 := EncodeInt(m.vectorCount) + tail2;
    assert EncodeBlock(m) + rest == EncodeFloatArray(m.centroid) + tail1;
    FloatArrayRoundTrip(m.centroid, tail1);
    IntRoundTrip(m.vectorCount, tail2);
    LongRoundTrip(m.blockOffset, tail3);
    IntRoundTrip(m.blockSize, rest);
  }

  method WriteBlock(m: VectorBlockMetadata) returns (out: seq<Byte>)
    requires WritableBlock(m)
    ensures out == EncodeBlock(m)
  {
    out := WriteFloatArray(m.centroid);
    out := out + EncodeInt(m.vectorCount);
    out := out + EncodeLong(m.blockOffset);
    out := out + EncodeInt(m.blockSize);
  }

  method ReadBlock(s: seq<Byte>) returns (r: Result<(VectorBlockMetadata, seq<Byte>)>)
    ensures r == DecodeBlock(s)
  {
    var centroid :- ReadFloatArray(s);
    var count :- ReadInt(centroid.1);
    var offset :- ReadLong(count.1);
    var size :- ReadInt(offset.1);
    r := Ok((VectorBlockMetadata(centroid.0, count.0, offset.0, size.0), size.1));
  }

  // ---------------------------------------------------------------- the list

  function EncodeBlocks(bs: seq<VectorBlockMetadata>): (r: seq<Byte>)
    requires forall i :: 0 <= i < |bs| ==> WritableBlock(bs[i])
  {
    if bs == [] then [] else EncodeBlock(bs[0]) + EncodeBlocks(bs[1..])
  }

  /** `VectorIndex.write`: dimension, count, then each block. */
  function EncodeIndex(dimension: Int32, bs: seq<VectorBlockMetadata>): seq<Byte>
    requires WritableBlocks(bs)
  {
    EncodeInt(dimension) + EncodeInt(|bs|) + EncodeBlocks(bs)
  }

  /** What `VectorIndex.readFields` leaves behind: the dimension (when it was
      read), the block list (when the count was read and allocated), and the
      outcome. `new ArrayList<>(n)` refuses a negative `n`. */
  datatype IndexRead = IndexRead(dimension: Option<Int32>, blocks: Option<seq<VectorBlockMetadata>>, outcome: Result<seq<Byte>>)

  function DecodeIndex(s: seq<Byte>): (r: IndexRead)
    ensures r.outcome.Ok? ==> r.dimension.Some? && r.blocks.Some?
  {
    match ReadInt(s)
    case Err(e) => IndexRead(None, None, Err(e))
    case Ok((dimension, r1)) =>
      match ReadInt(r1)
      case Err(e) => IndexRead(Some(dimension), None, Err(e))
      case Ok((count, r2)) =>
        if count < 0 then IndexRead(Some(dimension), None, Err(IllegalArgument))
        else
          var (bs, outcome) := DecodeMany(r2, count, DecodeBlock);
          IndexRead(Some(dimension), Some(bs), outcome)
  }

  lemma {:induction false} EncodeBlocksAppend(bs: seq<VectorBlockMetadata>, b: VectorBlockMetadata)
    requires forall i :: 0 <= i < |bs| ==> WritableBlock(bs[i])
    requires WritableBlock(b)
    ensures EncodeBlocks(bs + [b]) == EncodeBlocks(bs) + EncodeBlock(b)
  {
    if bs != [] {
      assert (bs + [b])[1..] == bs[1..] + [b];
      EncodeBlocksAppend(bs[1..], b);
    }
  }

  lemma {:induction false} BlocksRoundTrip(bs: seq<VectorBlockMetadata>, rest: seq<Byte>)
    requires forall i :: 0 <= i < |bs| ==> WritableBlock(bs[i])
    requires RoundTrips(bs)
    ensures DecodeMany(EncodeBlocks(bs) + rest, |bs|, DecodeBlock) == (bs, Ok(rest))
  {
    if bs != [] {
      var tail := EncodeBlocks(bs[1..]) + rest;
      assert EncodeBlocks(bs) + rest == EncodeBlock(bs[0]) + tail;
      BlockRoundTrip(bs[0], tail);
      DecodeManyStep(EncodeBlocks(bs) + rest, |bs|, DecodeBlock, bs[0], tail);
      assert RoundTrips(bs[1..]) by {
        forall i | 0 <= i < |bs| - 1 ensures CanonicalVector(bs[1..][i].centroid) {
          assert bs[1..][i] == bs[i + 1];
        }
      }
      BlocksRoundTrip(bs[1..], rest);
      assert [bs[0]] + bs[1..] == bs;
    } else {
      assert EncodeBlocks(bs) + rest == rest;
    }
  }

  /** Reading back what `write` produced restores the dimension and the blocks in order. */
  lemma IndexRoundTrip(dimension: Int32, bs: seq<VectorBlockMetadata>, rest: seq<Byte>)
    requires WritableBlocks(bs) && RoundTrips(bs)
    ensures DecodeIndex(EncodeIndex(dimension, bs) + rest) == IndexRead(Some(dimension), Some(bs), Ok(rest))
  {
    var tail := EncodeInt(|bs|) + (EncodeBlocks(bs) + rest);
    assert EncodeIndex(dimension, bs) + rest == EncodeInt(dimension) + tail;
    IntRoundTrip(dimension, tail);
    IntRoundTrip(|bs|, EncodeBlocks(bs) + rest);
    BlocksRoundTrip(bs, rest);
  }

  // ---------------------------------------------------------------- the index object

  class VectorIndex {
    var vectorDimension: Int32
    var blocks: seq<VectorBlockMetadata>

    /** The no-argument constructor used before `readFields`. */
    constructor Empty()
      ensures vectorDimension == 0 && blocks == []
    {
      vectorDimension := 0;
      blocks := [];
    }

    constructor (dimension: Int32)
      ensures vectorDimension == dimension && blocks == []
    {
      vectorDimension := dimension;
      blocks := [];
    }

    /** `addBlock`: appends at the end and leaves earlier blocks alone. */
    method AddBlock(block: VectorBlockMetadata)
      modifies this
      ensures blocks == old(blocks) + [block]
      ensures vectorDimension == old(vectorDimension)
    {
      blocks := blocks + [block];
    }

    method SetVectorDimension(dimension: Int32)
      modifies this
      ensures vectorDimension == dimension && blocks == old(blocks)
    {
      vectorDimension := dimension;
    }

    /** `write`. */
    method Write() returns (out: seq<Byte>)
      requires WritableBlocks(blocks)
      ensures out == EncodeIndex(vectorDimension, blocks)
    {
      var bs := blocks;
      var header := EncodeInt(vectorDimension) + EncodeInt(|bs|);
      var body: seq<Byte> := [];
      for i := 0 to |bs|
        invariant body == EncodeBlocks(bs[..i])
      {
        var encoded := WriteBlock(bs[i]);
        assert bs[..i + 1] == bs[..i] + [bs[i]];
        EncodeBlocksAppend(bs[..i], bs[i]);
        body := body + encoded;
      }
      assert bs[..|bs|] == bs;
      out := header + body;
    }

    /** `readFields`: each field is overwritten as soon as it is read, so a
        failure part-way leaves the fields read before it in place. */
    method ReadFields(s: seq<Byte>) returns (outcome: Result<seq<Byte>>)
      modifies this
      ensures var d := DecodeIndex(s);
        outcome == d.outcome &&
        vectorDimension == (if d.dimension.Some? then d.dimension.value else old(vectorDimension)) &&
        blocks == (if d.blocks.Some? then d.blocks.value else old(blocks))
    {
      var dimension :- ReadInt(s);
      vectorDimension := dimension.0;
      var count :- ReadInt(dimension.1);
      if count.0 < 0 {
        return Err(IllegalArgument);
      }
      var read, result := ReadMany(count.1, count.0, DecodeBlock);
      blocks := read;
      outcome := result;
    }
  }
}
