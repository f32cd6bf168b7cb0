/**
 * Length-prefixed arrays on a `DataOutput`/`DataInput` stream, as the index
 * and the footer lay them out: `writeInt(length)` followed by the elements,
 * each `writeFloat` (the bits of `floatToIntBits`) or `writeInt`. Reading
 * allocates the array before filling it, so a negative length fails with
 * `NegativeArraySize`, and a stream that ends early with `EndOfStream`.
 */
module Streams {
  import opened Wrappers
  import opened Bytes
  import opened Floats

  lemma SliceOfAppend<T>(s: seq<T>, rest: seq<T>, lo: int, hi: int)
    requires 0 <= lo <= hi <= |s|
    ensures (s + rest)[lo..hi] == s[lo..hi]
  {
  }

  lemma DropOfAppend<T>(s: seq<T>, rest: seq<T>)
    ensures (s + rest)[|s|..] == rest
  {
  }

  // ---------------------------------------------------------------- floats

  /** The elements of a float array, four octets each. */
  function EncodeFloats(v: Vector): (r: seq<Byte>)
    ensures |r| == 4 * |v|
  {
    if v == [] then []
    else EncodeFloats(v[..|v| - 1]) + EncodeWord(FloatToIntBits(v[|v| - 1]))
  }

  function EncodeFloatArray(v: Vector): (r: seq<Byte>)
    requires |v| <= MAX_INT32
    ensures |r| == 4 + 4 * |v|
  {
    EncodeInt(|v|) + EncodeFloats(v)
  }

  /** `n` floats read one after another. */
  function DecodeFloats(s: seq<Byte>, n: nat): (r: Result<(Vector, seq<Byte>)>)
    ensures r.Ok? <==> |s| >= 4 * n
    ensures r.Err? ==> r.error == EndOfStream
    ensures r.Ok? ==> |r.value.0| == n && r.value.1 == s[4 * n..]
  {
    if |s| < 4 * n then Err(EndOfStream)
    else
      assert Pow256(4) == 0x1_0000_0000;
      Ok((seq(n, i requires 0 <= i < n => FromBigEndian(s[4 * i..4 * i + 4]) as Bits32), s[4 * n..]))
  }

  function DecodeFloatArray(s: seq<Byte>): Result<(Vector, seq<Byte>)>
  {
    var (len, rest) :- ReadInt(s);
    if len < 0 then Err(NegativeArraySize) else DecodeFloats(rest, len)
  }

  /** The i-th float occupies octets 4i..4i+4. */
  lemma {:induction false} EncodeFloatsAt(v: Vector, i: int)
    requires 0 <= i < |v|
    ensures EncodeFloats(v)[4 * i..4 * i + 4] == EncodeWord(FloatToIntBits(v[i]))
  {
    var prefix := v[..|v| - 1];
    if i < |v| - 1 {
      EncodeFloatsAt(prefix, i);
      assert EncodeFloats(v)[4 * i..4 * i + 4] == EncodeFloats(prefix)[4 * i..4 * i + 4];
    }
  }

  lemma FloatAt(v: Vector, rest: seq<Byte>, i: int)
    requires CanonicalVector(v) && 0 <= i < |v|
    ensures FromBigEndian((EncodeFloats(v) + rest)[4 * i..4 * i + 4]) == v[i]
  {
    SliceOfAppend(EncodeFloats(v), rest, 4 * i, 4 * i + 4);
    EncodeFloatsAt(v, i);
    WordDecodes(FloatToIntBits(v[i]));
  }

  lemma FloatsRoundTrip(v: Vector, rest: seq<Byte>)
    requires CanonicalVector(v)
    ensures DecodeFloats(EncodeFloats(v) + rest, |v|) == Ok((v, rest))
  {
    var s := EncodeFloats(v) + rest;
    var r := DecodeFloats(s, |v|);
    assert s[4 * |v|..] == rest;
    forall i | 0 <= i < |v| ensures r.value.0[i] == v[i] {
      FloatAt(v, rest, i);
    }
    assert r.value.0 == v;
  }

  /** A float array read back is the array written, when its NaNs are canonical. */
  lemma FloatArrayRoundTrip(v: Vector, rest: seq<Byte>)
    requires CanonicalVector(v) && |v| <= MAX_INT32
    ensures DecodeFloatArray(EncodeFloatArray(v) + rest) == Ok((v, rest))
  {
    assert EncodeFloatArray(v) + rest == EncodeInt(|v|) + (EncodeFloats(v) + rest);
    IntRoundTrip(|v|, EncodeFloats(v) + rest);
    FloatsRoundTrip(v, rest);
  }

  /** The `writeInt(length)` then `writeFloat` loop. */
  method WriteFloatArray(v: Vector) returns (out: seq<Byte>)
    requires |v| <= MAX_INT32
    ensures out == EncodeFloatArray(v)
  {
    out := EncodeInt(|v|);
    for i := 0 to |v|
      invariant out == EncodeInt(|v|) + EncodeFloats(v[..i])
    {
      assert v[..i + 1][..i] == v[..i];
      out := out + EncodeWord(FloatToIntBits(v[i]));
    }
    assert v[..|v|] == v;
  }

  /** The `readInt()` / `new float[n]` / `readFloat` loop. */
  method ReadFloatArray(s: seq<Byte>) returns (r: Result<(Vector, seq<Byte>)>)
    ensures r == DecodeFloatArray(s)
  {
    var header :- ReadInt(s);
    var len, start := header.0, header.1;
    if len < 0 {
      return Err(NegativeArraySize);
    }
    var values := new Bits32[len];
    var rest := start;
    for i := 0 to len
      invariant 4 * i <= |start| && rest == start[4 * i..]
      invariant forall j :: 0 <= j < i ==> values[j] == FromBigEndian(start[4 * j..4 * j + 4])
    {
      if |rest| < 4 {
        assert DecodeFloats(start, len).Err?;
        return Err(EndOfStream);
      }
      assert rest[..4] == start[4 * i..4 * i + 4];
      assert Pow256(4) == 0x1_0000_0000;
      values[i] := FromBigEndian(rest[..4]);
      rest := rest[4..];
    }
    r := Ok((values[..], rest));
    assert values[..] == DecodeFloats(start, len).value.0;
  }

  // ---------------------------------------------------------------- ints

  function EncodeInts(v: seq<Int32>): (r: seq<Byte>)
    ensures |r| == 4 * |v|
  {
    if v == [] then []
    else EncodeInts(v[..|v| - 1]) + EncodeInt(v[|v| - 1])
  }

  function EncodeIntArray(v: seq<Int32>): (r: seq<Byte>)
    requires |v| <= MAX_INT32
    ensures |r| == 4 + 4 * |v|
  {
    EncodeInt(|v|) + EncodeInts(v)
  }

  function DecodeInts(s: seq<Byte>, n: nat): (r: Result<(seq<Int32>, seq<Byte>)>)
    ensures r.Ok? <==> |s| >= 4 * n
    ensures r.Err? ==> r.error == EndOfStream
    ensures r.Ok? ==> |r.value.0| == n && r.value.1 == s[4 * n..]
  {
    if |s| < 4 * n then Err(EndOfStream)
    else
      assert Pow256(4) == 0x1_0000_0000;
      Ok((seq(n, i requires 0 <= i < n => IntAt4(s, i)), s[4 * n..]))
  }

  /** The int stored at octets 4i..4i+4. */
  function IntAt4(s: seq<Byte>, i: nat): Int32
    requires 4 * i + 4 <= |s|
  {
    assert Pow256(4) == 0x1_0000_0000;
    Signed32(FromBigEndian(s[4 * i..4 * i + 4]))
  }

  function DecodeIntArray(s: seq<Byte>): Result<(seq<Int32>, seq<Byte>)>
  {
    var (len, rest) :- ReadInt(s);
    if len < 0 then Err(NegativeArraySize) else DecodeInts(rest, len)
  }

  lemma {:induction false} EncodeIntsAt(v: seq<Int32>, i: int)
    requires 0 <= i < |v|
    ensures EncodeInts(v)[4 * i..4 * i + 4] == EncodeInt(v[i])
  {
    var prefix := v[..|v| - 1];
    if i < |v| - 1 {
      EncodeIntsAt(prefix, i);
      assert EncodeInts(v)[4 * i..4 * i + 4] == EncodeInts(prefix)[4 * i..4 * i + 4];
    }
  }

  lemma IntAt(v: seq<Int32>, rest: seq<Byte>, i: int)
    requires 0 <= i < |v|
    ensures IntAt4(EncodeInts(v) + rest, i) == v[i]
  {
    SliceOfAppend(EncodeInts(v), rest, 4 * i, 4 * i + 4);
    EncodeIntsAt(v, i);
    IntDecodes(v[i]);
  }

  lemma IntsDecodeValues(v: seq<Int32>, rest: seq<Byte>, decoded: seq<Int32>)
    requires |decoded| == |v| && 4 * |v| <= |EncodeInts(v) + rest|
    requires forall i :: 0 <= i < |v| ==> decoded[i] == IntAt4(EncodeInts(v) + rest, i)
    ensures decoded == v
  {
    forall i | 0 <= i < |v| ensures decoded[i] == v[i] {
      IntAt(v, rest, i);
    }
  }

  lemma IntsRoundTrip(v: seq<Int32>, rest: seq<Byte>)
    ensures DecodeInts(EncodeInts(v) + rest, |v|) == Ok((v, rest))
  {
    var s := EncodeInts(v) + rest;
    var r := DecodeInts(s, |v|);
    assert r.Ok? && r.value.1 == rest by {
      DropOfAppend(EncodeInts(v), rest);
    }
    assert r.value.0 == v by {
      IntsDecodeValues(v, rest, r.value.0);
    }
  }

  lemma IntArrayRoundTrip(v: seq<Int32>, rest: seq<Byte>)
    requires |v| <= MAX_INT32
    ensures DecodeIntArray(EncodeIntArray(v) + rest) == Ok((v, rest))
  {
    assert EncodeIntArray(v) + rest == EncodeInt(|v|) + (EncodeInts(v) + rest);
    IntRoundTrip(|v|, EncodeInts(v) + rest);
    IntsRoundTrip(v, rest);
  }

  method WriteIntArray(v: seq<Int32>) returns (out: seq<Byte>)
    requires |v| <= MAX_INT32
    ensures out == EncodeIntArray(v)
  {
    out := EncodeInt(|v|);
    for i := 0 to |v|
      invariant out == EncodeInt(|v|) + EncodeInts(v[..i])
    {
      assert v[..i + 1][..i] == v[..i];
      out := out + EncodeInt(v[i]);
    }
    assert v[..|v|] == v;
  }

  method ReadIntArray(s: seq<Byte>) returns (r: Result<(seq<Int32>, seq<Byte>)>)
    ensures r == DecodeIntArray(s)
  {
    var header :- ReadInt(s);
    var len, start := header.0, header.1;
    if len < 0 {
      return Err(NegativeArraySize);
    }
    var values := new Int32[len];
    var rest := start;
    for i := 0 to len
      invariant 4 * i <= |start| && rest == start[4 * i..]
      invariant forall j :: 0 <= j < i ==> values[j] == IntAt4(start, j)
    {
      if |rest| < 4 {
        assert DecodeInts(start, len).Err?;
        return Err(EndOfStream);
      }
      assert rest[..4] == start[4 * i..4 * i + 4];
      assert Pow256(4) == 0x1_0000_0000;
      values[i] := Signed32(FromBigEndian(rest[..4]));
      rest := rest[4..];
    }
    r := Ok((values[..], rest));
    assert values[..] == DecodeInts(start, len).value.0;
  }

  // ---------------------------------------------------------------- repeated records

  /** Up to `n` records read in order by `decode`: the records read, and
      either the rest of the stream or the error that stopped the reading. */
  function DecodeMany<T>(s: seq<Byte>, n: nat, decode: seq<Byte> -> Result<(T, seq<Byte>)>): (r: (seq<T>, Result<seq<Byte>>))
    ensures |r.0| <= n
    ensures r.1.Ok? ==> |r.0| == n
    decreases n
  {
    if n == 0 then ([], Ok(s))
    else
      match decode(s)
      case Err(e) => ([], Err(e))
      case Ok((x, rest)) =>
        var (xs, outcome) := DecodeMany(rest, n - 1, decode);
        ([x] + xs, outcome)
  }

  /** One step of `DecodeMany`: the first item, then the rest. */
  lemma DecodeManyStep<T>(s: seq<Byte>, n: nat, decode: seq<Byte> -> Result<(T, seq<Byte>)>, x: T, rest: seq<Byte>)
    requires n > 0 && decode(s) == Ok((x, rest))
    ensures DecodeMany(s, n, decode) == ([x] + DecodeMany(rest, n - 1, decode).0, DecodeMany(rest, n - 1, decode).1)
  {
  }

  /** The loop `for (i = 0; i < n; i++) xs[i] = read(in)`. */
  method ReadMany<T>(s: seq<Byte>, n: nat, decode: seq<Byte> -> Result<(T, seq<Byte>)>) returns (xs: seq<T>, outcome: Result<seq<Byte>>)
    ensures (xs, outcome) == DecodeMany(s, n, decode)
  {
    xs := [];
    var rest := s;
    assert xs + DecodeMany(s, n, decode).0 == DecodeMany(s, n, decode).0;
    for i := 0 to n
      invariant |xs| == i
      invariant DecodeMany(s, n, decode) == (xs + DecodeMany(rest, n - i, decode).0, DecodeMany(rest, n - i, decode).1)
    {
      var x := decode(rest);
      if x.Err? {
        assert xs + [] == xs;
        return xs, Err(x.error);
      }
      ghost var next := DecodeMany(x.value.1, n - i - 1, decode);
      assert xs + ([x.value.0] + next.0) == (xs + [x.value.0]) + next.0;
      xs := xs + [x.value.0];
      rest := x.value.1;
    }
    assert xs + [] == xs;
    outcome := Ok(rest);
  }

  /** Float arrays one after another, each length-prefixed. */
  function EncodeFloatArrays(vs: seq<Vector>): seq<Byte>
    requires forall i :: 0 <= i < |vs| ==> |vs[i]| <= MAX_INT32
  {
    if vs == [] then [] else EncodeFloatArray(vs[0]) + EncodeFloatArrays(vs[1..])
  }

  lemma {:induction false} EncodeFloatArraysAppend(vs: seq<Vector>, v: Vector)
    requires forall i :: 0 <= i < |vs| ==> |vs[i]| <= MAX_INT32
    requires |v| <= MAX_INT32
    ensures EncodeFloatArrays(vs + [v]) == EncodeFloatArrays(vs) + EncodeFloatArray(v)
  {
    if vs != [] {
      assert (vs + [v])[1..] == vs[1..] + [v];
      EncodeFloatArraysAppend(vs[1..], v);
    }
  }

  /** Float arrays read back one after another are the arrays written. */
  lemma {:induction false} FloatArraysRoundTrip(vs: seq<Vector>, rest: seq<Byte>)
    requires forall i :: 0 <= i < |vs| ==> |vs[i]| <= MAX_INT32 && CanonicalVector(vs[i])
    ensures DecodeMany(EncodeFloatArrays(vs) + rest, |vs|, DecodeFloatArray) == (vs, Ok(rest))
  {
    if vs != [] {
      var tail := EncodeFloatArrays(vs[1..]) + rest;
      assert EncodeFloatArrays(vs) + rest == EncodeFloatArray(vs[0]) + tail;
      FloatArrayRoundTrip(vs[0], tail);
      DecodeManyStep(EncodeFloatArrays(vs) + rest, |vs|, DecodeFloatArray, vs[0], tail);
      assert forall i :: 0 <= i < |vs| - 1 ==> vs[1..][i] == vs[i + 1];
      FloatArraysRoundTrip(vs[1..], rest);
      assert [vs[0]] + vs[1..] == vs;
    } else {
      assert EncodeFloatArrays(vs) + rest == rest;
    }
  }

  /** The loop writing each float array in turn. */
  method WriteFloatArrays(vs: seq<Vector>) returns (out: seq<Byte>)
    requires forall i :: 0 <= i < |vs| ==> |vs[i]| <= MAX_INT32
    ensures out == EncodeFloatArrays(vs)
  {
    out := [];
    for i := 0 to |vs|
      invariant out == EncodeFloatArrays(vs[..i])
    {
      var encoded := WriteFloatArray(vs[i]);
      assert EncodeFloatArrays(vs[..i + 1]) == EncodeFloatArrays(vs[..i]) + encoded by {
        assert vs[..i + 1] == vs[..i] + [vs[i]];
        EncodeFloatArraysAppend(vs[..i], vs[i]);
      }
      out := out + encoded;
    }
    assert vs[..|vs|] == vs;
  }

  /** Int arrays one after another, each length-prefixed. */
  function EncodeIntArrays(vs: seq<seq<Int32>>): seq<Byte>
    requires forall i :: 0 <= i < |vs| ==> |vs[i]| <= MAX_INT32
  {
    if vs == [] then [] else EncodeIntArray(vs[0]) + EncodeIntArrays(vs[1..])
  }

  lemma {:induction false} EncodeIntArraysAppend(vs: seq<seq<Int32>>, v: seq<Int32>)
    requires forall i :: 0 <= i < |vs| ==> |vs[i]| <= MAX_INT32
    requires |v| <= MAX_INT32
    ensures EncodeIntArrays(vs + [v]) == EncodeIntArrays(vs) + EncodeIntArray(v)
  {
    if vs != [] {
      assert (vs + [v])[1..] == vs[1..] + [v];
      EncodeIntArraysAppend(vs[1..], v);
    }
  }

  lemma {:induction false} IntArraysRoundTrip(vs: seq<seq<Int32>>, rest: seq<Byte>)
    requires forall i :: 0 <= i < |vs| ==> |vs[i]| <= MAX_INT32
    ensures DecodeMany(EncodeIntArrays(vs) + rest, |vs|, DecodeIntArray) == (vs, Ok(rest))
  {
    if vs != [] {
      var tail := EncodeIntArrays(vs[1..]) + rest;
      assert EncodeIntArrays(vs) + rest == EncodeIntArray(vs[0]) + tail;
      IntArrayRoundTrip(vs[0], tail);
      DecodeManyStep(EncodeIntArrays(vs) + rest, |vs|, DecodeIntArray, vs[0], tail);
      assert forall i :: 0 <= i < |vs| - 1 ==> vs[1..][i] == vs[i + 1];
      IntArraysRoundTrip(vs[1..], rest);
      assert [vs[0]] + vs[1..] == vs;
    } else {
      assert EncodeIntArrays(vs) + rest == rest;
    }
  }

  method WriteIntArrays(vs: seq<seq<Int32>>) returns (out: seq<Byte>)
    requires forall i :: 0 <= i < |vs| ==> |vs[i]| <= MAX_INT32
    ensures out == EncodeIntArrays(vs)
  {
    out := [];
    for i := 0 to |vs|
      invariant out == EncodeIntArrays(vs[..i])
    {
      var encoded := WriteIntArray(vs[i]);
      assert EncodeIntArrays(vs[..i + 1]) == EncodeIntArrays(vs[..i]) + encoded by {
        assert vs[..i + 1] == vs[..i] + [vs[i]];
        EncodeIntArraysAppend(vs[..i], vs[i]);
      }
      out := out + encoded;
    }
    assert vs[..|vs|] == vs;
  }
}
