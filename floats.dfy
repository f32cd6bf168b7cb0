/**
 * IEEE 754 binary32 values as the 32-bit patterns Java stores. Only what the
 * core relies on is interpreted: which patterns are NaN, infinite or finite,
 * the exact number a finite pattern denotes, the `<` comparison, and the
 * canonicalisation `Float.floatToIntBits` applies before `writeFloat`.
 * Rounded arithmetic is not interpreted here.
 */
module Floats {
  import opened Bytes

  /** The bits of a Java `float`. */
  type Bits32 = Word

  /** A Java `float[]`. */
  type Vector = seq<Bits32>

  const POSITIVE_ZERO: Bits32 := 0
  /** `Float.MIN_VALUE`, the smallest positive subnormal, 2^-149. */
  const MIN_VALUE: Bits32 := 0x0000_0001
  /** `Float.MAX_VALUE`, (2 - 2^-23) * 2^127. */
  const MAX_VALUE: Bits32 := 0x7f7f_ffff
  /** The NaN pattern `floatToIntBits` maps every NaN to. */
  const CANONICAL_NAN: Bits32 := 0x7fc0_0000

  function Exponent(w: Bits32): int { (w / 0x80_0000) % 256 }
  function Mantissa(w: Bits32): int { w % 0x80_0000 }
  predicate SignBit(w: Bits32) { w >= 0x8000_0000 }

  predicate IsNaN(w: Bits32) { Exponent(w) == 255 && Mantissa(w) != 0 }
  predicate IsInfinite(w: Bits32) { Exponent(w) == 255 && Mantissa(w) == 0 }
  predicate IsFinite(w: Bits32) { Exponent(w) != 255 }

  function Pow2(n: nat): (r: nat)
    ensures r >= 1
  {
    if n == 0 then 1 else 2 * Pow2(n - 1)
  }

  /** 2^e as a real, for any integer e. */
  function Scale(e: int): (r: real)
    ensures r > 0.0
  {
    if e >= 0 then Pow2(e) as real else 1.0 / Pow2(-e) as real
  }

  /** The absolute value a finite pattern denotes (subnormal or normal). */
  function Magnitude(w: Bits32): (r: real)
    requires IsFinite(w)
    ensures r >= 0.0
  {
    var e := Exponent(w);
    // a subnormal (e == 0) has no implicit leading bit and the exponent of e == 1
    var significand := if e == 0 then Mantissa(w) else 0x80_0000 + Mantissa(w);
    significand as real * Scale((if e == 0 then 1 else e) - 150)
  }

  /** The exact number a finite pattern denotes. */
  function Value(w: Bits32): real
    requires IsFinite(w)
  {
    if SignBit(w) then -Magnitude(w) else Magnitude(w)
  }

  /** Java's `a < b` on floats: false when either side is NaN. */
  predicate Less(a: Bits32, b: Bits32)
  {
    if IsNaN(a) || IsNaN(b) then false
    else if IsInfinite(a) then SignBit(a) && !(IsInfinite(b) && SignBit(b))
    else if IsInfinite(b) then !SignBit(b)
    else Value(a) < Value(b)
  }

  /** Java's `a - b == 0.0f`: for finite operands the difference is exactly zero
      iff they denote the same number; an infinite or NaN operand never gives 0. */
  predicate DifferenceIsZero(a: Bits32, b: Bits32)
  {
    IsFinite(a) && IsFinite(b) && Value(a) == Value(b)
  }

  /** `Float.floatToIntBits`: every NaN becomes the canonical NaN. */
  function FloatToIntBits(w: Bits32): (r: Bits32)
    ensures !IsNaN(w) ==> r == w
    ensures IsNaN(w) ==> r == CANONICAL_NAN
  {
    if IsNaN(w) then CANONICAL_NAN else w
  }

  /** A pattern that survives `writeFloat`/`readFloat` unchanged. */
  predicate Canonical(w: Bits32) { !IsNaN(w) || w == CANONICAL_NAN }

  predicate CanonicalVector(v: Vector) { forall i :: 0 <= i < |v| ==> Canonical(v[i]) }

  /** `-0.0f`. */
  const NEGATIVE_ZERO: Bits32 := 0x8000_0000

  /** Java's `w == 0.0f`: true for both zeros. */
  predicate IsZero(w: Bits32) { w == POSITIVE_ZERO || w == NEGATIVE_ZERO }

  /** Java's `a >= b` on floats: false when either side is NaN. */
  predicate AtLeast(a: Bits32, b: Bits32)
  {
    !IsNaN(a) && !IsNaN(b) && !Less(a, b)
  }

  /** The rank `Float.compare` (and `Double.compare` on a widened float)
      orders by: the `floatToIntBits` pattern read as a signed int, with the
      negative half reversed, so that -0.0 comes before 0.0 and NaN after
      every other value. */
  function CompareOrder(w: Bits32): (r: int)
    ensures -0x8000_0000 <= r < 0x8000_0000
  {
    var c := FloatToIntBits(w);
    if c < 0x8000_0000 then c else 0x7fff_ffff - c
  }

  /** `-Float.MAX_VALUE`. */
  const NEGATIVE_MAX_VALUE: Bits32 := 0xff7f_ffff

  lemma {:induction false} ScaleStep(e: int)
    ensures Scale(e + 1) == 2.0 * Scale(e)
  {
    if e < -1 {
      assert Pow2(-e) == 2 * Pow2(-e - 1);
    }
  }

  lemma {:induction false} ScaleMonotone(e1: int, e2: int)
    requires e1 <= e2
    ensures Scale(e1) <= Scale(e2)
    decreases e2 - e1
  {
    if e1 < e2 {
      ScaleStep(e2 - 1);
      ScaleMonotone(e1, e2 - 1);
    }
  }

  lemma MulMonotone(a: real, b: real, s: real, t: real)
    requires 0.0 <= a <= b && 0.0 <= s <= t
    ensures a * s <= b * t
  {
    assert a * s <= b * s;
    assert b * s <= b * t;
  }

  lemma MaxValueParts()
    ensures IsFinite(MAX_VALUE) && !SignBit(MAX_VALUE)
    ensures Value(MAX_VALUE) == (0xff_ffff as real) * Scale(104)
    ensures IsFinite(NEGATIVE_MAX_VALUE) && SignBit(NEGATIVE_MAX_VALUE)
    ensures Value(NEGATIVE_MAX_VALUE) == -Value(MAX_VALUE)
  {
    assert Exponent(MAX_VALUE) == 254 && Mantissa(MAX_VALUE) == 0x7f_ffff;
    assert Exponent(NEGATIVE_MAX_VALUE) == 254 && Mantissa(NEGATIVE_MAX_VALUE) == 0x7f_ffff;
  }

  lemma ScaledBound(m: int, e: int)
    requires 0 <= m <= 0xff_ffff && e <= 104
    ensures (m as real) * Scale(e) <= (0xff_ffff as real) * Scale(104)
  {
    ScaleMonotone(e, 104);
    MulMonotone(m as real, 0xff_ffff as real, Scale(e), Scale(104));
  }

  lemma FieldBounds(w: Bits32)
    requires IsFinite(w)
    ensures 0 <= Mantissa(w) < 0x80_0000 && 0 <= Exponent(w) <= 254
  {
  }

  lemma MagnitudeBound(w: Bits32)
    requires IsFinite(w)
    ensures Magnitude(w) <= (0xff_ffff as real) * Scale(104)
  {
    FieldBounds(w);
    var e := Exponent(w);
    var significand := if e == 0 then Mantissa(w) else 0x80_0000 + Mantissa(w);
    var ex := (if e == 0 then 1 else e) - 150;
    assert Magnitude(w) == significand as real * Scale(ex);
    ScaledBound(significand, ex);
  }

  /** Every finite float lies within [-MAX_VALUE, MAX_VALUE]. */
  lemma FiniteWithinMax(w: Bits32)
    requires IsFinite(w)
    ensures IsFinite(MAX_VALUE) && IsFinite(NEGATIVE_MAX_VALUE)
    ensures Value(NEGATIVE_MAX_VALUE) == -Value(MAX_VALUE)
    ensures -Value(MAX_VALUE) <= Value(w) <= Value(MAX_VALUE)
  {
    MaxValueParts();
    MagnitudeBound(w);
  }

  /** Float.compare separates the two zeros and puts NaN above infinity. */
  lemma CompareOrderExamples()
    ensures CompareOrder(NEGATIVE_ZERO) < CompareOrder(POSITIVE_ZERO)
    ensures CompareOrder(0x7f80_0000) < CompareOrder(CANONICAL_NAN)
    ensures forall w :: IsNaN(w) ==> CompareOrder(w) == CompareOrder(CANONICAL_NAN)
  {
  }

  lemma MinValueIsPositive()
    ensures IsFinite(MIN_VALUE) && Value(MIN_VALUE) > 0.0
    ensures IsFinite(POSITIVE_ZERO) && Value(POSITIVE_ZERO) == 0.0
  {
  }
}
