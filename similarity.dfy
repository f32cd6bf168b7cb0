/**
 * The similarity scores the search ranks by, and the ranking itself. The
 * iterator and the staging buffer score a candidate against the query with
 * the same float loops: a dot product, or a cosine built from a dot product
 * and two squared norms. The loops, the dimension check and the zero-norm
 * check are modelled; each rounded float step is a parameter (`FloatOps`).
 * Scores are float bit patterns, so `>=` is false on NaN as in Java, and
 * ranking follows `Float.compare`'s total order.
 */
module Similarity {
  import opened Wrappers
  import opened Bytes
  import opened Floats
  import opened Sorting
  import opened ValueTypes

  /** `VectorIterator.SimilarityType`. */
  datatype SimilarityType = Cosine | DotProduct

  /** The rounded float operations of the loops:
      `addProduct(acc, x, y)` is `acc += x * y` (the product rounded to float,
      then the sum); `quotient(dot, n1, n2)` is
      `dot / (float) (Math.sqrt(n1) * Math.sqrt(n2))`; `half(t)` is `t * 0.5f`. */
  datatype FloatOps = FloatOps(
    addProduct: (Bits32, Bits32, Bits32) -> Bits32,
    quotient: (Bits32, Bits32, Bits32) -> Bits32,
    half: Bits32 -> Bits32)

  /** What IEEE 754 guarantees of `0.0f + 0.0f * 0.0f`. */
  predicate ZeroStaysZero(ops: FloatOps)
  {
    ops.addProduct(POSITIVE_ZERO, POSITIVE_ZERO, POSITIVE_ZERO) == POSITIVE_ZERO
  }

  /** The accumulator `sum += a[i] * b[i]` after the first n positions, from 0.0f. */
  function DotPrefix(ops: FloatOps, a: Vector, b: Vector, n: nat): Bits32
    requires n <= |a| && n <= |b|
  {
    if n == 0 then POSITIVE_ZERO
    else ops.addProduct(DotPrefix(ops, a, b, n - 1), a[n - 1], b[n - 1])
  }

  function Dot(ops: FloatOps, a: Vector, b: Vector): Bits32
    requires |a| == |b|
  {
    DotPrefix(ops, a, b, |a|)
  }

  /** The score of two vectors of equal length. */
  function Score(t: SimilarityType, ops: FloatOps, a: Vector, b: Vector): Bits32
    requires |a| == |b|
  {
    match t
    case DotProduct => Dot(ops, a, b)
    case Cosine =>
      var n1 := Dot(ops, a, a);
      var n2 := Dot(ops, b, b);
      if IsZero(n1) || IsZero(n2) then POSITIVE_ZERO
      else ops.quotient(Dot(ops, a, b), n1, n2)
  }

  /** `computeSimilarity`: vectors of different lengths are refused with an
      `IllegalArgumentException`; a cosine against a vector whose squared norm
      is zero (either zero) is 0.0f. */
  function ComputeSimilarity(t: SimilarityType, ops: FloatOps, a: Vector, b: Vector): (r: Result<Bits32>)
    ensures r.Ok? <==> |a| == |b|
    ensures r.Err? ==> r.error == IllegalArgument
    ensures r.Ok? && t == DotProduct ==> r.value == Dot(ops, a, b)
    ensures r.Ok? && t == Cosine && (IsZero(Dot(ops, a, a)) || IsZero(Dot(ops, b, b))) ==> r.value == POSITIVE_ZERO
  {
    if |a| != |b| then Err(IllegalArgument) else Ok(Score(t, ops, a, b))
  }

  lemma {:induction false} ZeroVectorNorm(ops: FloatOps, a: Vector, n: nat)
    requires ZeroStaysZero(ops)
    requires n <= |a|
    requires forall i :: 0 <= i < |a| ==> a[i] == POSITIVE_ZERO
    ensures DotPrefix(ops, a, a, n) == POSITIVE_ZERO
  {
    if n > 0 {
      ZeroVectorNorm(ops, a, n - 1);
    }
  }

  /** An all-zero vector scores 0.0f by cosine against any vector of its
      length, on either side, whatever the other's entries (even NaN). */
  lemma ZeroVectorCosine(ops: FloatOps, zero: Vector, v: Vector)
    requires ZeroStaysZero(ops)
    requires |zero| == |v|
    requires forall i :: 0 <= i < |zero| ==> zero[i] == POSITIVE_ZERO
    ensures ComputeSimilarity(Cosine, ops, zero, v) == Ok(POSITIVE_ZERO)
    ensures ComputeSimilarity(Cosine, ops, v, zero) == Ok(POSITIVE_ZERO)
  {
    ZeroVectorNorm(ops, zero, |zero|);
  }

  /** The loop of `computeDotProduct`. */
  method DotProductOf(ops: FloatOps, a: Vector, b: Vector) returns (sum: Bits32)
    requires |a| == |b|
    ensures sum == Dot(ops, a, b)
  {
    sum := POSITIVE_ZERO;
    for i := 0 to |a|
      invariant sum == DotPrefix(ops, a, b, i)
    {
      sum := ops.addProduct(sum, a[i], b[i]);
    }
  }

  /** `computeCosineSimilarity`: one loop accumulates all three sums. */
  method CosineSimilarityOf(ops: FloatOps, a: Vector, b: Vector) returns (score: Bits32)
    requires |a| == |b|
    ensures score == Score(Cosine, ops, a, b)
  {
    var dot, norm1, norm2 := POSITIVE_ZERO, POSITIVE_ZERO, POSITIVE_ZERO;
    for i := 0 to |a|
      invariant dot == DotPrefix(ops, a, b, i)
      invariant norm1 == DotPrefix(ops, a, a, i)
      invariant norm2 == DotPrefix(ops, b, b, i)
    {
      dot := ops.addProduct(dot, a[i], b[i]);
      norm1 := ops.addProduct(norm1, a[i], a[i]);
      norm2 := ops.addProduct(norm2, b[i], b[i]);
    }
    if IsZero(norm1) || IsZero(norm2) {
      return POSITIVE_ZERO;
    }
    score := ops.quotient(dot, norm1, norm2);
  }

  /** `computeSimilarity` with its two loops. */
  method SimilarityOf(t: SimilarityType, ops: FloatOps, a: Vector, b: Vector) returns (r: Result<Bits32>)
    ensures r == ComputeSimilarity(t, ops, a, b)
  {
    if |a| != |b| {
      return Err(IllegalArgument);
    }
    var score: Bits32;
    if t == Cosine {
      score := CosineSimilarityOf(ops, a, b);
    } else {
      score := DotProductOf(ops, a, b);
    }
    r := Ok(score);
  }

  // ---------------------------------------------------------------- results and ranking

  /** A `Key`: its column visibility bytes, and the rest of it (row, family,
      qualifier, timestamp), which the search only copies. */
  datatype Key = Key(cells: seq<Byte>, visibility: seq<Byte>)

  /** A stored `Value`: its type tag and, for a vector value, the floats it holds. */
  datatype StoredValue = StoredValue(valueType: ValueType, vector: Vector)

  /** `VectorIterator.SimilarityResult`. */
  datatype SimilarityResult = SimilarityResult(key: Key, value: StoredValue, similarity: Bits32)

  /** The sort key of a descending `Float.compare` sort. */
  function Descending(r: SimilarityResult): real
  {
    -(CompareOrder(r.similarity) as real)
  }

  /** Non-increasing similarity in `Float.compare` order. */
  ghost predicate NonIncreasing(s: seq<SimilarityResult>)
  {
    forall i, j :: 0 <= i < j < |s| ==> CompareOrder(s[i].similarity) >= CompareOrder(s[j].similarity)
  }

  /** In a ranking, a +0.0 score never follows a -0.0 score, positive
      infinity never precedes a NaN score, and NaN scores rank alike. */
  lemma {:induction false} RankingSpecialScores(s: seq<SimilarityResult>)
    requires NonIncreasing(s)
    ensures forall i, j :: 0 <= i < j < |s| && s[i].similarity == NEGATIVE_ZERO ==> s[j].similarity != POSITIVE_ZERO
    ensures forall i, j :: 0 <= i < j < |s| && s[i].similarity == 0x7f80_0000 ==> !IsNaN(s[j].similarity)
  {
    CompareOrderExamples();
  }

  /** The first k of a sequence sorted by descending score are in
      non-increasing order and are drawn from it. */
  lemma TakeOfSorted(sorted: seq<SimilarityResult>, k: nat)
    requires SortedBy(sorted, Descending)
    ensures multiset(Take(sorted, k)) <= multiset(sorted)
    ensures NonIncreasing(Take(sorted, k))
  {
    var r := Take(sorted, k);
    assert sorted == r + sorted[|r|..];
    assert multiset(sorted) == multiset(r) + multiset(sorted[|r|..]);
    forall i, j | 0 <= i < j < |r|
      ensures CompareOrder(r[i].similarity) >= CompareOrder(r[j].similarity)
    {
      assert Descending(sorted[i]) <= Descending(sorted[j]);
    }
  }

  /** Sort descending by similarity (stably), then keep the first k. */
  function Rank(results: seq<SimilarityResult>, k: nat): (r: seq<SimilarityResult>)
    ensures |r| == (if |results| < k then |results| else k)
    ensures multiset(r) <= multiset(results)
    ensures NonIncreasing(r)
  {
    var sorted := SortBy(results, Descending);
    TakeOfSorted(sorted, k);
    Take(sorted, k)
  }

  /** In a sequence sorted by descending score, what lies beyond the first m
      scores no higher than anything among them. */
  lemma {:induction false} SortedPrefixIsBest(sorted: seq<SimilarityResult>, m: nat, x: SimilarityResult, i: int)
    requires SortedBy(sorted, Descending)
    requires m <= |sorted| && 0 <= i < m
    requires x in multiset(sorted) - multiset(sorted[..m])
    ensures CompareOrder(x.similarity) <= CompareOrder(sorted[i].similarity)
  {
    assert sorted == sorted[..m] + sorted[m..];
    assert multiset(sorted) == multiset(sorted[..m]) + multiset(sorted[m..]);
    assert x in multiset(sorted[m..]);
    var j :| 0 <= j < |sorted| - m && sorted[m..][j] == x;
    assert sorted[m + j] == x;
    assert Descending(sorted[i]) <= Descending(sorted[m + j]);
  }

  /** A result `Rank` drops scores no higher than any result it keeps. */
  lemma RankKeepsTheBest(results: seq<SimilarityResult>, k: nat, x: SimilarityResult, i: int)
    requires x in multiset(results) - multiset(Rank(results, k))
    requires 0 <= i < |Rank(results, k)|
    ensures CompareOrder(x.similarity) <= CompareOrder(Rank(results, k)[i].similarity)
  {
    var sorted := SortBy(results, Descending);
    var r := Rank(results, k);
    assert r == sorted[..|r|];
    SortedPrefixIsBest(sorted, |r|, x, i);
  }

  /** Every ranked result comes from the input, so what holds of every input holds of it. */
  lemma RankedFromInput(results: seq<SimilarityResult>, k: nat, x: SimilarityResult)
    requires x in Rank(results, k)
    ensures x in results
  {
    assert x in multiset(Rank(results, k));
  }
}
