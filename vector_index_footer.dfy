/**
 * The footer index used to prune blocks before a vector search: the
 * indexing-type tag, the cluster centroids over the blocks' own centroids,
 * each block's cluster ids, an opaque product-quantisation codebook, the
 * candidate-block filter and the footer's big-endian layout.
 */
module IndexFooter {
  import opened Wrappers
  import opened Bytes
  import opened Floats
  import opened Sorting
  import opened Streams
  import opened Clustering
  import ValueTypes

  // ---------------------------------------------------------------- indexing type

  datatype IndexingType = Flat | Ivf | Hierarchical | Pq

  /** The constants in declaration order, as `values()` returns them. */
  const AllIndexingTypes: seq<IndexingType> := [Flat, Ivf, Hierarchical, Pq]

  /** `IndexingType.getTypeId`. */
  function TypeId(t: IndexingType): JByte
  {
    match t
    case Flat => 0
    case Ivf => 1
    case Hierarchical => 2
    case Pq => 3
  }

  /** `IndexingType.fromTypeId`. */
  function FromTypeId(id: JByte): Result<IndexingType>
  {
    ValueTypes.FindById(AllIndexingTypes, id, TypeId)
  }

  /** The ids are 0, 1, 2 and 3, one per constant. */
  lemma TypeIdsAreDistinct()
    ensures TypeId(Flat) == 0 && TypeId(Ivf) == 1 && TypeId(Hierarchical) == 2 && TypeId(Pq) == 3
    ensures forall a, b :: TypeId(a) == TypeId(b) ==> a == b
  {
  }

  lemma FromTypeIdInvertsTypeId(t: IndexingType)
    ensures FromTypeId(TypeId(t)) == Ok(t)
  {
    assert AllIndexingTypes[1..] == [Ivf, Hierarchical, Pq];
    assert AllIndexingTypes[1..][1..] == [Hierarchical, Pq];
    assert AllIndexingTypes[1..][1..][1..] == [Pq];
  }

  /** Exactly the ids 0 to 3 decode, each to the constant carrying it; any
      other byte is rejected with IllegalArgument. */
  lemma FromTypeIdAccepts(id: JByte)
    ensures FromTypeId(id).Ok? <==> 0 <= id <= 3
    ensures FromTypeId(id).Ok? ==> TypeId(FromTypeId(id).value) == id
    ensures FromTypeId(id).Err? ==> FromTypeId(id).error == IllegalArgument
  {
    if id == 0 { FromTypeIdInvertsTypeId(Flat); }
    else if id == 1 { FromTypeIdInvertsTypeId(Ivf); }
    else if id == 2 { FromTypeIdInvertsTypeId(Hierarchical); }
    else if id == 3 { FromTypeIdInvertsTypeId(Pq); }
    else {
      assert forall t :: t in AllIndexingTypes ==> TypeId(t) != id;
    }
  }

  // ---------------------------------------------------------------- candidate blocks

  /** The blocks of `findCandidatesHierarchical`: in block order, each block
      whose first cluster id is among `nearest`. */
  function HierarchicalMatches(nearest: seq<int>, assignments: seq<seq<Int32>>): (r: seq<int>)
    ensures |r| <= |assignments|
  {
    if assignments == [] then []
    else
      var last := |assignments| - 1;
      var row := assignments[last];
      HierarchicalMatches(nearest, assignments[..last]) + (if |row| > 0 && row[0] in nearest then [last] else [])
  }

  /** How many of a block's cluster ids are among `nearest`. */
  function MatchCount(row: seq<Int32>, nearest: seq<int>): nat
  {
    if row == [] then 0
    else MatchCount(row[..|row| - 1], nearest) + (if row[|row| - 1] in nearest then 1 else 0)
  }

  /** Some cluster id of the block is among `nearest`. */
  predicate SharesCluster(row: seq<Int32>, nearest: seq<int>)
  {
    exists j :: 0 <= j < |row| && row[j] in nearest
  }

  /** The blocks of `findCandidatesIVF` as written: the `break` leaves only the
      innermost loop, so a block is added once per cluster id of it that is
      among `nearest`. */
  function IvfMatches(nearest: seq<int>, assignments: seq<seq<Int32>>): (r: seq<int>)
  {
    if assignments == [] then []
    else
      var last := |assignments| - 1;
      IvfMatches(nearest, assignments[..last]) + Repeat(last, MatchCount(assignments[last], nearest))
  }

  /** n copies of x. */
  function Repeat(x: int, n: nat): (r: seq<int>)
    ensures |r| == n && forall i :: 0 <= i < n ==> r[i] == x
  {
    seq(n, _ => x)
  }

  /** The IVF filter as evidently intended: each block at most once. */
  function IvfMatchesDistinct(nearest: seq<int>, assignments: seq<seq<Int32>>): (r: seq<int>)
  {
    if assignments == [] then []
    else
      var last := |assignments| - 1;
      IvfMatchesDistinct(nearest, assignments[..last]) + (if SharesCluster(assignments[last], nearest) then [last] else [])
  }

  /** The candidate list of `findCandidateBlocks` before it is cut: every block
      for FLAT and PQ, otherwise the blocks filtered by the clusters nearest to
      the query (3 of them for HIERARCHICAL, 5 for IVF), nothing without centroids. */
  function Candidates(t: IndexingType, centroids: seq<Vector>, assignments: seq<seq<Int32>>, query: Vector, g: Geometry): seq<int>
  {
    match t
    case Hierarchical =>
      if centroids == [] then [] else HierarchicalMatches(TopKNearest(query, centroids, Min(3, |centroids|), g), assignments)
    case Ivf =>
      if centroids == [] then [] else IvfMatches(TopKNearest(query, centroids, Min(5, |centroids|), g), assignments)
    case _ => Indices(|assignments|)
  }

  /** `Candidates` with the IVF filter corrected. */
  function CandidatesCorrected(t: IndexingType, centroids: seq<Vector>, assignments: seq<seq<Int32>>, query: Vector, g: Geometry): seq<int>
  {
    match t
    case Ivf =>
      if centroids == [] then [] else IvfMatchesDistinct(TopKNearest(query, centroids, Min(5, |centroids|), g), assignments)
    case _ => Candidates(t, centroids, assignments, query, g)
  }

  /** `candidates.subList(0, Math.min(candidates.size(), max))`: a negative
      bound is an `IllegalArgumentException`; otherwise the first entries,
      in the order found, with nothing re-ranked. */
  function Truncate(candidates: seq<int>, maxCandidateBlocks: Int32): (r: Result<seq<int>>)
    ensures r.Err? <==> maxCandidateBlocks < 0
    ensures r.Err? ==> r.error == IllegalArgument
    ensures r.Ok? ==> |r.value| == Min(|candidates|, maxCandidateBlocks) && r.value == candidates[..|r.value|]
  {
    if maxCandidateBlocks < 0 then Err(IllegalArgument) else Ok(Take(candidates, maxCandidateBlocks))
  }

  /** HIERARCHICAL and IVF measure the query against every centroid before
      they filter, and that reads past the end of a centroid shorter than the
      query; FLAT and PQ measure nothing. */
  predicate MeasuresQuery(t: IndexingType, centroids: seq<Vector>, query: Vector)
  {
    (t == Hierarchical || t == Ivf) && !Reaches(query, centroids)
  }

  /** `findCandidateBlocks`. */
  function FindCandidates(t: IndexingType, centroids: seq<Vector>, assignments: seq<seq<Int32>>, query: Vector, maxCandidateBlocks: Int32, g: Geometry): Result<seq<int>>
  {
    if MeasuresQuery(t, centroids, query) then Err(IndexOutOfBounds)
    else Truncate(Candidates(t, centroids, assignments, query, g), maxCandidateBlocks)
  }

  /** `findCandidateBlocks` with the IVF filter corrected. */
  function FindCandidatesCorrected(t: IndexingType, centroids: seq<Vector>, assignments: seq<seq<Int32>>, query: Vector, maxCandidateBlocks: Int32, g: Geometry): Result<seq<int>>
  {
    if MeasuresQuery(t, centroids, query) then Err(IndexOutOfBounds)
    else Truncate(CandidatesCorrected(t, centroids, assignments, query, g), maxCandidateBlocks)
  }

  /** The search fails exactly for a negative bound (`subList`) or, under
      HIERARCHICAL and IVF, a centroid shorter than the query (`euclideanDistance`),
      the latter taking precedence. */
  lemma CandidatesFailure(t: IndexingType, centroids: seq<Vector>, assignments: seq<seq<Int32>>, query: Vector, maxCandidateBlocks: Int32, g: Geometry)
    ensures var r := FindCandidates(t, centroids, assignments, query, maxCandidateBlocks, g);
      r.Err? <==> (maxCandidateBlocks < 0 ||
        ((t == Hierarchical || t == Ivf) && exists c :: 0 <= c < |centroids| && |centroids[c]| < |query|))
    ensures var r := FindCandidates(t, centroids, assignments, query, maxCandidateBlocks, g);
      (t == Hierarchical || t == Ivf) && (exists c :: 0 <= c < |centroids| && |centroids[c]| < |query|) ==>
        r == Err(IndexOutOfBounds)
    ensures var r := FindCandidates(t, centroids, assignments, query, maxCandidateBlocks, g);
      r.Err? && !MeasuresQuery(t, centroids, query) ==> r == Err(IllegalArgument)
  {
  }

  /** FLAT and PQ return the blocks 0, 1, ... in order, as many as the bound allows. */
  lemma FlatCandidatesAreLeadingBlocks(t: IndexingType, centroids: seq<Vector>, assignments: seq<seq<Int32>>, query: Vector, maxCandidateBlocks: Int32, g: Geometry)
    requires t == Flat || t == Pq
    requires maxCandidateBlocks >= 0
    ensures var r := FindCandidates(t, centroids, assignments, query, maxCandidateBlocks, g);
      r.Ok? && |r.value| == Min(|assignments|, maxCandidateBlocks) &&
      forall i :: 0 <= i < |r.value| ==> r.value[i] == i
  {
  }

  /** A hierarchical candidate is exactly a block whose first cluster id is
      among `nearest`, and the blocks come in increasing order. */
  lemma {:induction false} HierarchicalMatchesExactly(nearest: seq<int>, assignments: seq<seq<Int32>>)
    ensures forall b :: b in HierarchicalMatches(nearest, assignments) <==>
      0 <= b < |assignments| && |assignments[b]| > 0 && assignments[b][0] in nearest
    ensures StrictlyIncreasing(HierarchicalMatches(nearest, assignments))
  {
    if assignments != [] {
      var last := |assignments| - 1;
      var prefix := assignments[..last];
      HierarchicalMatchesExactly(nearest, prefix);
      assert forall b :: 0 <= b < last ==> prefix[b] == assignments[b];
      var r := HierarchicalMatches(nearest, prefix);
      forall i | 0 <= i < |r| ensures r[i] < last {
        assert r[i] in r;
      }
    }
  }

  /** A block's match count is positive exactly when it shares a cluster with `nearest`. */
  lemma {:induction false} MatchCountPositive(row: seq<Int32>, nearest: seq<int>)
    ensures MatchCount(row, nearest) > 0 <==> SharesCluster(row, nearest)
  {
    if row != [] {
      var prefix := row[..|row| - 1];
      MatchCountPositive(prefix, nearest);
      if SharesCluster(row, nearest) && row[|row| - 1] !in nearest {
        var j :| 0 <= j < |row| && row[j] in nearest;
        assert prefix[j] == row[j];
      }
      if SharesCluster(prefix, nearest) {
        var j :| 0 <= j < |prefix| && prefix[j] in nearest;
        assert row[j] == prefix[j];
      }
    }
  }

  /** As written, IVF lists block b once per cluster id of b among `nearest`. */
  lemma {:induction false} IvfMatchesMultiplicity(nearest: seq<int>, assignments: seq<seq<Int32>>)
    ensures forall b :: 0 <= b < |assignments| ==> multiset(IvfMatches(nearest, assignments))[b] == MatchCount(assignments[b], nearest)
    ensures forall b :: (b < 0 || b >= |assignments|) ==> multiset(IvfMatches(nearest, assignments))[b] == 0
  {
    if assignments != [] {
      var last := |assignments| - 1;
      var prefix := assignments[..last];
      IvfMatchesMultiplicity(nearest, prefix);
      var n := MatchCount(assignments[last], nearest);
      forall b ensures multiset(Repeat(last, n))[b] == if b == last then n else 0 {
        RepeatMultiset(last, n, b);
      }
      assert forall b :: 0 <= b < last ==> prefix[b] == assignments[b];
    }
  }

  lemma {:induction false} RepeatMultiset(x: int, n: nat, b: int)
    ensures multiset(Repeat(x, n))[b] == if b == x then n else 0
  {
    if n > 0 {
      RepeatMultiset(x, n - 1, b);
      assert Repeat(x, n) == Repeat(x, n - 1) + [x];
    }
  }

  /** Hence an IVF candidate is a block sharing a cluster with `nearest`. */
  lemma IvfMatchesExactly(nearest: seq<int>, assignments: seq<seq<Int32>>)
    ensures forall b :: b in IvfMatches(nearest, assignments) <==>
      0 <= b < |assignments| && SharesCluster(assignments[b], nearest)
  {
    IvfMatchesMultiplicity(nearest, assignments);
    forall b | 0 <= b < |assignments| ensures MatchCount(assignments[b], nearest) > 0 <==> SharesCluster(assignments[b], nearest) {
      MatchCountPositive(assignments[b], nearest);
    }
    forall b ensures b in IvfMatches(nearest, assignments) <==> multiset(IvfMatches(nearest, assignments))[b] > 0 {
    }
  }

  /** The corrected IVF filter keeps the same blocks, once each, in increasing order. */
  lemma {:induction false} IvfMatchesDistinctExactly(nearest: seq<int>, assignments: seq<seq<Int32>>)
    ensures forall b :: b in IvfMatchesDistinct(nearest, assignments) <==>
      0 <= b < |assignments| && SharesCluster(assignments[b], nearest)
    ensures StrictlyIncreasing(IvfMatchesDistinct(nearest, assignments))
  {
    if assignments != [] {
      var last := |assignments| - 1;
      var prefix := assignments[..last];
      IvfMatchesDistinctExactly(nearest, prefix);
      assert forall b :: 0 <= b < last ==> prefix[b] == assignments[b];
      var r := IvfMatchesDistinct(nearest, prefix);
      forall i | 0 <= i < |r| ensures r[i] < last {
        assert r[i] in r;
      }
    }
  }

  /** HIERARCHICAL: no candidates without centroids; otherwise exactly the
      blocks whose first cluster is among the min(3, #centroids) clusters
      nearest the query, in increasing order. */
  lemma HierarchicalCandidates(centroids: seq<Vector>, assignments: seq<seq<Int32>>, query: Vector, g: Geometry)
    ensures centroids == [] ==> Candidates(Hierarchical, centroids, assignments, query, g) == []
    ensures var nearest := TopKNearest(query, centroids, 3, g);
      var c := Candidates(Hierarchical, centroids, assignments, query, g);
      |nearest| == Min(3, |centroids|) &&
      StrictlyIncreasing(c) &&
      forall b :: b in c <==> 0 <= b < |assignments| && |assignments[b]| > 0 && assignments[b][0] in nearest
  {
    var nearest := TopKNearest(query, centroids, 3, g);
    assert TopKNearest(query, centroids, Min(3, |centroids|), g) == nearest;
    HierarchicalMatchesExactly(nearest, assignments);
  }

  /** IVF: exactly the blocks sharing a cluster with the min(5, #centroids)
      clusters nearest the query, each repeated once per shared cluster. */
  lemma IvfCandidates(centroids: seq<Vector>, assignments: seq<seq<Int32>>, query: Vector, g: Geometry)
    requires centroids != []
    ensures var nearest := TopKNearest(query, centroids, 5, g);
      var c := Candidates(Ivf, centroids, assignments, query, g);
      |nearest| == Min(5, |centroids|) &&
      (forall b :: b in c <==> 0 <= b < |assignments| && SharesCluster(assignments[b], nearest)) &&
      (forall b :: 0 <= b < |assignments| ==> multiset(c)[b] == MatchCount(assignments[b], nearest))
  {
    var nearest := TopKNearest(query, centroids, 5, g);
    assert TopKNearest(query, centroids, Min(5, |centroids|), g) == nearest;
    IvfMatchesExactly(nearest, assignments);
    IvfMatchesMultiplicity(nearest, assignments);
  }

  /** The IVF filter as written reports a block twice: with two centroids
      both are among the nearest, so a block assigned to clusters 0 and 1 is
      listed under each. */
  lemma IvfCandidatesRepeatBlocks(centroids: seq<Vector>, query: Vector, g: Geometry)
    requires |centroids| == 2 && |query| <= |centroids[0]| && |query| <= |centroids[1]|
    ensures FindCandidates(Ivf, centroids, [[0, 1]], query, 2, g) == Ok([0, 0])
  {
    var nearest := TopKNearest(query, centroids, Min(5, |centroids|), g);
    TopKNearestCoversAll(query, centroids, Min(5, |centroids|), g, 0);
    TopKNearestCoversAll(query, centroids, Min(5, |centroids|), g, 1);
    var row: seq<Int32> := [0, 1];
    assert MatchCount(row[..1], nearest) == 1 by {
      assert row[..1][..0] == [];
    }
    assert MatchCount(row, nearest) == 2;
    var assignments: seq<seq<Int32>> := [row];
    assert assignments[..0] == [];
    assert IvfMatches(nearest, assignments) == [0, 0];
  }

  /** With the IVF filter corrected, every indexing type yields distinct
      blocks in increasing order. */
  lemma CorrectedCandidatesAreDistinct(t: IndexingType, centroids: seq<Vector>, assignments: seq<seq<Int32>>, query: Vector, maxCandidateBlocks: Int32, g: Geometry)
    requires maxCandidateBlocks >= 0
    ensures var r := FindCandidatesCorrected(t, centroids, assignments, query, maxCandidateBlocks, g);
      (r.Ok? <==> !MeasuresQuery(t, centroids, query)) && (r.Ok? ==> StrictlyIncreasing(r.value))
  {
    var c := CandidatesCorrected(t, centroids, assignments, query, g);
    match t {
      case Ivf =>
        if centroids != [] {
          IvfMatchesDistinctExactly(TopKNearest(query, centroids, Min(5, |centroids|), g), assignments);
        }
      case Hierarchical =>
        if centroids != [] {
          HierarchicalMatchesExactly(TopKNearest(query, centroids, Min(3, |centroids|), g), assignments);
        }
      case _ =>
    }
    assert StrictlyIncreasing(c);
    var r := Take(c, maxCandidateBlocks);
    assert forall i :: 0 <= i < |r| ==> r[i] == c[i];
  }

  // ---------------------------------------------------------------- building the index

  /** Java `int` values. */
  predicate FitsInt32(s: seq<int>)
  {
    forall i :: 0 <= i < |s| ==> -0x8000_0000 <= s[i] < 0x8000_0000
  }

  function ToInt32s(s: seq<int>): (r: seq<Int32>)
    requires FitsInt32(s)
    ensures |r| == |s| && forall i :: 0 <= i < |s| ==> r[i] == s[i]
  {
    seq(|s|, i requires 0 <= i < |s| => s[i] as Int32)
  }

  /** The assignment loop of `buildHierarchicalIndex`: each block gets the one
      id of its nearest centroid. */
  function HierarchicalAssignments(points: seq<Vector>, centroids: seq<Vector>, g: Geometry): (r: seq<seq<Int32>>)
    requires |centroids| <= MAX_INT32
    ensures |r| == |points|
  {
    seq(|points|, b requires 0 <= b < |points| => [Nearest(points[b], centroids, g) as Int32])
  }

  /** The assignment loop of `buildIVFIndex`: each block gets the ids of its
      three nearest centroids. */
  function IvfAssignments(points: seq<Vector>, centroids: seq<Vector>, g: Geometry): (r: seq<seq<Int32>>)
    requires |centroids| <= MAX_INT32
    ensures |r| == |points|
  {
    if points == [] then []
    else IvfAssignments(points[..|points| - 1], centroids, g) + [IvfRow(points[|points| - 1], centroids, g)]
  }

  /** Row b of the IVF assignments is the row of block b. */
  lemma {:induction false} IvfAssignmentsAt(points: seq<Vector>, centroids: seq<Vector>, g: Geometry, b: int)
    requires |centroids| <= MAX_INT32 && 0 <= b < |points|
    ensures IvfAssignments(points, centroids, g)[b] == IvfRow(points[b], centroids, g)
    decreases |points|
  {
    if b < |points| - 1 {
      var init := points[..|points| - 1];
      IvfAssignmentsAt(init, centroids, g, b);
      assert init[b] == points[b];
    }
  }

  /** The ids of the three clusters nearest a block centroid, as Java `int`s. */
  function IvfRow(point: Vector, centroids: seq<Vector>, g: Geometry): (r: seq<Int32>)
    requires |centroids| <= MAX_INT32
    ensures r == TopKNearest(point, centroids, 3, g)
  {
    var nearest := TopKNearest(point, centroids, 3, g);
    assert FitsInt32(nearest);
    ToInt32s(nearest)
  }

  /** `buildHierarchicalIndex` with k clusters: for k > 0, min(k, n) centroids
      and one id below their number per block, the id of the first nearest
      centroid; for k <= 0, no centroids and yet every block gets the id 0. */
  lemma HierarchicalIndexShape(points: seq<Vector>, k: int, g: Geometry)
    requires points != [] && |points| <= MAX_INT32 && KMeans(points, k, g).Ok?
    ensures var cs := KMeans(points, k, g).value; var rows := HierarchicalAssignments(points, cs, g);
      (k > 0 ==> |cs| == Min(k, |points|) && forall b :: 0 <= b < |rows| ==> |rows[b]| == 1 && 0 <= rows[b][0] < |cs|) &&
      (k <= 0 ==> cs == [] && forall b :: 0 <= b < |rows| ==> rows[b] == [0])
    ensures var cs := KMeans(points, k, g).value; var rows := HierarchicalAssignments(points, cs, g);
      forall b, j :: 0 <= b < |rows| && 0 <= j < |cs| && g.distance(points[b], cs[j]) < MaxDistance() ==>
        g.distance(points[b], cs[rows[b][0]]) <= g.distance(points[b], cs[j])
  {
    var cs := KMeans(points, k, g).value;
    forall b | 0 <= b < |points|
      ensures var r := Nearest(points[b], cs, g); (cs == [] ==> r == 0) && (cs != [] ==> r < |cs|)
      ensures forall j :: 0 <= j < |cs| && g.distance(points[b], cs[j]) < MaxDistance() ==>
        g.distance(points[b], cs[Nearest(points[b], cs, g)]) <= g.distance(points[b], cs[j])
    {
      NearestIsFirstMinimum(points[b], cs, g);
    }
  }

  /** `buildIVFIndex`: each block gets min(3, #centroids) distinct ids below
      the number of centroids, nearest first, ties to the lower id. */
  lemma IvfIndexShape(points: seq<Vector>, centroids: seq<Vector>, g: Geometry, b: int)
    requires |centroids| <= MAX_INT32 && 0 <= b < |points|
    ensures var row := IvfAssignments(points, centroids, g)[b];
      |row| == Min(3, |centroids|) &&
      (forall i :: 0 <= i < |row| ==> 0 <= row[i] < |centroids|) &&
      (forall i, j :: 0 <= i < j < |row| ==> row[i] != row[j]) &&
      (forall i, j :: 0 <= i < j < |row| ==>
        g.distance(points[b], centroids[row[i]]) < g.distance(points[b], centroids[row[j]]) ||
        (g.distance(points[b], centroids[row[i]]) == g.distance(points[b], centroids[row[j]]) && row[i] < row[j]))
  {
    IvfAssignmentsAt(points, centroids, g, b);
    TopKNearestAreDistinct(points[b], centroids, 3, g);
    TopKNearestIsOrdered(points[b], centroids, 3, g);
  }

  /** After `buildHierarchicalIndex`, the hierarchical filter keeps exactly the
      blocks whose nearest centroid is among the three nearest the query. */
  lemma BuiltHierarchicalCandidates(points: seq<Vector>, k: int, query: Vector, g: Geometry)
    requires points != [] && |points| <= MAX_INT32 && KMeans(points, k, g).Ok?
    ensures var cs := KMeans(points, k, g).value;
      var c := Candidates(Hierarchical, cs, HierarchicalAssignments(points, cs, g), query, g);
      forall b :: b in c <==> cs != [] && 0 <= b < |points| && Nearest(points[b], cs, g) in TopKNearest(query, cs, 3, g)
  {
    var cs := KMeans(points, k, g).value;
    HierarchicalCandidates(cs, HierarchicalAssignments(points, cs, g), query, g);
  }

  // ---------------------------------------------------------------- the layout

  /** Every array length fits the `int` written before it. */
  predicate WritableFooter(centroids: seq<Vector>, assignments: seq<seq<Int32>>, codebook: seq<Byte>)
  {
    |centroids| <= MAX_INT32 && (forall i :: 0 <= i < |centroids| ==> |centroids[i]| <= MAX_INT32) &&
    |assignments| <= MAX_INT32 && (forall i :: 0 <= i < |assignments| ==> |assignments[i]| <= MAX_INT32) &&
    |codebook| <= MAX_INT32
  }

  /** `VectorIndexFooter.write`: dimension, type id, then the arrays. */
  function EncodeFooter(dimension: Int32, t: IndexingType, centroids: seq<Vector>, assignments: seq<seq<Int32>>, codebook: seq<Byte>): (r: seq<Byte>)
    requires WritableFooter(centroids, assignments, codebook)
  {
    EncodeInt(dimension) + (EncodeByte(TypeId(t)) + EncodeCentroids(centroids, assignments, codebook))
  }

  /** The centroid count and each centroid as a float array, then the rest. */
  function EncodeCentroids(centroids: seq<Vector>, assignments: seq<seq<Int32>>, codebook: seq<Byte>): (r: seq<Byte>)
    requires WritableFooter(centroids, assignments, codebook)
  {
    EncodeInt(|centroids|) + (EncodeFloatArrays(centroids) + EncodeRows(assignments, codebook))
  }

  /** The assignment count and each row as an int array, then the codebook. */
  function EncodeRows(assignments: seq<seq<Int32>>, codebook: seq<Byte>): (r: seq<Byte>)
    requires |assignments| <= MAX_INT32 && (forall i :: 0 <= i < |assignments| ==> |assignments[i]| <= MAX_INT32)
    requires |codebook| <= MAX_INT32
  {
    EncodeInt(|assignments|) + (EncodeIntArrays(assignments) + EncodeCodebook(codebook))
  }

  /** The codebook length and its octets. */
  function EncodeCodebook(codebook: seq<Byte>): (r: seq<Byte>)
    requires |codebook| <= MAX_INT32
  {
    EncodeInt(|codebook|) + codebook
  }

  /** What `readFields` leaves behind. The fields are overwritten in the order
      dimension, type, centroids, assignments, codebook; `overwritten` counts
      those assigned before reading stopped, and a field is `Some` when its
      final value is known (an array allocated but not filled is not). */
  datatype FooterRead = FooterRead(
    dimension: Option<Int32>,
    indexingType: Option<IndexingType>,
    centroids: Option<seq<Vector>>,
    assignments: Option<seq<seq<Int32>>>,
    codebook: Option<seq<Byte>>,
    overwritten: nat,
    outcome: Result<seq<Byte>>)

  /** `readByte` then `IndexingType.fromTypeId`. */
  function ReadIndexingType(s: seq<Byte>): Result<(IndexingType, seq<Byte>)>
  {
    var (id, rest) :- ReadByte(s);
    var t :- FromTypeId(id);
    Ok((t, rest))
  }

  /** `readInt` of an array length followed by the array's allocation. */
  function ReadLength(s: seq<Byte>): Result<(nat, seq<Byte>)>
  {
    var (n, rest) :- ReadInt(s);
    if n < 0 then Err(NegativeArraySize) else Ok((n, rest))
  }

  /** `readFully` of n octets. */
  function ReadOctets(s: seq<Byte>, n: nat): (r: Result<(seq<Byte>, seq<Byte>)>)
    ensures r.Ok? <==> |s| >= n
    ensures r.Err? ==> r.error == EndOfStream
  {
    if |s| < n then Err(EndOfStream) else Ok((s[..n], s[n..]))
  }

  /** `VectorIndexFooter.readFields`. */
  function DecodeFooter(s: seq<Byte>): (r: FooterRead)
    ensures r.overwritten <= 5
    ensures r.dimension.Some? <==> r.overwritten >= 1
    ensures r.indexingType.Some? <==> r.overwritten >= 2
    ensures r.centroids.Some? ==> r.overwritten >= 3
    ensures r.assignments.Some? ==> r.overwritten >= 4
    ensures r.codebook.Some? ==> r.overwritten == 5
    ensures r.outcome.Ok? ==> r.centroids.Some? && r.assignments.Some? && r.codebook.Some?
  {
    match ReadInt(s)
    case Err(e) => FooterRead(None, None, None, None, None, 0, Err(e))
    case Ok((dimension, s1)) =>
      match ReadIndexingType(s1)
      case Err(e) => FooterRead(Some(dimension), None, None, None, None, 1, Err(e))
      case Ok((t, s2)) => DecodeFooterArrays(dimension, t, s2)
  }

  /** The centroids, once dimension and type are read. */
  function DecodeFooterArrays(dimension: Int32, t: IndexingType, s: seq<Byte>): (r: FooterRead)
    ensures r.dimension == Some(dimension) && r.indexingType == Some(t)
    ensures 2 <= r.overwritten <= 5
    ensures r.centroids.Some? ==> r.overwritten >= 3
    ensures r.assignments.Some? ==> r.overwritten >= 4
    ensures r.codebook.Some? ==> r.overwritten == 5
    ensures r.outcome.Ok? ==> r.centroids.Some? && r.assignments.Some? && r.codebook.Some?
  {
    match ReadLength(s)
    case Err(e) => FooterRead(Some(dimension), Some(t), None, None, None, 2, Err(e))
    case Ok((n, s1)) =>
      var (cs, outcome) := DecodeMany(s1, n, DecodeFloatArray);
      if outcome.Err? then FooterRead(Some(dimension), Some(t), None, None, None, 3, outcome)
      else DecodeFooterRows(dimension, t, cs, outcome.value)
  }

  /** The assignment rows, once the centroids are read. */
  function DecodeFooterRows(dimension: Int32, t: IndexingType, cs: seq<Vector>, s: seq<Byte>): (r: FooterRead)
    ensures r.dimension == Some(dimension) && r.indexingType == Some(t) && r.centroids == Some(cs)
    ensures 3 <= r.overwritten <= 5
    ensures r.assignments.Some? ==> r.overwritten >= 4
    ensures r.codebook.Some? ==> r.overwritten == 5
    ensures r.outcome.Ok? ==> r.assignments.Some? && r.codebook.Some?
  {
    match ReadLength(s)
    case Err(e) => FooterRead(Some(dimension), Some(t), Some(cs), None, None, 3, Err(e))
    case Ok((n, s1)) =>
      var (rows, outcome) := DecodeMany(s1, n, DecodeIntArray);
      if outcome.Err? then FooterRead(Some(dimension), Some(t), Some(cs), None, None, 4, outcome)
      else DecodeFooterCodebook(dimension, t, cs, rows, outcome.value)
  }

  /** The codebook, once the rows are read. */
  function DecodeFooterCodebook(dimension: Int32, t: IndexingType, cs: seq<Vector>, rows: seq<seq<Int32>>, s: seq<Byte>): (r: FooterRead)
    ensures r.dimension == Some(dimension) && r.indexingType == Some(t) && r.centroids == Some(cs) && r.assignments == Some(rows)
    ensures 4 <= r.overwritten <= 5
    ensures r.codebook.Some? ==> r.overwritten == 5
    ensures r.outcome.Ok? ==> r.codebook.Some?
  {
    match ReadLength(s)
    case Err(e) => FooterRead(Some(dimension), Some(t), Some(cs), Some(rows), None, 4, Err(e))
    case Ok((n, s1)) =>
      match ReadOctets(s1, n)
      case Err(e) => FooterRead(Some(dimension), Some(t), Some(cs), Some(rows), None, 5, Err(e))
      case Ok((codebook, rest)) => FooterRead(Some(dimension), Some(t), Some(cs), Some(rows), Some(codebook), 5, Ok(rest))
  }

  lemma CodebookRoundTrip(dimension: Int32, t: IndexingType, cs: seq<Vector>, rows: seq<seq<Int32>>, codebook: seq<Byte>, rest: seq<Byte>)
    requires |codebook| <= MAX_INT32
    ensures DecodeFooterCodebook(dimension, t, cs, rows, EncodeCodebook(codebook) + rest) ==
      FooterRead(Some(dimension), Some(t), Some(cs), Some(rows), Some(codebook), 5, Ok(rest))
  {
    assert EncodeCodebook(codebook) + rest == EncodeInt(|codebook|) + (codebook + rest);
    IntRoundTrip(|codebook|, codebook + rest);
    assert (codebook + rest)[..|codebook|] == codebook && (codebook + rest)[|codebook|..] == rest;
  }

  lemma RowsRoundTrip(dimension: Int32, t: IndexingType, cs: seq<Vector>, rows: seq<seq<Int32>>, codebook: seq<Byte>, rest: seq<Byte>)
    requires |rows| <= MAX_INT32 && (forall i :: 0 <= i < |rows| ==> |rows[i]| <= MAX_INT32)
    requires |codebook| <= MAX_INT32
    ensures DecodeFooterRows(dimension, t, cs, EncodeRows(rows, codebook) + rest) ==
      FooterRead(Some(dimension), Some(t), Some(cs), Some(rows), Some(codebook), 5, Ok(rest))
  {
    var tail := EncodeCodebook(codebook) + rest;
    assert EncodeRows(rows, codebook) + rest == EncodeInt(|rows|) + (EncodeIntArrays(rows) + tail);
    IntRoundTrip(|rows|, EncodeIntArrays(rows) + tail);
    IntArraysRoundTrip(rows, tail);
    CodebookRoundTrip(dimension, t, cs, rows, codebook, rest);
  }

  lemma ArraysRoundTrip(dimension: Int32, t: IndexingType, centroids: seq<Vector>, assignments: seq<seq<Int32>>, codebook: seq<Byte>, rest: seq<Byte>)
    requires WritableFooter(centroids, assignments, codebook)
    requires forall i :: 0 <= i < |centroids| ==> CanonicalVector(centroids[i])
    ensures DecodeFooterArrays(dimension, t, EncodeCentroids(centroids, assignments, codebook) + rest) ==
      FooterRead(Some(dimension), Some(t), Some(centroids), Some(assignments), Some(codebook), 5, Ok(rest))
  {
    var tail := EncodeRows(assignments, codebook) + rest;
    assert EncodeCentroids(centroids, assignments, codebook) + rest == EncodeInt(|centroids|) + (EncodeFloatArrays(centroids) + tail);
    IntRoundTrip(|centroids|, EncodeFloatArrays(centroids) + tail);
    FloatArraysRoundTrip(centroids, tail);
    RowsRoundTrip(dimension, t, centroids, assignments, codebook, rest);
  }

  /** Reading back what `write` produced restores every field. */
  lemma FooterRoundTrip(dimension: Int32, t: IndexingType, centroids: seq<Vector>, assignments: seq<seq<Int32>>, codebook: seq<Byte>, rest: seq<Byte>)
    requires WritableFooter(centroids, assignments, codebook)
    requires forall i :: 0 <= i < |centroids| ==> CanonicalVector(centroids[i])
    ensures DecodeFooter(EncodeFooter(dimension, t, centroids, assignments, codebook) + rest) ==
      FooterRead(Some(dimension), Some(t), Some(centroids), Some(assignments), Some(codebook), 5, Ok(rest))
  {
    var arrays := EncodeCentroids(centroids, assignments, codebook) + rest;
    var tail := EncodeByte(TypeId(t)) + arrays;
    assert EncodeFooter(dimension, t, centroids, assignments, codebook) + rest == EncodeInt(dimension) + tail;
    IntRoundTrip(dimension, tail);
    ByteRoundTrip(TypeId(t), arrays);
    FromTypeIdInvertsTypeId(t);
    ArraysRoundTrip(dimension, t, centroids, assignments, codebook, rest);
  }

  // ---------------------------------------------------------------- the loops of the filter

  /** The innermost loop over the nearest clusters, which stops at the first match. */
  method Contains(clusters: seq<int>, id: int) returns (found: bool)
    ensures found <==> id in clusters
  {
    found := false;
    for i := 0 to |clusters|
      invariant id !in clusters[..i]
    {
      if clusters[i] == id {
        found := true;
        break;
      }
    }
  }

  /** `findCandidatesHierarchical`. */
  method CandidatesHierarchical(query: Vector, centroids: seq<Vector>, assignments: seq<seq<Int32>>, g: Geometry) returns (r: Result<seq<int>>)
    ensures r.Ok? <==> Reaches(query, centroids)
    ensures r.Ok? ==> r.value == Candidates(Hierarchical, centroids, assignments, query, g)
    ensures r.Err? ==> r.error == IndexOutOfBounds
  {
    if |centroids| == 0 {
      return Ok([]);
    }
    var nearest :- FindTopKNearestClusters(query, centroids, Min(3, |centroids|), g);
    var candidates := [];
    for b := 0 to |assignments|
      invariant candidates == HierarchicalMatches(nearest, assignments[..b])
    {
      assert assignments[..b + 1][..b] == assignments[..b];
      if |assignments[b]| > 0 {
        var found := Contains(nearest, assignments[b][0]);
        if found {
          candidates := candidates + [b];
        }
      }
    }
    assert assignments[..|assignments|] == assignments;
    r := Ok(candidates);
  }

  /** The inner loop of `findCandidatesIVF`: the block once per cluster of
      its row that is among the nearest. */
  method RowMatches(row: seq<Int32>, nearest: seq<int>, b: int) returns (repeats: seq<int>)
    ensures repeats == Repeat(b, MatchCount(row, nearest))
  {
    repeats := [];
    for j := 0 to |row|
      invariant repeats == Repeat(b, MatchCount(row[..j], nearest))
    {
      assert row[..j + 1][..j] == row[..j];
      var found := Contains(nearest, row[j]);
      if found {
        assert Repeat(b, MatchCount(row[..j], nearest)) + [b] == Repeat(b, MatchCount(row[..j + 1], nearest));
        repeats := repeats + [b];
      }
    }
    assert row[..|row|] == row;
  }

  /** `findCandidatesIVF`, duplicates included. */
  method CandidatesIvf(query: Vector, centroids: seq<Vector>, assignments: seq<seq<Int32>>, g: Geometry) returns (r: Result<seq<int>>)
    ensures r.Ok? <==> Reaches(query, centroids)
    ensures r.Ok? ==> r.value == Candidates(Ivf, centroids, assignments, query, g)
    ensures r.Err? ==> r.error == IndexOutOfBounds
  {
    if |centroids| == 0 {
      return Ok([]);
    }
    var nearest :- FindTopKNearestClusters(query, centroids, Min(5, |centroids|), g);
    var candidates := [];
    for b := 0 to |assignments|
      invariant candidates == IvfMatches(nearest, assignments[..b])
    {
      assert assignments[..b + 1][..b] == assignments[..b];
      var repeats := RowMatches(assignments[b], nearest, b);
      candidates := candidates + repeats;
    }
    assert assignments[..|assignments|] == assignments;
    r := Ok(candidates);
  }

  /** The assignment loop of `buildHierarchicalIndex`, over centroids no
      shorter than any block centroid. */
  method AssignNearest(points: seq<Vector>, centroids: seq<Vector>, g: Geometry) returns (assignments: seq<seq<Int32>>)
    requires |centroids| <= MAX_INT32
    requires forall b :: 0 <= b < |points| ==> Reaches(points[b], centroids)
    ensures assignments == HierarchicalAssignments(points, centroids, g)
  {
    var rows := new seq<Int32>[|points|];
    for b := 0 to |points|
      invariant forall j :: 0 <= j < b ==> rows[j] == [Nearest(points[j], centroids, g) as Int32]
    {
      var nearest := FindNearestCluster(points[b], centroids, g);
      NearestIsFirstMinimum(points[b], centroids, g);
      rows[b] := [nearest.value as Int32];
    }
    assignments := rows[..];
  }

  /** The cluster ids below `count` as Java `int`s (the copy into an `int[]`). */
  method IdsOf(ids: seq<int>, count: nat) returns (r: seq<Int32>)
    requires count <= MAX_INT32 && forall i :: 0 <= i < |ids| ==> 0 <= ids[i] < count
    ensures r == ids
  {
    r := ToInt32s(ids);
  }

  /** One row of `buildIVFIndex`: the three nearest clusters, copied into an `int[]`. */
  method ThreeNearestRow(point: Vector, centroids: seq<Vector>, g: Geometry) returns (row: seq<Int32>)
    requires |centroids| <= MAX_INT32 && Reaches(point, centroids)
    ensures row == IvfRow(point, centroids, g)
  {
    var nearest := FindTopKNearestClusters(point, centroids, 3, g);
    row := IdsOf(nearest.value, |centroids|);
  }

  /** The assignment loop of `buildIVFIndex`. */
  method AssignThreeNearest(points: seq<Vector>, centroids: seq<Vector>, g: Geometry) returns (assignments: seq<seq<Int32>>)
    requires |centroids| <= MAX_INT32
    requires forall b :: 0 <= b < |points| ==> Reaches(points[b], centroids)
    ensures assignments == IvfAssignments(points, centroids, g)
  {
    assignments := [];
    for b := 0 to |points|
      invariant assignments == IvfAssignments(points[..b], centroids, g)
    {
      assert Reaches(points[b], centroids);
      assignments := AppendThreeNearest(assignments, points, centroids, g, b);
    }
    assert points[..|points|] == points;
  }

  /** One step of the IVF assignment loop: block b's row follows the earlier ones. */
  method AppendThreeNearest(rows: seq<seq<Int32>>, points: seq<Vector>, centroids: seq<Vector>, g: Geometry, b: nat)
    returns (next: seq<seq<Int32>>)
    requires |centroids| <= MAX_INT32 && b < |points| && Reaches(points[b], centroids)
    requires rows == IvfAssignments(points[..b], centroids, g)
    ensures next == IvfAssignments(points[..b + 1], centroids, g)
  {
    var row := ThreeNearestRow(points[b], centroids, g);
    IvfAssignmentsSnoc(points, centroids, g, b);
    next := rows + [row];
  }

  /** The IVF assignments of a longer prefix add the next block's row. */
  lemma IvfAssignmentsSnoc(points: seq<Vector>, centroids: seq<Vector>, g: Geometry, b: nat)
    requires |centroids| <= MAX_INT32 && b < |points|
    ensures IvfAssignments(points[..b + 1], centroids, g) ==
      IvfAssignments(points[..b], centroids, g) + [IvfRow(points[b], centroids, g)]
  {
    assert points[..b + 1][..b] == points[..b];
  }

  // ---------------------------------------------------------------- the footer object

  class VectorIndexFooter {
    var vectorDimension: Int32
    var globalCentroids: seq<Vector>
    var clusterAssignments: seq<seq<Int32>>
    var quantizationCodebook: seq<Byte>
    var indexingType: IndexingType

    /** The no-argument constructor used before `readFields`. */
    constructor Empty()
      ensures vectorDimension == 0 && indexingType == Flat
      ensures globalCentroids == [] && clusterAssignments == [] && quantizationCodebook == []
    {
      vectorDimension := 0;
      globalCentroids := [];
      clusterAssignments := [];
      quantizationCodebook := [];
      indexingType := Flat;
    }

    constructor (dimension: Int32, t: IndexingType)
      ensures vectorDimension == dimension && indexingType == t
      ensures globalCentroids == [] && clusterAssignments == [] && quantizationCodebook == []
    {
      vectorDimension := dimension;
      indexingType := t;
      globalCentroids := [];
      clusterAssignments := [];
      quantizationCodebook := [];
    }

    /** `buildHierarchicalIndex`: nothing for no blocks; otherwise HIERARCHICAL,
        one k-means pass over the block centroids, and each block assigned its
        nearest cluster. When the pass throws, the type is already set and
        the centroids and assignments are the old ones. */
    method BuildHierarchicalIndex(blockCentroids: seq<Vector>, clustersPerLevel: Int32, g: Geometry) returns (outcome: Result<()>)
      requires |blockCentroids| <= MAX_INT32 && KeepsDimension(g)
      modifies this
      ensures blockCentroids == [] ==> (outcome.Ok? &&
        indexingType == old(indexingType) && globalCentroids == old(globalCentroids) && clusterAssignments == old(clusterAssignments))
      ensures blockCentroids != [] ==> indexingType == Hierarchical
      ensures blockCentroids != [] && KMeans(blockCentroids, clustersPerLevel, g).Err? ==>
        outcome == Err(IndexOutOfBounds) && globalCentroids == old(globalCentroids) && clusterAssignments == old(clusterAssignments)
      ensures blockCentroids != [] && KMeans(blockCentroids, clustersPerLevel, g).Ok? ==> (outcome.Ok? &&
        globalCentroids == KMeans(blockCentroids, clustersPerLevel, g).value &&
        clusterAssignments == HierarchicalAssignments(blockCentroids, globalCentroids, g))
      ensures vectorDimension == old(vectorDimension) && quantizationCodebook == old(quantizationCodebook)
    {
      if |blockCentroids| == 0 {
        return Ok(());
      }
      indexingType := Hierarchical;
      var centroids := PerformKMeansClustering(blockCentroids, clustersPerLevel, g);
      if centroids.Err? {
        return Err(IndexOutOfBounds);
      }
      KMeansKeepsDimension(blockCentroids, clustersPerLevel, g);
      globalCentroids := centroids.value;
      clusterAssignments := AssignNearest(blockCentroids, centroids.value, g);
      outcome := Ok(());
    }

    /** `buildIVFIndex`: nothing for no blocks; otherwise IVF, one k-means pass
        over the block centroids, and each block assigned its three nearest
        clusters. When the pass throws, the type is already set and the
        centroids and assignments are the old ones. */
    method BuildIvfIndex(blockCentroids: seq<Vector>, numClusters: Int32, g: Geometry) returns (outcome: Result<()>)
      requires |blockCentroids| <= MAX_INT32 && KeepsDimension(g)
      modifies this
      ensures blockCentroids == [] ==> (outcome.Ok? &&
        indexingType == old(indexingType) && globalCentroids == old(globalCentroids) && clusterAssignments == old(clusterAssignments))
      ensures blockCentroids != [] ==> indexingType == Ivf
      ensures blockCentroids != [] && KMeans(blockCentroids, numClusters, g).Err? ==>
        outcome == Err(IndexOutOfBounds) && globalCentroids == old(globalCentroids) && clusterAssignments == old(clusterAssignments)
      ensures blockCentroids != [] && KMeans(blockCentroids, numClusters, g).Ok? ==> (outcome.Ok? &&
        globalCentroids == KMeans(blockCentroids, numClusters, g).value &&
        clusterAssignments == IvfAssignments(blockCentroids, globalCentroids, g))
      ensures vectorDimension == old(vectorDimension) && quantizationCodebook == old(quantizationCodebook)
    {
      if |blockCentroids| == 0 {
        return Ok(());
      }
      indexingType := Ivf;
      var centroids := PerformKMeansClustering(blockCentroids, numClusters, g);
      if centroids.Err? {
        return Err(IndexOutOfBounds);
      }
      KMeansKeepsDimension(blockCentroids, numClusters, g);
      globalCentroids := centroids.value;
      clusterAssignments := AssignThreeNearest(blockCentroids, centroids.value, g);
      outcome := Ok(());
    }

    /** `findCandidateBlocks`. */
    method FindCandidateBlocks(query: Vector, maxCandidateBlocks: Int32, g: Geometry) returns (r: Result<seq<int>>)
      ensures r == FindCandidates(indexingType, globalCentroids, clusterAssignments, query, maxCandidateBlocks, g)
    {
      var centroids, rows := globalCentroids, clusterAssignments;
      var candidates: seq<int> := [];
      match indexingType {
        case Hierarchical =>
          candidates :- CandidatesHierarchical(query, centroids, rows, g);
        case Ivf =>
          candidates :- CandidatesIvf(query, centroids, rows, g);
        case _ =>
          for i := 0 to |rows|
            invariant candidates == Indices(i)
          {
            candidates := candidates + [i];
          }
      }
      var end := Min(|candidates|, maxCandidateBlocks);
      if end < 0 {
        return Err(IllegalArgument);
      }
      r := Ok(candidates[..end]);
    }

    method SetGlobalCentroids(centroids: seq<Vector>)
      modifies this
      ensures globalCentroids == centroids
      ensures vectorDimension == old(vectorDimension) && indexingType == old(indexingType)
      ensures clusterAssignments == old(clusterAssignments) && quantizationCodebook == old(quantizationCodebook)
    {
      globalCentroids := centroids;
    }

    method SetClusterAssignments(assignments: seq<seq<Int32>>)
      modifies this
      ensures clusterAssignments == assignments
      ensures vectorDimension == old(vectorDimension) && indexingType == old(indexingType)
      ensures globalCentroids == old(globalCentroids) && quantizationCodebook == old(quantizationCodebook)
    {
      clusterAssignments := assignments;
    }

    method SetQuantizationCodebook(codebook: seq<Byte>)
      modifies this
      ensures quantizationCodebook == codebook
      ensures vectorDimension == old(vectorDimension) && indexingType == old(indexingType)
      ensures globalCentroids == old(globalCentroids) && clusterAssignments == old(clusterAssignments)
    {
      quantizationCodebook := codebook;
    }

    /** `write`. */
    method Write() returns (out: seq<Byte>)
      requires WritableFooter(globalCentroids, clusterAssignments, quantizationCodebook)
      ensures out == EncodeFooter(vectorDimension, indexingType, globalCentroids, clusterAssignments, quantizationCodebook)
    {
      var centroids, rows, codebook := globalCentroids, clusterAssignments, quantizationCodebook;
      var centroidOctets := WriteFloatArrays(centroids);
      var rowOctets := WriteIntArrays(rows);
      var codebookOctets := if |codebook| > 0 then codebook else [];
      out := EncodeInt(vectorDimension) + (EncodeByte(TypeId(indexingType)) +
        (EncodeInt(|centroids|) + (centroidOctets +
        (EncodeInt(|rows|) + (rowOctets +
        (EncodeInt(|codebook|) + codebookOctets))))));
    }

    /** `readFields`: each field is overwritten as soon as its value (or, for
        an array, its allocation) is available, so a failure part-way leaves
        the fields before it updated and those after it untouched. */
    method ReadFields(s: seq<Byte>) returns (outcome: Result<seq<Byte>>)
      modifies this
      ensures var d := DecodeFooter(s);
        outcome == d.outcome &&
        (d.overwritten < 1 ==> vectorDimension == old(vectorDimension)) &&
        (d.dimension.Some? ==> vectorDimension == d.dimension.value) &&
        (d.overwritten < 2 ==> indexingType == old(indexingType)) &&
        (d.indexingType.Some? ==> indexingType == d.indexingType.value) &&
        (d.overwritten < 3 ==> globalCentroids == old(globalCentroids)) &&
        (d.centroids.Some? ==> globalCentroids == d.centroids.value) &&
        (d.overwritten < 4 ==> clusterAssignments == old(clusterAssignments)) &&
        (d.assignments.Some? ==> clusterAssignments == d.assignments.value) &&
        (d.overwritten < 5 ==> quantizationCodebook == old(quantizationCodebook)) &&
        (d.codebook.Some? ==> quantizationCodebook == d.codebook.value)
    {
      var dimension :- ReadInt(s);
      vectorDimension := dimension.0;
      var id :- ReadByte(dimension.1);
      var t :- FromTypeId(id.0);
      indexingType := t;
      var centroidCount :- ReadLength(id.1);
      var centroids, centroidsRead := ReadMany(centroidCount.1, centroidCount.0, DecodeFloatArray);
      globalCentroids := centroids;
      if centroidsRead.Err? {
        return centroidsRead;
      }
      var rowCount :- ReadLength(centroidsRead.value);
      var rows, rowsRead := ReadMany(rowCount.1, rowCount.0, DecodeIntArray);
      clusterAssignments := rows;
      if rowsRead.Err? {
        return rowsRead;
      }
      var codebookLength :- ReadLength(rowsRead.value);
      var length, rest := codebookLength.0, codebookLength.1;
      quantizationCodebook := seq(length, _ => 0);
      if |rest| < length {
        return Err(EndOfStream);
      }
      quantizationCodebook := rest[..length];
      outcome := Ok(rest[length..]);
    }
  }
}
