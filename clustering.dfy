/**
 * The clustering helpers of the index footer: the nearest centroid, the k
 * nearest centroids, and a single assign/update pass of k-means. Distances
 * and means are float arithmetic; the model takes them from a `Geometry`
 * and reasons only about the order of distances and the choice of points.
 */
module Clustering {
  import opened Wrappers
  import opened Bytes
  import opened Floats
  import opened Sorting

  /** `euclideanDistance(a, b)`, and the centroid that summing the members
      coordinate by coordinate and dividing by their count produces. */
  datatype Geometry = Geometry(distance: (Vector, Vector) -> real, mean: (seq<Vector>, nat) -> Vector)

  function Min(a: int, b: int): int { if a < b then a else b }

  /** `Float.MAX_VALUE`, the distance `findNearestCluster` starts from. */
  function MaxDistance(): real
  {
    MaxValueParts();
    Value(MAX_VALUE)
  }

  /** Every point has the length of the first (the source indexes one by the other). */
  predicate SameLength(points: seq<Vector>)
  {
    forall i :: 0 <= i < |points| ==> |points[i]| == |points[0]|
  }

  // ---------------------------------------------------------------- nearest centroid

  /** The loop of `findNearestCluster` over the given centroids: the index kept
      and the distance kept, starting from index 0 and `Float.MAX_VALUE`, and
      replacing them only on a strictly smaller distance. */
  function NearestScan(point: Vector, centroids: seq<Vector>, g: Geometry): (r: (nat, real))
    ensures r.0 == 0 || r.0 < |centroids|
  {
    if centroids == [] then (0, MaxDistance())
    else
      var (nearest, minDistance) := NearestScan(point, centroids[..|centroids| - 1], g);
      var d := g.distance(point, centroids[|centroids| - 1]);
      if d < minDistance then (|centroids| - 1, d) else (nearest, minDistance)
  }

  function Nearest(point: Vector, centroids: seq<Vector>, g: Geometry): nat
  {
    NearestScan(point, centroids, g).0
  }

  lemma {:induction false} NearestScanIsFirstMinimum(point: Vector, centroids: seq<Vector>, g: Geometry)
    ensures var (r, m) := NearestScan(point, centroids, g);
      m <= MaxDistance() &&
      (forall j :: 0 <= j < |centroids| ==> m <= g.distance(point, centroids[j])) &&
      (m < MaxDistance() ==>
        r < |centroids| && g.distance(point, centroids[r]) == m &&
        (forall j :: 0 <= j < r ==> m < g.distance(point, centroids[j]))) &&
      (m == MaxDistance() ==> r == 0)
  {
    if centroids != [] {
      var prefix := centroids[..|centroids| - 1];
      NearestScanIsFirstMinimum(point, prefix, g);
      assert forall j :: 0 <= j < |prefix| ==> prefix[j] == centroids[j];
    }
  }

  /** `findNearestCluster` picks the first centroid at the least distance; when
      no distance is below `Float.MAX_VALUE` (or there are no centroids) it
      answers 0. */
  lemma NearestIsFirstMinimum(point: Vector, centroids: seq<Vector>, g: Geometry)
    ensures var r := Nearest(point, centroids, g);
      (centroids == [] ==> r == 0) && (centroids != [] ==> r < |centroids|)
    ensures var r := Nearest(point, centroids, g);
      (exists j :: 0 <= j < |centroids| && g.distance(point, centroids[j]) < MaxDistance()) ==>
        (forall j :: 0 <= j < |centroids| ==> g.distance(point, centroids[r]) <= g.distance(point, centroids[j])) &&
        (forall j :: 0 <= j < r ==> g.distance(point, centroids[r]) < g.distance(point, centroids[j]))
    ensures (forall j :: 0 <= j < |centroids| ==> g.distance(point, centroids[j]) >= MaxDistance()) ==>
      Nearest(point, centroids, g) == 0
  {
    NearestScanIsFirstMinimum(point, centroids, g);
  }

  /** `euclideanDistance(a, b)` reads `b[i]` for every `i < a.length`: the
      distances from a point stay within bounds exactly when every centroid is
      at least as long as the point; otherwise the first short one throws. */
  predicate Reaches(point: Vector, centroids: seq<Vector>)
  {
    forall c :: 0 <= c < |centroids| ==> |point| <= |centroids[c]|
  }

  /** `findNearestCluster`: the first nearest centroid, or the exception of a
      distance that reads past the end of a centroid. */
  method FindNearestCluster(point: Vector, centroids: seq<Vector>, g: Geometry) returns (r: Result<nat>)
    ensures r.Ok? <==> Reaches(point, centroids)
    ensures r.Ok? ==> r.value == Nearest(point, centroids, g)
    ensures r.Err? ==> r.error == IndexOutOfBounds
  {
    var nearest := 0;
    var minDistance := MaxDistance();
    for i := 0 to |centroids|
      invariant (nearest, minDistance) == NearestScan(point, centroids[..i], g)
      invariant Reaches(point, centroids[..i])
    {
      assert centroids[..i + 1][..i] == centroids[..i];
      if |centroids[i]| < |point| {
        return Err(IndexOutOfBounds);
      }
      var distance := g.distance(point, centroids[i]);
      if distance < minDistance {
        minDistance := distance;
        nearest := i;
      }
    }
    assert centroids[..|centroids|] == centroids;
    r := Ok(nearest);
  }

  // ---------------------------------------------------------------- k nearest centroids

  function Indices(n: nat): (r: seq<int>)
    ensures |r| == n && forall i :: 0 <= i < n ==> r[i] == i
  {
    seq(n, i => i)
  }

  /** The `distances` array of `findTopKNearestClusters`. */
  function Distances(point: Vector, centroids: seq<Vector>, g: Geometry): (r: seq<real>)
    ensures |r| == |centroids|
  {
    seq(|centroids|, i requires 0 <= i < |centroids| => g.distance(point, centroids[i]))
  }

  /** The comparator of the sort: an index by its entry in `distances`. */
  function ByDistance(distances: seq<real>): int -> real
  {
    i => if 0 <= i < |distances| then distances[i] else 0.0
  }

  /** The sort key of `findTopKNearestClusters`: the distance to centroid i. */
  function DistanceKey(point: Vector, centroids: seq<Vector>, g: Geometry): int -> real
  {
    ByDistance(Distances(point, centroids, g))
  }

  /** `findTopKNearestClusters`: the indices sorted by distance (a stable sort),
      cut to the first `min(k, #centroids)`. */
  function TopKNearest(point: Vector, centroids: seq<Vector>, k: nat, g: Geometry): (r: seq<int>)
    ensures |r| == Min(k, |centroids|)
    ensures forall i :: 0 <= i < |r| ==> 0 <= r[i] < |centroids|
  {
    var ids := Indices(|centroids|);
    var sorted := SortBy(ids, DistanceKey(point, centroids, g));
    assert forall i :: 0 <= i < |sorted| ==> sorted[i] in multiset(ids);
    Take(sorted, Min(k, |centroids|))
  }

  /** The selected indices are distinct. */
  lemma TopKNearestAreDistinct(point: Vector, centroids: seq<Vector>, k: nat, g: Geometry)
    ensures var r := TopKNearest(point, centroids, k, g);
      forall i, j :: 0 <= i < j < |r| ==> r[i] != r[j]
  {
    var key := DistanceKey(point, centroids, g);
    var ids := Indices(|centroids|);
    var sorted := SortBy(ids, key);
    var r := TopKNearest(point, centroids, k, g);
    SortIsStable(ids, key);
    assert r == sorted[..|r|];
    forall i, j | 0 <= i < j < |r| ensures r[i] != r[j] {
      assert LexBefore(sorted[i], sorted[j], key);
    }
  }

  /** Closest first, ties to the lower index (the sort is stable over increasing indices). */
  lemma TopKNearestIsOrdered(point: Vector, centroids: seq<Vector>, k: nat, g: Geometry)
    ensures var r := TopKNearest(point, centroids, k, g);
      forall i, j :: 0 <= i < j < |r| ==>
        g.distance(point, centroids[r[i]]) < g.distance(point, centroids[r[j]]) ||
        (g.distance(point, centroids[r[i]]) == g.distance(point, centroids[r[j]]) && r[i] < r[j])
  {
    var key := DistanceKey(point, centroids, g);
    var ids := Indices(|centroids|);
    var sorted := SortBy(ids, key);
    var r := TopKNearest(point, centroids, k, g);
    TopKNearestAreDistinct(point, centroids, k, g);
    SortIsStable(ids, key);
    assert r == sorted[..|r|];
    forall i, j | 0 <= i < j < |r|
      ensures g.distance(point, centroids[r[i]]) < g.distance(point, centroids[r[j]]) ||
        (g.distance(point, centroids[r[i]]) == g.distance(point, centroids[r[j]]) && r[i] < r[j])
    {
      assert LexBefore(sorted[i], sorted[j], key);
    }
  }

  /** No centroid left out is closer than one selected. */
  lemma TopKNearestExcludesFarther(point: Vector, centroids: seq<Vector>, k: nat, g: Geometry)
    ensures var r := TopKNearest(point, centroids, k, g);
      forall i, c :: 0 <= i < |r| && 0 <= c < |centroids| && c !in r ==>
        g.distance(point, centroids[r[i]]) <= g.distance(point, centroids[c])
  {
    var key := DistanceKey(point, centroids, g);
    var ids := Indices(|centroids|);
    var sorted := SortBy(ids, key);
    var r := TopKNearest(point, centroids, k, g);
    TopKNearestAreDistinct(point, centroids, k, g);
    assert r == sorted[..|r|];
    forall i, c | 0 <= i < |r| && 0 <= c < |centroids| && c !in r
      ensures g.distance(point, centroids[r[i]]) <= g.distance(point, centroids[c])
    {
      assert c in multiset(sorted) by { assert ids[c] == c; }
      var p :| 0 <= p < |sorted| && sorted[p] == c;
      assert SortedBy(sorted, key);
      assert r[i] == sorted[i] && i < p;
      assert key(sorted[i]) <= key(sorted[p]);
    }
  }

  /** Every centroid index appears among the k nearest once k covers them all. */
  lemma TopKNearestCoversAll(point: Vector, centroids: seq<Vector>, k: nat, g: Geometry, c: int)
    requires k >= |centroids| && 0 <= c < |centroids|
    ensures c in TopKNearest(point, centroids, k, g)
  {
    var ids := Indices(|centroids|);
    var sorted := SortBy(ids, DistanceKey(point, centroids, g));
    assert ids[c] == c;
    assert c in multiset(sorted);
  }

  /** The distance loop of `findTopKNearestClusters`: the `distances` array,
      or the exception of the first centroid shorter than the point. */
  method ComputeDistances(point: Vector, centroids: seq<Vector>, g: Geometry) returns (r: Result<seq<real>>)
    ensures r.Ok? <==> Reaches(point, centroids)
    ensures r.Ok? ==> r.value == Distances(point, centroids, g)
    ensures r.Err? ==> r.error == IndexOutOfBounds
  {
    var distances := new real[|centroids|];
    for i := 0 to |centroids|
      invariant forall j :: 0 <= j < i ==> distances[j] == g.distance(point, centroids[j])
      invariant Reaches(point, centroids[..i])
    {
      assert centroids[..i + 1][..i] == centroids[..i];
      if |centroids[i]| < |point| {
        return Err(IndexOutOfBounds);
      }
      distances[i] := g.distance(point, centroids[i]);
    }
    assert centroids[..|centroids|] == centroids;
    r := Ok(distances[..]);
  }

  /** `findTopKNearestClusters`: the distances, the index array, the sort by
      distance, the copy; a centroid shorter than the point throws. */
  method FindTopKNearestClusters(point: Vector, centroids: seq<Vector>, k: nat, g: Geometry) returns (r: Result<seq<int>>)
    ensures r.Ok? <==> Reaches(point, centroids)
    ensures r.Ok? ==> r.value == TopKNearest(point, centroids, k, g)
    ensures r.Err? ==> r.error == IndexOutOfBounds
  {
    var kk := Min(k, |centroids|);
    var distances :- ComputeDistances(point, centroids, g);
    var indices := FillIndices(|centroids|);
    var sorted := SortBy(indices, ByDistance(distances));
    var out := CopyPrefix(sorted, kk);
    r := Ok(out);
  }

  /** The `indices` array of `findTopKNearestClusters`, filled with 0 .. n-1. */
  method FillIndices(n: nat) returns (r: seq<int>)
    ensures r == Indices(n)
  {
    var indices := new int[n];
    for i := 0 to n
      invariant forall j :: 0 <= j < i ==> indices[j] == j
    {
      indices[i] := i;
    }
    r := indices[..];
  }

  /** The `result` array of `findTopKNearestClusters`: the first kk sorted indices. */
  method CopyPrefix(sorted: seq<int>, kk: nat) returns (r: seq<int>)
    requires kk <= |sorted|
    ensures r == Take(sorted, kk)
  {
    var out := new int[kk];
    for i := 0 to kk
      invariant forall j :: 0 <= j < i ==> out[j] == sorted[j]
    {
      out[i] := sorted[i];
    }
    r := out[..];
  }

  // ---------------------------------------------------------------- one k-means pass

  /** Without overflow, `i * n / k` lies in [0, n). */
  lemma SeedIndexInRange(i: int, n: int, k: int)
    requires 0 <= i < k <= n
    ensures 0 <= i * n / k < n
  {
    assert i * n < k * n by {
      assert (k - i) * n > 0;
    }
  }

  /** Java's `/` on `int`: the quotient truncated toward zero. */
  function JavaDivide(a: int, b: int): int
    requires b > 0
  {
    if a >= 0 then a / b else -((-a) / b)
  }

  /** The seed position of centroid i, `i * points.size() / k` in `int`
      arithmetic: the product wraps to 32 bits before the division. */
  function SeedIndex(i: int, n: int, k: int): (r: int)
    requires 0 <= i < k <= n <= MAX_INT32
    ensures r < n
    ensures i * n <= MAX_INT32 ==> 0 <= r && r == i * n / k
  {
    SeedIndexBelow(i, n, k);
    JavaDivide(Signed32((i * n) % 0x1_0000_0000), k)
  }

  /** A wrapped product is below 2^31 and below `k * n`, so the quotient is
      below n whatever its sign; without overflow nothing wraps. */
  lemma SeedIndexBelow(i: int, n: int, k: int)
    requires 0 <= i < k <= n <= MAX_INT32
    ensures var w := Signed32((i * n) % 0x1_0000_0000);
      JavaDivide(w, k) < n && (i * n <= MAX_INT32 ==> w == i * n && 0 <= JavaDivide(w, k) == i * n / k)
  {
    ProductBelow(i, n, k);
    WrappedQuotientBelow(i * n, k, n);
    if i * n <= MAX_INT32 {
      SeedIndexInRange(i, n, k);
    }
  }

  /** A product below `k * n`, wrapped and divided by k, stays below n. */
  lemma WrappedQuotientBelow(p: int, k: int, n: int)
    requires 0 <= p < k * n && 0 < k
    ensures var w := Signed32(p % 0x1_0000_0000);
      JavaDivide(w, k) < n && (p <= MAX_INT32 ==> w == p)
  {
    var w := Signed32(p % 0x1_0000_0000);
    if p <= MAX_INT32 {
      QuotientBelow(p, k, n);
    } else if w >= 0 {
      assert w < p;
      QuotientBelow(w, k, n);
    } else {
      NegativeQuotient(w, k);
    }
  }

  lemma NegativeQuotient(w: int, k: int)
    requires w < 0 < k
    ensures JavaDivide(w, k) <= 0
  {
  }

  lemma ProductBelow(i: int, n: int, k: int)
    requires 0 <= i < k <= n
    ensures 0 <= i * n < k * n
  {
    assert (k - i) * n > 0;
  }

  lemma QuotientBelow(w: int, k: int, n: int)
    requires 0 <= w < k * n && 0 < k
    ensures w / k < n
  {
    var q := w / k;
    assert q * k <= w;
    assert (q - n) * k < 0;
  }

  /** Every seed position is an index of the list: the `List.get` of the
      seeding loop never throws. */
  predicate SeedsInRange(n: int, k: int)
    requires 0 < k <= n <= MAX_INT32
  {
    forall i :: 0 <= i < k ==> 0 <= SeedIndex(i, n, k)
  }

  /** When `(k - 1) * n` fits an `int`, no seed position wraps. */
  lemma SeedsInRangeWithoutOverflow(n: int, k: int)
    requires 0 < k <= n <= MAX_INT32 && (k - 1) * n <= MAX_INT32
    ensures SeedsInRange(n, k)
  {
    forall i | 0 <= i < k
      ensures 0 <= SeedIndex(i, n, k)
    {
      ProductMonotone(i, k - 1, n);
    }
  }

  lemma ProductMonotone(i: int, j: int, n: int)
    requires 0 <= i <= j && 0 <= n
    ensures i * n <= j * n
  {
    assert (j - i) * n >= 0;
  }

  /** With 65536 points and as many clusters, the position of seed 32768
      wraps to -2^31 and divides to a negative index. */
  lemma SeedIndexOverflows()
    ensures SeedIndex(32768, 65536, 65536) == -32768
    ensures !SeedsInRange(65536, 65536)
  {
    assert 32768 * 65536 == 0x8000_0000;
    assert Signed32(0x8000_0000) == -0x8000_0000;
    assert JavaDivide(-0x8000_0000, 65536) == -32768;
  }

  /** Centroid i starts as the point at its seed position. */
  function Seeds(points: seq<Vector>, k: int): (r: seq<Vector>)
    requires 0 < k <= |points| <= MAX_INT32 && SeedsInRange(|points|, k)
    ensures |r| == k
  {
    seq(k, i requires 0 <= i < k => points[SeedIndex(i, |points|, k)])
  }

  function Assign(points: seq<Vector>, centroids: seq<Vector>, g: Geometry): (r: seq<nat>)
    ensures |r| == |points|
  {
    seq(|points|, p requires 0 <= p < |points| => Nearest(points[p], centroids, g))
  }

  /** The points assigned to cluster c, in order. */
  function Members(points: seq<Vector>, assignment: seq<nat>, c: int): (r: seq<Vector>)
    requires |assignment| == |points|
    ensures |r| <= |points|
  {
    if points == [] then []
    else
      var last := |points| - 1;
      Members(points[..last], assignment[..last], c) + (if assignment[last] == c then [points[last]] else [])
  }

  /** A cluster has no members exactly when no point is assigned to it. */
  lemma {:induction false} MembersEmptyIff(points: seq<Vector>, assignment: seq<nat>, c: int)
    requires |assignment| == |points|
    ensures Members(points, assignment, c) == [] <==> forall p :: 0 <= p < |points| ==> assignment[p] != c
  {
    if points != [] {
      var last := |points| - 1;
      MembersEmptyIff(points[..last], assignment[..last], c);
      assert forall p :: 0 <= p < last ==> assignment[..last][p] == assignment[p];
    }
  }

  /** The update of cluster c: the mean of its members, or its seed when it has none. */
  function UpdatedCentroid(points: seq<Vector>, assignment: seq<nat>, seed: Vector, c: int, g: Geometry): Vector
    requires |assignment| == |points| && points != []
  {
    var members := Members(points, assignment, c);
    if members == [] then seed else g.mean(members, |points[0]|)
  }

  /** One update pass over all the clusters. */
  function Update(points: seq<Vector>, assignment: seq<nat>, seeds: seq<Vector>, g: Geometry): (r: seq<Vector>)
    requires |assignment| == |points| && points != []
    ensures |r| == |seeds|
  {
    seq(|seeds|, c requires 0 <= c < |seeds| => UpdatedCentroid(points, assignment, seeds[c], c, g))
  }

  /** The mean of a cluster is a new `float[dimension]`: the geometry keeps
      the dimension it is given. */
  ghost predicate KeepsDimension(g: Geometry)
  {
    forall members: seq<Vector>, dimension: nat :: |g.mean(members, dimension)| == dimension
  }

  /** `performKMeansClustering`: no clusters for an empty input or k <= 0;
      otherwise min(k, n) seeds, one assignment pass and one update pass.
      An `IndexOutOfBoundsException` escapes when a seed position wraps to a
      negative index, or when some point is not as long as the first: a
      shorter seed fails its `arraycopy`, a longer point reads past a seed in
      `euclideanDistance`, and a shorter member reads past its own end in the
      update. Nothing outside the method changes before any of these, so
      which of them fires first is not observable. */
  function KMeans(points: seq<Vector>, k: int, g: Geometry): (r: Result<seq<Vector>>)
    requires |points| <= MAX_INT32
    ensures r.Ok? ==> |r.value| == if points == [] || k <= 0 then 0 else Min(k, |points|)
    ensures r.Err? ==> r.error == IndexOutOfBounds && points != [] && k > 0
  {
    if points == [] || k <= 0 then Ok([])
    else
      var kk := Min(k, |points|);
      if !SeedsInRange(|points|, kk) || !SameLength(points) then Err(IndexOutOfBounds)
      else
        var seeds := Seeds(points, kk);
        Ok(Update(points, Assign(points, seeds, g), seeds, g))
  }

  /** Points of one length whose seed positions fit an `int` always cluster;
      points of different lengths never do once k > 0; and 65536 points with
      65536 clusters overflow whatever they are. */
  lemma KMeansFailure(points: seq<Vector>, k: int, g: Geometry)
    requires |points| <= MAX_INT32
    ensures SameLength(points) && (Min(k, |points|) - 1) * |points| <= MAX_INT32 ==> KMeans(points, k, g).Ok?
    ensures !SameLength(points) && k > 0 ==> KMeans(points, k, g).Err?
    ensures |points| == 65536 && k >= 65536 ==> KMeans(points, k, g).Err?
  {
    if points != [] && k > 0 {
      var kk := Min(k, |points|);
      if (kk - 1) * |points| <= MAX_INT32 {
        SeedsInRangeWithoutOverflow(|points|, kk);
      }
      if |points| == 65536 && k >= 65536 {
        SeedIndexOverflows();
      }
    }
  }

  /** Each point is assigned to one of the seeds. */
  lemma AssignmentsInRange(points: seq<Vector>, centroids: seq<Vector>, g: Geometry)
    requires centroids != []
    ensures forall p :: 0 <= p < |points| ==> Assign(points, centroids, g)[p] < |centroids|
  {
    forall p | 0 <= p < |points| ensures Assign(points, centroids, g)[p] < |centroids| {
      NearestIsFirstMinimum(points[p], centroids, g);
    }
  }

  /** Every centroid of a successful pass has the length of the points. */
  lemma KMeansKeepsDimension(points: seq<Vector>, k: int, g: Geometry)
    requires |points| <= MAX_INT32 && KeepsDimension(g) && KMeans(points, k, g).Ok?
    ensures forall c, p :: 0 <= c < |KMeans(points, k, g).value| && 0 <= p < |points| ==>
      |KMeans(points, k, g).value[c]| == |points[p]|
  {
    var cs := KMeans(points, k, g).value;
    if cs != [] {
      var kk := Min(k, |points|);
      var seeds := Seeds(points, kk);
      forall c | 0 <= c < |cs|
        ensures |cs[c]| == |points[0]|
      {
        assert cs[c] == UpdatedCentroid(points, Assign(points, seeds, g), seeds[c], c, g);
        assert |seeds[c]| == |points[0]|;
      }
    }
  }

  /** A cluster to which no point is nearest keeps its seed, the point at
      its seed position; any other cluster becomes the mean of the points
      nearest to it, taken in input order. */
  lemma KMeansClusters(points: seq<Vector>, k: int, g: Geometry, c: int)
    requires |points| <= MAX_INT32 && KMeans(points, k, g).Ok?
    requires points != [] && k > 0 && 0 <= c < Min(k, |points|)
    ensures var kk := Min(k, |points|); var seeds := Seeds(points, kk);
      (forall p :: 0 <= p < |points| ==> Nearest(points[p], seeds, g) != c) ==>
        KMeans(points, k, g).value[c] == points[SeedIndex(c, |points|, kk)]
    ensures var kk := Min(k, |points|); var seeds := Seeds(points, kk);
      (exists p :: 0 <= p < |points| && Nearest(points[p], seeds, g) == c) ==>
        KMeans(points, k, g).value[c] == g.mean(Members(points, Assign(points, seeds, g), c), |points[0]|)
  {
    var kk := Min(k, |points|);
    var seeds := Seeds(points, kk);
    var assignment := Assign(points, seeds, g);
    assert KMeans(points, k, g).value[c] == Update(points, assignment, seeds, g)[c];
    MembersEmptyIff(points, assignment, c);
    if p :| 0 <= p < |points| && Nearest(points[p], seeds, g) == c {
      assert assignment[p] == c;
    }
  }

  /** Every seed position is an index and every seed holds at least
      `dimension` floats: the seeding loop runs to its end. */
  predicate SeedsCopyable(points: seq<Vector>, k: int, dimension: nat)
    requires 0 < k <= |points| <= MAX_INT32
  {
    forall i :: 0 <= i < k ==> 0 <= SeedIndex(i, |points|, k) && dimension <= |points[SeedIndex(i, |points|, k)]|
  }

  /** The seeding loop: centroid i is a `float[dimension]` holding the first
      `dimension` floats of the point at its seed position. */
  method SeedCentroids(points: seq<Vector>, kk: int, dimension: nat) returns (r: Result<array<Vector>>)
    requires 0 < kk <= |points| <= MAX_INT32
    ensures r.Ok? <==> SeedsCopyable(points, kk, dimension)
    ensures r.Ok? ==> fresh(r.value) && r.value.Length == kk
    ensures r.Ok? ==> forall i :: 0 <= i < kk ==> r.value[i] == points[SeedIndex(i, |points|, kk)][..dimension]
  {
    var current := new Vector[kk];
    for i := 0 to kk
      invariant forall j :: 0 <= j < i ==>
        0 <= SeedIndex(j, |points|, kk) && dimension <= |points[SeedIndex(j, |points|, kk)]| &&
        current[j] == points[SeedIndex(j, |points|, kk)][..dimension]
    {
      var index := SeedIndex(i, |points|, kk);
      if index < 0 || |points[index]| < dimension {
        return Err(IndexOutOfBounds);
      }
      current[i] := points[index][..dimension];
    }
    r := Ok(current);
  }

  /** The assignment loop: each point to its nearest seed, unless a distance
      reads past the end of a seed. */
  method AssignPoints(points: seq<Vector>, seeds: seq<Vector>, g: Geometry) returns (r: Result<array<nat>>)
    ensures r.Ok? <==> forall p :: 0 <= p < |points| ==> Reaches(points[p], seeds)
    ensures r.Ok? ==> fresh(r.value) && r.value[..] == Assign(points, seeds, g)
  {
    var assignments := new nat[|points|];
    for p := 0 to |points|
      invariant forall q :: 0 <= q < p ==> Reaches(points[q], seeds) && assignments[q] == Nearest(points[q], seeds, g)
    {
      var nearest := FindNearestCluster(points[p], seeds, g);
      if nearest.Err? {
        return Err(IndexOutOfBounds);
      }
      assignments[p] := nearest.value;
    }
    r := Ok(assignments);
  }

  /** The scan of the update loop for the members of cluster c; summing them
      reads `dimension` floats of each, past the end of a shorter one. */
  method CollectMembers(points: seq<Vector>, assignments: array<nat>, c: int, dimension: nat) returns (r: Result<seq<Vector>>)
    requires assignments.Length == |points|
    ensures r.Ok? <==> forall p :: 0 <= p < |points| && assignments[p] == c ==> dimension <= |points[p]|
    ensures r.Ok? ==> r.value == Members(points, assignments[..], c)
  {
    var members := [];
    for p := 0 to |points|
      invariant members == Members(points[..p], assignments[..p], c)
      invariant forall q :: 0 <= q < p && assignments[q] == c ==> dimension <= |points[q]|
    {
      assert points[..p + 1][..p] == points[..p];
      assert assignments[..p + 1][..p] == assignments[..p];
      if assignments[p] == c {
        if |points[p]| < dimension {
          return Err(IndexOutOfBounds);
        }
        members := members + [points[p]];
      }
    }
    assert points[..|points|] == points && assignments[..|points|] == assignments[..];
    r := Ok(members);
  }

  /** The update loop: each cluster with members moves to their mean, unless
      a member is shorter than the first point. */
  method UpdateCentroids(points: seq<Vector>, assignments: array<nat>, current: array<Vector>, g: Geometry) returns (r: Result<()>)
    requires points != [] && assignments.Length == |points|
    modifies current
    ensures r.Ok? <==> forall p :: 0 <= p < |points| && assignments[p] < current.Length ==> |points[0]| <= |points[p]|
    ensures r.Ok? ==> current[..] == Update(points, assignments[..], old(current[..]), g)
  {
    ghost var seeds := current[..];
    for c := 0 to current.Length
      invariant forall j :: 0 <= j < c ==> current[j] == UpdatedCentroid(points, assignments[..], seeds[j], j, g)
      invariant forall j :: c <= j < current.Length ==> current[j] == seeds[j]
      invariant forall p :: 0 <= p < |points| && assignments[p] < c ==> |points[0]| <= |points[p]|
    {
      var members := CollectMembers(points, assignments, c, |points[0]|);
      if members.Err? {
        return Err(IndexOutOfBounds);
      }
      if |members.value| > 0 {
        current[c] := g.mean(members.value, |points[0]|);
      }
    }
    r := Ok(());
  }

  /** The three loops succeed exactly for points of one length whose seed
      positions are indices, and then the copies are the points themselves. */
  lemma PassesSucceed(points: seq<Vector>, kk: int)
    requires 0 < kk <= |points| <= MAX_INT32
    ensures SeedsCopyable(points, kk, |points[0]|) && SameLength(points) ==> SeedsInRange(|points|, kk)
    ensures SeedsCopyable(points, kk, |points[0]|) && SameLength(points) ==>
      forall i :: 0 <= i < kk ==> points[SeedIndex(i, |points|, kk)][..|points[0]|] == Seeds(points, kk)[i]
    ensures SeedsInRange(|points|, kk) && SameLength(points) ==> SeedsCopyable(points, kk, |points[0]|)
  {
  }

  /** `performKMeansClustering`. */
  method PerformKMeansClustering(points: seq<Vector>, k: int, g: Geometry) returns (r: Result<seq<Vector>>)
    requires |points| <= MAX_INT32
    ensures r == KMeans(points, k, g)
  {
    if points == [] || k <= 0 {
      return Ok([]);
    }
    var kk := Min(k, |points|);
    var dimension := |points[0]|;
    PassesSucceed(points, kk);
    var seeded := SeedCentroids(points, kk, dimension);
    if seeded.Err? {
      return Err(IndexOutOfBounds);
    }
    var current := seeded.value;
    var seeds := current[..];
    var assignedPoints := AssignPoints(points, seeds, g);
    if assignedPoints.Err? {
      var p :| 0 <= p < |points| && !Reaches(points[p], seeds);
      assert |points[p]| > |seeds[0]| == dimension;
      return Err(IndexOutOfBounds);
    }
    var assignments := assignedPoints.value;
    AssignmentsInRange(points, seeds, g);
    var updated := UpdateCentroids(points, assignments, current, g);
    if updated.Err? {
      return Err(IndexOutOfBounds);
    }
    assert SameLength(points) by {
      forall p | 0 <= p < |points|
        ensures |points[p]| == dimension
      {
        assert Reaches(points[p], seeds);
        assert |seeds[0]| == dimension;
      }
    }
    assert seeds == Seeds(points, kk);
    r := Ok(current[..]);
  }
}
