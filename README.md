# Vector search for Accumulo, modelled in Dafny

This project models the vector-search add-on of an Accumulo fork and proves
properties of the model. The add-on stores float vectors as values and
answers "the top K entries most similar to this query vector" with a
server-side iterator.

The model covers six parts:

- **Value types** (`value_type.dfy`, module `ValueTypes`): the one-byte type
  tag of a stored value (BYTES or VECTOR_FLOAT32) and its decoder.
- **Vector compression** (`compression.dfy`, module `Compression`): 8-bit
  and 16-bit scalar quantisation against the vector's min/max range, and the
  matching decompressors, with their degenerate zero-range branch.
- **Block index** (`vector_index.dfy`, module `BlockIndex`): the per-file
  list of block metadata (centroid, vector count, offset, size), which grows
  in place, and its big-endian `write`/`readFields` layout.
- **Index footer** (`vector_index_footer.dfy`, module `IndexFooter`, with
  `clustering.dfy`, module `Clustering`): the FLAT / IVF / HIERARCHICAL / PQ
  index over the block centroids. It covers one round of k-means (with the
  `int` arithmetic of its seed positions and its index errors), the nearest
  and k-nearest cluster searches, candidate block selection, and the
  footer's layout.
- **Staging buffer** (`buffer.dfy`, module `StagingBuffer`): the memory-bounded
  map of loaded blocks, with its footprint accounting and eviction, and the
  per-block scoring whose results are merged, sorted by `Float.compare`
  descending and limited to top K.
- **Search iterator** (`iterator.dfy`, module `SearchIterator`, with
  `similarity.dfy`, module `Similarity`): the iterator's state (results and
  cursor), its `seek` (candidate blocks, or a full scan when there are none,
  then sort and truncate), the visibility checks, and the cosine and
  dot-product scores.

Supporting modules:

- `wrappers.dfy`: `Option`, and `Result` whose error names the Java exception.
- `bytes.dfy`: big-endian `int`/`long`/`byte` encodings and their round trips.
- `floats.dfy`: 32-bit float bit patterns, with Java's `<`, `>=`,
  `floatToIntBits` and `Float.compare` order.
- `sorting.dfy`: a stable sort by a real-valued key and `limit`.
- `streams.dfy`: length-prefixed float and int arrays.

How the model treats floats. A float is its 32-bit pattern. Comparisons
follow IEEE 754 exactly: NaN compares false, and -0.0 equals 0.0 under `==`
but not under `Float.compare`. Rounded arithmetic is a parameter of the
operations that need it:

- the multiply-add, quotient and halving of the similarity loops (`FloatOps`);
- quantisation and reconstruction (`Quantizer`);
- Euclidean distance and the component-wise mean (`Geometry`).

So every statement is proved for every rounding behaviour, and the loops,
branches, comparisons and constants are the source's own.

Sources outside the model are parameters too:

- the stored records the iterator scans;
- the block contents a block's metadata leads to (`Storage`);
- the visibility parser and authorisations (`Evaluator`).

Decoders return `Result`s whose errors name the exception the Java code
would throw (`EOFException`, `IllegalArgumentException`,
`IllegalStateException`).

## Model

| member | source | states |
|---|---|---|
| ValueTypes.FindById | core/src/main/java/org/apache/accumulo/core/data/ValueType.java:59-66 | the lookup loop of both enums (`ValueType` here, `IndexingType` at VectorIndexFooter.java lines 58-65): a constant found carries the requested id and is among those searched; otherwise the error is `IllegalArgumentException` and no constant carries that id |
| ValueTypes.TypeIdsAreDistinct | core/src/main/java/org/apache/accumulo/core/data/ValueType.java:29-50 | BYTES is 0, VECTOR_FLOAT32 is 1, and no two types share an id |
| ValueTypes.FromTypeIdInvertsTypeId | core/src/main/java/org/apache/accumulo/core/data/ValueType.java:59-66 | `fromTypeId(getTypeId(t))` is `t` for every type |
| ValueTypes.FromTypeIdAccepts | core/src/main/java/org/apache/accumulo/core/data/ValueType.java:59-66 | `fromTypeId` accepts exactly the ids 0 and 1, returning the type with that id, and rejects every other byte with `IllegalArgumentException` |
| Compression.FindRange | core/src/main/java/org/apache/accumulo/core/file/rfile/VectorCompression.java:46-56 | the min/max scan returns the running minimum seeded with `Float.MAX_VALUE` and the running maximum seeded with the given seed, with Java's `<` and `>` on floats (false on NaN) |
| Compression.Code8 | core/src/main/java/org/apache/accumulo/core/file/rfile/VectorCompression.java:69-70 | an 8-bit code always lies in [-128, 127]; for a non-negative level it is the level clamped to [0, 255], minus 128 |
| Compression.Code16 | core/src/main/java/org/apache/accumulo/core/file/rfile/VectorCompression.java:110-111 | a 16-bit code always lies in [-32768, 32767]; for a non-negative level it is the level clamped to [0, 65535], minus 32768 |
| Compression.Codes8 | core/src/main/java/org/apache/accumulo/core/file/rfile/VectorCompression.java:66-71 | one code per element, each a valid signed byte |
| Compression.Codes16 | core/src/main/java/org/apache/accumulo/core/file/rfile/VectorCompression.java:106-113 | one code per element, each a valid signed short |
| Compression.PackShorts | core/src/main/java/org/apache/accumulo/core/file/rfile/VectorCompression.java:107-115 | `putShort` writes two bytes per code |
| Compression.ShortOctetsDenote | core/src/main/java/org/apache/accumulo/core/file/rfile/VectorCompression.java:111-112 | the two bytes of a short, read big-endian as unsigned, denote the short modulo 65536 |
| Compression.Compress8With | core/src/main/java/org/apache/accumulo/core/file/rfile/VectorCompression.java:40-74 | 8-bit compression is tagged QUANTIZED_8BIT and stores one byte per element |
| Compression.Compress16With | core/src/main/java/org/apache/accumulo/core/file/rfile/VectorCompression.java:83-116 | 16-bit compression is tagged QUANTIZED_16BIT and stores two bytes per element |
| Compression.Compress8Bit | core/src/main/java/org/apache/accumulo/core/file/rfile/VectorCompression.java:40-74 | the imperative compressor (empty check, min/max scan, zero-range branch, quantising loop) produces exactly the 8-bit compression of the vector |
| Compression.Compress16Bit | core/src/main/java/org/apache/accumulo/core/file/rfile/VectorCompression.java:83-116 | the imperative compressor produces exactly the 16-bit compression, byte for byte as `ByteBuffer.putShort` lays it out |
| Compression.Decompress8With | core/src/main/java/org/apache/accumulo/core/file/rfile/VectorCompression.java:146-168 | the 8-bit decoder yields one float per stored byte |
| Compression.Decompress16With | core/src/main/java/org/apache/accumulo/core/file/rfile/VectorCompression.java:170-192 | the 16-bit decoder yields one float per stored pair of bytes |
| Compression.RawFloats | core/src/main/java/org/apache/accumulo/core/file/rfile/VectorCompression.java:134-142 | the raw branch yields one float per four stored bytes |
| Compression.DecompressWith | core/src/main/java/org/apache/accumulo/core/file/rfile/VectorCompression.java:124-144 | empty data decodes to the empty vector; otherwise the type tag picks the 8-bit, 16-bit or raw decoder, with the matching length |
| Compression.Decompress8Bit | core/src/main/java/org/apache/accumulo/core/file/rfile/VectorCompression.java:146-168 | the imperative 8-bit decoder, including its zero-range branch, matches the decoder as written |
| Compression.Decompress16Bit | core/src/main/java/org/apache/accumulo/core/file/rfile/VectorCompression.java:170-192 | the imperative 16-bit decoder matches the decoder as written |
| Compression.Decompress | core/src/main/java/org/apache/accumulo/core/file/rfile/VectorCompression.java:124-144 | the dispatching decoder matches the decompression function |
| Compression.EmptyVectorRoundTrip | core/src/main/java/org/apache/accumulo/core/file/rfile/VectorCompression.java:41-43 | compressing the empty vector gives empty data with min = max = 0.0f, and it decompresses to the empty vector |
| Compression.RoundTripKeepsLength | core/src/main/java/org/apache/accumulo/core/file/rfile/VectorCompression.java:124-192 | compressing and then decompressing (8-bit, 16-bit, corrected 8-bit) keeps the vector's length |
| Compression.CompressionRatioOfCompressors | core/src/main/java/org/apache/accumulo/core/file/rfile/VectorCompression.java:229-239 | the ratio is 4.0 for 8-bit, 2.0 for 16-bit and 1.0 for any other tag |
| Compression.ZeroRangeDecodesToMin | core/src/main/java/org/apache/accumulo/core/file/rfile/VectorCompression.java:153-159 | when `max - min` is zero, every decoded element is `min` (16-bit: lines 178-183) |
| Compression.Level8Recovers | core/src/main/java/org/apache/accumulo/core/file/rfile/VectorCompression.java:161-165 | the corrected 8-bit decoder recovers code + 128, i.e. the clamped quantisation level |
| Compression.Level8AsWrittenRecovers | core/src/main/java/org/apache/accumulo/core/file/rfile/VectorCompression.java:163 | the decoder as written recovers code + 128, plus 256 for every negative code; so it returns the clamped level exactly when the level is at least 128 |
| Compression.Level8AsWrittenAtMinimum | core/src/main/java/org/apache/accumulo/core/file/rfile/VectorCompression.java:163 | the element at the minimum (level 0, code -128, byte 0x80) decodes to level 256 as written and to 0 when corrected |
| Compression.Level16Recovers | core/src/main/java/org/apache/accumulo/core/file/rfile/VectorCompression.java:185-189 | the corrected 16-bit decoder recovers code + 32768, i.e. the clamped level |
| Compression.Level16AsWrittenRecovers | core/src/main/java/org/apache/accumulo/core/file/rfile/VectorCompression.java:187 | the 16-bit decoder as written adds 65536 for every negative code |
| Compression.PackShortsAt | core/src/main/java/org/apache/accumulo/core/file/rfile/VectorCompression.java:107-115 | the bytes at 2i and 2i+1 are the two bytes of the i-th code |
| Compression.DecodedLevels8 | core/src/main/java/org/apache/accumulo/core/file/rfile/VectorCompression.java:68-71 | element by element, 8-bit compression followed by decompression reconstructs from code + 128 when corrected, and from code + 128 (+256 for a negative code) as written |
| Compression.DecodedLevels16 | core/src/main/java/org/apache/accumulo/core/file/rfile/VectorCompression.java:107-113 | the same for 16 bits, with 32768 and 65536 |
| Compression.ConstantRunningMin | core/src/main/java/org/apache/accumulo/core/file/rfile/VectorCompression.java:46-51 | the running minimum of a constant finite vector is the smaller of the element and the seed |
| Compression.ConstantRunningMax | core/src/main/java/org/apache/accumulo/core/file/rfile/VectorCompression.java:46-56 | the running maximum of a constant finite vector is the larger of the element and the seed |
| Compression.ConstantRunningMaxKeepsSeed | core/src/main/java/org/apache/accumulo/core/file/rfile/VectorCompression.java:47-56 | when no element exceeds the seed, the running maximum is the seed |
| Compression.ConstantVectorAsWritten | core/src/main/java/org/apache/accumulo/core/file/rfile/VectorCompression.java:46-63 | as written (max seeded with `Float.MIN_VALUE`), a constant vector takes the zero-range branch exactly when its value is at least `Float.MIN_VALUE`; below that `max` stays `Float.MIN_VALUE`; where the branch is taken every element decodes to the constant |
| Compression.ConstantVectorCorrected | core/src/main/java/org/apache/accumulo/core/file/rfile/VectorCompression.java:46-63 | with `max` seeded with `-Float.MAX_VALUE`, every constant finite vector takes the zero-range branch and decodes to the constant |
| BlockIndex.EncodeBlock | core/src/main/java/org/apache/accumulo/core/file/rfile/VectorIndex.java:73-81 | a block takes 4 + 4n + 4 + 8 + 4 bytes for a centroid of n floats |
| BlockIndex.BlockLayout | core/src/main/java/org/apache/accumulo/core/file/rfile/VectorIndex.java:73-81 | the encoding is the centroid length, the floats, the count, the offset and the size, in that order, each big-endian |
| BlockIndex.BlockRoundTrip | core/src/main/java/org/apache/accumulo/core/file/rfile/VectorIndex.java:73-93 | `readFields` inverts `write` for a block whose centroid's NaNs are canonical, leaving the rest of the stream |
| BlockIndex.WriteBlock | core/src/main/java/org/apache/accumulo/core/file/rfile/VectorIndex.java:73-81 | the imperative writer produces the block's encoding |
| BlockIndex.ReadBlock | core/src/main/java/org/apache/accumulo/core/file/rfile/VectorIndex.java:84-93 | the imperative reader matches the block decoder, failing at end of stream |
| BlockIndex.EncodeBlocksAppend | core/src/main/java/org/apache/accumulo/core/file/rfile/VectorIndex.java:128-130 | appending a block appends its encoding |
| BlockIndex.BlocksRoundTrip | core/src/main/java/org/apache/accumulo/core/file/rfile/VectorIndex.java:128-142 | reading back the encoded blocks one after another returns them all and the remaining stream |
| BlockIndex.DecodeIndex | core/src/main/java/org/apache/accumulo/core/file/rfile/VectorIndex.java:134-143 | a successful read has set both the dimension and the block list |
| BlockIndex.IndexRoundTrip | core/src/main/java/org/apache/accumulo/core/file/rfile/VectorIndex.java:125-143 | `readFields` after `write` restores the dimension and the block list and leaves the rest of the stream |
| BlockIndex.VectorIndex.Empty | core/src/main/java/org/apache/accumulo/core/file/rfile/VectorIndex.java:99-101 | a new index has dimension 0 and no blocks |
| BlockIndex.VectorIndex.constructor | core/src/main/java/org/apache/accumulo/core/file/rfile/VectorIndex.java:103-106 | a new index has the given dimension and no blocks |
| BlockIndex.VectorIndex.AddBlock | core/src/main/java/org/apache/accumulo/core/file/rfile/VectorIndex.java:108-110 | the block is appended at the end; the dimension is unchanged |
| BlockIndex.VectorIndex.SetVectorDimension | core/src/main/java/org/apache/accumulo/core/file/rfile/VectorIndex.java:120-122 | the dimension changes and the blocks do not |
| BlockIndex.VectorIndex.Write | core/src/main/java/org/apache/accumulo/core/file/rfile/VectorIndex.java:125-131 | the writer emits dimension, block count and each block |
| BlockIndex.VectorIndex.ReadFields | core/src/main/java/org/apache/accumulo/core/file/rfile/VectorIndex.java:134-143 | the outcome is the decoder's; the dimension is overwritten once read; the block list is replaced by the blocks read so far once the count has been read (a negative count fails first) |
| Streams.DecodeFloats | core/src/main/java/org/apache/accumulo/core/file/rfile/VectorIndexFooter.java:387-389 | reading n floats succeeds exactly when 4n bytes remain, else end of stream, and consumes exactly those bytes |
| Streams.FloatArrayRoundTrip | core/src/main/java/org/apache/accumulo/core/file/rfile/VectorIndexFooter.java:352-358 | a length-prefixed float array of canonical floats reads back unchanged |
| Streams.ReadFloatArray | core/src/main/java/org/apache/accumulo/core/file/rfile/VectorIndexFooter.java:385-389 | the imperative reader matches the float-array decoder |
| Streams.WriteFloatArray | core/src/main/java/org/apache/accumulo/core/file/rfile/VectorIndexFooter.java:354-357 | the imperative writer emits the length and the floats |
| Streams.DecodeInts | core/src/main/java/org/apache/accumulo/core/file/rfile/VectorIndexFooter.java:398-400 | reading n ints succeeds exactly when 4n bytes remain and consumes exactly those bytes |
| Streams.IntArrayRoundTrip | core/src/main/java/org/apache/accumulo/core/file/rfile/VectorIndexFooter.java:361-367 | a length-prefixed int array reads back unchanged |
| Streams.ReadIntArray | core/src/main/java/org/apache/accumulo/core/file/rfile/VectorIndexFooter.java:396-400 | the imperative reader matches the int-array decoder |
| Streams.WriteIntArray | core/src/main/java/org/apache/accumulo/core/file/rfile/VectorIndexFooter.java:363-366 | the imperative writer emits the length and the ints |
| Streams.DecodeMany | core/src/main/java/org/apache/accumulo/core/file/rfile/VectorIndexFooter.java:384-401 | at most n items are read, and exactly n on success |
| Streams.ReadMany | core/src/main/java/org/apache/accumulo/core/file/rfile/VectorIndexFooter.java:384-401 | the imperative loop matches the repeated decoder, keeping the items read before a failure |
| Streams.FloatArraysRoundTrip | core/src/main/java/org/apache/accumulo/core/file/rfile/VectorIndexFooter.java:352-358 | a sequence of float arrays reads back unchanged |
| Streams.IntArraysRoundTrip | core/src/main/java/org/apache/accumulo/core/file/rfile/VectorIndexFooter.java:361-367 | a sequence of int arrays reads back unchanged |
| Streams.WriteFloatArrays | core/src/main/java/org/apache/accumulo/core/file/rfile/VectorIndexFooter.java:353-358 | the loop emits the arrays one after another |
| Streams.WriteIntArrays | core/src/main/java/org/apache/accumulo/core/file/rfile/VectorIndexFooter.java:362-367 | the loop emits the arrays one after another |
| Sorting.SortBy | core/src/main/java/org/apache/accumulo/core/file/rfile/VectorIterator.java:186 | the sort returns a permutation of its input, ordered by the key |
| Sorting.SortIsStable | core/src/main/java/org/apache/accumulo/core/file/rfile/VectorIndexFooter.java:294 | sorting increasing indices keeps equal keys in index order, as `Arrays.sort` on objects does |
| Sorting.Take | core/src/main/java/org/apache/accumulo/core/file/rfile/VectorBuffer.java:178 | `limit(k)` keeps a prefix of at most k elements, all of them when there are no more than k |
| Clustering.NearestScanIsFirstMinimum | core/src/main/java/org/apache/accumulo/core/file/rfile/VectorIndexFooter.java:265-278 | the scan's minimum is at most `Float.MAX_VALUE` and at most every distance; below that it is attained at the returned index and at no earlier index |
| Clustering.NearestIsFirstMinimum | core/src/main/java/org/apache/accumulo/core/file/rfile/VectorIndexFooter.java:265-278 | `findNearestCluster` returns 0 for no centroids; otherwise an index in range; when some distance is below `Float.MAX_VALUE` it is the first centroid at the least distance; when none is, it is 0 |
| Clustering.FindNearestCluster | core/src/main/java/org/apache/accumulo/core/file/rfile/VectorIndexFooter.java:265-278 | fails with an index error exactly when some centroid is shorter than the point (the distance reads `b[i]` for every `i < a.length`); otherwise returns the first nearest index |
| Clustering.TopKNearest | core/src/main/java/org/apache/accumulo/core/file/rfile/VectorIndexFooter.java:280-302 | returns min(k, #centroids) indices, each in range |
| Clustering.TopKNearestAreDistinct | core/src/main/java/org/apache/accumulo/core/file/rfile/VectorIndexFooter.java:280-302 | no index is returned twice |
| Clustering.TopKNearestIsOrdered | core/src/main/java/org/apache/accumulo/core/file/rfile/VectorIndexFooter.java:294 | the indices are nearest first, ties to the lower index |
| Clustering.TopKNearestExcludesFarther | core/src/main/java/org/apache/accumulo/core/file/rfile/VectorIndexFooter.java:280-302 | no centroid left out is nearer than a selected one |
| Clustering.TopKNearestCoversAll | core/src/main/java/org/apache/accumulo/core/file/rfile/VectorIndexFooter.java:281 | when k covers all centroids, every index is returned |
| Clustering.ComputeDistances | core/src/main/java/org/apache/accumulo/core/file/rfile/VectorIndexFooter.java:282-286 | the `distances` array holds the distance to each centroid, or the loop fails exactly when a centroid is shorter than the point |
| Clustering.FindTopKNearestClusters | core/src/main/java/org/apache/accumulo/core/file/rfile/VectorIndexFooter.java:280-312 | fails with an index error exactly when some centroid is shorter than the point; otherwise the distances, the index array, the sort by those distances and the copy yield the k nearest indices |
| Clustering.FillIndices | core/src/main/java/org/apache/accumulo/core/file/rfile/VectorIndexFooter.java:289-292 | the boxed index array holds 0 .. n-1 in order, the sequence the sort starts from |
| Clustering.CopyPrefix | core/src/main/java/org/apache/accumulo/core/file/rfile/VectorIndexFooter.java:296-299 | the result array holds exactly the first k sorted indices |
| Clustering.SeedIndexInRange | core/src/main/java/org/apache/accumulo/core/file/rfile/VectorIndexFooter.java:228 | without overflow the seed position `i * n / k` is a valid point index |
| Clustering.SeedIndex | core/src/main/java/org/apache/accumulo/core/file/rfile/VectorIndexFooter.java:228 | the seed position in `int` arithmetic is below n; when `i * n` fits an `int` it is the non-negative `i * n / k` |
| Clustering.SeedIndexBelow | core/src/main/java/org/apache/accumulo/core/file/rfile/VectorIndexFooter.java:228 | the wrapped product divided toward zero stays below n, and without overflow equals `i * n / k` |
| Clustering.SeedsInRangeWithoutOverflow | core/src/main/java/org/apache/accumulo/core/file/rfile/VectorIndexFooter.java:228 | when `(k - 1) * n` fits an `int`, every seed position is a valid index |
| Clustering.SeedIndexOverflows | core/src/main/java/org/apache/accumulo/core/file/rfile/VectorIndexFooter.java:228 | with 65536 points and 65536 clusters, seed 32768's position wraps to -32768, so `List.get` throws |
| Clustering.MembersEmptyIff | core/src/main/java/org/apache/accumulo/core/file/rfile/VectorIndexFooter.java:244-254 | a cluster has no members exactly when no point is assigned to it |
| Clustering.AssignmentsInRange | core/src/main/java/org/apache/accumulo/core/file/rfile/VectorIndexFooter.java:235-237 | every assignment is a valid centroid index |
| Clustering.KMeans | core/src/main/java/org/apache/accumulo/core/file/rfile/VectorIndexFooter.java:216-263 | no centroids for no points or k <= 0; otherwise min(k, n) of them; an error is an index error, and only for a non-empty input with k > 0 |
| Clustering.KMeansFailure | core/src/main/java/org/apache/accumulo/core/file/rfile/VectorIndexFooter.java:222-250 | points of one length whose seed positions fit an `int` always cluster; points of different lengths never do (for k > 0); 65536 points with k >= 65536 always overflow |
| Clustering.KMeansKeepsDimension | core/src/main/java/org/apache/accumulo/core/file/rfile/VectorIndexFooter.java:222-258 | every centroid of a successful pass has the points' length, given a mean of `dimension` floats |
| Clustering.KMeansClusters | core/src/main/java/org/apache/accumulo/core/file/rfile/VectorIndexFooter.java:226-260 | after a successful pass, a cluster no point is nearest to keeps the point at its seed position; any other becomes the mean of the points nearest to it |
| Clustering.CollectMembers | core/src/main/java/org/apache/accumulo/core/file/rfile/VectorIndexFooter.java:244-252 | the scan collects, in order, the points assigned to the cluster, and fails exactly when one of them is shorter than `dimension` |
| Clustering.SeedCentroids | core/src/main/java/org/apache/accumulo/core/file/rfile/VectorIndexFooter.java:225-229 | succeeds exactly when every seed position is an index and its point holds `dimension` floats; slot i then holds the first `dimension` floats of that point |
| Clustering.AssignPoints | core/src/main/java/org/apache/accumulo/core/file/rfile/VectorIndexFooter.java:232-237 | succeeds exactly when every point reaches every seed; then each point gets its nearest seed |
| Clustering.UpdateCentroids | core/src/main/java/org/apache/accumulo/core/file/rfile/VectorIndexFooter.java:240-260 | succeeds exactly when no assigned point is shorter than the first; then each cluster with members moves to their mean, the others keep their seed |
| Clustering.PassesSucceed | core/src/main/java/org/apache/accumulo/core/file/rfile/VectorIndexFooter.java:222-229 | for points of one length, copyable seeds and in-range seed positions coincide, and each copy is the whole point |
| Clustering.PerformKMeansClustering | core/src/main/java/org/apache/accumulo/core/file/rfile/VectorIndexFooter.java:216-263 | the seeding, assignment and update loops compute the one-pass k-means result, failing exactly when it fails |
| IndexFooter.TypeIdsAreDistinct | core/src/main/java/org/apache/accumulo/core/file/rfile/VectorIndexFooter.java:42-56 | FLAT, IVF, HIERARCHICAL and PQ are 0 to 3, all distinct |
| IndexFooter.FromTypeIdInvertsTypeId | core/src/main/java/org/apache/accumulo/core/file/rfile/VectorIndexFooter.java:58-65 | `fromTypeId(getTypeId(t))` is `t` |
| IndexFooter.FromTypeIdAccepts | core/src/main/java/org/apache/accumulo/core/file/rfile/VectorIndexFooter.java:58-65 | exactly the ids 0 to 3 are accepted; every other byte is refused with `IllegalArgumentException` |
| IndexFooter.Truncate | core/src/main/java/org/apache/accumulo/core/file/rfile/VectorIndexFooter.java:160 | `subList(0, min(size, max))` keeps that prefix, and fails with `IllegalArgumentException` exactly when the bound is negative |
| IndexFooter.FlatCandidatesAreLeadingBlocks | core/src/main/java/org/apache/accumulo/core/file/rfile/VectorIndexFooter.java:151-157 | FLAT (and PQ, through `default`) returns the blocks 0, 1, ... as many as the bound allows |
| IndexFooter.CandidatesFailure | core/src/main/java/org/apache/accumulo/core/file/rfile/VectorIndexFooter.java:141-214 | the search fails exactly for a negative bound or, under HIERARCHICAL and IVF, a centroid shorter than the query; the index error takes precedence |
| IndexFooter.HierarchicalMatchesExactly | core/src/main/java/org/apache/accumulo/core/file/rfile/VectorIndexFooter.java:175-185 | a block is a match exactly when its first cluster id is among the nearest clusters; the matches increase |
| IndexFooter.MatchCountPositive | core/src/main/java/org/apache/accumulo/core/file/rfile/VectorIndexFooter.java:203-210 | a block is counted at least once exactly when one of its clusters is among the nearest |
| IndexFooter.IvfMatchesMultiplicity | core/src/main/java/org/apache/accumulo/core/file/rfile/VectorIndexFooter.java:202-211 | each block appears once per cluster of its row that is among the nearest; no index outside the blocks appears |
| IndexFooter.RepeatMultiset | core/src/main/java/org/apache/accumulo/core/file/rfile/VectorIndexFooter.java:203-209 | a repeated block appears exactly that many times |
| IndexFooter.IvfMatchesExactly | core/src/main/java/org/apache/accumulo/core/file/rfile/VectorIndexFooter.java:202-211 | a block appears exactly when it shares a cluster with the nearest |
| IndexFooter.IvfMatchesDistinctExactly | core/src/main/java/org/apache/accumulo/core/file/rfile/VectorIndexFooter.java:202-211 | the corrected IVF filter has the same members, each once, in increasing order |
| IndexFooter.HierarchicalCandidates | core/src/main/java/org/apache/accumulo/core/file/rfile/VectorIndexFooter.java:163-188 | no centroids, no candidates; otherwise exactly the blocks whose first cluster is among the min(3, #centroids) nearest the query, in increasing order |
| IndexFooter.IvfCandidates | core/src/main/java/org/apache/accumulo/core/file/rfile/VectorIndexFooter.java:190-214 | exactly the blocks sharing a cluster with the min(5, #centroids) nearest the query, each listed once per shared cluster |
| IndexFooter.IvfCandidatesRepeatBlocks | core/src/main/java/org/apache/accumulo/core/file/rfile/VectorIndexFooter.java:202-211 | with two centroids the query reaches and one block assigned to clusters 0 and 1, `findCandidateBlocks(q, 2)` returns [0, 0] |
| IndexFooter.CorrectedCandidatesAreDistinct | core/src/main/java/org/apache/accumulo/core/file/rfile/VectorIndexFooter.java:141-214 | with each block counted once, every indexing type yields distinct blocks in increasing order, failing only when the query is longer than a centroid |
| IndexFooter.ToInt32s | core/src/main/java/org/apache/accumulo/core/file/rfile/VectorIndexFooter.java:100-105 | cluster ids below the centroid count fit Java `int` unchanged |
| IndexFooter.HierarchicalAssignments | core/src/main/java/org/apache/accumulo/core/file/rfile/VectorIndexFooter.java:100-105 | one row per block |
| IndexFooter.IvfAssignments | core/src/main/java/org/apache/accumulo/core/file/rfile/VectorIndexFooter.java:125-131 | one row per block |
| IndexFooter.IvfAssignmentsAt | core/src/main/java/org/apache/accumulo/core/file/rfile/VectorIndexFooter.java:125-131 | row b of the IVF assignments is the three-nearest row of block b |
| IndexFooter.IvfRow | core/src/main/java/org/apache/accumulo/core/file/rfile/VectorIndexFooter.java:129 | a block's IVF row is its three nearest clusters |
| IndexFooter.HierarchicalIndexShape | core/src/main/java/org/apache/accumulo/core/file/rfile/VectorIndexFooter.java:89-106 | after a successful pass, for k > 0 min(k, n) centroids and one in-range nearest id per block; for k <= 0 no centroids and yet every block gets id 0 |
| IndexFooter.IvfIndexShape | core/src/main/java/org/apache/accumulo/core/file/rfile/VectorIndexFooter.java:114-132 | each block gets min(3, #centroids) distinct in-range ids, nearest first, ties to the lower id |
| IndexFooter.BuiltHierarchicalCandidates | core/src/main/java/org/apache/accumulo/core/file/rfile/VectorIndexFooter.java:89-106 | after a hierarchical build, the filter keeps exactly the blocks whose nearest centroid is among the three nearest the query |
| IndexFooter.ReadOctets | core/src/main/java/org/apache/accumulo/core/file/rfile/VectorIndexFooter.java:404-408 | `readFully` succeeds exactly when enough bytes remain, else end of stream |
| IndexFooter.DecodeFooter | core/src/main/java/org/apache/accumulo/core/file/rfile/VectorIndexFooter.java:376-409 | fields are overwritten in order (dimension, type, centroids, assignments, codebook); a success has read all of them |
| IndexFooter.DecodeFooterArrays | core/src/main/java/org/apache/accumulo/core/file/rfile/VectorIndexFooter.java:381-409 | the arrays are read after the dimension and type, in order |
| IndexFooter.DecodeFooterRows | core/src/main/java/org/apache/accumulo/core/file/rfile/VectorIndexFooter.java:392-409 | the assignments are read after the centroids, then the codebook |
| IndexFooter.DecodeFooterCodebook | core/src/main/java/org/apache/accumulo/core/file/rfile/VectorIndexFooter.java:403-408 | the codebook is read last |
| IndexFooter.CodebookRoundTrip | core/src/main/java/org/apache/accumulo/core/file/rfile/VectorIndexFooter.java:369-373 | the codebook reads back unchanged |
| IndexFooter.RowsRoundTrip | core/src/main/java/org/apache/accumulo/core/file/rfile/VectorIndexFooter.java:360-373 | the assignment rows and the codebook read back unchanged |
| IndexFooter.ArraysRoundTrip | core/src/main/java/org/apache/accumulo/core/file/rfile/VectorIndexFooter.java:351-373 | centroids, rows and codebook read back unchanged |
| IndexFooter.FooterRoundTrip | core/src/main/java/org/apache/accumulo/core/file/rfile/VectorIndexFooter.java:346-409 | `readFields` after `write` restores every field and leaves the rest of the stream |
| IndexFooter.Contains | core/src/main/java/org/apache/accumulo/core/file/rfile/VectorIndexFooter.java:178-183 | the inner loop finds the cluster exactly when it is among the nearest |
| IndexFooter.CandidatesHierarchical | core/src/main/java/org/apache/accumulo/core/file/rfile/VectorIndexFooter.java:163-188 | the loops compute the hierarchical candidates, failing exactly when a centroid is shorter than the query |
| IndexFooter.RowMatches | core/src/main/java/org/apache/accumulo/core/file/rfile/VectorIndexFooter.java:203-210 | a block is emitted once per matching cluster of its row |
| IndexFooter.CandidatesIvf | core/src/main/java/org/apache/accumulo/core/file/rfile/VectorIndexFooter.java:190-214 | the loops compute the IVF candidates as written, failing exactly when a centroid is shorter than the query |
| IndexFooter.AssignNearest | core/src/main/java/org/apache/accumulo/core/file/rfile/VectorIndexFooter.java:100-105 | the hierarchical assignment loop |
| IndexFooter.IdsOf | core/src/main/java/org/apache/accumulo/core/file/rfile/VectorIndexFooter.java:298-299 | copying in-range ids into an `int[]` keeps them |
| IndexFooter.ThreeNearestRow | core/src/main/java/org/apache/accumulo/core/file/rfile/VectorIndexFooter.java:129 | one IVF row |
| IndexFooter.AssignThreeNearest | core/src/main/java/org/apache/accumulo/core/file/rfile/VectorIndexFooter.java:125-131 | the IVF assignment loop gives every block, in order, the ids of its three nearest centroids |
| IndexFooter.AppendThreeNearest | core/src/main/java/org/apache/accumulo/core/file/rfile/VectorIndexFooter.java:126-130 | one step of the IVF loop extends the rows of the first b blocks by block b's row |
| IndexFooter.VectorIndexFooter.Empty | core/src/main/java/org/apache/accumulo/core/file/rfile/VectorIndexFooter.java:68-73 | dimension 0, FLAT, and empty arrays |
| IndexFooter.VectorIndexFooter.constructor | core/src/main/java/org/apache/accumulo/core/file/rfile/VectorIndexFooter.java:75-81 | the given dimension and type, and empty arrays |
| IndexFooter.VectorIndexFooter.BuildHierarchicalIndex | core/src/main/java/org/apache/accumulo/core/file/rfile/VectorIndexFooter.java:89-106 | no blocks: nothing changes; otherwise HIERARCHICAL; when k-means throws, an index error with the old centroids and assignments; otherwise the k-means centroids and each block's nearest cluster; dimension and codebook untouched |
| IndexFooter.VectorIndexFooter.BuildIvfIndex | core/src/main/java/org/apache/accumulo/core/file/rfile/VectorIndexFooter.java:114-132 | no blocks: nothing changes; otherwise IVF; when k-means throws, an index error with the old centroids and assignments; otherwise the k-means centroids and each block's three nearest clusters |
| IndexFooter.VectorIndexFooter.FindCandidateBlocks | core/src/main/java/org/apache/accumulo/core/file/rfile/VectorIndexFooter.java:141-161 | the candidates of the current type, truncated to the bound, or the error of a too-long query or a negative bound |
| IndexFooter.VectorIndexFooter.SetGlobalCentroids | core/src/main/java/org/apache/accumulo/core/file/rfile/VectorIndexFooter.java:334-336 | only the centroids change |
| IndexFooter.VectorIndexFooter.SetClusterAssignments | core/src/main/java/org/apache/accumulo/core/file/rfile/VectorIndexFooter.java:338-340 | only the assignments change |
| IndexFooter.VectorIndexFooter.SetQuantizationCodebook | core/src/main/java/org/apache/accumulo/core/file/rfile/VectorIndexFooter.java:342-344 | only the codebook changes |
| IndexFooter.VectorIndexFooter.Write | core/src/main/java/org/apache/accumulo/core/file/rfile/VectorIndexFooter.java:346-374 | the writer emits the footer layout |
| IndexFooter.VectorIndexFooter.ReadFields | core/src/main/java/org/apache/accumulo/core/file/rfile/VectorIndexFooter.java:376-409 | the outcome is the decoder's; each field is overwritten once read and untouched if the read failed before it |
| Similarity.ComputeSimilarity | core/src/main/java/org/apache/accumulo/core/file/rfile/VectorIterator.java:433-449 | Ok exactly when the lengths agree, else `IllegalArgumentException`; DOT_PRODUCT is the dot product; a cosine against a vector whose squared norm is zero (either sign) is 0.0f |
| Similarity.ZeroVectorNorm | core/src/main/java/org/apache/accumulo/core/file/rfile/VectorBuffer.java:222-226 | the squared norm of an all-zero vector accumulates to 0.0f |
| Similarity.ZeroVectorCosine | core/src/main/java/org/apache/accumulo/core/file/rfile/VectorBuffer.java:228-230 | an all-zero vector scores 0.0f by cosine against any vector of its length, on either side |
| Similarity.DotProductOf | core/src/main/java/org/apache/accumulo/core/file/rfile/VectorBuffer.java:235-241 | the loop accumulates the dot product |
| Similarity.CosineSimilarityOf | core/src/main/java/org/apache/accumulo/core/file/rfile/VectorBuffer.java:217-233 | the single loop accumulates the dot product and both norms, and returns the cosine score |
| Similarity.SimilarityOf | core/src/main/java/org/apache/accumulo/core/file/rfile/VectorBuffer.java:202-215 | the dispatching method matches the similarity function, including the dimension error |
| Similarity.TakeOfSorted | core/src/main/java/org/apache/accumulo/core/file/rfile/VectorBuffer.java:176-179 | the first k of a descending sort are drawn from it and are non-increasing |
| Similarity.Rank | core/src/main/java/org/apache/accumulo/core/file/rfile/VectorBuffer.java:176-179 | sorting by descending `Float.compare` and keeping k gives min(n, k) results, drawn from the input, in non-increasing order |
| Similarity.RankingSpecialScores | core/src/main/java/org/apache/accumulo/core/file/rfile/VectorBuffer.java:176-179 | in a ranking by `Float.compare`, +0.0 never follows -0.0 and positive infinity never precedes NaN |
| Similarity.SortedPrefixIsBest | core/src/main/java/org/apache/accumulo/core/file/rfile/VectorBuffer.java:176-179 | what lies beyond the first m of a descending sort scores no higher than any of them |
| Similarity.RankKeepsTheBest | core/src/main/java/org/apache/accumulo/core/file/rfile/VectorBuffer.java:176-179 | a result `Rank` drops scores no higher than any result it keeps |
| Similarity.RankedFromInput | core/src/main/java/org/apache/accumulo/core/file/rfile/VectorBuffer.java:176-179 | every ranked result is an input result |
| StagingBuffer.FootprintOfUniformBlock | core/src/main/java/org/apache/accumulo/core/file/rfile/VectorBuffer.java:68-75 | a block of n vectors of dimension d costs n(4d + 100) + 1024 bytes, at least 1024 |
| StagingBuffer.FootprintAtLeastOverhead | core/src/main/java/org/apache/accumulo/core/file/rfile/VectorBuffer.java:68-75 | every block, whatever its vectors, costs at least its 1024 bytes of overhead |
| StagingBuffer.TotalWithout | core/src/main/java/org/apache/accumulo/core/file/rfile/VectorBuffer.java:247-249 | removing a block subtracts its footprint from the total |
| StagingBuffer.TotalWith | core/src/main/java/org/apache/accumulo/core/file/rfile/VectorBuffer.java:120-121 | adding a block adds its footprint |
| StagingBuffer.EntryResults | core/src/main/java/org/apache/accumulo/core/file/rfile/VectorBuffer.java:188-199 | Ok exactly when every entry has the query's length, else `IllegalArgumentException`; every result reaches the threshold and comes from an entry; every entry reaching the threshold is included |
| StagingBuffer.Gathered | core/src/main/java/org/apache/accumulo/core/file/rfile/VectorBuffer.java:157-173 | each gathered result reaches the threshold and comes from an entry of a resident block with the query's length; a block whose task fails contributes nothing |
| StagingBuffer.ComputeBlockSimilarities | core/src/main/java/org/apache/accumulo/core/file/rfile/VectorBuffer.java:182-200 | the loop computes the block's results |
| StagingBuffer.GatherAll | core/src/main/java/org/apache/accumulo/core/file/rfile/VectorBuffer.java:155-173 | the blocks are visited in some enumeration of the map and their results concatenated, failed blocks skipped; every result reaches the threshold and scores an entry of a resident block |
| StagingBuffer.RankedMeetThreshold | core/src/main/java/org/apache/accumulo/core/file/rfile/VectorBuffer.java:176-179 | every ranked result reaches the threshold |
| StagingBuffer.VectorBuffer.constructor | core/src/main/java/org/apache/accumulo/core/file/rfile/VectorBuffer.java:82-88 | an empty buffer with the given budget and no usage |
| StagingBuffer.VectorBuffer.Default | core/src/main/java/org/apache/accumulo/core/file/rfile/VectorBuffer.java:93-95 | an empty buffer with 512 MB |
| StagingBuffer.VectorBuffer.GetBlock | core/src/main/java/org/apache/accumulo/core/file/rfile/VectorBuffer.java:131-133 | the block at the offset when resident, else none |
| StagingBuffer.VectorBuffer.EvictBlock | core/src/main/java/org/apache/accumulo/core/file/rfile/VectorBuffer.java:243-252 | an empty buffer stays empty; otherwise exactly one resident block is removed and its footprint released, keeping the usage equal to the total |
| StagingBuffer.VectorBuffer.MakeRoom | core/src/main/java/org/apache/accumulo/core/file/rfile/VectorBuffer.java:116-118 | evicting only removes blocks; afterwards the block fits or the buffer is empty; nothing is evicted when it already fits |
| StagingBuffer.VectorBuffer.LoadBlock | core/src/main/java/org/apache/accumulo/core/file/rfile/VectorBuffer.java:106-123 | loads exactly when the offset is absent; a present offset changes nothing; a loaded block is resident, the others kept are a subset of the old ones, all of them when it fit; usage stays within budget unless the block alone exceeds it |
| StagingBuffer.VectorBuffer.Clear | core/src/main/java/org/apache/accumulo/core/file/rfile/VectorBuffer.java:257-260 | no blocks and zero usage |
| StagingBuffer.VectorBuffer.ComputeSimilarities | core/src/main/java/org/apache/accumulo/core/file/rfile/VectorBuffer.java:144-180 | an empty buffer gives []; a negative topK fails with `IllegalArgumentException`; otherwise the ranked results of the blocks in some enumeration order, at most topK, non-increasing, all reaching the threshold |
| SearchIterator.IsVisibilityAllowed | core/src/main/java/org/apache/accumulo/core/file/rfile/VectorIterator.java:355-367 | no evaluator allows all; an unparsable visibility fails; otherwise allowed exactly when access is granted |
| SearchIterator.IsBlockVisibilityAllowed | core/src/main/java/org/apache/accumulo/core/file/rfile/VectorIterator.java:372-383 | as above, and an empty block visibility is always allowed |
| SearchIterator.BasicCandidatesAscending | core/src/main/java/org/apache/accumulo/core/file/rfile/VectorIterator.java:261-281 | candidate block indices are increasing and in range |
| SearchIterator.BasicCandidatesExactly | core/src/main/java/org/apache/accumulo/core/file/rfile/VectorIterator.java:261-281 | a block is a candidate exactly when it is visible and its centroid score reaches half the threshold |
| SearchIterator.BasicCandidatesFailurePersists | core/src/main/java/org/apache/accumulo/core/file/rfile/VectorIterator.java:261-281 | a failure on a prefix is the failure of the whole scan |
| SearchIterator.BasicCandidateBlocks | core/src/main/java/org/apache/accumulo/core/file/rfile/VectorIterator.java:261-281 | the loop computes the basic candidates |
| SearchIterator.ScanResults | core/src/main/java/org/apache/accumulo/core/file/rfile/VectorIterator.java:332-346 | at most one result per record, each from a visible vector record reaching the threshold; without failure every such record is included |
| SearchIterator.ScanFailurePersists | core/src/main/java/org/apache/accumulo/core/file/rfile/VectorIterator.java:332-346 | a failure on a prefix ends the scan |
| SearchIterator.VisibleResults | core/src/main/java/org/apache/accumulo/core/file/rfile/VectorIterator.java:303-308 | the visible results kept are exactly those allowed, in order |
| SearchIterator.VisibleFailurePersists | core/src/main/java/org/apache/accumulo/core/file/rfile/VectorIterator.java:303-308 | a failure on a prefix ends the filtering |
| SearchIterator.RankedAreVisibleAboveThreshold | core/src/main/java/org/apache/accumulo/core/file/rfile/VectorIterator.java:185-191 | ranking keeps visibility and the threshold |
| SearchIterator.VectorIterator.constructor | core/src/main/java/org/apache/accumulo/core/file/rfile/VectorIterator.java:96-159 | the options default to COSINE, 10 and 0.0f; no results, index 0; a fresh 512 MB buffer |
| SearchIterator.VectorIterator.SetVectorIndex | core/src/main/java/org/apache/accumulo/core/file/rfile/VectorIterator.java:503-505 | only the index changes |
| SearchIterator.VectorIterator.HasTop | core/src/main/java/org/apache/accumulo/core/file/rfile/VectorIterator.java:161-164 | true exactly when the cursor is inside the results |
| SearchIterator.VectorIterator.Next | core/src/main/java/org/apache/accumulo/core/file/rfile/VectorIterator.java:166-169 | the cursor advances by one |
| SearchIterator.VectorIterator.GetTopKey | core/src/main/java/org/apache/accumulo/core/file/rfile/VectorIterator.java:194-200 | the current key when there is one, else none |
| SearchIterator.VectorIterator.GetTopValue | core/src/main/java/org/apache/accumulo/core/file/rfile/VectorIterator.java:202-208 | the current value when there is one, else none |
| SearchIterator.VectorIterator.Candidates | core/src/main/java/org/apache/accumulo/core/file/rfile/VectorIterator.java:249-259 | no index or an empty one gives no candidates; every candidate is a block index |
| SearchIterator.VectorIterator.GetCandidateBlockIndices | core/src/main/java/org/apache/accumulo/core/file/rfile/VectorIterator.java:249-259 | the method computes the candidates |
| SearchIterator.VectorIterator.ScanAllData | core/src/main/java/org/apache/accumulo/core/file/rfile/VectorIterator.java:332-346 | the scan's results are appended |
| SearchIterator.VectorIterator.AppendVisible | core/src/main/java/org/apache/accumulo/core/file/rfile/VectorIterator.java:303-308 | the visible results are appended |
| SearchIterator.VectorIterator.ProcessCandidateBlocks | core/src/main/java/org/apache/accumulo/core/file/rfile/VectorIterator.java:283-312 | on success the buffer is emptied and the results are exactly the visible part of the top-k ranking of the staged blocks, for some iteration order of them; when every candidate block fits the memory budget, the staged blocks are exactly the old buffer plus each candidate block, and the last candidate's block is always among them (none for a negative topK) |
| SearchIterator.VectorIterator.StageCandidates | core/src/main/java/org/apache/accumulo/core/file/rfile/VectorIterator.java:287-297 | every block resident after the loop was resident before, unchanged, or is a candidate block loaded from storage under its offset; when the old buffer plus the candidate blocks fits the budget, the buffer is exactly that; the last candidate's block is resident |
| SearchIterator.VectorIterator.RankStaged | core/src/main/java/org/apache/accumulo/core/file/rfile/VectorIterator.java:299-311 | the result is the visible part of the top-k ranking of exactly the blocks the buffer held, for some iteration order of them, and the buffer is emptied |
| SearchIterator.StagedGrows | core/src/main/java/org/apache/accumulo/core/file/rfile/VectorIterator.java:287-297 | a buffer staged from a prefix of the candidates is staged from a longer prefix |
| SearchIterator.StagedLoad | core/src/main/java/org/apache/accumulo/core/file/rfile/VectorIterator.java:287-297 | loading candidate i, or finding it resident, keeps the buffer staged from the candidates so far |
| SearchIterator.RanksStagedResults | core/src/main/java/org/apache/accumulo/core/file/rfile/VectorIterator.java:283-312 | ranked staged results number at most topK, are visible, reach the threshold, and each is the score of an entry of a staged block |
| SearchIterator.VectorIterator.StageOne | core/src/main/java/org/apache/accumulo/core/file/rfile/VectorIterator.java:287-297 | staging candidate i keeps the buffer staged from the candidates so far, equal to the reference staging when that fits the budget, with candidate i's block resident |
| SearchIterator.StagedMapStep | core/src/main/java/org/apache/accumulo/core/file/rfile/VectorIterator.java:287-297 | one more candidate adds its block to the reference staging if absent and never lowers its footprint |
| SearchIterator.StagedMapContents | core/src/main/java/org/apache/accumulo/core/file/rfile/VectorIterator.java:287-297 | the reference staging keeps the old buffer's blocks and holds every candidate block under its offset |
| SearchIterator.StagedMapIsStaged | core/src/main/java/org/apache/accumulo/core/file/rfile/VectorIterator.java:287-297 | the reference staging, with no eviction, is a staged buffer |
| SearchIterator.RanksStagedWithinBudget | core/src/main/java/org/apache/accumulo/core/file/rfile/VectorIterator.java:283-312 | when the candidate blocks fit the budget, the results rank exactly the old buffer plus the candidate blocks |
| SearchIterator.RanksBufferResults | core/src/main/java/org/apache/accumulo/core/file/rfile/VectorIterator.java:299-311 | the visible ranking of a buffer has at most topK results, all visible, reaching the threshold, each scored from a block of the buffer |
| SearchIterator.VectorIterator.PerformVectorSearch | core/src/main/java/org/apache/accumulo/core/file/rfile/VectorIterator.java:236-247 | results are visible and reach the threshold; with no candidates they are the scan's; with candidates they are the visible ranking of the staged candidate blocks, which are all the candidate blocks when they fit the memory budget |
| SearchIterator.VectorIterator.Seek | core/src/main/java/org/apache/accumulo/core/file/rfile/VectorIterator.java:171-192 | no query: `IllegalStateException` and nothing changes; on success the cursor is 0, at most topK results, non-increasing, visible, reaching the threshold; with no candidates exactly the ranked scan; with candidates the re-ranking of the visible ranking of the staged candidate blocks, which are all the candidate blocks when they fit the memory budget |
| SearchIterator.VectorIterator.Truncate | core/src/main/java/org/apache/accumulo/core/file/rfile/VectorIterator.java:185-191 | a negative topK fails; otherwise the results are the ranked input |
| SearchIterator.VectorIterator.ScanMeetsThreshold | core/src/main/java/org/apache/accumulo/core/file/rfile/VectorIterator.java:339 | scanned results reach the threshold |

## Left out

- Concurrency: `VectorBuffer` scores blocks on an `ExecutorService` and is partly `synchronized`. The model scores blocks one after another, in some enumeration of the map. A block whose task throws contributes no results, as the source's `catch` does. `maxConcurrency` and `shutdown` are not modelled.
- Iteration order of `ConcurrentHashMap`: the order in which `computeSimilarities` visits blocks, and the block `evictLeastRecentlyUsedBlock` picks, are left open (any enumeration, any resident key). Only the result multiset and the sorted order are pinned down.
- Floating-point rounding: products, sums, square roots, division, `Math.round`, the quantisation scale and the Euclidean distance and mean are parameters, not IEEE 754 arithmetic. No statement depends on how they round.
- `init`: the string option parsing (`parseVectorFromString`, `Integer.parseInt`, `Float.parseFloat`), `deepCopy`, `getOptions` and `vectorToString` are left out. The constructor takes the parsed options, each absent one keeping its default.
- `loadBlockVectors` reads block contents by repositioning the iterator's source. The model takes the contents as a function of the block's metadata (`Storage.loadBlockVectors`).
- Block visibility: the metadata carries no visibility, so it is a parameter (`Storage.blockVisibility`). `isCompressed` and decompression on load are left out for the same reason.
- Visibility expressions: `AccessExpression` parsing and the evaluator are parameters. A parse failure is modelled as `IllegalArgumentException`.
- Dead code: the `indexFooter` branch of `getCandidateBlockIndices` is left out, because that field is never assigned. `getCandidateBlocks`, `scanCandidateBlocks`, `maxCandidateBlocks` and `useCompression` are left out because nothing in the search path uses them.
- `Key` and `Value`: a key is its visibility plus the rest of it, which the search only copies. A value is its type tag plus its floats. The byte encoding of `Value` (`Value.java`) is not part of this model.
- `StagingBuffer.VectorBuffer.LoadBlock`: the `long` arithmetic of the footprint and of the memory usage is unbounded here. Overflow past 2^63 is not modelled.
- `SearchIterator.VectorIterator.Seek`: the stability of the final sort (equal scores keep their gathering order) is in the definition, not stated as a property of the results. The `Range` and column families passed to `source.seek` are not modelled.
- `IndexFooter.VectorIndexFooter.ReadFields`: when a read fails part-way through an array, Java leaves the array allocated with `null` or zero entries. The model then says nothing about that field.
- `IndexFooter.VectorIndexFooter.BuildHierarchicalIndex`, `IndexFooter.VectorIndexFooter.BuildIvfIndex`: the geometry's mean is taken to have `dimension` floats (`KeepsDimension`), as `new float[dimension]` makes it, so the assignment loops after k-means cannot read past a centroid; which exception class escapes from a failing k-means (`IndexOutOfBoundsException` or its array subclass) is not distinguished.
- `SearchIterator.VectorIterator.ProcessCandidateBlocks`: when the old buffer plus the candidate blocks exceeds the memory budget, which blocks `loadBlock`'s eviction leaves resident is left open beyond the last candidate's block; the contract then says which blocks can be scored, not that every candidate block is. The same holds for `PerformVectorSearch` and `Seek`, which pass this result on.
- `SearchIterator.VectorIterator.PerformVectorSearch`: over the memory budget, only the last candidate's block is known to be among those ranked, as for `ProcessCandidateBlocks`.
- `SearchIterator.VectorIterator.Seek`: over the memory budget, only the last candidate's block is known to be among those re-ranked, as for `ProcessCandidateBlocks`.
- `Compression.Compress16`: its `max` also starts at `Float.MIN_VALUE` (line 90) and the model keeps that, but the constant-vector finding and its correction are stated for the 8-bit compressor only.
- PQ: the quantisation codebook is stored and read back, but never used for search. PQ selects candidates like FLAT, through `default`.
- Getters (`getBlocks`, `getVectorDimension`, `getLoadedBlockCount`, `getCurrentMemoryUsage` and the rest) are the fields themselves.
- `VectorCompression` with `COMPRESSION_NONE` is only decoded; nothing produces it.

## Findings

| source | as written | input that shows it | evidently intended | confidence | as-written member | corrected member |
|---|---|---|---|---|---|---|
| core/src/main/java/org/apache/accumulo/core/file/rfile/VectorCompression.java:163 | `decompress8Bit` recovers the level as `(b & 0xFF) + 128` | any non-constant vector: its minimum element has level 0, is stored as byte 0x80 and decodes at level 256, past the maximum (16-bit at line 187 likewise) | the level is the signed byte plus 128, so the minimum decodes to `min` | high, not executed | Compression.Level8AsWrittenAtMinimum | Compression.Level8Recovers |
| core/src/main/java/org/apache/accumulo/core/file/rfile/VectorCompression.java:47 | `max` starts at `Float.MIN_VALUE`, the smallest positive float | a constant vector of negative values, e.g. `[-1.0, -1.0]`: `max` stays `Float.MIN_VALUE`, so the zero-range branch is missed | `max` starts at `-Float.MAX_VALUE`, so every constant vector takes the zero-range branch and decodes to its value | high, not executed | Compression.ConstantVectorAsWritten | Compression.ConstantVectorCorrected |
| core/src/main/java/org/apache/accumulo/core/file/rfile/VectorIndexFooter.java:202-211 | the IVF filter adds a block once per cluster of its row that is among the nearest | two centroids and a block assigned to clusters 0 and 1: `findCandidateBlocks(q, 2)` returns [0, 0] | each candidate block once | medium, not executed | IndexFooter.IvfCandidatesRepeatBlocks | IndexFooter.CorrectedCandidatesAreDistinct |
