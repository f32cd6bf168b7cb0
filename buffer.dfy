/**
 * The staging buffer: decompressed vector blocks held in memory, keyed by
 * block offset, under a memory budget of `maxMemoryMB` mebibytes. Usage is
 * accounted with an estimated footprint per block; loading a block evicts
 * resident blocks (an unspecified one at a time) until the new one fits or
 * nothing is left. Scoring runs over every resident block, keeps the entries
 * that reach the threshold, and ranks them.
 */
module StagingBuffer {
  import opened Wrappers
  import opened Bytes
  import opened Floats
  import opened ValueTypes
  import opened BlockIndex
  import opened Similarity

  /** `VectorBlock.VectorEntry`. */
  datatype VectorEntry = VectorEntry(key: Key, vector: Vector, visibility: seq<Byte>)

  /** `VectorBlock`: its footprint is computed from the entries, by `Footprint`. */
  datatype VectorBlock = VectorBlock(metadata: VectorBlockMetadata, vectors: seq<VectorEntry>)

  /** The estimate: 4 bytes per float (the length of the first entry stands
      for all), 100 bytes per key, and 1024 bytes of overhead. */
  function Footprint(b: VectorBlock): int
  {
    var n := |b.vectors|;
    var vectorMemory := n * (if n == 0 then 0 else |b.vectors[0].vector| * 4);
    vectorMemory + n * 100 + 1024
  }

  /** Blocks of n vectors of a common dimension d cost n * (4d + 100) + 1024
      bytes; every block costs at least its overhead. */
  lemma FootprintOfUniformBlock(b: VectorBlock, d: nat)
    requires forall i :: 0 <= i < |b.vectors| ==> |b.vectors[i].vector| == d
    ensures Footprint(b) == |b.vectors| * (4 * d + 100) + 1024
    ensures Footprint(b) >= 1024
  {
  }

  /** Every block costs at least its 1024 bytes of overhead. */
  lemma FootprintAtLeastOverhead(b: VectorBlock)
    ensures Footprint(b) >= 1024
  {
    var n := |b.vectors|;
    var d := if n == 0 then 0 else |b.vectors[0].vector| * 4;
    assert n * d >= 0;
  }

  /** `maxMemoryMB * 1024L * 1024L`. */
  function Budget(maxMemoryMB: Int32): int
  {
    maxMemoryMB * 1048576
  }

  /** The sum of the footprints of the resident blocks. */
  ghost function Total(m: map<Int64, VectorBlock>): int
    decreases |m|
  {
    if m == map[] then 0
    else
      var k :| k in m;
      Footprint(m[k]) + Total(m - {k})
  }

  /** The sum does not depend on which block it starts from. */
  lemma {:induction false} TotalWithout(m: map<Int64, VectorBlock>, k: Int64)
    requires k in m
    ensures Total(m) == Footprint(m[k]) + Total(m - {k})
    decreases |m|
  {
    var j :| j in m && Total(m) == Footprint(m[j]) + Total(m - {j});
    if j != k {
      assert m - {j} - {k} == m - {k} - {j};
      TotalWithout(m - {j}, k);
      TotalWithout(m - {k}, j);
    }
  }

  lemma TotalWith(m: map<Int64, VectorBlock>, k: Int64, b: VectorBlock)
    requires k !in m
    ensures Total(m[k := b]) == Total(m) + Footprint(b)
  {
    TotalWithout(m[k := b], k);
    assert m[k := b] - {k} == m;
  }

  // ---------------------------------------------------------------- scoring

  /** `computeBlockSimilarities` over the first entries: an entry whose length
      differs from the query's aborts the whole block; otherwise each entry
      that reaches the threshold becomes a result, in entry order, carrying a
      vector value built from its floats. */
  function EntryResults(entries: seq<VectorEntry>, query: Vector, t: SimilarityType, threshold: Bits32, ops: FloatOps): (r: Result<seq<SimilarityResult>>)
    ensures r.Ok? <==> forall i :: 0 <= i < |entries| ==> |entries[i].vector| == |query|
    ensures r.Err? ==> r.error == IllegalArgument
    ensures r.Ok? ==> forall x :: x in r.value ==>
      (AtLeast(x.similarity, threshold) && exists i :: 0 <= i < |entries| && x == Entry(entries[i], query, t, ops))
    ensures r.Ok? ==> forall i :: 0 <= i < |entries| && AtLeast(Entry(entries[i], query, t, ops).similarity, threshold) ==>
      Entry(entries[i], query, t, ops) in r.value
  {
    if entries == [] then Ok([])
    else
      var n := |entries| - 1;
      var e := entries[n];
      assert forall i :: 0 <= i < n ==> entries[..n][i] == entries[i];
      var prefix := EntryResults(entries[..n], query, t, threshold, ops);
      if prefix.Err? then Err(prefix.error)
      else if |e.vector| != |query| then Err(IllegalArgument)
      else
        var x := Entry(e, query, t, ops);
        Ok(prefix.value + (if AtLeast(x.similarity, threshold) then [x] else []))
  }

  /** The result an entry of the query's dimension gives. */
  function Entry(e: VectorEntry, query: Vector, t: SimilarityType, ops: FloatOps): SimilarityResult
  {
    var score := if |query| == |e.vector| then Score(t, ops, query, e.vector) else POSITIVE_ZERO;
    SimilarityResult(e.key, StoredValue(VectorFloat32, e.vector), score)
  }

  function BlockResults(b: VectorBlock, query: Vector, t: SimilarityType, threshold: Bits32, ops: FloatOps): Result<seq<SimilarityResult>>
  {
    EntryResults(b.vectors, query, t, threshold, ops)
  }

  /** The results gathered from the blocks at `order`, in that order; a block
      whose scoring fails contributes nothing. */
  function Gathered(order: seq<Int64>, m: map<Int64, VectorBlock>, query: Vector, t: SimilarityType, threshold: Bits32, ops: FloatOps): (r: seq<SimilarityResult>)
    requires forall i :: 0 <= i < |order| ==> order[i] in m
    ensures forall x :: x in r ==> (AtLeast(x.similarity, threshold) &&
      exists i, j :: 0 <= i < |order| && 0 <= j < |m[order[i]].vectors| &&
        x == Entry(m[order[i]].vectors[j], query, t, ops) && |m[order[i]].vectors[j].vector| == |query|)
  {
    if order == [] then []
    else
      var n := |order| - 1;
      var prefix := Gathered(order[..n], m, query, t, threshold, ops);
      var block := BlockResults(m[order[n]], query, t, threshold, ops);
      prefix + (if block.Ok? then block.value else [])
  }

  /** A sequence listing each resident offset once: an iteration order of the map. */
  ghost predicate Enumerates(order: seq<Int64>, m: map<Int64, VectorBlock>)
  {
    (forall i, j :: 0 <= i < j < |order| ==> order[i] != order[j]) &&
    (forall i :: 0 <= i < |order| ==> order[i] in m) &&
    (forall k :: k in m ==> k in order)
  }

  /** `computeBlockSimilarities`. */
  method ComputeBlockSimilarities(b: VectorBlock, query: Vector, t: SimilarityType, threshold: Bits32, ops: FloatOps)
    returns (r: Result<seq<SimilarityResult>>)
    ensures r == BlockResults(b, query, t, threshold, ops)
  {
    var results: seq<SimilarityResult> := [];
    var entries := b.vectors;
    for i := 0 to |entries|
      invariant EntryResults(entries[..i], query, t, threshold, ops) == Ok(results)
    {
      var e := entries[i];
      assert entries[..i + 1][..i] == entries[..i];
      assert entries[..i + 1][i] == e;
      var score := SimilarityOf(t, ops, query, e.vector);
      if score.Err? {
        assert EntryResults(entries[..i + 1], query, t, threshold, ops).Err?;
        assert entries == entries[..i + 1] + entries[i + 1..];
        assert EntryResults(entries, query, t, threshold, ops).Err?;
        return Err(score.error);
      }
      var x := SimilarityResult(e.key, StoredValue(VectorFloat32, e.vector), score.value);
      assert x == Entry(e, query, t, ops);
      assert EntryResults(entries[..i + 1], query, t, threshold, ops) ==
        Ok(results + (if AtLeast(x.similarity, threshold) then [x] else []));
      if AtLeast(x.similarity, threshold) {
        results := results + [x];
      } else {
        assert results + [] == results;
      }
    }
    assert entries[..|entries|] == entries;
    r := Ok(results);
  }

  /** The scoring loop of `computeSimilarities`: every block is visited once,
      in an order the map chooses. */
  method GatherAll(m: map<Int64, VectorBlock>, query: Vector, t: SimilarityType, threshold: Bits32, ops: FloatOps)
    returns (all: seq<SimilarityResult>, ghost order: seq<Int64>)
    ensures Enumerates(order, m)
    ensures all == Gathered(order, m, query, t, threshold, ops)
    ensures forall x :: x in all ==> (AtLeast(x.similarity, threshold) &&
      exists k, j :: k in m && 0 <= j < |m[k].vectors| && x == Entry(m[k].vectors[j], query, t, ops))
  {
    var remaining := m.Keys;
    order := [];
    all := [];
    while remaining != {}
      invariant remaining <= m.Keys
      invariant forall i :: 0 <= i < |order| ==> order[i] in m && order[i] !in remaining
      invariant forall i, j :: 0 <= i < j < |order| ==> order[i] != order[j]
      invariant forall k :: k in m ==> k in remaining || k in order
      invariant all == Gathered(order, m, query, t, threshold, ops)
      decreases |remaining|
    {
      var k :| k in remaining;
      var scored := ComputeBlockSimilarities(m[k], query, t, threshold, ops);
      if scored.Ok? {
        all := all + scored.value;
      }
      assert (order + [k])[..|order|] == order;
      order := order + [k];
      remaining := remaining - {k};
    }
  }

  /** Every ranked result reached the threshold. */
  lemma RankedMeetThreshold(order: seq<Int64>, m: map<Int64, VectorBlock>, query: Vector, t: SimilarityType, threshold: Bits32, ops: FloatOps, k: nat)
    requires forall i :: 0 <= i < |order| ==> order[i] in m
    ensures forall x :: x in Rank(Gathered(order, m, query, t, threshold, ops), k) ==> AtLeast(x.similarity, threshold)
  {
    forall x | x in Rank(Gathered(order, m, query, t, threshold, ops), k)
      ensures AtLeast(x.similarity, threshold)
    {
      RankedFromInput(Gathered(order, m, query, t, threshold, ops), k, x);
    }
  }

  // ---------------------------------------------------------------- the buffer object

  /** Every entry of `small` is an entry of `large`. */
  ghost predicate SubMap(small: map<Int64, VectorBlock>, large: map<Int64, VectorBlock>)
  {
    forall k :: k in small ==> k in large && small[k] == large[k]
  }

  class VectorBuffer {
    const maxMemoryMB: Int32
    var loadedBlocks: map<Int64, VectorBlock>
    var currentMemoryUsage: int

    /** The accounting invariant: usage is the sum of the resident footprints. */
    ghost predicate Valid()
      reads this
    {
      currentMemoryUsage == Total(loadedBlocks)
    }

    constructor (maxMemoryMB: Int32)
      ensures Valid()
      ensures this.maxMemoryMB == maxMemoryMB && loadedBlocks == map[] && currentMemoryUsage == 0
    {
      this.maxMemoryMB := maxMemoryMB;
      loadedBlocks := map[];
      currentMemoryUsage := 0;
    }

    /** The default budget of 512 MiB. */
    constructor Default()
      ensures Valid()
      ensures maxMemoryMB == 512 && loadedBlocks == map[] && currentMemoryUsage == 0
    {
      maxMemoryMB := 512;
      loadedBlocks := map[];
      currentMemoryUsage := 0;
    }

    /** `getBlock`: the resident block at an offset, or null. */
    function GetBlock(blockOffset: Int64): (r: Option<VectorBlock>)
      reads this
      ensures r.Some? <==> blockOffset in loadedBlocks
      ensures r.Some? ==> r.value == loadedBlocks[blockOffset]
    {
      if blockOffset in loadedBlocks then Some(loadedBlocks[blockOffset]) else None
    }

    /** `evictLeastRecentlyUsedBlock`: removes one resident block, which one
        being the map's first key in its own iteration order. */
    method EvictBlock()
      requires Valid()
      modifies this
      ensures Valid()
      ensures old(loadedBlocks) == map[] ==> loadedBlocks == map[]
      ensures old(loadedBlocks) != map[] ==>
        exists k :: k in old(loadedBlocks) && loadedBlocks == old(loadedBlocks) - {k}
    {
      if loadedBlocks != map[] {
        var firstKey :| firstKey in loadedBlocks;
        var evicted := loadedBlocks[firstKey];
        TotalWithout(loadedBlocks, firstKey);
        loadedBlocks := loadedBlocks - {firstKey};
        currentMemoryUsage := currentMemoryUsage - Footprint(evicted);
      }
    }

    /** The eviction loop of `loadBlock`: evicts while `required` more bytes
        would exceed the budget and something is resident. */
    method MakeRoom(required: int)
      requires Valid()
      modifies this
      ensures Valid()
      ensures SubMap(loadedBlocks, old(loadedBlocks))
      ensures currentMemoryUsage + required <= Budget(maxMemoryMB) || loadedBlocks == map[]
      ensures old(currentMemoryUsage) + required <= Budget(maxMemoryMB) ==> loadedBlocks == old(loadedBlocks)
    {
      while currentMemoryUsage + required > Budget(maxMemoryMB) && loadedBlocks != map[]
        invariant Valid()
        invariant SubMap(loadedBlocks, old(loadedBlocks))
        invariant old(currentMemoryUsage) + required <= Budget(maxMemoryMB) ==> loadedBlocks == old(loadedBlocks)
        decreases |loadedBlocks|
      {
        EvictBlock();
      }
    }

    /** `loadBlock`: a resident offset is left alone and answers false;
        otherwise resident blocks are evicted while the new block would not
        fit, the block is inserted and the answer is true. Eviction only
        removes blocks, never the incoming one, and evicts nothing when the
        block fits already. */
    method LoadBlock(blockOffset: Int64, metadata: VectorBlockMetadata, vectors: seq<VectorEntry>) returns (loaded: bool)
      requires Valid()
      modifies this
      ensures Valid()
      ensures loaded <==> blockOffset !in old(loadedBlocks)
      ensures !loaded ==> loadedBlocks == old(loadedBlocks) && currentMemoryUsage == old(currentMemoryUsage)
      ensures loaded ==> blockOffset in loadedBlocks && loadedBlocks[blockOffset] == VectorBlock(metadata, vectors)
      ensures loaded ==> SubMap(loadedBlocks - {blockOffset}, old(loadedBlocks))
      ensures loaded && old(currentMemoryUsage) + Footprint(VectorBlock(metadata, vectors)) <= Budget(maxMemoryMB) ==>
        loadedBlocks == old(loadedBlocks)[blockOffset := VectorBlock(metadata, vectors)]
      ensures loaded ==> currentMemoryUsage <= Budget(maxMemoryMB) || loadedBlocks == map[blockOffset := VectorBlock(metadata, vectors)]
      ensures loaded && Footprint(VectorBlock(metadata, vectors)) <= Budget(maxMemoryMB) ==>
        currentMemoryUsage <= Budget(maxMemoryMB)
    {
      if blockOffset in loadedBlocks {
        return false;
      }
      var block := VectorBlock(metadata, vectors);
      var requiredMemory := Footprint(block);
      MakeRoom(requiredMemory);
      TotalWith(map[], blockOffset, block);
      ghost var before := loadedBlocks;
      TotalWith(loadedBlocks, blockOffset, block);
      loadedBlocks := loadedBlocks[blockOffset := block];
      currentMemoryUsage := currentMemoryUsage + requiredMemory;
      assert loadedBlocks - {blockOffset} == before;
      loaded := true;
    }

    /** `clear`. */
    method Clear()
      modifies this
      ensures Valid()
      ensures loadedBlocks == map[] && currentMemoryUsage == 0
    {
      loadedBlocks := map[];
      currentMemoryUsage := 0;
    }

    /** `computeSimilarities`: nothing for an empty buffer; otherwise every
        resident block is scored (in the map's iteration order, which the
        model leaves open), the results are ranked and cut to topK, and a
        negative topK is refused by `Stream.limit`. */
    method ComputeSimilarities(query: Vector, t: SimilarityType, topK: Int32, threshold: Bits32, ops: FloatOps)
      returns (r: Result<seq<SimilarityResult>>)
      ensures loadedBlocks == map[] ==> r == Ok([])
      ensures loadedBlocks != map[] && topK < 0 ==> r == Err(IllegalArgument)
      ensures loadedBlocks != map[] && topK >= 0 ==> (r.Ok? &&
        exists order :: Enumerates(order, loadedBlocks) &&
          r.value == Rank(Gathered(order, loadedBlocks, query, t, threshold, ops), topK))
      ensures r.Ok? ==> |r.value| <= topK || r.value == []
      ensures r.Ok? ==> NonIncreasing(r.value)
      ensures r.Ok? ==> forall x :: x in r.value ==> AtLeast(x.similarity, threshold)
    {
      if loadedBlocks == map[] {
        return Ok([]);
      }
      var all, order := GatherAll(loadedBlocks, query, t, threshold, ops);
      if topK < 0 {
        return Err(IllegalArgument);
      }
      r := Ok(Rank(all, topK));
      RankedMeetThreshold(order, loadedBlocks, query, t, threshold, ops, topK);
    }
  }
}
