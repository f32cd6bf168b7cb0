/**
 * The search iterator: a cursor over ranked results. `Seek` gathers the
 * results for a range, either from candidate blocks staged in the buffer
 * (when a block index is attached and some block passes the centroid
 * pre-filter) or by scanning every record of the range, then sorts them by
 * descending similarity and keeps the first topK. `HasTop`, `Next`,
 * `GetTopKey` and `GetTopValue` walk that list.
 */
module SearchIterator {
  import opened Wrappers
  import opened Bytes
  import opened Floats
  import opened Sorting
  import opened ValueTypes
  import opened BlockIndex
  import opened Similarity
  import opened StagingBuffer

  // ---------------------------------------------------------------- visibility

  /** What `canAccess` does with a parsed expression: answers, or throws. */
  datatype Access = Granted | Denied | Failed

  /** The visibility evaluator: absent (no restrictions), or the parser of
      access expressions and the authorization check. */
  datatype Evaluator = Unrestricted | Evaluator(parses: seq<Byte> -> bool, canAccess: seq<Byte> -> Access)

  /** `isVisibilityAllowed`: the parse happens outside the `try`, so an
      expression that does not parse raises an `IllegalArgumentException`;
      an authorization check that throws denies. */
  function IsVisibilityAllowed(ev: Evaluator, key: Key): (r: Result<bool>)
    ensures ev.Unrestricted? ==> r == Ok(true)
    ensures r.Err? <==> ev.Evaluator? && !ev.parses(key.visibility)
    ensures r.Err? ==> r.error == IllegalArgument
    ensures r == Ok(true) <==> ev.Unrestricted? || (ev.parses(key.visibility) && ev.canAccess(key.visibility) == Granted)
  {
    if ev.Unrestricted? then Ok(true)
    else if !ev.parses(key.visibility) then Err(IllegalArgument)
    else Ok(ev.canAccess(key.visibility) == Granted)
  }

  /** `isBlockVisibilityAllowed`: as above, except that an empty visibility
      allows the block without being parsed. */
  function IsBlockVisibilityAllowed(ev: Evaluator, visibility: seq<Byte>): (r: Result<bool>)
    ensures ev.Unrestricted? || visibility == [] ==> r == Ok(true)
    ensures r.Err? <==> ev.Evaluator? && visibility != [] && !ev.parses(visibility)
    ensures r.Err? ==> r.error == IllegalArgument
    ensures r == Ok(true) <==> ev.Unrestricted? || visibility == [] || (ev.parses(visibility) && ev.canAccess(visibility) == Granted)
  {
    if ev.Unrestricted? || visibility == [] then Ok(true)
    else if !ev.parses(visibility) then Err(IllegalArgument)
    else Ok(ev.canAccess(visibility) == Granted)
  }

  /** What the iterator reads from storage, which the model takes as given:
      the visibility of a block, and the entries of a block as
      `loadBlockVectors` reads them. */
  datatype Storage = Storage(
    blockVisibility: VectorBlockMetadata -> seq<Byte>,
    loadBlockVectors: VectorBlockMetadata -> seq<VectorEntry>)

  /** A key-value pair the source yields. */
  datatype Record = Record(key: Key, value: StoredValue)

  // ---------------------------------------------------------------- candidate blocks

  /** A block the centroid pre-filter keeps: visible, and its centroid scores
      at least half the threshold (`threshold * 0.5f`). */
  ghost predicate Qualifies(b: VectorBlockMetadata, query: Vector, t: SimilarityType, threshold: Bits32, ev: Evaluator, storage: Storage, ops: FloatOps)
  {
    IsBlockVisibilityAllowed(ev, storage.blockVisibility(b)) == Ok(true) &&
    |b.centroid| == |query| &&
    AtLeast(Score(t, ops, query, b.centroid), ops.half(threshold))
  }

  /** `getBasicCandidateBlocks`: the indices of the blocks that pass the
      pre-filter, in increasing order. A visibility that does not parse, or a
      visible block whose centroid has the wrong length, aborts the selection. */
  function BasicCandidates(blocks: seq<VectorBlockMetadata>, query: Vector, t: SimilarityType, threshold: Bits32, ev: Evaluator, storage: Storage, ops: FloatOps): Result<seq<int>>
  {
    if blocks == [] then Ok([])
    else
      var n := |blocks| - 1;
      var prefix :- BasicCandidates(blocks[..n], query, t, threshold, ev, storage, ops);
      var visible :- IsBlockVisibilityAllowed(ev, storage.blockVisibility(blocks[n]));
      if !visible then Ok(prefix)
      else
        var score :- ComputeSimilarity(t, ops, query, blocks[n].centroid);
        Ok(if AtLeast(score, ops.half(threshold)) then prefix + [n] else prefix)
  }

  /** The candidates are block indices, each once, in increasing order. */
  lemma {:induction false} BasicCandidatesAscending(blocks: seq<VectorBlockMetadata>, query: Vector, t: SimilarityType, threshold: Bits32, ev: Evaluator, storage: Storage, ops: FloatOps)
    requires BasicCandidates(blocks, query, t, threshold, ev, storage, ops).Ok?
    ensures var r := BasicCandidates(blocks, query, t, threshold, ev, storage, ops).value;
      StrictlyIncreasing(r) && forall c :: c in r ==> 0 <= c < |blocks|
  {
    if blocks != [] {
      var n := |blocks| - 1;
      BasicCandidatesAscending(blocks[..n], query, t, threshold, ev, storage, ops);
      var prefix := BasicCandidates(blocks[..n], query, t, threshold, ev, storage, ops).value;
      var r := BasicCandidates(blocks, query, t, threshold, ev, storage, ops).value;
      if r != prefix {
        assert r == prefix + [n];
        forall i, j | 0 <= i < j < |r| ensures r[i] < r[j] {
          if j == |prefix| {
            assert prefix[i] in prefix;
          }
        }
      }
    }
  }

  /** A block is a candidate exactly when it qualifies. */
  lemma {:induction false} BasicCandidatesExactly(blocks: seq<VectorBlockMetadata>, query: Vector, t: SimilarityType, threshold: Bits32, ev: Evaluator, storage: Storage, ops: FloatOps)
    requires BasicCandidates(blocks, query, t, threshold, ev, storage, ops).Ok?
    ensures var r := BasicCandidates(blocks, query, t, threshold, ev, storage, ops).value;
      forall i :: 0 <= i < |blocks| ==> (i in r <==> Qualifies(blocks[i], query, t, threshold, ev, storage, ops))
  {
    if blocks != [] {
      var n := |blocks| - 1;
      BasicCandidatesExactly(blocks[..n], query, t, threshold, ev, storage, ops);
      BasicCandidatesAscending(blocks[..n], query, t, threshold, ev, storage, ops);
      var prefix := BasicCandidates(blocks[..n], query, t, threshold, ev, storage, ops).value;
      var r := BasicCandidates(blocks, query, t, threshold, ev, storage, ops).value;
      assert r == prefix || r == prefix + [n];
      assert n !in prefix;
      assert n in r <==> Qualifies(blocks[n], query, t, threshold, ev, storage, ops);
      forall i | 0 <= i < n
        ensures i in r <==> Qualifies(blocks[i], query, t, threshold, ev, storage, ops)
      {
        assert blocks[..n][i] == blocks[i];
      }
    }
  }

  lemma {:induction false} BasicCandidatesFailurePersists(blocks: seq<VectorBlockMetadata>, i: nat, query: Vector, t: SimilarityType, threshold: Bits32, ev: Evaluator, storage: Storage, ops: FloatOps)
    requires i <= |blocks|
    requires BasicCandidates(blocks[..i], query, t, threshold, ev, storage, ops).Err?
    ensures BasicCandidates(blocks, query, t, threshold, ev, storage, ops) == BasicCandidates(blocks[..i], query, t, threshold, ev, storage, ops)
    decreases |blocks|
  {
    if i < |blocks| {
      var n := |blocks| - 1;
      assert blocks[..n][..i] == blocks[..i];
      BasicCandidatesFailurePersists(blocks[..n], i, query, t, threshold, ev, storage, ops);
    } else {
      assert blocks[..i] == blocks;
    }
  }

  /** The loop of `getBasicCandidateBlocks`. */
  method BasicCandidateBlocks(blocks: seq<VectorBlockMetadata>, query: Vector, t: SimilarityType, threshold: Bits32, ev: Evaluator, storage: Storage, ops: FloatOps)
    returns (r: Result<seq<int>>)
    ensures r == BasicCandidates(blocks, query, t, threshold, ev, storage, ops)
  {
    var candidates: seq<int> := [];
    for i := 0 to |blocks|
      invariant BasicCandidates(blocks[..i], query, t, threshold, ev, storage, ops) == Ok(candidates)
    {
      var b := blocks[i];
      assert blocks[..i + 1][..i] == blocks[..i];
      assert blocks[..i + 1][i] == b;
      var visible := IsBlockVisibilityAllowed(ev, storage.blockVisibility(b));
      if visible.Err? {
        assert BasicCandidates(blocks[..i + 1], query, t, threshold, ev, storage, ops).Err?;
        BasicCandidatesFailurePersists(blocks, i + 1, query, t, threshold, ev, storage, ops);
        return Err(visible.error);
      }
      if visible.value {
        var score := SimilarityOf(t, ops, query, b.centroid);
        if score.Err? {
          assert BasicCandidates(blocks[..i + 1], query, t, threshold, ev, storage, ops).Err?;
          BasicCandidatesFailurePersists(blocks, i + 1, query, t, threshold, ev, storage, ops);
          return Err(score.error);
        }
        if AtLeast(score.value, ops.half(threshold)) {
          candidates := candidates + [i];
        }
      }
    }
    assert blocks[..|blocks|] == blocks;
    r := Ok(candidates);
  }

  // ---------------------------------------------------------------- scanning

  /** A record the scan keeps: visible, vector-typed, of the query's
      dimension, and scoring at least the threshold. */
  ghost predicate Matches(rec: Record, query: Vector, t: SimilarityType, threshold: Bits32, ev: Evaluator, ops: FloatOps)
  {
    IsVisibilityAllowed(ev, rec.key) == Ok(true) &&
    rec.value.valueType == VectorFloat32 &&
    |rec.value.vector| == |query| &&
    AtLeast(Score(t, ops, query, rec.value.vector), threshold)
  }

  /** The result a record of the query's dimension gives: a copy of its key
      and value with its score. */
  function Found(rec: Record, query: Vector, t: SimilarityType, ops: FloatOps): SimilarityResult
  {
    var score := if |rec.value.vector| == |query| then Score(t, ops, query, rec.value.vector) else POSITIVE_ZERO;
    SimilarityResult(rec.key, rec.value, score)
  }

  /** `scanAllData` over the first records: what it has appended, and
      whether it got through. Visibility is checked first, so a key whose
      visibility does not parse aborts the scan even on a non-vector value;
      a vector of the wrong length aborts it too. */
  function ScanResults(records: seq<Record>, query: Vector, t: SimilarityType, threshold: Bits32, ev: Evaluator, ops: FloatOps): (r: (seq<SimilarityResult>, Result<()>))
    ensures |r.0| <= |records|
    ensures forall x :: x in r.0 ==>
      (exists i :: 0 <= i < |records| && Matches(records[i], query, t, threshold, ev, ops) && x == Found(records[i], query, t, ops))
    ensures r.1.Ok? ==> forall i :: 0 <= i < |records| && Matches(records[i], query, t, threshold, ev, ops) ==>
      Found(records[i], query, t, ops) in r.0
  {
    if records == [] then ([], Ok(()))
    else
      var n := |records| - 1;
      assert forall i :: 0 <= i < n ==> records[..n][i] == records[i];
      var prefix := ScanResults(records[..n], query, t, threshold, ev, ops);
      var rec := records[n];
      if prefix.1.Err? then prefix
      else
        var visible := IsVisibilityAllowed(ev, rec.key);
        if visible.Err? then (prefix.0, Err(visible.error))
        else if !visible.value || rec.value.valueType != VectorFloat32 then prefix
        else
          var score := ComputeSimilarity(t, ops, query, rec.value.vector);
          if score.Err? then (prefix.0, Err(score.error))
          else if AtLeast(score.value, threshold) then
            (prefix.0 + [SimilarityResult(rec.key, rec.value, score.value)], Ok(()))
          else prefix
  }

  lemma {:induction false} ScanFailurePersists(records: seq<Record>, i: nat, query: Vector, t: SimilarityType, threshold: Bits32, ev: Evaluator, ops: FloatOps)
    requires i <= |records|
    requires ScanResults(records[..i], query, t, threshold, ev, ops).1.Err?
    ensures ScanResults(records, query, t, threshold, ev, ops) == ScanResults(records[..i], query, t, threshold, ev, ops)
    decreases |records|
  {
    if i < |records| {
      var n := |records| - 1;
      assert records[..n][..i] == records[..i];
      ScanFailurePersists(records[..n], i, query, t, threshold, ev, ops);
    } else {
      assert records[..i] == records;
    }
  }

  // ---------------------------------------------------------------- filtering staged results

  /** The visibility filter `processCandidateBlocks` applies to the buffer's
      results: the visible ones, in order; a visibility that does not parse
      aborts it. */
  function VisibleResults(rs: seq<SimilarityResult>, ev: Evaluator): (r: (seq<SimilarityResult>, Result<()>))
    ensures |r.0| <= |rs|
    ensures forall x :: x in r.0 ==> x in rs && IsVisibilityAllowed(ev, x.key) == Ok(true)
    ensures r.1.Ok? ==> forall i :: 0 <= i < |rs| && IsVisibilityAllowed(ev, rs[i].key) == Ok(true) ==> rs[i] in r.0
  {
    if rs == [] then ([], Ok(()))
    else
      var n := |rs| - 1;
      assert forall i :: 0 <= i < n ==> rs[..n][i] == rs[i];
      var prefix := VisibleResults(rs[..n], ev);
      if prefix.1.Err? then prefix
      else
        var visible := IsVisibilityAllowed(ev, rs[n].key);
        if visible.Err? then (prefix.0, Err(visible.error))
        else if visible.value then (prefix.0 + [rs[n]], Ok(()))
        else prefix
  }

  lemma {:induction false} VisibleFailurePersists(rs: seq<SimilarityResult>, i: nat, ev: Evaluator)
    requires i <= |rs|
    requires VisibleResults(rs[..i], ev).1.Err?
    ensures VisibleResults(rs, ev) == VisibleResults(rs[..i], ev)
    decreases |rs|
  {
    if i < |rs| {
      var n := |rs| - 1;
      assert rs[..n][..i] == rs[..i];
      VisibleFailurePersists(rs[..n], i, ev);
    } else {
      assert rs[..i] == rs;
    }
  }

  /** Ranking keeps only results that were there, so a property of every
      gathered result holds of every ranked one. */
  lemma RankedAreVisibleAboveThreshold(results: seq<SimilarityResult>, k: nat, threshold: Bits32, ev: Evaluator)
    requires forall x :: x in results ==> AtLeast(x.similarity, threshold) && IsVisibilityAllowed(ev, x.key) == Ok(true)
    ensures forall x :: x in Rank(results, k) ==> AtLeast(x.similarity, threshold) && IsVisibilityAllowed(ev, x.key) == Ok(true)
  {
    forall x | x in Rank(results, k)
      ensures AtLeast(x.similarity, threshold) && IsVisibilityAllowed(ev, x.key) == Ok(true)
    {
      RankedFromInput(results, k, x);
    }
  }

  // ---------------------------------------------------------------- staging candidate blocks

  /** The block under offset k is candidate block `candidates[i]` for some
      i, with the entries storage gives for it. */
  ghost predicate LoadedFrom(k: Int64, b: VectorBlock, candidates: seq<int>, blocks: seq<VectorBlockMetadata>, storage: Storage)
  {
    exists i :: 0 <= i < |candidates| && 0 <= candidates[i] < |blocks| && blocks[candidates[i]].blockOffset == k &&
      b == VectorBlock(blocks[candidates[i]], storage.loadBlockVectors(blocks[candidates[i]]))
  }

  /** What the buffer can hold once the candidate blocks are staged: every
      resident block is one that was resident before, unchanged (a block
      already resident is not loaded again), or a candidate block under its
      own offset. Which of them the budget evicted again is left open. */
  ghost predicate Staged(m: map<Int64, VectorBlock>, before: map<Int64, VectorBlock>, candidates: seq<int>,
                         blocks: seq<VectorBlockMetadata>, storage: Storage)
  {
    forall k :: k in m ==> (k in before && m[k] == before[k]) || LoadedFrom(k, m[k], candidates, blocks, storage)
  }

  /** Staging one more candidate keeps every earlier block staged. */
  lemma StagedGrows(m: map<Int64, VectorBlock>, before: map<Int64, VectorBlock>, candidates: seq<int>,
                    blocks: seq<VectorBlockMetadata>, storage: Storage, i: nat)
    requires i < |candidates| && Staged(m, before, candidates[..i], blocks, storage)
    ensures Staged(m, before, candidates[..i + 1], blocks, storage)
  {
    forall k | k in m && !(k in before && m[k] == before[k])
      ensures LoadedFrom(k, m[k], candidates[..i + 1], blocks, storage)
    {
      var j :| 0 <= j < i && 0 <= candidates[..i][j] < |blocks| && blocks[candidates[..i][j]].blockOffset == k &&
        m[k] == VectorBlock(blocks[candidates[..i][j]], storage.loadBlockVectors(blocks[candidates[..i][j]]));
      assert candidates[..i][j] == candidates[..i + 1][j];
    }
  }

  /** After candidate i is loaded (or found resident), the buffer is staged
      from the candidates up to and including it. */
  lemma StagedLoad(m: map<Int64, VectorBlock>, staged: map<Int64, VectorBlock>, before: map<Int64, VectorBlock>,
                   candidates: seq<int>, blocks: seq<VectorBlockMetadata>, storage: Storage, i: nat)
    requires i < |candidates| && 0 <= candidates[i] < |blocks|
    requires Staged(staged, before, candidates[..i + 1], blocks, storage)
    requires var b := blocks[candidates[i]];
      m == staged ||
      (b.blockOffset in m && m[b.blockOffset] == VectorBlock(b, storage.loadBlockVectors(b)) &&
       SubMap(m - {b.blockOffset}, staged))
    ensures Staged(m, before, candidates[..i + 1], blocks, storage)
  {
    var b := blocks[candidates[i]];
    forall k | k in m && !(k in before && m[k] == before[k])
      ensures LoadedFrom(k, m[k], candidates[..i + 1], blocks, storage)
    {
      if m != staged && k == b.blockOffset {
        assert candidates[..i + 1][i] == candidates[i];
      } else {
        assert k in staged && m[k] == staged[k] by {
          if m != staged {
            assert k in m - {b.blockOffset};
          }
        }
      }
    }
  }

  /** The map the staging loop builds when the budget evicts nothing: each
      candidate below the number of blocks, in order, whose offset is not
      resident yet, is added under its offset with the entries storage gives
      for it; a candidate whose offset is resident leaves the map as it is. */
  function StagedMap(before: map<Int64, VectorBlock>, candidates: seq<int>, blocks: seq<VectorBlockMetadata>,
                     storage: Storage): map<Int64, VectorBlock>
    decreases |candidates|
  {
    if candidates == [] then before
    else
      var m := StagedMap(before, candidates[..|candidates| - 1], blocks, storage);
      var c := candidates[|candidates| - 1];
      if 0 <= c < |blocks| && blocks[c].blockOffset !in m
      then m[blocks[c].blockOffset := VectorBlock(blocks[c], storage.loadBlockVectors(blocks[c]))]
      else m
  }

  /** One more candidate: the map grows by that block exactly when its
      offset is new, and its total footprint never shrinks. */
  lemma StagedMapStep(before: map<Int64, VectorBlock>, candidates: seq<int>, blocks: seq<VectorBlockMetadata>,
                      storage: Storage, i: nat)
    requires i < |candidates|
    ensures var m := StagedMap(before, candidates[..i], blocks, storage);
      var c := candidates[i];
      StagedMap(before, candidates[..i + 1], blocks, storage) ==
        if 0 <= c < |blocks| && blocks[c].blockOffset !in m
        then m[blocks[c].blockOffset := VectorBlock(blocks[c], storage.loadBlockVectors(blocks[c]))]
        else m
    ensures Total(StagedMap(before, candidates[..i], blocks, storage)) <= Total(StagedMap(before, candidates[..i + 1], blocks, storage))
  {
    assert candidates[..i + 1][..i] == candidates[..i];
    var m := StagedMap(before, candidates[..i], blocks, storage);
    var c := candidates[i];
    if 0 <= c < |blocks| && blocks[c].blockOffset !in m {
      var b := VectorBlock(blocks[c], storage.loadBlockVectors(blocks[c]));
      TotalWith(m, blocks[c].blockOffset, b);
      FootprintAtLeastOverhead(b);
    }
  }

  /** The staged map keeps every block resident before and holds every
      candidate block that exists. */
  lemma {:induction false} StagedMapContents(before: map<Int64, VectorBlock>, candidates: seq<int>,
                                             blocks: seq<VectorBlockMetadata>, storage: Storage)
    ensures forall k :: k in before ==>
      (k in StagedMap(before, candidates, blocks, storage) && StagedMap(before, candidates, blocks, storage)[k] == before[k])
    ensures forall i :: 0 <= i < |candidates| && 0 <= candidates[i] < |blocks| ==>
      blocks[candidates[i]].blockOffset in StagedMap(before, candidates, blocks, storage)
    decreases |candidates|
  {
    if candidates != [] {
      var n := |candidates| - 1;
      StagedMapContents(before, candidates[..n], blocks, storage);
      StagedMapStep(before, candidates, blocks, storage, n);
      assert candidates[..n + 1] == candidates;
      forall i | 0 <= i < n && 0 <= candidates[i] < |blocks|
        ensures blocks[candidates[i]].blockOffset in StagedMap(before, candidates, blocks, storage)
      {
        assert candidates[..n][i] == candidates[i];
      }
    }
  }

  /** The staged map holds nothing but old blocks and candidate blocks. */
  lemma {:induction false} StagedMapIsStaged(before: map<Int64, VectorBlock>, candidates: seq<int>,
                                             blocks: seq<VectorBlockMetadata>, storage: Storage)
    ensures Staged(StagedMap(before, candidates, blocks, storage), before, candidates, blocks, storage)
    decreases |candidates|
  {
    if candidates != [] {
      var n := |candidates| - 1;
      var m := StagedMap(before, candidates[..n], blocks, storage);
      StagedMapIsStaged(before, candidates[..n], blocks, storage);
      StagedMapStep(before, candidates, blocks, storage, n);
      assert candidates[..n + 1] == candidates;
      var m' := StagedMap(before, candidates, blocks, storage);
      StagedGrows(m, before, candidates, blocks, storage, n);
      if 0 <= candidates[n] < |blocks| {
        var off := blocks[candidates[n]].blockOffset;
        if off !in m {
          assert m' - {off} == m;
        }
        StagedLoad(m', m, before, candidates, blocks, storage, n);
      }
    }
  }

  /** What the buffer holds after the staging loop, given the budget: only
      blocks resident before or candidate blocks; exactly the staged map
      when that fits the budget; and always the last candidate's block. */
  ghost predicate StagedWithin(m: map<Int64, VectorBlock>, before: map<Int64, VectorBlock>, candidates: seq<int>,
                               blocks: seq<VectorBlockMetadata>, storage: Storage, budget: int)
  {
    Staged(m, before, candidates, blocks, storage) &&
    (Total(StagedMap(before, candidates, blocks, storage)) <= budget ==> m == StagedMap(before, candidates, blocks, storage)) &&
    (candidates != [] && 0 <= candidates[|candidates| - 1] < |blocks| ==>
      blocks[candidates[|candidates| - 1]].blockOffset in m)
  }

  /** The results are the visible part of the top-k ranking of the blocks in
      m, taken in some iteration order of m. */
  ghost predicate RanksBuffer(results: seq<SimilarityResult>, m: map<Int64, VectorBlock>, query: Vector, t: SimilarityType,
                              topK: nat, threshold: Bits32, ev: Evaluator, ops: FloatOps)
  {
    exists order :: Enumerates(order, m) &&
      results == VisibleResults(Rank(Gathered(order, m, query, t, threshold, ops), topK), ev).0
  }

  /** The results rank the buffer as the staging loop leaves it. */
  ghost predicate RanksStaged(results: seq<SimilarityResult>, before: map<Int64, VectorBlock>, candidates: seq<int>,
                              blocks: seq<VectorBlockMetadata>, storage: Storage, budget: int, query: Vector,
                              t: SimilarityType, topK: nat, threshold: Bits32, ev: Evaluator, ops: FloatOps)
  {
    exists m :: StagedWithin(m, before, candidates, blocks, storage, budget) &&
      RanksBuffer(results, m, query, t, topK, threshold, ev, ops)
  }

  /** Within the budget the results rank exactly the blocks resident before
      together with every candidate block. */
  lemma RanksStagedWithinBudget(results: seq<SimilarityResult>, before: map<Int64, VectorBlock>, candidates: seq<int>,
                                blocks: seq<VectorBlockMetadata>, storage: Storage, budget: int, query: Vector,
                                t: SimilarityType, topK: nat, threshold: Bits32, ev: Evaluator, ops: FloatOps)
    requires RanksStaged(results, before, candidates, blocks, storage, budget, query, t, topK, threshold, ev, ops)
    requires Total(StagedMap(before, candidates, blocks, storage)) <= budget
    ensures RanksBuffer(results, StagedMap(before, candidates, blocks, storage), query, t, topK, threshold, ev, ops)
  {
  }

  /** The block resident under k after staging: resident before, or loaded
      from a candidate. */
  ghost predicate StagedBlock(k: Int64, b: VectorBlock, before: map<Int64, VectorBlock>, candidates: seq<int>,
                              blocks: seq<VectorBlockMetadata>, storage: Storage)
  {
    (k in before && b == before[k]) || LoadedFrom(k, b, candidates, blocks, storage)
  }

  /** x is the result an entry of block b gives for the query. */
  ghost predicate ScoredFrom(x: SimilarityResult, b: VectorBlock, query: Vector, t: SimilarityType, ops: FloatOps)
  {
    exists j :: 0 <= j < |b.vectors| && x == Entry(b.vectors[j], query, t, ops)
  }

  /** What ranking a buffer promises result by result: at most topK
      results, each visible, at or above the threshold, and the score of an
      entry of a block in the buffer. */
  lemma RanksBufferResults(results: seq<SimilarityResult>, m: map<Int64, VectorBlock>, query: Vector, t: SimilarityType,
                           topK: nat, threshold: Bits32, ev: Evaluator, ops: FloatOps)
    requires RanksBuffer(results, m, query, t, topK, threshold, ev, ops)
    ensures |results| <= topK
    ensures forall x :: x in results ==> AtLeast(x.similarity, threshold) && IsVisibilityAllowed(ev, x.key) == Ok(true)
    ensures forall x :: x in results ==> exists k :: k in m && ScoredFrom(x, m[k], query, t, ops)
  {
    var order: seq<Int64> :| Enumerates(order, m) &&
      results == VisibleResults(Rank(Gathered(order, m, query, t, threshold, ops), topK), ev).0;
    var gathered := Gathered(order, m, query, t, threshold, ops);
    var ranked := Rank(gathered, topK);
    forall x | x in results
      ensures AtLeast(x.similarity, threshold) && IsVisibilityAllowed(ev, x.key) == Ok(true)
      ensures exists k :: k in m && ScoredFrom(x, m[k], query, t, ops)
    {
      assert x in ranked;
      RankedFromInput(gathered, topK, x);
      var i: int, j: int :| 0 <= i < |order| && 0 <= j < |m[order[i]].vectors| &&
        x == Entry(m[order[i]].vectors[j], query, t, ops) && |m[order[i]].vectors[j].vector| == |query|;
      assert ScoredFrom(x, m[order[i]], query, t, ops);
    }
  }

  /** What the ranking of staged blocks promises result by result: at most
      topK of them, each visible, at or above the threshold, and the score of
      an entry of a block that was resident before or is a candidate block as
      storage loads it. */
  lemma RanksStagedResults(results: seq<SimilarityResult>, before: map<Int64, VectorBlock>, candidates: seq<int>,
                           blocks: seq<VectorBlockMetadata>, storage: Storage, budget: int, query: Vector,
                           t: SimilarityType, topK: nat, threshold: Bits32, ev: Evaluator, ops: FloatOps)
    requires RanksStaged(results, before, candidates, blocks, storage, budget, query, t, topK, threshold, ev, ops)
    ensures |results| <= topK
    ensures forall x :: x in results ==> AtLeast(x.similarity, threshold) && IsVisibilityAllowed(ev, x.key) == Ok(true)
    ensures forall x :: x in results ==>
      exists k, b :: StagedBlock(k, b, before, candidates, blocks, storage) && ScoredFrom(x, b, query, t, ops)
  {
    var m: map<Int64, VectorBlock> :| StagedWithin(m, before, candidates, blocks, storage, budget) &&
      RanksBuffer(results, m, query, t, topK, threshold, ev, ops);
    RanksBufferResults(results, m, query, t, topK, threshold, ev, ops);
    forall x | x in results
      ensures exists k, b :: StagedBlock(k, b, before, candidates, blocks, storage) && ScoredFrom(x, b, query, t, ops)
    {
      var k :| k in m && ScoredFrom(x, m[k], query, t, ops);
      assert StagedBlock(k, m[k], before, candidates, blocks, storage);
    }
  }

  // ---------------------------------------------------------------- the iterator object

  class VectorIterator {
    const vectorBuffer: VectorBuffer
    const queryVector: Option<Vector>
    const similarityType: SimilarityType
    const topK: Int32
    const threshold: Bits32
    const evaluator: Evaluator
    var vectorIndex: VectorIndex?
    var results: seq<SimilarityResult>
    var currentResultIndex: int

    ghost predicate Valid()
      reads this, vectorBuffer
    {
      vectorBuffer.Valid() && currentResultIndex >= 0
    }

    /** `init` with its options already parsed: an absent option keeps its
        default (cosine similarity, the top 10, threshold 0.0f), and the
        staging buffer starts empty with its default budget. */
    constructor (query: Option<Vector>, t: Option<SimilarityType>, k: Option<Int32>, minimum: Option<Bits32>, ev: Evaluator)
      ensures Valid() && fresh(vectorBuffer)
      ensures queryVector == query && evaluator == ev
      ensures similarityType == (if t.Some? then t.value else Cosine)
      ensures topK == (if k.Some? then k.value else 10)
      ensures threshold == (if minimum.Some? then minimum.value else POSITIVE_ZERO)
      ensures vectorIndex == null && results == [] && currentResultIndex == 0
      ensures vectorBuffer.loadedBlocks == map[] && vectorBuffer.maxMemoryMB == 512
    {
      vectorBuffer := new VectorBuffer.Default();
      queryVector := query;
      similarityType := if t.Some? then t.value else Cosine;
      topK := if k.Some? then k.value else 10;
      threshold := if minimum.Some? then minimum.value else POSITIVE_ZERO;
      evaluator := ev;
      vectorIndex := null;
      results := [];
      currentResultIndex := 0;
    }

    method SetVectorIndex(index: VectorIndex?)
      modifies this
      ensures vectorIndex == index
      ensures results == old(results) && currentResultIndex == old(currentResultIndex)
    {
      vectorIndex := index;
    }

    function HasTop(): (r: bool)
      reads this
      ensures r <==> currentResultIndex < |results|
    {
      currentResultIndex < |results|
    }

    /** `next`: moves to the following result. */
    method Next()
      requires Valid()
      modifies this
      ensures Valid()
      ensures currentResultIndex == old(currentResultIndex) + 1 && results == old(results)
      ensures vectorIndex == old(vectorIndex)
    {
      currentResultIndex := currentResultIndex + 1;
    }

    /** `getTopKey`: null once the results are used up. */
    function GetTopKey(): (r: Option<Key>)
      reads this
      requires currentResultIndex >= 0
      ensures r.Some? <==> currentResultIndex < |results|
      ensures r.Some? ==> r.value == results[currentResultIndex].key
    {
      if currentResultIndex < |results| then Some(results[currentResultIndex].key) else None
    }

    /** `getTopValue`: null once the results are used up. */
    function GetTopValue(): (r: Option<StoredValue>)
      reads this
      requires currentResultIndex >= 0
      ensures r.Some? <==> currentResultIndex < |results|
      ensures r.Some? ==> r.value == results[currentResultIndex].value
    {
      if currentResultIndex < |results| then Some(results[currentResultIndex].value) else None
    }

    /** `getCandidateBlockIndices`: the pre-filter when a non-empty block
        index is attached, and no candidates otherwise. */
    function Candidates(storage: Storage, ops: FloatOps): (r: Result<seq<int>>)
      reads this, vectorIndex
      requires queryVector.Some?
      ensures r.Ok? && vectorIndex != null ==> forall c :: c in r.value ==> 0 <= c < |vectorIndex.blocks|
      ensures vectorIndex == null || vectorIndex.blocks == [] ==> r == Ok([])
    {
      if vectorIndex != null && vectorIndex.blocks != [] then
        var r := BasicCandidates(vectorIndex.blocks, queryVector.value, similarityType, threshold, evaluator, storage, ops);
        if r.Ok? then
          BasicCandidatesAscending(vectorIndex.blocks, queryVector.value, similarityType, threshold, evaluator, storage, ops);
          r
        else r
      else Ok([])
    }

    /** `getCandidateBlockIndices`. */
    method GetCandidateBlockIndices(storage: Storage, ops: FloatOps) returns (r: Result<seq<int>>)
      requires queryVector.Some?
      ensures r == Candidates(storage, ops)
    {
      if vectorIndex == null || vectorIndex.blocks == [] {
        return Ok([]);
      }
      r := BasicCandidateBlocks(vectorIndex.blocks, queryVector.value, similarityType, threshold, evaluator, storage, ops);
    }

    /** `scanAllData`: appends what the scan finds; on a failure, what it
        appended before it stays. */
    method ScanAllData(records: seq<Record>, ops: FloatOps) returns (outcome: Result<()>)
      requires queryVector.Some?
      modifies this
      ensures var s := ScanResults(records, queryVector.value, similarityType, threshold, evaluator, ops);
        results == old(results) + s.0 && outcome == s.1
      ensures currentResultIndex == old(currentResultIndex) && vectorIndex == old(vectorIndex)
    {
      var query := queryVector.value;
      ghost var before := results;
      for i := 0 to |records|
        invariant ScanResults(records[..i], query, similarityType, threshold, evaluator, ops).1 == Ok(())
        invariant results == before + ScanResults(records[..i], query, similarityType, threshold, evaluator, ops).0
        invariant currentResultIndex == old(currentResultIndex) && vectorIndex == old(vectorIndex)
      {
        var rec := records[i];
        assert records[..i + 1][..i] == records[..i];
        assert records[..i + 1][i] == rec;
        var visible := IsVisibilityAllowed(evaluator, rec.key);
        if visible.Err? {
          ScanFailurePersists(records, i + 1, query, similarityType, threshold, evaluator, ops);
          return Err(visible.error);
        }
        if visible.value && rec.value.valueType == VectorFloat32 {
          var score := SimilarityOf(similarityType, ops, query, rec.value.vector);
          if score.Err? {
            ScanFailurePersists(records, i + 1, query, similarityType, threshold, evaluator, ops);
            return Err(score.error);
          }
          if AtLeast(score.value, threshold) {
            results := results + [SimilarityResult(rec.key, rec.value, score.value)];
          }
        }
      }
      assert records[..|records|] == records;
      outcome := Ok(());
    }

    /** The visibility loop of `processCandidateBlocks`. */
    method AppendVisible(rs: seq<SimilarityResult>) returns (outcome: Result<()>)
      modifies this
      ensures results == old(results) + VisibleResults(rs, evaluator).0 && outcome == VisibleResults(rs, evaluator).1
      ensures currentResultIndex == old(currentResultIndex) && vectorIndex == old(vectorIndex)
    {
      ghost var before := results;
      for i := 0 to |rs|
        invariant VisibleResults(rs[..i], evaluator).1 == Ok(())
        invariant results == before + VisibleResults(rs[..i], evaluator).0
        invariant currentResultIndex == old(currentResultIndex) && vectorIndex == old(vectorIndex)
      {
        assert rs[..i + 1][..i] == rs[..i];
        assert rs[..i + 1][i] == rs[i];
        var visible := IsVisibilityAllowed(evaluator, rs[i].key);
        if visible.Err? {
          VisibleFailurePersists(rs, i + 1, evaluator);
          return Err(visible.error);
        }
        if visible.value {
          results := results + [rs[i]];
        }
      }
      assert rs[..|rs|] == rs;
      outcome := Ok(());
    }

    /** The staging loop of `processCandidateBlocks`: each candidate below
        the number of blocks is loaded into the buffer, unless its offset is
        resident already. The buffer then holds only old blocks and candidate
        blocks; exactly the staged map when that fits the budget (no eviction
        happened); and in any case the last candidate's block. */
    method StageCandidates(candidates: seq<int>, storage: Storage)
      requires Valid() && vectorIndex != null
      requires forall c :: c in candidates ==> c >= 0
      modifies vectorBuffer
      ensures Valid()
      ensures StagedWithin(vectorBuffer.loadedBlocks, old(vectorBuffer.loadedBlocks), candidates, vectorIndex.blocks, storage,
        Budget(vectorBuffer.maxMemoryMB))
    {
      var blocks := vectorIndex.blocks;
      ghost var before := vectorBuffer.loadedBlocks;
      ghost var budget := Budget(vectorBuffer.maxMemoryMB);
      for i := 0 to |candidates|
        invariant Valid()
        invariant StagedWithin(vectorBuffer.loadedBlocks, before, candidates[..i], blocks, storage, budget)
      {
        assert candidates[i] in candidates;
        StageOne(before, candidates, storage, i);
      }
      assert candidates[..|candidates|] == candidates;
    }

    /** One step of the staging loop: candidate i is loaded, or found resident. */
    method StageOne(ghost before: map<Int64, VectorBlock>, candidates: seq<int>, storage: Storage, i: nat)
      requires Valid() && vectorIndex != null && i < |candidates| && candidates[i] >= 0
      requires StagedWithin(vectorBuffer.loadedBlocks, before, candidates[..i], vectorIndex.blocks, storage,
        Budget(vectorBuffer.maxMemoryMB))
      modifies vectorBuffer
      ensures Valid()
      ensures StagedWithin(vectorBuffer.loadedBlocks, before, candidates[..i + 1], vectorIndex.blocks, storage,
        Budget(vectorBuffer.maxMemoryMB))
    {
      var blocks := vectorIndex.blocks;
      ghost var budget := Budget(vectorBuffer.maxMemoryMB);
      ghost var staged := vectorBuffer.loadedBlocks;
      StagedGrows(staged, before, candidates, blocks, storage, i);
      StagedMapStep(before, candidates, blocks, storage, i);
      assert candidates[..i + 1][i] == candidates[i];
      var idx := candidates[i];
      if idx < |blocks| {
        var metadata := blocks[idx];
        var entries := storage.loadBlockVectors(metadata);
        var loaded := vectorBuffer.LoadBlock(metadata.blockOffset, metadata, entries);
        StagedLoad(vectorBuffer.loadedBlocks, staged, before, candidates, blocks, storage, i);
        if loaded && staged == StagedMap(before, candidates[..i], blocks, storage) {
          TotalWith(staged, metadata.blockOffset, VectorBlock(metadata, entries));
        }
      }
    }

    /** `processCandidateBlocks`: stages every candidate block that exists,
        scores the buffer, keeps the visible results in ranked order and
        empties the buffer. The results rank the buffer as staging left it;
        within the budget, that is the old blocks plus every candidate block. */
    method ProcessCandidateBlocks(candidates: seq<int>, storage: Storage, ops: FloatOps) returns (outcome: Result<()>)
      requires Valid() && queryVector.Some? && vectorIndex != null && results == []
      requires forall c :: c in candidates ==> c >= 0
      modifies this, vectorBuffer
      ensures Valid()
      ensures currentResultIndex == old(currentResultIndex) && vectorIndex == old(vectorIndex)
      ensures outcome.Ok? ==> |results| <= topK || results == []
      ensures outcome.Ok? ==> forall x :: x in results ==>
        AtLeast(x.similarity, threshold) && IsVisibilityAllowed(evaluator, x.key) == Ok(true)
      ensures outcome.Ok? ==> vectorBuffer.loadedBlocks == map[]
      ensures outcome.Ok? && topK < 0 ==> results == []
      ensures outcome.Ok? && topK >= 0 ==> RanksStaged(results, old(vectorBuffer.loadedBlocks), candidates, vectorIndex.blocks,
        storage, Budget(vectorBuffer.maxMemoryMB), queryVector.value, similarityType, topK, threshold, evaluator, ops)
    {
      ghost var before := vectorBuffer.loadedBlocks;
      StageCandidates(candidates, storage);
      ghost var m := vectorBuffer.loadedBlocks;
      outcome := RankStaged(ops);
      if outcome.Ok? && topK >= 0 {
        assert StagedWithin(m, before, candidates, vectorIndex.blocks, storage, Budget(vectorBuffer.maxMemoryMB)) &&
          RanksBuffer(results, m, queryVector.value, similarityType, topK, threshold, evaluator, ops);
      }
    }

    /** The rest of `processCandidateBlocks`: the buffer's ranking of the
        blocks it holds, the visibility filter, and the buffer emptied. */
    method RankStaged(ops: FloatOps) returns (outcome: Result<()>)
      requires Valid() && queryVector.Some? && results == []
      modifies this, vectorBuffer
      ensures Valid()
      ensures currentResultIndex == old(currentResultIndex) && vectorIndex == old(vectorIndex)
      ensures outcome.Ok? ==> |results| <= topK || results == []
      ensures outcome.Ok? ==> forall x :: x in results ==>
        AtLeast(x.similarity, threshold) && IsVisibilityAllowed(evaluator, x.key) == Ok(true)
      ensures outcome.Ok? ==> vectorBuffer.loadedBlocks == map[]
      ensures outcome.Ok? && topK < 0 ==> results == []
      ensures outcome.Ok? && topK >= 0 ==> RanksBuffer(results, old(vectorBuffer.loadedBlocks), queryVector.value,
        similarityType, topK, threshold, evaluator, ops)
    {
      ghost var m := vectorBuffer.loadedBlocks;
      var scored :- vectorBuffer.ComputeSimilarities(queryVector.value, similarityType, topK, threshold, ops);
      ghost var order := RankingOrder(m, scored, queryVector.value, ops);
      outcome := AppendVisible(scored);
      if outcome.Err? {
        return;
      }
      if topK >= 0 {
        assert Enumerates(order, m) &&
          results == VisibleResults(Rank(Gathered(order, m, queryVector.value, similarityType, threshold, ops), topK), evaluator).0;
      }
      vectorBuffer.Clear();
    }

    /** The iteration order behind the buffer's ranking. */
    lemma RankingOrder(m: map<Int64, VectorBlock>, scored: seq<SimilarityResult>, query: Vector, ops: FloatOps)
      returns (order: seq<Int64>)
      requires m == map[] ==> scored == []
      requires m != map[] && topK >= 0 ==>
        exists order :: (Enumerates(order, m) && scored == Rank(Gathered(order, m, query, similarityType, threshold, ops), topK))
      ensures topK >= 0 ==>
        Enumerates(order, m) && scored == Rank(Gathered(order, m, query, similarityType, threshold, ops), topK)
    {
      order := [];
      if m != map[] && topK >= 0 {
        order :| Enumerates(order, m) && scored == Rank(Gathered(order, m, query, similarityType, threshold, ops), topK);
      } else if topK >= 0 {
        assert Enumerates(order, m);
        assert Gathered(order, m, query, similarityType, threshold, ops) == [];
      }
    }

    /** `performVectorSearch`: the candidate blocks when there are some,
        the scan otherwise. */
    method PerformVectorSearch(records: seq<Record>, storage: Storage, ops: FloatOps) returns (outcome: Result<()>)
      requires Valid() && queryVector.Some? && results == []
      modifies this, vectorBuffer
      ensures Valid()
      ensures vectorIndex == old(vectorIndex) && currentResultIndex == old(currentResultIndex)
      ensures outcome.Ok? ==> forall x :: x in results ==>
        AtLeast(x.similarity, threshold) && IsVisibilityAllowed(evaluator, x.key) == Ok(true)
      ensures outcome.Ok? && Candidates(storage, ops) == Ok([]) ==>
        results == ScanResults(records, queryVector.value, similarityType, threshold, evaluator, ops).0
      ensures outcome.Ok? && topK >= 0 && Candidates(storage, ops).Ok? && Candidates(storage, ops).value != [] ==>
        RanksStaged(results, old(vectorBuffer.loadedBlocks), Candidates(storage, ops).value, vectorIndex.blocks,
          storage, Budget(vectorBuffer.maxMemoryMB), queryVector.value, similarityType, topK, threshold, evaluator, ops)
    {
      var candidates :- GetCandidateBlockIndices(storage, ops);
      if candidates == [] {
        outcome := ScanAllData(records, ops);
        ScanMeetsThreshold(records, ops);
      } else {
        assert forall c :: c in candidates ==> c >= 0;
        outcome := ProcessCandidateBlocks(candidates, storage, ops);
      }
    }

    /** `seek`: without a query vector it fails before anything changes;
        otherwise it clears the results, gathers them, sorts them by
        descending similarity and keeps the first topK (a negative topK
        makes `subList` throw). */
    method Seek(records: seq<Record>, storage: Storage, ops: FloatOps) returns (outcome: Result<()>)
      requires Valid()
      modifies this, vectorBuffer
      ensures Valid()
      ensures vectorIndex == old(vectorIndex)
      ensures queryVector.None? ==>
        (outcome == Err(IllegalState) && results == old(results) && currentResultIndex == old(currentResultIndex))
      ensures queryVector.Some? && topK < 0 ==> outcome.Err?
      ensures outcome.Ok? ==> currentResultIndex == 0 && |results| <= topK && NonIncreasing(results)
      ensures outcome.Ok? ==> forall x :: x in results ==>
        AtLeast(x.similarity, threshold) && IsVisibilityAllowed(evaluator, x.key) == Ok(true)
      ensures outcome.Ok? && Candidates(storage, ops) == Ok([]) ==>
        results == Rank(ScanResults(records, queryVector.value, similarityType, threshold, evaluator, ops).0, topK)
      ensures outcome.Ok? && Candidates(storage, ops).Ok? && Candidates(storage, ops).value != [] ==>
        exists gathered :: results == Rank(gathered, topK) &&
          RanksStaged(gathered, old(vectorBuffer.loadedBlocks), Candidates(storage, ops).value, vectorIndex.blocks,
            storage, Budget(vectorBuffer.maxMemoryMB), queryVector.value, similarityType, topK, threshold, evaluator, ops)
    {
      if queryVector.None? {
        return Err(IllegalState);
      }
      results := [];
      currentResultIndex := 0;
      outcome := PerformVectorSearch(records, storage, ops);
      if outcome.Err? {
        return;
      }
      ghost var gathered := results;
      outcome := Truncate(results);
    }

    /** The sort and the truncation at the end of `seek`. */
    method Truncate(gathered: seq<SimilarityResult>) returns (outcome: Result<()>)
      requires Valid()
      requires results == gathered
      requires forall x :: x in gathered ==> AtLeast(x.similarity, threshold) && IsVisibilityAllowed(evaluator, x.key) == Ok(true)
      modifies this
      ensures Valid()
      ensures vectorIndex == old(vectorIndex) && currentResultIndex == old(currentResultIndex)
      ensures topK < 0 <==> outcome.Err?
      ensures outcome.Ok? ==> results == Rank(gathered, topK)
      ensures outcome.Ok? ==> |results| <= topK && NonIncreasing(results)
      ensures outcome.Ok? ==> forall x :: x in results ==>
        AtLeast(x.similarity, threshold) && IsVisibilityAllowed(evaluator, x.key) == Ok(true)
    {
      results := SortBy(results, Descending);
      if |results| > topK {
        if topK < 0 {
          return Err(IllegalArgument);
        }
        results := results[..topK];
      }
      outcome := Ok(());
      RankedAreVisibleAboveThreshold(gathered, topK, threshold, evaluator);
    }

    lemma ScanMeetsThreshold(records: seq<Record>, ops: FloatOps)
      requires queryVector.Some?
      ensures forall x :: x in ScanResults(records, queryVector.value, similarityType, threshold, evaluator, ops).0 ==>
        AtLeast(x.similarity, threshold) && IsVisibilityAllowed(evaluator, x.key) == Ok(true)
    {
    }
  }
}
