/** Sharding with dynamic batching (nemo_rl/distributed/batched_data_dict.py): rows are sorted by length within each
    chunk, dealt to the shards round-robin, and every shard's chunk is cut into the same microbatches. */
module DynamicBatching {
  import opened Dealing
  import opened Sequences
  import opened Sharding

  // ------------------------------------------------------------ the order of the rows

  /** The indices of the chunk of `n` rows at `start`, sorted by length. */
  function SortedChunk(lens: seq<nat>, start: nat, n: nat): seq<int> {
    Shift(SortedByKey(Part(lens, start, start + n)), start)
  }

  function ChunkOrder(lens: seq<nat>, c: nat, n: nat, shards: nat): seq<int>
    requires shards > 0
  {
    Flatten(DealAll(SortedChunk(lens, At(c, n), n), shards))
  }

  function BatchOrder(lens: seq<nat>, chunks: nat, n: nat, shards: nat): seq<int>
    requires shards > 0
  {
    if chunks == 0 then [] else BatchOrder(lens, chunks - 1, n, shards) + ChunkOrder(lens, chunks - 1, n, shards)
  }

  lemma SortedChunkKeepsAll(lens: seq<nat>, start: nat, n: nat)
    requires start + n <= |lens|
    ensures multiset(SortedChunk(lens, start, n)) == multiset(Range(start, start + n))
    ensures |SortedChunk(lens, start, n)| == n
  {
    hide IsPermutation, SortedPositions, SortedByKey, Shift;
    var keys := Part(lens, start, start + n);
    SortKeepsAll(keys);
    ShiftedChunk(SortedByKey(keys), start, n);
  }

  lemma SortKeepsAll(keys: seq<int>)
    ensures multiset(SortedByKey(keys)) == multiset(Range(0, |keys|)) && |SortedByKey(keys)| == |keys|
  {
  }

  lemma {:induction false} BatchOrderKeepsAll(lens: seq<nat>, chunks: nat, n: nat, shards: nat, total: nat)
    requires shards > 0 && total == At(chunks, n) && total <= |lens|
    ensures multiset(BatchOrder(lens, chunks, n, shards)) == multiset(Range(0, total))
    ensures |BatchOrder(lens, chunks, n, shards)| == total
    decreases chunks
  {
    hide At, ChunkOrder;
    Place(0, 1, n);
    if chunks == 0 {
      assert Range(0, total) == [];
    } else {
      Place(chunks - 1, chunks, n);
      var before := At(chunks - 1, n);
      BatchOrderKeepsAll(lens, chunks - 1, n, shards, before);
      ChunkOrderKeepsAll(lens, chunks - 1, n, shards, before);
      RangeSplit(0, before, total);
    }
  }

  lemma ChunkOrderKeepsAll(lens: seq<nat>, c: nat, n: nat, shards: nat, start: nat)
    requires shards > 0 && start == At(c, n) && start + n <= |lens|
    ensures multiset(ChunkOrder(lens, c, n, shards)) == multiset(Range(start, start + n))
    ensures |ChunkOrder(lens, c, n, shards)| == n
  {
    hide At, SortedChunk;
    SortedChunkKeepsAll(lens, start, n);
    DealItemsKeepsAll(SortedChunk(lens, At(c, n), n), shards);
    SameCount(ChunkOrder(lens, c, n, shards), Range(start, start + n));
  }

  lemma SameCount<T>(xs: seq<T>, ys: seq<T>)
    requires multiset(xs) == multiset(ys)
    ensures |xs| == |ys|
  {
    assert |multiset(xs)| == |xs| && |multiset(ys)| == |ys|;
  }

  /** The order is a rearrangement of the batch. */
  lemma BatchOrderPermutes(lens: seq<nat>, chunks: nat, n: nat, shards: nat)
    requires shards > 0 && |lens| == At(chunks, n)
    ensures IsPermutation(BatchOrder(lens, chunks, n, shards), |lens|)
  {
    BatchOrderKeepsAll(lens, chunks, n, shards, |lens|);
    PermutationFromMultiset(BatchOrder(lens, chunks, n, shards), |lens|);
  }

  /** Position `i` of shard `s` in a chunk's order is the sorted index i * shards + s. */
  lemma ChunkOrderAt(lens: seq<nat>, c: nat, n: nat, shards: nat, m: nat, s: nat, i: nat)
    requires n == At(m, shards) == At(shards, m) && s < shards && i < m && At(c, n) + n <= |lens|
    ensures |ChunkOrder(lens, c, n, shards)| == n == |SortedChunk(lens, At(c, n), n)|
    ensures At(s, m) + i < n && At(i, shards) + s < n
    ensures ChunkOrder(lens, c, n, shards)[At(s, m) + i] == SortedChunk(lens, At(c, n), n)[At(i, shards) + s]
  {
    hide At, SortedChunk;
    var xs := SortedChunk(lens, At(c, n), n);
    SortedChunkKeepsAll(lens, At(c, n), n);
    forall s' | 0 <= s' < shards ensures |DealAll(xs, shards)[s']| == m { DealFull(xs, s', shards, m); }
    FlattenEqual(DealAll(xs, shards), m, s, i);
    DealFull(xs, s, shards, m);
    assert DealAll(xs, shards)[s][i] == Deal(xs, s, shards)[i] == xs[At(i, shards) + s];
  }

  lemma {:induction false} BatchOrderAt(lens: seq<nat>, chunks: nat, n: nat, shards: nat, c: nat, j: nat)
    requires shards > 0 && c < chunks && j < n && At(chunks, n) <= |lens|
    ensures |BatchOrder(lens, chunks, n, shards)| == At(chunks, n) && At(c, n) + j < At(chunks, n)
    ensures j < |ChunkOrder(lens, c, n, shards)|
    ensures BatchOrder(lens, chunks, n, shards)[At(c, n) + j] == ChunkOrder(lens, c, n, shards)[j]
    decreases chunks
  {
    hide At, ChunkOrder;
    Place(c, chunks, n);
    Place(chunks - 1, chunks, n);
    BatchOrderKeepsAll(lens, chunks, n, shards, At(chunks, n));
    BatchOrderKeepsAll(lens, chunks - 1, n, shards, At(chunks - 1, n));
    ChunkOrderKeepsAll(lens, c, n, shards, At(c, n));
    if c >= chunks - 1 {
    } else {
      BatchOrderAt(lens, chunks - 1, n, shards, c, j);
    }
  }
}
