/** What dynamic batching (nemo_rl/distributed/batched_data_dict.py) guarantees: microbatches within the budget that
    lose no token, as few of them as any partition needs, balanced shards, and when results can be put back. */
module DynamicGuarantees {
  import opened BatchedDataDict
  import opened Dealing
  import opened DynamicBatching
  import opened DynamicMicrobatches
  import opened Microbatching
  import opened Sequences
  import opened Sharding

  /** When the sizes of uneven shards do not fit, the last shard lacks a row, so that the loop over positions reads
      beyond its lengths. */
  lemma UnevenLacksRow<T>(xs: seq<T>, shards: nat, batchSize: Option<nat>, uneven: bool)
    requires DynamicSizes(|xs|, shards, batchSize, uneven).Unfit?
    ensures var z := SizesFor(|xs|, shards, batchSize, uneven);
            z.Sizes? ==> uneven && |ShardRows(xs, z.chunks, z.n, z.m, shards - 1)| < z.m
  {
    var z := SizesFor(|xs|, shards, batchSize, uneven);
    if z.Sizes? {
      SizesFit(|xs|, shards, batchSize, uneven);
      assert ShardRows(xs, 0, z.n, z.m, shards - 1) == [] && At(0, z.n) == 0;
      Place(shards - 1, shards, z.m);
    }
  }

  // ------------------------------------------------------------ which row is where

  lemma OrderAt(lens: seq<nat>, shards: nat, z: Sizes, s: nat, c: nat, i: nat)
    requires Even(|lens|, shards, z) && s < shards && c < z.chunks && i < z.m
    ensures At(i, shards) + s < z.n && At(c, z.n) + z.n <= |lens| && At(s, z.m) + i < z.n
    ensures |BatchOrder(lens, z.chunks, z.n, shards)| == |lens| && |SortedChunk(lens, At(c, z.n), z.n)| == z.n
    ensures BatchOrder(lens, z.chunks, z.n, shards)[At(c, z.n) + At(s, z.m) + i]
         == SortedChunk(lens, At(c, z.n), z.n)[At(i, shards) + s]
  {
    hide At, SortedChunk, BatchOrder, ChunkOrder;
    Place(c, z.chunks, z.n);
    ChunkOrderAt(lens, c, z.n, shards, z.m, s, i);
    BatchOrderAt(lens, z.chunks, z.n, shards, c, At(s, z.m) + i);
    assert At(c, z.n) + At(s, z.m) + i == At(c, z.n) + (At(s, z.m) + i);
  }

  /** Position `i` of shard `s` in chunk `c` holds the row of the chunk whose rank by length is i * shards + s. */
  lemma PartRowAt<X, V>(rows: seq<Row<X, V>>, shards: nat, z: Sizes, parts: seq<seq<Row<X, V>>>, order: seq<int>,
                        s: nat, c: nat, i: nat)
    requires Even(|rows|, shards, z) && InOrder(rows, shards, z, parts, order)
    requires s < shards && c < z.chunks && i < z.m
    ensures At(c, z.m) + i < |parts[s]| && At(i, shards) + s < z.n && At(c, z.n) + z.n <= |rows|
    ensures var sorted := SortedChunk(Map(LengthOf, rows), At(c, z.n), z.n);
            && |sorted| == z.n && 0 <= sorted[At(i, shards) + s] < |rows|
            && parts[s][At(c, z.m) + i] == rows[sorted[At(i, shards) + s]]
  {
    hide At, IsPermutation, SortedChunk, BatchOrder, AllShards, ShardRows;
    PermutationInRange(order, |rows|);
    Place(s, shards, z.m);
    OrderAt(Map(LengthOf, rows), shards, z, s, c, i);
    ShardRowAt(Select(rows, order), z.chunks, z.n, z.m, s, c, i);
  }

  lemma SortedChunkSorted(lens: seq<nat>, start: nat, n: nat, a: nat, b: nat)
    requires start + n <= |lens| && a <= b < n
    ensures var sorted := SortedChunk(lens, start, n);
            |sorted| == n && start <= sorted[a] < start + n && start <= sorted[b] < start + n
            && lens[sorted[a]] <= lens[sorted[b]]
  {
    hide *;
    var keys := Part(lens, start, start + n);
    PartWhole(lens, start, n);
    Ranked(keys, a, b);
    SortedChunkIs(lens, start, n);
    RankedInPlace(lens, keys, SortedByKey(keys), start, a, b);
  }

  lemma PartWhole<T>(xs: seq<T>, start: nat, n: nat)
    requires start + n <= |xs|
    ensures var r := Part(xs, start, start + n); |r| == n && forall i :: 0 <= i < n ==> r[i] == xs[start + i]
  {
  }

  lemma SortedChunkIs(lens: seq<nat>, start: nat, n: nat)
    ensures SortedChunk(lens, start, n) == Shift(SortedByKey(Part(lens, start, start + n)), start)
  {
  }

  lemma RankedInPlace(lens: seq<nat>, keys: seq<nat>, p: seq<int>, start: nat, a: nat, b: nat)
    requires a <= b < |p| == |keys| && start + |keys| <= |lens|
    requires forall i :: 0 <= i < |keys| ==> keys[i] == lens[start + i]
    requires 0 <= p[a] < |p| && 0 <= p[b] < |p| && keys[p[a]] <= keys[p[b]]
    ensures start <= Shift(p, start)[a] < start + |p| && start <= Shift(p, start)[b] < start + |p|
    ensures lens[Shift(p, start)[a]] <= lens[Shift(p, start)[b]]
  {
    assert Shift(p, start)[a] == p[a] + start && Shift(p, start)[b] == p[b] + start;
  }

  lemma Ranked(keys: seq<nat>, a: nat, b: nat)
    requires a <= b < |keys|
    ensures var p := SortedByKey(keys);
            |p| == |keys| && 0 <= p[a] < |keys| && 0 <= p[b] < |keys| && keys[p[a]] <= keys[p[b]]
  {
  }

  /** A row of higher rank is no shorter. */
  lemma LongerLater<X, V>(rows: seq<Row<X, V>>, shards: nat, z: Sizes, parts: seq<seq<Row<X, V>>>, order: seq<int>,
                          c: nat, s: nat, i: nat, s': nat, i': nat)
    requires Even(|rows|, shards, z) && InOrder(rows, shards, z, parts, order)
    requires s < shards && s' < shards && c < z.chunks && i < z.m && i' < z.m
    requires At(i, shards) + s <= At(i', shards) + s'
    ensures At(c, z.m) + i < |parts[s]| && At(c, z.m) + i' < |parts[s']|
    ensures parts[s][At(c, z.m) + i].length <= parts[s'][At(c, z.m) + i'].length
  {
    hide At, InOrder, SortedChunk;
    PartRowAt(rows, shards, z, parts, order, s, c, i);
    PartRowAt(rows, shards, z, parts, order, s', c, i');
    SortedChunkSorted(Map(LengthOf, rows), At(c, z.n), z.n, At(i, shards) + s, At(i', shards) + s');
  }

  // ------------------------------------------------------------ the fewest microbatches

  lemma LongestGrows(shardLens: seq<seq<nat>>, p: nat, p': nat)
    requires forall s :: 0 <= s < |shardLens| ==> p < |shardLens[s]| && p' < |shardLens[s]|
    requires forall s :: 0 <= s < |shardLens| ==> shardLens[s][p] <= shardLens[s][p']
    ensures LongestAt(shardLens, p) <= LongestAt(shardLens, p')
  {
  }

  lemma PartsLongEnough<X, V>(parts: seq<seq<Row<X, V>>>, shards: nat, z: Sizes, c: nat)
    requires z.Sizes? && Rectangular(parts, shards, At(z.chunks, z.m)) && c < z.chunks
    ensures forall s :: 0 <= s < |parts| ==> At(c, z.m) + z.m <= |parts[s]|
  {
    Place(c, z.chunks, z.m);
  }

  /** The padded positions of a chunk never get shorter. */
  lemma PositionsSorted<X, V>(rows: seq<Row<X, V>>, shards: nat, z: Sizes, round: nat, width: nat,
                              parts: seq<seq<Row<X, V>>>, order: seq<int>, c: nat)
    requires Even(|rows|, shards, z) && InOrder(rows, shards, z, parts, order) && c < z.chunks && round > 0
    ensures forall s :: 0 <= s < |parts| ==> At(c, z.m) + z.m <= |parts[s]|
    ensures var lens := ChunkLens(parts, c, z.m, round, width);
            forall i, i' :: 0 <= i <= i' < z.m ==> lens[i] <= lens[i']
  {
    PartsLongEnough(parts, shards, z, c);
    hide At, InOrder;
    var lens := ChunkLens(parts, c, z.m, round, width);
    forall i, i' | 0 <= i <= i' < z.m ensures lens[i] <= lens[i'] {
      PositionGrows(rows, shards, z, round, width, parts, order, c, i, i');
    }
  }

  lemma PositionGrows<X, V>(rows: seq<Row<X, V>>, shards: nat, z: Sizes, round: nat, width: nat,
                            parts: seq<seq<Row<X, V>>>, order: seq<int>, c: nat, i: nat, i': nat)
    requires z.Sizes? && Even(|rows|, shards, z) && InOrder(rows, shards, z, parts, order) && c < z.chunks && round > 0
    requires i <= i' < z.m && |parts| == shards
    requires forall s :: 0 <= s < |parts| ==> At(c, z.m) + z.m <= |parts[s]|
    ensures ChunkLens(parts, c, z.m, round, width)[i] <= ChunkLens(parts, c, z.m, round, width)[i']
  {
    hide *;
    RowsGrow(rows, shards, z, parts, order, c, i, i');
    var (shardLens, p, p') := (MapEach(LengthOf, parts), At(c, z.m) + i, At(c, z.m) + i');
    LongestGrows(shardLens, p, p');
    PaddedGrows(LongestAt(shardLens, p), LongestAt(shardLens, p'), round, width);
    ChunkLensAt(parts, c, z.m, round, width, i);
    ChunkLensAt(parts, c, z.m, round, width, i');
  }

  lemma ChunkLensAt<X, V>(parts: seq<seq<Row<X, V>>>, c: nat, m: nat, round: nat, width: nat, i: nat)
    requires round > 0 && i < m && forall s :: 0 <= s < |parts| ==> At(c, m) + m <= |parts[s]|
    ensures ChunkLens(parts, c, m, round, width)[i]
         == PaddedLength(LongestAt(MapEach(LengthOf, parts), At(c, m) + i), round, width)
  {
    hide At, LongestAt, PaddedLength;
  }

  lemma RowsGrow<X, V>(rows: seq<Row<X, V>>, shards: nat, z: Sizes, parts: seq<seq<Row<X, V>>>, order: seq<int>,
                       c: nat, i: nat, i': nat)
    requires Even(|rows|, shards, z) && InOrder(rows, shards, z, parts, order) && c < z.chunks
    requires i <= i' < z.m && |parts| == shards
    requires forall s :: 0 <= s < |parts| ==> At(c, z.m) + z.m <= |parts[s]|
    ensures forall s :: 0 <= s < shards ==>
      MapEach(LengthOf, parts)[s][At(c, z.m) + i] <= MapEach(LengthOf, parts)[s][At(c, z.m) + i']
  {
    Times(i, i', shards);
    assert At(i, shards) <= At(i', shards);
    hide At, InOrder;
    forall s | 0 <= s < shards
      ensures parts[s][At(c, z.m) + i].length <= parts[s][At(c, z.m) + i'].length
    {
      LongerLater(rows, shards, z, parts, order, c, s, i, s, i');
    }
  }

  /** A chunk's positions put into bins by `bin`. */
  function Binned(lens: seq<nat>, bin: seq<nat>): (r: seq<Item>)
    requires |bin| == |lens|
    ensures |r| == |lens| && forall i :: 0 <= i < |lens| ==> r[i] == Item(lens[i], bin[i])
  {
    seq(|lens|, i requires 0 <= i < |lens| => Item(lens[i], bin[i]))
  }

  /** No way of putting a chunk's positions into bins that fit the budget has fewer bins than there are
      microbatches. */
  lemma FewestMicrobatches<X, V>(rows: seq<Row<X, V>>, shards: nat, z: Sizes, round: nat, width: nat, budget: nat,
                                 r: Outcome<X, V>, c: nat, bin: seq<nat>, bins: set<nat>)
    requires round > 0 && Even(|rows|, shards, z) && Succeeds(rows, shards, z, round, width, budget, r)
    requires c < z.chunks && |bin| == z.m && forall i :: 0 <= i < |bin| ==> bin[i] in bins
    requires forall s :: 0 <= s < |r.parts| ==> At(c, z.m) + z.m <= |r.parts[s]|
    requires BinsFit(Binned(ChunkLens(r.parts, c, z.m, round, width), bin), budget)
    ensures |r.micros[c].indices| <= |bins|
  {
    var lens := ChunkLens(r.parts, c, z.m, round, width);
    PositionsSorted(rows, shards, z, round, width, r.parts, r.order, c);
    hide InOrder, BinsFit, ChunkLens, At;
    var items := Binned(lens, bin);
    assert Lens(items) == lens;
    assert ChunkCut(r.parts, c, z.m, round, width, r.micros[c], budget);
    FewestOfAnyPartition(r.micros[c].indices, items, bins, budget);
  }

  // ------------------------------------------------------------ no token lost, no budget exceeded

  function ShardOf<X, V>(r: Outcome<X, V>, s: nat): Shard<Row<X, V>>
    requires r.Sharded? && s < |r.parts|
  {
    Shard(r.parts[s], Some(r.micros), None)
  }

  /** Every row is padded to the width and its real tokens are a prefix. */
  predicate Padded<X, V>(rows: seq<Row<X, V>>, width: nat) {
    forall i :: 0 <= i < |rows| ==> rows[i].length <= width == |rows[i].tokens|
  }

  function RealTokens<X, V>(row: Row<X, V>): seq<X>
    requires row.length <= |row.tokens|
  {
    row.tokens[..row.length]
  }

  /** The microbatches of one chunk cover its rows in order, fit the budget, and are cut to a length that no row on
      this shard exceeds. */
  ghost predicate CutSafely<X, V>(rows: seq<Row<X, V>>, micro: Micro, width: nat, budget: nat) {
    && Tiles(micro.indices, |rows|) && |micro.lengths| == |micro.indices|
    && forall k :: 0 <= k < |micro.indices| ==>
         && micro.indices[k].start < micro.indices[k].end && micro.lengths[k] <= width
         && Tokens(micro.indices[k].end - micro.indices[k].start, micro.lengths[k]) <= budget
         && forall i :: micro.indices[k].start <= i < micro.indices[k].end ==> rows[i].length <= micro.lengths[k]
  }

  /** What a worker gets from `get_batch` for chunk `c`, and that its microbatches are safe. */
  lemma DynamicBatchesKeepTokens<X, V>(rows: seq<Row<X, V>>, shards: nat, z: Sizes, round: nat, width: nat,
                                       budget: nat, r: Outcome<X, V>, s: nat, c: nat)
    requires round > 0 && Even(|rows|, shards, z) && Succeeds(rows, shards, z, round, width, budget, r)
    requires Padded(rows, width) && s < shards && c < z.chunks
    ensures |r.parts| == shards && At(c, z.m) + z.m <= |r.parts[s]|
    ensures var chunk := Block(r.parts[s], c, z.m);
            && BatchAt(ShardOf(r, s), c, z.m) == Some(Shard(chunk, Some([r.micros[c]]), None))
            && Iterable(Shard(chunk, Some([r.micros[c]]), None))
            && Padded(chunk, width) && CutSafely(chunk, r.micros[c], width, budget)
  {
    TheChunkCut(rows, shards, z, round, width, budget, r, c);
    Place(c, z.chunks, z.m);
    forall s' | 0 <= s' < shards ensures Padded(Block(r.parts[s'], c, z.m), width) {
      PartsPadded(rows, shards, z, r.parts, r.order, width, s', c);
    }
    TheBatch(r.parts[s], r.micros, c, z.m);
    hide *;
    PositionsCover(r.parts, s, c, z.m, round, width);
    CutCovers(Block(r.parts[s], c, z.m), ChunkLens(r.parts, c, z.m, round, width), r.micros[c], width, budget);
    CutIsIterable(Block(r.parts[s], c, z.m), r.micros[c], width, budget);
  }

  lemma TheBatch<X, V>(part: seq<Row<X, V>>, micros: seq<Micro>, c: nat, m: nat)
    requires c < |micros| && At(c, m) + m <= |part|
    ensures BatchAt(Shard(part, Some(micros), None), c, m)
         == Some(Shard(Block(part, c, m), Some([micros[c]]), None))
  {
    Place(c, c + 1, m);
    hide At;
  }

  lemma CutIsIterable<X, V>(chunk: seq<Row<X, V>>, micro: Micro, width: nat, budget: nat)
    requires CutSafely(chunk, micro, width, budget)
    ensures Iterable(Shard(chunk, Some([micro]), None))
  {
  }

  lemma TheChunkCut<X, V>(rows: seq<Row<X, V>>, shards: nat, z: Sizes, round: nat, width: nat, budget: nat,
                          r: Outcome<X, V>, c: nat)
    requires round > 0 && Succeeds(rows, shards, z, round, width, budget, r) && c < z.chunks
    ensures forall s :: 0 <= s < |r.parts| ==> At(c, z.m) + z.m <= |r.parts[s]|
    ensures ChunkCut(r.parts, c, z.m, round, width, r.micros[c], budget)
  {
    PartsLongEnough(r.parts, shards, z, c);
    hide At, ChunkCut, IsPermutation, AllShards;
  }

  lemma PartsPadded<X, V>(rows: seq<Row<X, V>>, shards: nat, z: Sizes, parts: seq<seq<Row<X, V>>>, order: seq<int>,
                          width: nat, s: nat, c: nat)
    requires Even(|rows|, shards, z) && InOrder(rows, shards, z, parts, order) && Padded(rows, width)
    requires s < shards == |parts| && c < z.chunks && At(c, z.m) + z.m <= |parts[s]|
    ensures Padded(Block(parts[s], c, z.m), width)
  {
    hide At, SortedChunk, InOrder;
    forall i | 0 <= i < z.m
      ensures Block(parts[s], c, z.m)[i].length <= width == |Block(parts[s], c, z.m)[i].tokens|
    {
      PartRowAt(rows, shards, z, parts, order, s, c, i);
    }
  }

  lemma PositionsCover<X, V>(parts: seq<seq<Row<X, V>>>, s: nat, c: nat, m: nat, round: nat, width: nat)
    requires round > 0 && s < |parts|
    requires forall s' :: 0 <= s' < |parts| ==> At(c, m) + m <= |parts[s']|
    requires forall s' :: 0 <= s' < |parts| ==> Padded(Block(parts[s'], c, m), width)
    ensures var (chunk, lens) := (Block(parts[s], c, m), ChunkLens(parts, c, m, round, width));
            |lens| == m && forall i :: 0 <= i < m ==> chunk[i].length <= lens[i] <= width
  {
    hide At, PaddedLength;
    var lens := ChunkLens(parts, c, m, round, width);
    forall i | 0 <= i < m ensures Block(parts[s], c, m)[i].length <= lens[i] <= width {
      PositionCovers(parts, s, c, m, round, width, i);
    }
  }

  lemma PositionCovers<X, V>(parts: seq<seq<Row<X, V>>>, s: nat, c: nat, m: nat, round: nat, width: nat, i: nat)
    requires round > 0 && s < |parts| && i < m
    requires forall s' :: 0 <= s' < |parts| ==> At(c, m) + m <= |parts[s']|
    requires forall s' :: 0 <= s' < |parts| ==> Padded(Block(parts[s'], c, m), width)
    ensures parts[s][At(c, m) + i].length <= ChunkLens(parts, c, m, round, width)[i] <= width
  {
    hide At, PaddedLength;
    var p := At(c, m) + i;
    var longest := LongestAt(MapEach(LengthOf, parts), p);
    forall s' | 0 <= s' < |parts|
      ensures MapEach(LengthOf, parts)[s'][p] == parts[s'][p].length <= width
    {
      assert Block(parts[s'], c, m)[i] == parts[s'][p];
    }
    PaddedCovers(longest, round, width);
  }

  lemma CutCovers<X, V>(chunk: seq<Row<X, V>>, lens: seq<nat>, micro: Micro, width: nat, budget: nat)
    requires |lens| == |chunk| > 0 && CutSoFar(micro.indices, micro.lengths, lens, |lens|, budget)
    requires forall i :: 0 <= i < |chunk| ==> chunk[i].length <= lens[i] <= width
    ensures CutSafely(chunk, micro, width, budget)
  {
    forall k | 0 <= k < |micro.indices|
      ensures micro.indices[k].start < micro.indices[k].end && micro.lengths[k] <= width
      ensures Tokens(micro.indices[k].end - micro.indices[k].start, micro.lengths[k]) <= budget
    {
      LongestFits(micro.lengths[k], lens, micro.indices[k].start, micro.indices[k].end, budget);
    }
  }

  /** Cutting a row to its microbatch's length keeps its real tokens. */
  lemma TruncationKeepsTokens<X, V>(row: Row<X, V>, length: nat)
    requires row.length <= length <= |row.tokens|
    ensures |Truncate(row, length).tokens| == length
    ensures RealTokens(Truncate(row, length)) == RealTokens(row) && Truncate(row, length).rest == row.rest
  {
  }

  // ------------------------------------------------------------ putting results back

  lemma {:induction false} OneShardGathers<T>(xs: seq<T>, chunks: nat, n: nat, total: nat)
    requires total == At(chunks, n) <= |xs|
    ensures ShardRows(xs, chunks, n, n, 0) == xs[..total]
    decreases chunks
  {
    hide At;
    Place(0, 1, n);
    if chunks == 0 {
    } else {
      Place(chunks - 1, chunks, n);
      OneShardGathers(xs, chunks - 1, n, At(chunks - 1, n));
    }
  }

  lemma GathersInOrder<T>(xs: seq<T>, shards: nat, z: Sizes)
    requires Even(|xs|, shards, z) && (z.chunks <= 1 || shards == 1)
    ensures Flatten(AllShards(xs, shards, z.chunks, z.n, z.m)) == xs
  {
    if z.chunks == 0 {
      FlattenEmpty(AllShards(xs, shards, z.chunks, z.n, z.m));
    } else if z.chunks == 1 {
      OneChunkGathers(xs, shards, z.n, z.m);
    } else {
      OneShardGathers(xs, z.chunks, z.n, |xs|);
      var all := AllShards(xs, 1, z.chunks, z.n, z.n);
      assert all == [all[0]];
    }
  }

  /** With one chunk or one shard, row-wise results gathered from the shards are put back in the batch's order. */
  lemma DynamicRoundTrip<X, V, B>(f: Row<X, V> -> B, rows: seq<Row<X, V>>, shards: nat, z: Sizes,
                                  parts: seq<seq<Row<X, V>>>, order: seq<int>)
    requires Even(|rows|, shards, z) && InOrder(rows, shards, z, parts, order)
    requires z.chunks <= 1 || shards == 1
    ensures Reordered(Flatten(MapEach(f, parts)), order) == Map(f, rows)
  {
    GathersInOrder(Select(rows, order), shards, z);
    MapFlatten(f, parts);
    ReorderUndoes(f, rows, order);
  }

  /** The row of chunk 1 that ends up first after shard 0's rows of chunk 0. */
  lemma FirstOfChunkOne<T>(xs: seq<T>, shards: nat, z: Sizes)
    requires Even(|xs|, shards, z) && z.chunks > 1 && shards > 1
    ensures z.m < z.n < |xs| == |Flatten(AllShards(xs, shards, z.chunks, z.n, z.m))|
    ensures Flatten(AllShards(xs, shards, z.chunks, z.n, z.m))[z.m] == xs[z.n]
  {
    var all := AllShards(xs, shards, z.chunks, z.n, z.m);
    ShardsKeepAll(xs, shards, z.chunks, z.n, z.m, |xs|);
    assert Part(xs, 0, |xs|) == xs;
    SameCount(Flatten(all), xs);
    OneBlock(z.n);
    OneBlock(z.m);
    hide At, Part;
    Place(0, shards, z.m);
    Place(1, shards, z.m);
    Place(1, z.chunks, z.n);
    Place(1, z.chunks, z.m);
    FirstShardAt(xs, shards, z);
    assert Flatten(all) == all[0] + Flatten(all[1..]);
  }

  lemma FirstShardAt<T>(xs: seq<T>, shards: nat, z: Sizes)
    requires z.Sizes? && z.chunks > 1 && |xs| >= At(z.chunks, z.n) && 0 < z.m <= z.n
    ensures |ShardRows(xs, z.chunks, z.n, z.m, 0)| > z.m && z.n < |xs|
    ensures ShardRows(xs, z.chunks, z.n, z.m, 0)[z.m] == xs[z.n]
  {
    OneBlock(z.n);
    OneBlock(z.m);
    hide At;
    ShardRowAt(xs, z.chunks, z.n, z.m, 0, 1, 0);
  }

  lemma OneBlock(n: nat)
    ensures At(1, n) == n && At(0, n) == 0
  {
  }

  /** Row numbers return to their places exactly when there is one chunk or one shard: with several of both, the
      order lists rows chunk by chunk but the shards are gathered one after the other. */
  lemma ReturnsHomeIff(order: seq<int>, shards: nat, z: Sizes)
    requires Even(|order|, shards, z) && IsPermutation(order, |order|)
    ensures Reordered(Flatten(AllShards(order, shards, z.chunks, z.n, z.m)), order) == Range(0, |order|)
       <==> z.chunks <= 1 || shards == 1
  {
    var ids := Range(0, |order|);
    if z.chunks <= 1 || shards == 1 {
      GathersInOrder(order, shards, z);
      assert Select(ids, order) == order;
      ReorderUndoes((i: int) => i, ids, order);
      assert Map((i: int) => i, ids) == ids && Map((i: int) => i, order) == order;
    } else {
      FirstOfChunkOne(order, shards, z);
      var gathered := Flatten(AllShards(order, shards, z.chunks, z.n, z.m));
      Misplaced(gathered, order, z.m, z.n);
    }
  }

  /** Two chunks of two rows on two shards: the second chunk's first row ends up before the first chunk's second. */
  lemma ReturnsHomeExample()
    ensures Reordered(Flatten(AllShards([0, 1, 2, 3], 2, 2, 2, 1)), [0, 1, 2, 3]) == [0, 2, 1, 3]
  {
    hide *;
    ExampleShards();
    ExampleFlattened();
    InOrderAlready([0, 2, 1, 3], [0, 1, 2, 3]);
  }

  lemma ExampleShards()
    ensures AllShards([0, 1, 2, 3], 2, 2, 2, 1) == [[0, 2], [1, 3]]
  {
    ExampleShard([0, 1, 2, 3], 0);
    ExampleShard([0, 1, 2, 3], 1);
  }

  lemma ExampleShard(xs: seq<int>, s: nat)
    requires |xs| == 4 && s < 2
    ensures ShardRows(xs, 2, 2, 1, s) == [xs[s], xs[s + 2]]
  {
    assert ShardRows(xs, 0, 2, 1, s) == [];
    assert ShardRows(xs, 1, 2, 1, s) == [xs[s]];
  }

  lemma ExampleFlattened()
    ensures Flatten([[0, 2], [1, 3]]) == [0, 2, 1, 3]
  {
    assert Flatten([[1, 3]]) == [1, 3];
  }

  /** Putting in order what is numbered in order changes nothing. */
  lemma InOrderAlready<T>(xs: seq<T>, order: seq<int>)
    requires |order| == |xs| && forall i :: 0 <= i < |order| ==> order[i] == i
    ensures Reordered(xs, order) == xs
  {
    assert order[..|order|] == order;
    forall i | 0 <= i < |xs| ensures Reordered(xs, order)[i] == xs[i] { SortingInverts(order, i); }
  }

  lemma Misplaced(gathered: seq<int>, order: seq<int>, m: nat, n: nat)
    requires IsPermutation(order, |order|) && |gathered| == |order| && m < n < |order| && gathered[m] == order[n]
    ensures Reordered(gathered, order) != Range(0, |order|)
  {
    assert order[..|order|] == order;
    SortingFinds(order, m);
    assert Reordered(gathered, order)[order[m]] == order[n] != order[m] == Range(0, |order|)[order[m]];
  }
}
