/** The microbatches of dynamic batching (nemo_rl/distributed/batched_data_dict.py): every position of a shard's chunk
    is padded to the longest row any shard has there, and the padded positions are cut by the greedy loop. */
module DynamicMicrobatches {
  import opened BatchedDataDict
  import opened Dealing
  import opened DynamicBatching
  import opened Microbatching
  import opened Sequences
  import opened Sharding

  /** The longest row at position `p` of any shard. */
  function LongestAt(shardLens: seq<seq<nat>>, p: nat): (r: nat)
    requires forall s :: 0 <= s < |shardLens| ==> p < |shardLens[s]|
    ensures forall s :: 0 <= s < |shardLens| ==> shardLens[s][p] <= r
    ensures r == 0 || exists s :: 0 <= s < |shardLens| && shardLens[s][p] == r
  {
    if shardLens == [] then 0
    else
      var last := |shardLens| - 1;
      Max(LongestAt(shardLens[..last], p), shardLens[last][p])
  }

  /** Rounded up to a multiple of `round`, but no wider than the batch. */
  function PaddedLength(longest: nat, round: nat, width: nat): nat
    requires round > 0
  {
    Min(RoundUp(longest, round), width)
  }

  /** What a position is padded to: a multiple of `round` that is less than `round` above the longest row, or the width
      of the batch if no such multiple lies below it. */
  ghost predicate PadsTo(longest: nat, length: nat, round: nat, width: nat)
    requires round > 0
  {
    if length < width then length % round == 0 && longest <= length < longest + round
    else length == width && forall k: nat :: longest <= At(k, round) ==> width <= At(k, round)
  }

  lemma PaddedIs(longest: nat, round: nat, width: nat)
    requires round > 0
    ensures PadsTo(longest, PaddedLength(longest, round, width), round, width)
  {
    hide At, RoundUp;
    RoundUpIs(longest, round);
  }

  function PositionLens(shardLens: seq<seq<nat>>, start: nat, m: nat, round: nat, width: nat): (r: seq<nat>)
    requires round > 0 && forall s :: 0 <= s < |shardLens| ==> start + m <= |shardLens[s]|
    ensures |r| == m
    ensures forall i :: 0 <= i < m ==> r[i] == PaddedLength(LongestAt(shardLens, start + i), round, width)
  {
    seq<nat>(m, i requires 0 <= i < m => PaddedLength(LongestAt(shardLens, start + i), round, width))
  }

  /** The loop over the shards. */
  method Longest(shardLens: seq<seq<nat>>, p: nat) returns (longest: nat)
    requires forall s :: 0 <= s < |shardLens| ==> p < |shardLens[s]|
    ensures longest == LongestAt(shardLens, p)
  {
    longest := 0;
    for s := 0 to |shardLens|
      invariant longest == LongestAt(shardLens[..s], p)
    {
      assert shardLens[..s + 1][..s] == shardLens[..s];
      longest := Max(longest, shardLens[s][p]);
    }
    assert shardLens[..|shardLens|] == shardLens;
  }

  /** The loops over positions and shards. */
  method PositionLengths(shardLens: seq<seq<nat>>, start: nat, m: nat, round: nat, width: nat) returns (r: seq<nat>)
    requires round > 0 && forall s :: 0 <= s < |shardLens| ==> start + m <= |shardLens[s]|
    ensures r == PositionLens(shardLens, start, m, round, width)
    ensures forall i :: 0 <= i < m ==> PadsTo(LongestAt(shardLens, start + i), r[i], round, width)
  {
    hide PadsTo, PaddedLength, LongestAt;
    r := [];
    for i := 0 to m
      invariant |r| == i
      invariant forall j :: 0 <= j < i ==> PadsTo(LongestAt(shardLens, start + j), r[j], round, width)
      invariant forall j :: 0 <= j < i ==> r[j] == PaddedLength(LongestAt(shardLens, start + j), round, width)
    {
      var longest := Longest(shardLens, start + i);
      PaddedIs(longest, round, width);
      r := r + [PaddedLength(longest, round, width)];
    }
  }

  lemma PaddedCovers(longest: nat, round: nat, width: nat)
    requires round > 0
    ensures longest <= width ==> longest <= PaddedLength(longest, round, width) <= width
  {
    assert (longest + round - 1) / round * round + (longest + round - 1) % round == longest + round - 1;
  }

  lemma PaddedGrows(x: nat, y: nat, round: nat, width: nat)
    requires round > 0 && x <= y
    ensures PaddedLength(x, round, width) <= PaddedLength(y, round, width)
  {
    QuotientGrows(x + round - 1, y + round - 1, round);
    Times((x + round - 1) / round, (y + round - 1) / round, round);
  }

  // ------------------------------------------------------------ the whole sharding

  /** The shards' rows, the microbatches every shard shares, and the order the rows were put in. */
  datatype Outcome<X, V> = Failed | Sharded(parts: seq<seq<Row<X, V>>>, micros: seq<Micro>, order: seq<int>)

  function LengthOf<X, V>(row: Row<X, V>): nat {
    row.length
  }

  /** The padded lengths of the positions of chunk `c`. */
  function ChunkLens<X, V>(parts: seq<seq<Row<X, V>>>, c: nat, m: nat, round: nat, width: nat): seq<nat>
    requires round > 0 && forall s :: 0 <= s < |parts| ==> At(c, m) + m <= |parts[s]|
  {
    PositionLens(MapEach(LengthOf, parts), At(c, m), m, round, width)
  }

  ghost predicate Rectangular<X, V>(parts: seq<seq<Row<X, V>>>, shards: nat, size: nat) {
    |parts| == shards && forall s :: 0 <= s < shards ==> |parts[s]| == size
  }

  ghost predicate ChunkCut<X, V>(parts: seq<seq<Row<X, V>>>, c: nat, m: nat, round: nat, width: nat, micro: Micro,
                                 budget: nat)
    requires round > 0 && forall s :: 0 <= s < |parts| ==> At(c, m) + m <= |parts[s]|
  {
    CutSoFar(micro.indices, micro.lengths, ChunkLens(parts, c, m, round, width), m, budget)
  }

  /** What the size checks admit: chunks that split evenly. Uneven shards are accepted when they come out even; when
      they do not, the last one lacks a row and reading its length ends in an IndexError. */
  function DynamicSizes(total: nat, shards: nat, batchSize: Option<nat>, uneven: bool): Sizes {
    var z := SizesFor(total, shards, batchSize, uneven);
    if z.Sizes? && z.n == At(shards, z.m) then z else Unfit
  }

  /** What these sizes establish. */
  predicate Even(total: nat, shards: nat, z: Sizes) {
    z.Sizes? && shards > 0 && z.m > 0 && z.n == At(shards, z.m) == At(z.m, shards) && total == At(z.chunks, z.n)
  }

  lemma EvenSizes(total: nat, shards: nat, batchSize: Option<nat>, uneven: bool)
    requires DynamicSizes(total, shards, batchSize, uneven).Sizes?
    ensures Even(total, shards, DynamicSizes(total, shards, batchSize, uneven))
  {
    SizesFit(total, shards, batchSize, uneven);
    var z := DynamicSizes(total, shards, batchSize, uneven);
    SwapAt(shards, z.m);
  }

  /** The sizes admitted: those of even shards, whether or not uneven ones are allowed. */
  lemma DynamicSizesIff(total: nat, shards: nat, batchSize: Option<nat>, uneven: bool)
    ensures var (z, n) := (DynamicSizes(total, shards, batchSize, uneven),
                           if batchSize.Some? then batchSize.value else total);
            z.Sizes? <==> !(uneven && batchSize.Some?) && n > 0 && shards > 0 && Divides(n, total) && Divides(shards, n)
  {
    var n := if batchSize.Some? then batchSize.value else total;
    SizesIff(total, shards, batchSize, uneven);
    var z := SizesFor(total, shards, batchSize, uneven);
    if z.Sizes? {
      SizesFit(total, shards, batchSize, uneven);
      SwapAt(z.m, shards);
      if k: nat :| n == At(k, shards) { SameMultiple(k, z.m, shards); }
    }
  }

  /** Between a multiple and the next there is no other. */
  lemma SameMultiple(k: nat, m: nat, d: nat)
    requires At(k, d) <= At(m, d) < At(k, d) + d
    ensures k == m
  {
    NextMultiple(m, k, d);
    NextMultiple(k, m, d);
  }

  lemma NextMultiple(a: nat, b: nat, d: nat)
    ensures a < b ==> At(a, d) + d <= At(b, d)
  {
    if a < b { Times(a + 1, b, d); }
  }

  lemma SwapAt(a: nat, b: nat)
    ensures At(a, b) == At(b, a)
  {
  }

  /** The shards of the rows sorted and dealt within every chunk. */
  function OrderedParts<X, V>(rows: seq<Row<X, V>>, shards: nat, z: Sizes): (r: seq<seq<Row<X, V>>>)
    requires Even(|rows|, shards, z)
    ensures Rectangular(r, shards, At(z.chunks, z.m))
  {
    var lens := Map(LengthOf, rows);
    BatchOrderPermutes(lens, z.chunks, z.n, shards);
    var sorted := Select(rows, BatchOrder(lens, z.chunks, z.n, shards));
    PartSizes(sorted, shards, z);
    AllShards(sorted, shards, z.chunks, z.n, z.m)
  }

  ghost predicate InOrder<X, V>(rows: seq<Row<X, V>>, shards: nat, z: Sizes, parts: seq<seq<Row<X, V>>>,
                                order: seq<int>)
    requires z.Sizes? && shards > 0
  {
    && IsPermutation(order, |rows|) && order == BatchOrder(Map(LengthOf, rows), z.chunks, z.n, shards)
    && parts == AllShards(Select(rows, order), shards, z.chunks, z.n, z.m)
    && Rectangular(parts, shards, At(z.chunks, z.m))
  }

  /** `micros` holds what the greedy loop makes of the first `chunks` chunks. */
  ghost predicate AllCut<X, V>(parts: seq<seq<Row<X, V>>>, m: nat, round: nat, width: nat, micros: seq<Micro>,
                               budget: nat)
    requires round > 0 && forall s :: 0 <= s < |parts| ==> |parts[s]| >= At(|micros|, m)
  {
    forall c :: 0 <= c < |micros| ==> (Place(c, |micros|, m); ChunkCut(parts, c, m, round, width, micros[c], budget))
  }

  /** Some padded position of chunk `c` exceeds the budget. */
  ghost predicate TooWide<X, V>(parts: seq<seq<Row<X, V>>>, c: nat, m: nat, round: nat, width: nat, budget: nat)
    requires round > 0 && forall s :: 0 <= s < |parts| ==> At(c, m) + m <= |parts[s]|
  {
    exists i :: 0 <= i < m && ChunkLens(parts, c, m, round, width)[i] > budget
  }

  ghost predicate Succeeds<X, V>(rows: seq<Row<X, V>>, shards: nat, z: Sizes, round: nat, width: nat, budget: nat,
                                 r: Outcome<X, V>)
    requires round > 0
  {
    && z.Sizes? && shards > 0 && r.Sharded?
    && InOrder(rows, shards, z, r.parts, r.order)
    && |r.micros| == z.chunks && AllCut(r.parts, z.m, round, width, r.micros, budget)
  }

  /** The sizes do not fit, or some position is longer than the budget. */
  ghost predicate Rejects<X, V>(rows: seq<Row<X, V>>, shards: nat, z: Sizes, round: nat, width: nat, budget: nat)
    requires round > 0
  {
    Even(|rows|, shards, z) ==> SomeTooWide(OrderedParts(rows, shards, z), z.chunks, z.m, round, width, budget)
  }

  ghost predicate SomeTooWide<X, V>(parts: seq<seq<Row<X, V>>>, chunks: nat, m: nat, round: nat, width: nat,
                                    budget: nat)
    requires round > 0 && forall s :: 0 <= s < |parts| ==> |parts[s]| == At(chunks, m)
  {
    exists c :: 0 <= c < chunks && (Place(c, chunks, m); TooWide(parts, c, m, round, width, budget))
  }

  method OrderRows(lens: seq<nat>, chunks: nat, n: nat, shards: nat) returns (order: seq<int>)
    requires shards > 0
    ensures order == BatchOrder(lens, chunks, n, shards)
  {
    order := [];
    for c := 0 to chunks
      invariant order == BatchOrder(lens, c, n, shards)
    {
      var sorted := SortedChunk(lens, At(c, n), n);
      order := order + Flatten(DealAll(sorted, shards));
    }
  }

  method CutChunks<X, V>(parts: seq<seq<Row<X, V>>>, chunks: nat, m: nat, round: nat, width: nat, budget: nat)
    returns (r: Option<seq<Micro>>)
    requires round > 0 && forall s :: 0 <= s < |parts| ==> |parts[s]| == At(chunks, m)
    ensures r.None? ==> SomeTooWide(parts, chunks, m, round, width, budget)
    ensures r.Some? ==> |r.value| == chunks && AllCut(parts, m, round, width, r.value, budget)
  {
    hide At, AllCut, CutSoFar, PositionLens, SomeTooWide, TooWide;
    var micros: seq<Micro> := [];
    NothingCut(parts, m, round, width, budget);
    for c := 0 to chunks
      invariant |micros| == c && At(c, m) <= At(chunks, m)
      invariant AllCut(parts, m, round, width, micros, budget)
    {
      Place(c, chunks, m);
      var lengths := PositionLengths(MapEach(LengthOf, parts), At(c, m), m, round, width);
      var p := PackPositions(lengths, budget);
      if p.TooLong? {
        FoundTooWide(parts, chunks, c, m, round, width, lengths, budget);
        return None;
      }
      var micro := Micro(p.intervals, p.lengths);
      CutAnother(parts, m, round, width, micros, micro, budget);
      micros := micros + [micro];
    }
    return Some(micros);
  }

  lemma NothingCut<X, V>(parts: seq<seq<Row<X, V>>>, m: nat, round: nat, width: nat, budget: nat)
    requires round > 0
    ensures At(0, m) == 0 && AllCut(parts, m, round, width, [], budget)
  {
  }

  lemma CutAnother<X, V>(parts: seq<seq<Row<X, V>>>, m: nat, round: nat, width: nat, micros: seq<Micro>, micro: Micro,
                         budget: nat)
    requires round > 0 && forall s :: 0 <= s < |parts| ==> |parts[s]| >= At(|micros|, m) + m
    requires AllCut(parts, m, round, width, micros, budget)
    requires ChunkCut(parts, |micros|, m, round, width, micro, budget)
    ensures At(|micros|, m) + m == At(|micros + [micro]|, m)
    ensures AllCut(parts, m, round, width, micros + [micro], budget)
  {
    hide At, ChunkCut;
    Place(|micros|, |micros| + 1, m);
  }

  lemma FoundTooWide<X, V>(parts: seq<seq<Row<X, V>>>, chunks: nat, c: nat, m: nat, round: nat, width: nat,
                           lens: seq<nat>, budget: nat)
    requires round > 0 && forall s :: 0 <= s < |parts| ==> |parts[s]| == At(chunks, m) && At(c, m) + m <= |parts[s]|
    requires c < chunks && lens == ChunkLens(parts, c, m, round, width)
    requires exists j :: 0 <= j < |lens| && lens[j] > budget
    ensures SomeTooWide(parts, chunks, m, round, width, budget)
  {
    hide At, PositionLens;
    assert TooWide(parts, c, m, round, width, budget);
  }

  /** A chunk that was cut has no position over the budget. */
  lemma CutIsNotTooWide<X, V>(parts: seq<seq<Row<X, V>>>, chunks: nat, m: nat, round: nat, width: nat,
                              micros: seq<Micro>, budget: nat)
    requires round > 0 && forall s :: 0 <= s < |parts| ==> |parts[s]| == At(chunks, m)
    requires |micros| == chunks && AllCut(parts, m, round, width, micros, budget)
    ensures !SomeTooWide(parts, chunks, m, round, width, budget)
  {
    hide At, PositionLens, CutSoFar;
    forall c: nat | c < chunks
      ensures At(c, m) + m <= At(chunks, m) && !TooWide(parts, c, m, round, width, budget)
    {
      Place(c, chunks, m);
      CutFits(micros[c].indices, micros[c].lengths, ChunkLens(parts, c, m, round, width), budget);
    }
  }

  /** Sharding with dynamic batching: sort, deal, aggregate, and cut every chunk. */
  method ShardDynamically<X, V>(rows: seq<Row<X, V>>, shards: nat, batchSize: Option<nat>, uneven: bool, width: nat,
                                round: nat, budget: nat)
    returns (r: Outcome<X, V>)
    requires round > 0
    ensures var z := DynamicSizes(|rows|, shards, batchSize, uneven);
            && (r.Failed? <==> Rejects(rows, shards, z, round, width, budget))
            && (r.Sharded? ==> Succeeds(rows, shards, z, round, width, budget, r))
  {
    var z := DynamicSizes(|rows|, shards, batchSize, uneven);
    if z.Unfit? { return Failed; }
    EvenSizes(|rows|, shards, batchSize, uneven);
    hide At, AllCut, SomeTooWide, IsPermutation, BatchOrder, AllShards, DynamicSizes;
    var lens := Map(LengthOf, rows);
    var order := OrderRows(lens, z.chunks, z.n, shards);
    BatchOrderPermutes(lens, z.chunks, z.n, shards);
    PermutationInRange(order, |rows|);
    var parts := Aggregate(Select(rows, order), shards, z.chunks, z.n, z.m);
    PartSizes(Select(rows, order), shards, z);
    assert parts == OrderedParts(rows, shards, z);
    var micros := CutChunks(parts, z.chunks, z.m, round, width, budget);
    assert InOrder(rows, shards, z, parts, order);
    if micros.None? { return Failed; }
    CutIsNotTooWide(parts, z.chunks, z.m, round, width, micros.value, budget);
    return Sharded(parts, micros.value, order);
  }

  lemma PermutationInRange(p: seq<int>, n: nat)
    requires IsPermutation(p, n)
    ensures InRange(p, n) && |p| == n
  {
  }

  lemma PartSizes<T>(xs: seq<T>, shards: nat, z: Sizes)
    requires z.Sizes? && z.n == At(shards, z.m) && |xs| == At(z.chunks, z.n)
    ensures forall s :: 0 <= s < shards ==> |AllShards(xs, shards, z.chunks, z.n, z.m)[s]| == At(z.chunks, z.m)
  {
    forall s | 0 <= s < shards ensures |ShardRows(xs, z.chunks, z.n, z.m, s)| == At(z.chunks, z.m) {
      Place(s, shards, z.m);
      ShardSize(xs, z.chunks, z.n, z.m, s);
    }
  }
}
