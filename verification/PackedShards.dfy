/** Sequence packing from the packer's bins to the microbatches a worker sees, and back to the batch's order
    (nemo_rl/distributed/batched_data_dict.py). */
module PackedShards {
  import opened BatchedDataDict
  import opened Dealing
  import opened SequencePacking
  import opened Sequences
  import opened Sharding

  /** The bins of shard `s`, chunk by chunk, holding indices of the whole batch. */
  function GroupsOf(bins: seq<seq<seq<int>>>, n: nat, s: int, shards: nat): (r: seq<seq<seq<int>>>)
    requires shards > 0
    ensures |r| == |bins|
    ensures forall c: nat :: c < |bins| ==> r[c] == Deal(ShiftAll(bins[c], At(c, n)), s, shards)
  {
    seq(|bins|, c requires 0 <= c < |bins| => Deal(ShiftAll(bins[c], At(c, n)), s, shards))
  }

  /** The packer kept its promise for every chunk. */
  ghost predicate WellPacked(bins: seq<seq<seq<int>>>, lens: seq<nat>, n: nat, multiple: nat, shards: nat,
                             capacity: nat)
  {
    && multiple > 0 && shards > 0 && |lens| == At(|bins|, n)
    && forall c: nat :: c < |bins| ==>
         PackerContract(bins[c], Part(lens, At(c, n), At(c, n) + n), multiple, shards, capacity)
  }

  /** The empty shards. */
  function Fresh<T>(shards: nat): (r: seq<Filling<T>>)
    ensures |r| == shards && forall s :: 0 <= s < shards ==> r[s] == Filling([], [], [], [], [], [])
  {
    seq(shards, s => Filling([], [], [], [], [], []))
  }

  /** The whole dealing: chunk by chunk, the packer's bins go to the shards. */
  method ShardPacked<T>(xs: seq<T>, lens: seq<nat>, multiple: nat, shards: nat, n: nat, bins: seq<seq<seq<int>>>,
                        ghost capacity: nat) returns (r: seq<Filling<T>>, order: seq<int>)
    requires |lens| == |xs| && WellPacked(bins, lens, n, multiple, shards, capacity)
    ensures |r| == shards
    ensures forall s :: 0 <= s < shards ==> Holds(r[s], xs, lens, multiple, GroupsOf(bins, n, s, shards))
    ensures order == Flatten(seq(shards, s requires 0 <= s < shards => r[s].indices))
  {
    hide Holds, Filled;
    r := Fresh(shards);
    forall s | 0 <= s < shards ensures Holds(r[s], xs, lens, multiple, GroupsOf(bins[..0], n, s, shards)) {
      FreshHolds(r[s], xs, lens, multiple);
      assert GroupsOf(bins[..0], n, s, shards) == [];
    }
    for c := 0 to |bins|
      invariant |r| == shards
      invariant forall s :: 0 <= s < shards ==> Holds(r[s], xs, lens, multiple, GroupsOf(bins[..c], n, s, shards))
    {
      var before := r;
      var chunk := ShiftAll(bins[c], At(c, n));
      ChunkInRange(bins, lens, n, multiple, shards, capacity, c);
      forall s | 0 <= s < shards ensures before[s].chunkIndices == [] && before[s].chunkLengths == [] {
        HoldsClosed(before[s], xs, lens, multiple, GroupsOf(bins[..c], n, s, shards));
      }
      r := DealChunk(before, xs, lens, multiple, chunk);
      ghost var dealt := r;
      var s := 0;
      while s < shards
        invariant 0 <= s <= shards == |r|
        invariant forall s' :: 0 <= s' < s ==>
          Holds(r[s'], xs, lens, multiple, GroupsOf(bins[..c + 1], n, s', shards))
        invariant forall s' :: s <= s' < shards ==> r[s'] == dealt[s']
      {
        GroupsSnoc(bins, n, s, shards, c);
        SomeDealt(bins[c], At(c, n), s, shards);
        var f := CloseChunk(r[s], xs, lens, multiple, before[s], GroupsOf(bins[..c], n, s, shards),
          Deal(chunk, s, shards));
        r := r[s := f];
        s := s + 1;
      }
    }
    assert bins[..|bins|] == bins;
    order := Flatten(seq(shards, s requires 0 <= s < shards => r[s].indices));
  }

  lemma FreshHolds<T>(f: Filling<T>, xs: seq<T>, lens: seq<nat>, multiple: nat)
    requires multiple > 0 && |lens| == |xs| && f == Filling([], [], [], [], [], [])
    ensures Holds(f, xs, lens, multiple, [])
  {
  }

  lemma HoldsClosed<T>(f: Filling<T>, xs: seq<T>, lens: seq<nat>, multiple: nat, groups: seq<seq<seq<int>>>)
    requires multiple > 0 && |lens| == |xs| && Holds(f, xs, lens, multiple, groups)
    ensures f.chunkIndices == [] && f.chunkLengths == []
  {
  }

  lemma GroupsSnoc(bins: seq<seq<seq<int>>>, n: nat, s: int, shards: nat, c: nat)
    requires shards > 0 && c < |bins|
    ensures GroupsOf(bins[..c + 1], n, s, shards)
         == GroupsOf(bins[..c], n, s, shards) + [Deal(ShiftAll(bins[c], At(c, n)), s, shards)]
  {
  }

  lemma ChunkInRange(bins: seq<seq<seq<int>>>, lens: seq<nat>, n: nat, multiple: nat, shards: nat, capacity: nat,
                     c: nat)
    requires WellPacked(bins, lens, n, multiple, shards, capacity) && c < |bins|
    ensures AllInRange(ShiftAll(bins[c], At(c, n)), |lens|)
    ensures At(c, n) + n <= |lens| && |bins[c]| > 0 && |bins[c]| % shards == 0
  {
    Place(c, |bins|, n);
  }

  /** A positive multiple of the shards gives every shard a bin. */
  lemma SomeDealt(bins: seq<seq<int>>, start: int, s: nat, shards: nat)
    requires s < shards && |bins| > 0 && |bins| % shards == 0
    ensures Deal(ShiftAll(bins, start), s, shards) != []
  {
    var k := |bins| / shards;
    assert |bins| == At(k, shards);
    DealFull(ShiftAll(bins, start), s, shards, k);
  }

  // ------------------------------------------------------------ what a worker sees

  function ShardOf<T>(f: Filling<T>): Shard<T> {
    Shard(f.rows, Some(f.micros), Some(f.counts))
  }

  /** The rows before chunk `c`, by the recorded counts. */
  lemma {:induction false} TotalIsPrefix<T>(f: Filling<T>, xs: seq<T>, lens: seq<nat>, multiple: nat,
                                            groups: seq<seq<seq<int>>>, c: nat)
    requires multiple > 0 && |lens| == |xs| && Holds(f, xs, lens, multiple, groups) && c <= |groups|
    ensures Total(f.counts, c) == |AllOf(groups[..c])|
    decreases c
  {
    if c == 0 {
    } else {
      TotalIsPrefix(f, xs, lens, multiple, groups, c - 1);
      assert groups[..c] == groups[..c - 1] + [groups[c - 1]];
      AllOfSnoc(groups[..c - 1], groups[c - 1]);
    }
  }

  lemma {:induction false} AllOfSplit<T>(groups: seq<seq<seq<T>>>, c: nat)
    requires c < |groups|
    ensures |AllOf(groups[..c])| + |Flatten(groups[c])| == |AllOf(groups[..c + 1])| <= |AllOf(groups)|
    ensures AllOf(groups)[|AllOf(groups[..c])|..|AllOf(groups[..c + 1])|] == Flatten(groups[c])
    decreases |groups|
  {
    var last := |groups| - 1;
    assert groups[..c + 1] == groups[..c] + [groups[c]];
    AllOfSnoc(groups[..c], groups[c]);
    if c < last {
      AllOfSplit(groups[..last], c);
      assert groups[..last][..c] == groups[..c] && groups[..last][..c + 1] == groups[..c + 1];
    } else {
      assert groups[..c + 1] == groups;
    }
  }

  /** The rows of one bin, cut out of the rows of all. */
  lemma {:induction false} FlattenSplit<T>(bins: seq<seq<T>>, k: nat)
    requires k < |bins|
    ensures |Flatten(bins[..k])| + |bins[k]| == |Flatten(bins[..k + 1])| <= |Flatten(bins)|
    ensures Flatten(bins)[|Flatten(bins[..k])|..|Flatten(bins[..k + 1])|] == bins[k]
  {
    assert bins[..k + 1] == bins[..k] + [bins[k]];
    FlattenSnoc(bins[..k], bins[k]);
    assert bins == bins[..k + 1] + bins[k + 1..];
    FlattenAppend(bins[..k + 1], bins[k + 1..]);
  }

  /** `get_batch` for a chunk gives the rows of the bins dealt to the shard in that chunk, in order. */
  lemma BatchIsChunk<T>(f: Filling<T>, xs: seq<T>, lens: seq<nat>, multiple: nat, groups: seq<seq<seq<int>>>,
                        c: nat, size: nat)
    requires multiple > 0 && |lens| == |xs| && Holds(f, xs, lens, multiple, groups) && c < |groups|
    ensures InRange(Flatten(groups[c]), |xs|)
    ensures BatchAt(ShardOf(f), c, size)
         == Some(Shard(Select(xs, Flatten(groups[c])), Some([f.micros[c]]), Some([f.counts[c]])))
  {
    TotalIsPrefix(f, xs, lens, multiple, groups, c);
    TotalIsPrefix(f, xs, lens, multiple, groups, c + 1);
    AllOfSplit(groups, c);
    hide ChunkHeld, Total;
    var (start, end) := (|AllOf(groups[..c])|, |AllOf(groups[..c + 1])|);
    SelectSlice(xs, f.indices, start, end);
  }

  lemma SelectSlice<T>(xs: seq<T>, idx: seq<int>, start: nat, end: nat)
    requires InRange(idx, |xs|) && start <= end <= |idx|
    ensures InRange(idx[start..end], |xs|) && Select(xs, idx[start..end]) == Select(xs, idx)[start..end]
  {
  }

  lemma BinRows<T>(xs: seq<T>, group: seq<seq<int>>, k: nat)
    requires k < |group| && InRange(Flatten(group), |xs|) && InRange(group[k], |xs|)
    ensures var (rows, t) := (Select(xs, Flatten(group)), Intervals(group)[k]);
            t.start <= t.end <= |rows| && rows[t.start..t.end] == Select(xs, group[k])
  {
    hide Flatten, InRange, Select;
    FlattenSplit(group, k);
    SelectSlice(xs, Flatten(group), |Flatten(group[..k])|, |Flatten(group[..k + 1])|);
  }

  /** The end-to-end result: the microbatches of a chunk are exactly the bins dealt to the shard, each with its
      padded tokens recorded. */
  lemma MicrobatchesAreBins<T>(f: Filling<T>, xs: seq<T>, lens: seq<nat>, multiple: nat, groups: seq<seq<seq<int>>>,
                               c: nat)
    requires multiple > 0 && |lens| == |xs| && Holds(f, xs, lens, multiple, groups) && c < |groups|
    ensures AllInRange(groups[c], |xs|) && InRange(Flatten(groups[c]), |xs|)
    ensures Iterable(Shard(Select(xs, Flatten(groups[c])), Some([f.micros[c]]), Some([f.counts[c]])))
    ensures var (rows, t) := (Select(xs, Flatten(groups[c])), f.micros[c].indices);
            |t| == |groups[c]| && forall k :: 0 <= k < |t| ==>
              && rows[t[k].start..t[k].end] == Select(xs, groups[c][k])
              && f.micros[c].lengths[k] == BinTokens(lens, groups[c][k], multiple)
  {
    BatchIsChunk(f, xs, lens, multiple, groups, c, 0);
    assert ChunkHeld(f.micros[c], f.counts[c], lens, multiple, groups[c]);
    hide Holds, BinTokens, InRange, Intervals, Flatten, BatchAt;
    forall k | 0 <= k < |groups[c]|
      ensures var (rows, t) := (Select(xs, Flatten(groups[c])), Intervals(groups[c])[k]);
              t.start <= t.end <= |rows| && rows[t.start..t.end] == Select(xs, groups[c][k])
    {
      BinRows(xs, groups[c], k);
    }
  }

  /** In every chunk each shard gets the same number of bins: the packer's bins number k * shards + s. */
  lemma SameNumberOfMicrobatches(bins: seq<seq<seq<int>>>, lens: seq<nat>, n: nat, multiple: nat, shards: nat,
                                 capacity: nat, s: nat, c: nat)
    requires WellPacked(bins, lens, n, multiple, shards, capacity) && s < shards && c < |bins|
    ensures var group := GroupsOf(bins, n, s, shards)[c];
            && |group| == |bins[c]| / shards
            && forall k: nat :: k < |group| ==>
                 At(k, shards) + s < |bins[c]| && group[k] == Shift(bins[c][At(k, shards) + s], At(c, n))
  {
    ChunkInRange(bins, lens, n, multiple, shards, capacity, c);
    var (all, rounds) := (ShiftAll(bins[c], At(c, n)), |bins[c]| / shards);
    Whole(|bins[c]|, shards);
    hide At;
    DealFull(all, s, shards, rounds);
    forall k: nat | k < rounds
      ensures At(k, shards) + s < |bins[c]| && Deal(all, s, shards)[k] == Shift(bins[c][At(k, shards) + s], At(c, n))
    {
      assert Deal(all, s, shards)[k] == all[At(k, shards) + s];
    }
  }

  lemma Whole(x: nat, d: nat)
    requires d > 0 && x % d == 0
    ensures x == At(x / d, d)
  {
  }

  /** No microbatch exceeds the capacity the packer was given. */
  lemma {:induction false} MicrobatchFits(bins: seq<seq<seq<int>>>, lens: seq<nat>, n: nat, multiple: nat, shards: nat,
                                          capacity: nat, c: nat, b: nat)
    requires WellPacked(bins, lens, n, multiple, shards, capacity) && c < |bins| && b < |bins[c]|
    ensures InRange(Shift(bins[c][b], At(c, n)), |lens|)
    ensures BinTokens(lens, Shift(bins[c][b], At(c, n)), multiple) <= capacity
  {
    ChunkInRange(bins, lens, n, multiple, shards, capacity, c);
    hide At;
    var chunk := Part(lens, At(c, n), At(c, n) + n);
    assert InRange(bins[c][b], |chunk|) && BinTokens(chunk, bins[c][b], multiple) <= capacity;
    TokensShift(lens, chunk, bins[c][b], At(c, n), multiple);
  }

  lemma {:induction false} TokensShift(lens: seq<nat>, chunk: seq<nat>, bin: seq<int>, start: nat, multiple: nat)
    requires multiple > 0 && start + |chunk| <= |lens| && InRange(bin, |chunk|)
    requires forall i :: 0 <= i < |chunk| ==> chunk[i] == lens[start + i]
    ensures InRange(Shift(bin, start), |lens|)
    ensures BinTokens(lens, Shift(bin, start), multiple) == BinTokens(chunk, bin, multiple)
    decreases |bin|
  {
    if bin == [] {
    } else {
      var last := |bin| - 1;
      assert Shift(bin, start)[..last] == Shift(bin[..last], start);
      TokensShift(lens, chunk, bin[..last], start, multiple);
    }
  }

  // ------------------------------------------------------------ back to the batch's order

  /** The row indices of every shard. */
  function IndicesOf(bins: seq<seq<seq<int>>>, n: nat, shards: nat): (r: seq<seq<int>>)
    requires shards > 0
    ensures |r| == shards && forall s :: 0 <= s < shards ==> r[s] == AllOf(GroupsOf(bins, n, s, shards))
  {
    seq(shards, s requires 0 <= s < shards => AllOf(GroupsOf(bins, n, s, shards)))
  }

  lemma IndicesSnoc(bins: seq<seq<seq<int>>>, n: nat, shards: nat, chunk: seq<seq<int>>)
    requires shards > 0
    ensures IndicesOf(bins + [chunk], n, shards)
         == AppendEach(IndicesOf(bins, n, shards), Contents(DealAll(ShiftAll(chunk, At(|bins|, n)), shards)))
  {
    forall s | 0 <= s < shards
      ensures AllOf(GroupsOf(bins + [chunk], n, s, shards))
           == AllOf(GroupsOf(bins, n, s, shards)) + Flatten(Deal(ShiftAll(chunk, At(|bins|, n)), s, shards))
    {
      var all := bins + [chunk];
      assert all[..|bins|] == bins && all[..|bins| + 1] == all;
      GroupsSnoc(all, n, s, shards, |bins|);
      AllOfSnoc(GroupsOf(bins, n, s, shards), Deal(ShiftAll(chunk, At(|bins|, n)), s, shards));
    }
  }

  lemma {:induction false} ShiftAllFlatten(bins: seq<seq<int>>, start: int)
    ensures Flatten(ShiftAll(bins, start)) == Shift(Flatten(bins), start)
  {
    if bins == [] {
    } else {
      assert ShiftAll(bins, start)[1..] == ShiftAll(bins[1..], start);
      ShiftAllFlatten(bins[1..], start);
      ShiftAppend(bins[0], Flatten(bins[1..]), start);
    }
  }

  lemma ShiftAppend(a: seq<int>, b: seq<int>, start: int)
    ensures Shift(a + b, start) == Shift(a, start) + Shift(b, start)
  {
  }

  /** Every row index is dealt to exactly one shard, once. */
  lemma {:induction false} IndicesKeepAll(bins: seq<seq<seq<int>>>, n: nat, shards: nat, total: nat)
    requires shards > 0 && total == At(|bins|, n)
    requires forall c :: 0 <= c < |bins| ==> multiset(Flatten(bins[c])) == multiset(Range(0, n))
    ensures multiset(Flatten(IndicesOf(bins, n, shards))) == multiset(Range(0, total))
    decreases |bins|
  {
    hide *;
    if |bins| == 0 {
      NoIndices(bins, n, shards);
    } else {
      var c := |bins| - 1;
      Place(c, c + 1, n);
      IndicesKeepAll(bins[..c], n, shards, At(c, n));
      ChunkIndices(bins[c], At(c, n), n, shards);
      assert bins == bins[..c] + [bins[c]];
      IndicesSnoc(bins[..c], n, shards, bins[c]);
      AppendEachKeepsAll(IndicesOf(bins[..c], n, shards), Contents(DealAll(ShiftAll(bins[c], At(c, n)), shards)));
      RangeJoins(At(c, n), At(c, n) + n);
    }
  }

  lemma RangeJoins(mid: nat, hi: nat)
    requires mid <= hi
    ensures multiset(Range(0, hi)) == multiset(Range(0, mid)) + multiset(Range(mid, hi))
  {
    RangeSplit(0, mid, hi);
  }

  lemma NoIndices(bins: seq<seq<seq<int>>>, n: nat, shards: nat)
    requires shards > 0 && bins == []
    ensures multiset(Flatten(IndicesOf(bins, n, shards))) == multiset(Range(0, At(0, n)))
  {
    FlattenEmpty(IndicesOf(bins, n, shards));
    assert Range(0, At(0, n)) == [];
  }

  lemma ChunkIndices(bins: seq<seq<int>>, start: nat, n: nat, shards: nat)
    requires shards > 0 && multiset(Flatten(bins)) == multiset(Range(0, n))
    ensures multiset(Flatten(Contents(DealAll(ShiftAll(bins, start), shards)))) == multiset(Range(start, start + n))
  {
    DealKeepsAll(ShiftAll(bins, start), shards);
    ShiftAllFlatten(bins, start);
    ShiftedChunk(Flatten(bins), start, n);
  }

  /** For any number of chunks, row-wise results gathered from the shards are put back in the batch's order. */
  lemma PackedRoundTrip<A, B>(f: A -> B, xs: seq<A>, lens: seq<nat>, n: nat, multiple: nat, shards: nat, capacity: nat,
                              bins: seq<seq<seq<int>>>, r: seq<Filling<A>>, parts: seq<seq<A>>)
    requires |lens| == |xs| && WellPacked(bins, lens, n, multiple, shards, capacity) && |r| == shards == |parts|
    requires forall s :: 0 <= s < shards ==>
      Holds(r[s], xs, lens, multiple, GroupsOf(bins, n, s, shards)) && parts[s] == r[s].rows
    ensures var order := Flatten(IndicesOf(bins, n, shards));
            IsPermutation(order, |xs|) && Reordered(Flatten(MapEach(f, parts)), order) == Map(f, xs)
  {
    var ids := IndicesOf(bins, n, shards);
    forall c | 0 <= c < |bins| ensures multiset(Flatten(bins[c])) == multiset(Range(0, n)) { Place(c, |bins|, n); }
    IndicesKeepAll(bins, n, shards, |xs|);
    var order := Flatten(ids);
    PermutationFromMultiset(order, |xs|);
    hide WellPacked, IsPermutation, GroupsOf;
    forall s | 0 <= s < shards ensures InRange(ids[s], |xs|) && parts[s] == Select(xs, ids[s]) {}
    SelectFlatten(xs, ids, parts);
    MapFlatten(f, parts);
    ReorderUndoes(f, xs, order);
  }

  lemma {:induction false} SelectFlatten<A>(xs: seq<A>, ids: seq<seq<int>>, parts: seq<seq<A>>)
    requires |ids| == |parts|
    requires forall s :: 0 <= s < |ids| ==> InRange(ids[s], |xs|) && parts[s] == Select(xs, ids[s])
    ensures InRange(Flatten(ids), |xs|) && Flatten(parts) == Select(xs, Flatten(ids))
  {
    if ids == [] {
    } else {
      SelectFlatten(xs, ids[1..], parts[1..]);
      SelectAppend(xs, ids[0], Flatten(ids[1..]));
    }
  }
}
