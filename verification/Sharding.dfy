/** Cutting a batch into chunks and each chunk into shards (`shard_by_batch_size` in
    nemo_rl/distributed/batched_data_dict.py), and what gathering the shards again gives. */
module Sharding {
  import opened Dealing
  import opened Sequences

  /** Rows lo, ..., hi-1 as far as there are any. */
  function Part<T>(xs: seq<T>, lo: int, hi: int): (r: seq<T>)
    requires 0 <= lo <= hi
    ensures |r| == Min(hi, |xs|) - Min(lo, |xs|)
    ensures forall i :: 0 <= i < |r| ==> r[i] == xs[lo + i]
  {
    xs[Min(lo, |xs|)..Min(hi, |xs|)]
  }

  /** Shard `s` of the first `chunks` chunks of `n` rows: rows s*m, ..., (s+1)*m-1 of every chunk. */
  function ShardRows<T>(xs: seq<T>, chunks: nat, n: nat, m: nat, s: nat): seq<T> {
    if chunks == 0 then []
    else ShardRows(xs, chunks - 1, n, m, s) + Part(xs, At(chunks - 1, n) + At(s, m), At(chunks - 1, n) + At(s, m) + m)
  }

  function AllShards<T>(xs: seq<T>, shards: nat, chunks: nat, n: nat, m: nat): (r: seq<seq<T>>)
    ensures |r| == shards && forall s :: 0 <= s < shards ==> r[s] == ShardRows(xs, chunks, n, m, s)
  {
    seq(shards, s requires 0 <= s < shards => ShardRows(xs, chunks, n, m, s))
  }

  datatype Sizes = Unfit | Sizes(chunks: nat, n: nat, m: nat)

  /** The assertions on the sizes, and the number of chunks and the chunk and shard sizes they admit. */
  function SizesFor(total: nat, shards: nat, batchSize: Option<nat>, uneven: bool): Sizes {
    if uneven && batchSize.Some? then Unfit
    else
      var n := if batchSize.Some? then batchSize.value else total;
      if n == 0 || shards == 0 || total % n != 0 || (!uneven && n % shards != 0) then Unfit
      else Sizes(total / n, n, if uneven then (n + shards - 1) / shards else n / shards)
  }

  /** The loops that fill the shards, chunk after chunk. */
  method Aggregate<T>(xs: seq<T>, shards: nat, chunks: nat, n: nat, m: nat) returns (r: seq<seq<T>>)
    ensures r == AllShards(xs, shards, chunks, n, m)
  {
    r := [];
    for s := 0 to shards
      invariant |r| == s && forall s' :: 0 <= s' < s ==> r[s'] == ShardRows(xs, chunks, n, m, s')
    {
      var shard: seq<T> := [];
      for c := 0 to chunks
        invariant shard == ShardRows(xs, c, n, m, s)
      {
        shard := shard + Part(xs, At(c, n) + At(s, m), At(c, n) + At(s, m) + m);
      }
      r := r + [shard];
    }
  }

  // ------------------------------------------------------------ index arithmetic

  /** Position `i` of shard `s` in chunk `c`. */
  lemma {:induction false} ShardRowAt<T>(xs: seq<T>, chunks: nat, n: nat, m: nat, s: nat, c: nat, i: nat)
    requires |xs| >= At(chunks, n) && At(s, m) + m <= n && c < chunks && i < m
    ensures |ShardRows(xs, chunks, n, m, s)| == At(chunks, m)
    ensures At(c, m) + i < At(chunks, m) && At(c, n) + At(s, m) + i < |xs|
    ensures ShardRows(xs, chunks, n, m, s)[At(c, m) + i] == xs[At(c, n) + At(s, m) + i]
    decreases chunks
  {
    hide At;
    Place(c, chunks, n);
    Place(c, chunks, m);
    Place(chunks - 1, chunks, n);
    Place(chunks - 1, chunks, m);
    ShardSize(xs, chunks - 1, n, m, s);
    ShardSize(xs, chunks, n, m, s);
    LastPart(xs, chunks, n, m, s);
    hide ShardRows;
    if c >= chunks - 1 {
    } else {
      ShardRowAt(xs, chunks - 1, n, m, s, c, i);
    }
  }

  lemma LastPart<T>(xs: seq<T>, chunks: nat, n: nat, m: nat, s: nat)
    requires chunks > 0
    ensures ShardRows(xs, chunks, n, m, s)
         == ShardRows(xs, chunks - 1, n, m, s)
            + Part(xs, At(chunks - 1, n) + At(s, m), At(chunks - 1, n) + At(s, m) + m)
  {
  }

  lemma {:induction false} ShardSize<T>(xs: seq<T>, chunks: nat, n: nat, m: nat, s: nat)
    requires |xs| >= At(chunks, n) && At(s, m) + m <= n
    ensures |ShardRows(xs, chunks, n, m, s)| == At(chunks, m)
  {
    if chunks == 0 {
    } else {
      hide At;
      Place(chunks - 1, chunks, n);
      Place(chunks - 1, chunks, m);
      ShardSize(xs, chunks - 1, n, m, s);
    }
  }

  // ------------------------------------------------------------ nothing lost

  /** Consecutive parts join up. */
  lemma {:induction false} PartsJoin<T>(xs: seq<T>, base: nat, m: nat, k: nat, parts: seq<seq<T>>)
    requires |parts| == k && forall s: nat :: s < k ==> parts[s] == Part(xs, base + At(s, m), base + At(s, m) + m)
    ensures Flatten(parts) == Part(xs, base, base + At(k, m))
  {
    hide *;
    Place(0, 1, m);
    if k == 0 {
      NoParts(xs, base, parts);
    } else {
      Place(k - 1, k, m);
      var (before, last) := (parts[..k - 1], parts[k - 1]);
      PartsJoin(xs, base, m, k - 1, before);
      FlattenSnoc(before, last);
      SplitLast(parts, before, last);
      NextPart(xs, base, base + At(k - 1, m), base + At(k, m));
    }
  }

  lemma SplitLast<T>(parts: seq<T>, before: seq<T>, last: T)
    requires parts != [] && before == parts[..|parts| - 1] && last == parts[|parts| - 1]
    ensures before + [last] == parts
  {
  }

  lemma NoParts<T>(xs: seq<T>, base: nat, parts: seq<seq<T>>)
    requires parts == []
    ensures Flatten(parts) == Part(xs, base, base)
  {
  }

  lemma NextPart<T>(xs: seq<T>, lo: nat, mid: nat, hi: nat)
    requires lo <= mid <= hi
    ensures Part(xs, lo, mid) + Part(xs, mid, hi) == Part(xs, lo, hi)
  {
  }

  function ChunkParts<T>(xs: seq<T>, shards: nat, base: nat, m: nat): (r: seq<seq<T>>)
    ensures |r| == shards && forall s: nat :: s < shards ==> r[s] == Part(xs, base + At(s, m), base + At(s, m) + m)
  {
    seq(shards, s requires 0 <= s < shards => Part(xs, base + At(s, m), base + At(s, m) + m))
  }

  lemma ShardsSnoc<T>(xs: seq<T>, shards: nat, chunks: nat, n: nat, m: nat, base: nat)
    requires chunks > 0 && base == At(chunks - 1, n)
    ensures AllShards(xs, shards, chunks, n, m)
         == AppendEach(AllShards(xs, shards, chunks - 1, n, m), ChunkParts(xs, shards, base, m))
  {
  }

  lemma PartSplit<T>(xs: seq<T>, mid: nat, hi: nat)
    requires mid <= hi
    ensures multiset(Part(xs, 0, hi)) == multiset(Part(xs, 0, mid)) + multiset(Part(xs, mid, hi))
  {
    assert Part(xs, 0, hi) == Part(xs, 0, mid) + Part(xs, mid, hi);
  }

  /** One more chunk. */
  lemma ChunkAdds<T>(xs: seq<T>, before: seq<seq<T>>, parts: seq<seq<T>>, base: nat, n: nat)
    requires |before| == |parts| && multiset(Flatten(before)) == multiset(Part(xs, 0, base))
    requires Flatten(parts) == Part(xs, base, base + n)
    ensures multiset(Flatten(AppendEach(before, parts))) == multiset(Part(xs, 0, base + n))
  {
    AppendEachKeepsAll(before, parts);
    PartSplit(xs, base, base + n);
  }

  lemma NoChunks<T>(xs: seq<T>, shards: nat, n: nat, m: nat)
    ensures Flatten(AllShards(xs, shards, 0, n, m)) == Part(xs, 0, At(0, n))
  {
    FlattenEmpty(AllShards(xs, shards, 0, n, m));
  }

  /** Even shards, any number of chunks: every row lands in exactly one shard. */
  lemma {:induction false} ShardsKeepAll<T>(xs: seq<T>, shards: nat, chunks: nat, n: nat, m: nat, total: nat)
    requires n == At(shards, m) && total == At(chunks, n)
    ensures multiset(Flatten(AllShards(xs, shards, chunks, n, m))) == multiset(Part(xs, 0, total))
    decreases chunks
  {
    hide *;
    if chunks == 0 {
      NoChunks(xs, shards, n, m);
    } else {
      var base := At(chunks - 1, n);
      Place(chunks - 1, chunks, n);
      var parts := ChunkParts(xs, shards, base, m);
      ShardsKeepAll(xs, shards, chunks - 1, n, m, base);
      PartsJoin(xs, base, m, shards, parts);
      ShardsSnoc(xs, shards, chunks, n, m, base);
      ChunkAdds(xs, AllShards(xs, shards, chunks - 1, n, m), parts, base, n);
    }
  }

  /** One chunk, even or uneven: the shards in order are the batch. */
  lemma OneChunkGathers<T>(xs: seq<T>, shards: nat, n: nat, m: nat)
    requires |xs| == n <= At(shards, m)
    ensures Flatten(AllShards(xs, shards, 1, n, m)) == xs
  {
    var parts := ChunkParts(xs, shards, 0, m);
    forall s: nat | s < shards ensures ShardRows(xs, 1, n, m, s) == parts[s] {
      assert ShardRows(xs, 0, n, m, s) == [];
      assert At(0, n) == 0;
    }
    assert AllShards(xs, shards, 1, n, m) == parts;
    PartsJoin(xs, 0, m, shards, parts);
  }

  /** The sizes the assertions admit leave no row out, rounding up or not. */
  lemma ShardsPartitionBatch<T>(xs: seq<T>, shards: nat, batchSize: Option<nat>, uneven: bool)
    ensures var z := SizesFor(|xs|, shards, batchSize, uneven);
            z.Sizes? ==>
              && multiset(Flatten(AllShards(xs, shards, z.chunks, z.n, z.m))) == multiset(xs)
              && (z.chunks == 1 ==> Flatten(AllShards(xs, shards, z.chunks, z.n, z.m)) == xs)
              && forall s :: 0 <= s < shards ==> |AllShards(xs, shards, z.chunks, z.n, z.m)[s]| <= At(z.chunks, z.m)
  {
    var z := SizesFor(|xs|, shards, batchSize, uneven);
    if z.Sizes? {
      SizesFit(|xs|, shards, batchSize, uneven);
      if z.chunks == 1 {
        OneChunkGathers(xs, shards, z.n, z.m);
      } else {
        ShardsKeepAll(xs, shards, z.chunks, z.n, z.m, |xs|);
        assert Part(xs, 0, |xs|) == xs;
      }
      forall s | 0 <= s < shards ensures |ShardRows(xs, z.chunks, z.n, z.m, s)| <= At(z.chunks, z.m) {
        ShardAtMost(xs, z.chunks, z.n, z.m, s);
      }
    }
  }

  lemma SizesFit(total: nat, shards: nat, batchSize: Option<nat>, uneven: bool)
    requires SizesFor(total, shards, batchSize, uneven).Sizes?
    ensures var z := SizesFor(total, shards, batchSize, uneven);
            && total == At(z.chunks, z.n) && z.n <= At(shards, z.m)
            && shards > 0 && z.n > 0 && (!uneven ==> z.n == At(shards, z.m) && z.m > 0)
            && (z.chunks == 1 ==> total == z.n)
            && (z.chunks != 1 ==> z.n == At(shards, z.m))
  {
    var z := SizesFor(total, shards, batchSize, uneven);
    if uneven {
      RoundUpCovers(z.n, shards);
      assert z.n / z.n == 1;
    }
  }

  ghost predicate Divides(d: nat, n: nat) {
    exists k: nat :: n == At(k, d)
  }

  lemma DividesIff(d: nat, n: nat)
    requires d > 0
    ensures n % d == 0 <==> Divides(d, n)
    ensures n % d == 0 ==> n == At(n / d, d)
  {
    assert n == At(n / d, d) + n % d;
    if k: nat :| n == At(k, d) { MultipleHasNoRest(k, d); }
  }

  /** The sizes that are admitted: a batch size is not given for uneven shards; it divides the batch, and the shards,
      unless uneven, divide it. Uneven shards have the least size that holds all rows. */
  lemma SizesIff(total: nat, shards: nat, batchSize: Option<nat>, uneven: bool)
    ensures var z := SizesFor(total, shards, batchSize, uneven);
            var n := if batchSize.Some? then batchSize.value else total;
            && (z.Sizes? <==> !(uneven && batchSize.Some?) && n > 0 && shards > 0 && Divides(n, total)
                              && (uneven || Divides(shards, n)))
            && (z.Sizes? ==> z.n == n && total == At(z.chunks, n) && n <= At(z.m, shards) < n + shards)
  {
    var (z, n) := (SizesFor(total, shards, batchSize, uneven), if batchSize.Some? then batchSize.value else total);
    if n > 0 && shards > 0 {
      DividesIff(n, total);
      DividesIff(shards, n);
      RoundUpIs(n, shards);
      hide At, Divides, RoundUp;
    }
  }

  lemma {:induction false} ShardAtMost<T>(xs: seq<T>, chunks: nat, n: nat, m: nat, s: nat)
    ensures |ShardRows(xs, chunks, n, m, s)| <= At(chunks, m)
  {
    if chunks == 0 {
    } else {
      ShardAtMost(xs, chunks - 1, n, m, s);
      Place(chunks - 1, chunks, m);
    }
  }

  lemma RoundUpCovers(n: nat, d: nat)
    requires d > 0
    ensures n <= d * ((n + d - 1) / d)
  {
  }

  // ------------------------------------------------------------ gathering row-wise results

  function MapEach<A, B>(f: A -> B, xss: seq<seq<A>>): (r: seq<seq<B>>)
    ensures |r| == |xss| && forall s :: 0 <= s < |xss| ==> r[s] == Map(f, xss[s])
  {
    seq(|xss|, s requires 0 <= s < |xss| => Map(f, xss[s]))
  }

  lemma {:induction false} MapFlatten<A, B>(f: A -> B, xss: seq<seq<A>>)
    ensures Flatten(MapEach(f, xss)) == Map(f, Flatten(xss))
  {
    if xss == [] {
    } else {
      assert MapEach(f, xss)[1..] == MapEach(f, xss[1..]);
      MapFlatten(f, xss[1..]);
    }
  }
}
