/** Dealing rows sorted by length balances the shards (nemo_rl/distributed/batched_data_dict.py). */
module LoadBalance {
  import opened BatchedDataDict
  import opened DynamicBatching
  import opened DynamicGuarantees
  import opened DynamicMicrobatches
  import opened Sequences
  import opened Sharding

  predicate Ascending(xs: seq<nat>) {
    forall a, b :: 0 <= a <= b < |xs| ==> xs[a] <= xs[b]
  }

  /** The sum of xs[s], xs[s + shards], ..., k of them. */
  function StrideSum(xs: seq<nat>, s: nat, shards: nat, k: nat): nat
    requires s < shards && At(k, shards) <= |xs|
  {
    if k == 0 then 0
    else
      Place(k - 1, k, shards);
      StrideSum(xs, s, shards, k - 1) + xs[At(k - 1, shards) + s]
  }

  /** Round by round the later shard gets the longer item, but no longer than the earlier shard's next one, so the
      differences telescope. */
  lemma {:induction false} Telescopes(xs: seq<nat>, s: nat, s': nat, shards: nat, k: nat)
    requires s <= s' < shards && 0 < k && At(k, shards) <= |xs| && Ascending(xs)
    ensures At(k - 1, shards) + s' < |xs| && s < |xs|
    ensures 0 <= StrideSum(xs, s', shards, k) - StrideSum(xs, s, shards, k) <= xs[At(k - 1, shards) + s'] - xs[s]
    decreases k
  {
    hide At;
    Place(k - 1, k, shards);
    Place(0, k, shards);
    if k > 1 {
      Telescopes(xs, s, s', shards, k - 1);
      Place(k - 2, k - 1, shards);
      assert xs[At(k - 2, shards) + s'] <= xs[At(k - 1, shards) + s] <= xs[At(k - 1, shards) + s'];
    } else {
      assert StrideSum(xs, s', shards, 0) == 0 && StrideSum(xs, s, shards, 0) == 0;
    }
  }

  /** The tokens of a shard's rows. */
  function Load<X, V>(rows: seq<Row<X, V>>): int {
    Sum(Map(LengthOf, rows))
  }

  lemma {:induction false} LoadIsStride<X, V>(rows: seq<Row<X, V>>, xs: seq<nat>, s: nat, shards: nat, k: nat)
    requires s < shards && k <= |rows| && At(|rows|, shards) <= |xs| && At(k, shards) <= |xs|
    requires forall i: nat :: i < |rows| ==> At(i, shards) + s < |xs| && rows[i].length == xs[At(i, shards) + s]
    ensures Load(rows[..k]) == StrideSum(xs, s, shards, k)
    decreases k
  {
    hide At;
    if k == 0 {
    } else {
      Place(k - 1, k, shards);
      LoadIsStride(rows, xs, s, shards, k - 1);
      assert Map(LengthOf, rows[..k]) == Map(LengthOf, rows[..k - 1]) + [rows[k - 1].length];
      SumAppend(Map(LengthOf, rows[..k - 1]), [rows[k - 1].length]);
    }
  }

  /** `xs` holds the chunk's lengths in order. */
  ghost predicate LensInOrder<X, V>(xs: seq<nat>, rows: seq<Row<X, V>>, start: nat, n: nat)
    requires start + n <= |rows|
  {
    var sorted := SortedChunk(Map(LengthOf, rows), start, n);
    && |xs| == |sorted| == n && Ascending(xs)
    && forall i :: 0 <= i < n ==> start <= sorted[i] < start + n && xs[i] == rows[sorted[i]].length
  }

  lemma SortedLens<X, V>(rows: seq<Row<X, V>>, start: nat, n: nat) returns (xs: seq<nat>)
    requires start + n <= |rows|
    ensures LensInOrder(xs, rows, start, n)
  {
    hide SortedChunk;
    var lens := Map(LengthOf, rows);
    SortedChunkKeepsAll(lens, start, n);
    var sorted := SortedChunk(lens, start, n);
    forall i | 0 <= i < n ensures start <= sorted[i] < start + n {
      SortedChunkSorted(lens, start, n, i, i);
    }
    xs := seq<nat>(n, i requires 0 <= i < n => lens[sorted[i]]);
    forall a, b | 0 <= a <= b < n ensures xs[a] <= xs[b] {
      SortedChunkSorted(lens, start, n, a, b);
    }
  }

  /** Any two shards' shares of a chunk differ by at most the difference of the chunk's longest and shortest rows. */
  lemma ShardsBalanced<X, V>(rows: seq<Row<X, V>>, shards: nat, z: Sizes, parts: seq<seq<Row<X, V>>>, order: seq<int>,
                             c: nat, s: nat, s': nat, shortest: nat, longest: nat)
    requires Even(|rows|, shards, z) && InOrder(rows, shards, z, parts, order)
    requires s <= s' < shards && c < z.chunks && At(c, z.n) + z.n <= |rows|
    requires forall i :: At(c, z.n) <= i < At(c, z.n) + z.n ==> shortest <= rows[i].length <= longest
    ensures At(c, z.m) + z.m <= |parts[s]| && At(c, z.m) + z.m <= |parts[s']|
    ensures 0 <= Load(Block(parts[s'], c, z.m)) - Load(Block(parts[s], c, z.m)) <= longest - shortest
  {
    PartsLongEnough(parts, shards, z, c);
    hide At, InOrder, SortedChunk;
    var xs := SortedLens(rows, At(c, z.n), z.n);
    ShareIsStride(rows, shards, z, parts, order, c, s, xs);
    ShareIsStride(rows, shards, z, parts, order, c, s', xs);
    Telescopes(xs, s, s', shards, z.m);
  }

  lemma ShareIsStride<X, V>(rows: seq<Row<X, V>>, shards: nat, z: Sizes, parts: seq<seq<Row<X, V>>>, order: seq<int>,
                            c: nat, s: nat, xs: seq<nat>)
    requires Even(|rows|, shards, z) && InOrder(rows, shards, z, parts, order)
    requires s < shards == |parts| && c < z.chunks && At(c, z.n) + z.n <= |rows| && At(c, z.m) + z.m <= |parts[s]|
    requires LensInOrder(xs, rows, At(c, z.n), z.n)
    ensures Load(Block(parts[s], c, z.m)) == StrideSum(xs, s, shards, z.m)
  {
    hide At, InOrder, SortedChunk;
    var share := Block(parts[s], c, z.m);
    forall i: nat | i < z.m
      ensures At(i, shards) + s < |xs| && share[i].length == xs[At(i, shards) + s]
    {
      PartRowAt(rows, shards, z, parts, order, s, c, i);
    }
    LoadIsStride(share, xs, s, shards, z.m);
    assert share[..z.m] == share;
  }
}
