/** Context parallelism (nemo_rl/distributed/model_utils.py): each rank holds one chunk from the front of a sequence
    and its mirror image from the back, and gathering sorts the chunks back. A group is a sequence indexed by rank. */
module ContextParallel {
  import opened Sequences
  import opened Sharding

  function HalfSize(n: nat, cp: nat): nat
    requires cp > 0
  {
    Quotients(n, 2 * cp);
    n / (2 * cp)
  }

  lemma Quotients(n: nat, d: nat)
    requires d > 0
    ensures n / d >= 0 && n == At(d, n / d) + n % d && 0 <= n % d < d
  {
  }

  lemma BlockFits(n: nat, cp: nat, b: nat)
    requires cp > 0 && b < 2 * cp
    ensures At(b, HalfSize(n, cp)) + HalfSize(n, cp) <= At(2 * cp, HalfSize(n, cp)) <= n
  {
    Place(b, 2 * cp, HalfSize(n, cp));
  }

  /** The tokens on rank `r`: chunks r and 2 * cp - r - 1. */
  function OnRank<T>(xs: seq<T>, r: nat, cp: nat): (part: seq<T>)
    requires r < cp
    ensures |part| == if cp == 1 then |xs| else 2 * HalfSize(|xs|, cp)
  {
    if cp == 1 then xs
    else
      BlockFits(|xs|, cp, r);
      BlockFits(|xs|, cp, 2 * cp - r - 1);
      var h := HalfSize(|xs|, cp);
      Block(xs, r, h) + Block(xs, 2 * cp - r - 1, h)
  }

  function Parts<T>(xs: seq<T>, cp: nat): (r: seq<seq<T>>)
    ensures |r| == cp && forall s: nat :: s < cp ==> r[s] == OnRank(xs, s, cp)
  {
    seq(cp, s requires 0 <= s < cp => OnRank(xs, s, cp))
  }

  // ------------------------------------------------------------ gathering

  /** The index of each half as the ranks hold them: 0, 2cp-1, 1, 2cp-2, ... */
  function ChunkIndices(cp: nat): (r: seq<int>)
    ensures |r| == 2 * cp
    ensures forall j :: 0 <= j < 2 * cp ==> r[j] == if j % 2 == 0 then j / 2 else 2 * cp - j / 2 - 1
    ensures IsPermutation(r, 2 * cp)
  {
    var r := seq(2 * cp, j requires 0 <= j < 2 * cp => if j % 2 == 0 then j / 2 else 2 * cp - j / 2 - 1);
    r
  }

  /** The halves of every rank's tensor, in rank order. */
  function Halves<T>(parts: seq<seq<T>>, h: nat): (r: seq<seq<T>>)
    requires forall s :: 0 <= s < |parts| ==> |parts[s]| == 2 * h
    ensures |r| == 2 * |parts|
    ensures forall j :: 0 <= j < |r| ==> r[j] == if j % 2 == 0 then parts[j / 2][..h] else parts[j / 2][h..]
  {
    seq(2 * |parts|, j requires 0 <= j < 2 * |parts| => if j % 2 == 0 then parts[j / 2][..h] else parts[j / 2][h..])
  }

  /** Gathering: split every rank's tensor in two, sort the halves by index, concatenate. */
  function Gathered<T>(parts: seq<seq<T>>, h: nat): seq<T>
    requires forall s :: 0 <= s < |parts| ==> |parts[s]| == 2 * h
  {
    Flatten(Select(Halves(parts, h), SortedByKey(ChunkIndices(|parts|))))
  }

  /** The loops of the gather. Every rank's tensor has the same, even length. */
  method AllGather<T>(parts: seq<seq<T>>) returns (r: seq<T>)
    requires forall s :: 0 <= s < |parts| ==> |parts[s]| == |parts[0]| && |parts[s]| % 2 == 0
    ensures parts != [] ==> r == Gathered(parts, |parts[0]| / 2)
    ensures parts == [] ==> r == []
  {
    if parts == [] { return []; }
    var h := |parts[0]| / 2;
    var chunks: seq<seq<T>> := [];
    var indices: seq<int> := [];
    for s := 0 to |parts|
      invariant chunks == Halves(parts[..s], h)
      invariant |indices| == 2 * s && forall j :: 0 <= j < 2 * s ==> indices[j] == ChunkIndices(|parts|)[j]
    {
      chunks := chunks + [parts[s][..h], parts[s][h..]];
      indices := indices + [s, 2 * |parts| - s - 1];
    }
    assert parts[..|parts|] == parts && indices == ChunkIndices(|parts|);
    r := Flatten(Select(chunks, SortedByKey(indices)));
  }

  /** A rank's two chunks. */
  lemma OnRankBlocks<T>(xs: seq<T>, cp: nat, r: nat)
    requires cp > 1 && r < cp
    ensures var (h, m) := (HalfSize(|xs|, cp), 2 * cp - r - 1);
            && At(r, h) + h <= |xs| && At(m, h) + h <= |xs|
            && OnRank(xs, r, cp)[..h] == Block(xs, r, h) && OnRank(xs, r, cp)[h..] == Block(xs, m, h)
  {
    BlockFits(|xs|, cp, r);
    BlockFits(|xs|, cp, 2 * cp - r - 1);
    hide At, HalfSize;
  }

  /** Half `j` is the chunk whose index it has. */
  lemma HalfIsBlock<T>(xs: seq<T>, cp: nat, j: nat)
    requires cp > 1 && j < 2 * cp
    ensures var (h, b) := (HalfSize(|xs|, cp), ChunkIndices(cp)[j]);
            0 <= b < 2 * cp && At(b, h) + h <= |xs| && Halves(Parts(xs, cp), h)[j] == Block(xs, b, h)
  {
    hide At, HalfSize, OnRank, Block;
    OnRankBlocks(xs, cp, j / 2);
    assert Parts(xs, cp)[j / 2] == OnRank(xs, j / 2, cp);
  }

  /** Sorting puts chunk `b` in place `b`. */
  lemma HalfInPlace<T>(xs: seq<T>, cp: nat, b: nat)
    requires cp > 1 && b < 2 * cp
    ensures var h := HalfSize(|xs|, cp);
            && At(b, h) + h <= |xs|
            && Select(Halves(Parts(xs, cp), h), SortedByKey(ChunkIndices(cp)))[b] == Block(xs, b, h)
  {
    hide At, HalfSize, OnRank, Block, Halves, Parts, SortedByKey, ChunkIndices;
    SortingInverts(ChunkIndices(cp), b);
    HalfIsBlock(xs, cp, SortedByKey(ChunkIndices(cp))[b]);
  }

  /** Gathering the shards of all ranks gives the sequence up to the last multiple of 2 * cp. */
  lemma GatherPrefix<T>(xs: seq<T>, cp: nat)
    requires cp > 1
    ensures At(2 * cp, HalfSize(|xs|, cp)) <= |xs|
    ensures Gathered(Parts(xs, cp), HalfSize(|xs|, cp)) == xs[..At(2 * cp, HalfSize(|xs|, cp))]
  {
    hide At, HalfSize, Halves, SortedByKey, Parts, ChunkIndices;
    var h := HalfSize(|xs|, cp);
    BlockFits(|xs|, cp, 0);
    var sorted := Select(Halves(Parts(xs, cp), h), SortedByKey(ChunkIndices(cp)));
    forall b: nat | b < 2 * cp ensures sorted[b] == Part(xs, At(b, h), At(b, h) + h) {
      HalfInPlace(xs, cp, b);
    }
    PartsJoin(xs, 0, h, 2 * cp, sorted);
  }

  /** The round trip rebuilds the sequence exactly when its length is a multiple of 2 * cp. */
  lemma GatherRebuildsIff<T>(xs: seq<T>, cp: nat)
    requires cp > 1
    ensures Gathered(Parts(xs, cp), HalfSize(|xs|, cp)) == xs <==> |xs| % (2 * cp) == 0
  {
    GatherPrefix(xs, cp);
    Quotients(|xs|, 2 * cp);
    var n := At(2 * cp, HalfSize(|xs|, cp));
    assert |xs| == n + |xs| % (2 * cp);
    hide At, HalfSize, Gathered, Parts;
    assert |xs[..n]| == n;
    assert n == |xs| ==> xs[..n] == xs;
  }

  // ------------------------------------------------------------ elementwise work

  /** Elementwise work on a rank's tokens is the rank's part of the elementwise work. */
  lemma OnRankMap<A, B>(f: A -> B, xs: seq<A>, r: nat, cp: nat)
    requires r < cp
    ensures Map(f, OnRank(xs, r, cp)) == OnRank(Map(f, xs), r, cp)
  {
    if cp > 1 {
      BlockFits(|xs|, cp, r);
      BlockFits(|xs|, cp, 2 * cp - r - 1);
      hide At, HalfSize;
    }
  }

  // ------------------------------------------------------------ balance

  lemma {:induction false} SumRange(a: int, h: nat)
    ensures Sum(Range(a, a + h)) == Sum(Range(0, h)) + a * h
    decreases h
  {
    if h == 0 {
      assert Range(a, a) == [] && Range(0, 0) == [];
    } else {
      SumRange(a, h - 1);
      assert Range(a, a + h) == Range(a, a + h - 1) + [a + h - 1];
      assert Range(0, h) == Range(0, h - 1) + [h - 1];
      SumAppend(Range(a, a + h - 1), [a + h - 1]);
      SumAppend(Range(0, h - 1), [h - 1]);
      assert a * h == a * (h - 1) + a;
    }
  }

  /** Chunk r and its mirror image together hold the same sum of positions for every r. */
  lemma MirrorSum(cp: nat, r: nat, h: nat)
    requires r < cp
    ensures Sum(Range(At(r, h), At(r, h) + h)) + Sum(Range(At(2 * cp - r - 1, h), At(2 * cp - r - 1, h) + h))
         == 2 * Sum(Range(0, h)) + At(2 * cp - 1, h) * h
  {
    SumRange(At(r, h), h);
    SumRange(At(2 * cp - r - 1, h), h);
    assert At(r, h) + At(2 * cp - r - 1, h) == At(2 * cp - 1, h);
    Distribute(At(r, h), At(2 * cp - r - 1, h), h);
  }

  lemma Distribute(a: int, b: int, h: int)
    ensures (a + b) * h == a * h + b * h
  {
  }

  /** Every rank's positions have the same sum, so causal attention costs the same on all of them. */
  lemma EqualWork(n: nat, cp: nat, r: nat)
    requires cp > 1 && r < cp
    ensures Sum(OnRank(Range(0, n), r, cp))
         == 2 * Sum(Range(0, HalfSize(n, cp))) + At(2 * cp - 1, HalfSize(n, cp)) * HalfSize(n, cp)
  {
    var (h, xs) := (HalfSize(n, cp), Range(0, n));
    BlockFits(n, cp, r);
    BlockFits(n, cp, 2 * cp - r - 1);
    MirrorSum(cp, r, h);
    hide At, HalfSize, Sum;
    assert Block(xs, r, h) == Range(At(r, h), At(r, h) + h);
    assert Block(xs, 2 * cp - r - 1, h) == Range(At(2 * cp - r - 1, h), At(2 * cp - r - 1, h) + h);
    SumAppend(Block(xs, r, h), Block(xs, 2 * cp - r - 1, h));
  }
}
