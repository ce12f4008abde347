/** The gather over context-parallel ranks and its backward pass (nemo_rl/distributed/model_utils.py): sharding
    undoes gathering, and the backward pass is the gather's adjoint. */
module ContextGradient {
  import opened ContextParallel
  import opened Sequences

  // ------------------------------------------------------------ sharding undoes gathering

  ghost predicate Shares<T>(parts: seq<seq<T>>, h: nat) {
    |parts| > 1 && forall s :: 0 <= s < |parts| ==> |parts[s]| == 2 * h
  }

  /** Block `b` of the gathered tensor is the half whose index is `b`. */
  lemma GatheredBlock<T>(parts: seq<seq<T>>, h: nat, j: nat)
    requires Shares(parts, h) && j < 2 * |parts|
    ensures var b := ChunkIndices(|parts|)[j];
            && |Gathered(parts, h)| == At(2 * |parts|, h) && 0 <= b < 2 * |parts|
            && At(b, h) + h <= |Gathered(parts, h)|
            && Block(Gathered(parts, h), b, h) == Halves(parts, h)[j]
  {
    hide At, SortedByKey, Halves, ChunkIndices, IsPermutation, Block;
    var idx := ChunkIndices(|parts|);
    IndexInRange(|parts|, j);
    SortingFinds(idx, j);
    SortedHalves(parts, h);
    BlockOfEqual(Select(Halves(parts, h), SortedByKey(idx)), h, idx[j]);
  }

  lemma IndexInRange(cp: nat, j: nat)
    requires j < 2 * cp
    ensures 0 <= ChunkIndices(cp)[j] < 2 * cp
  {
  }

  lemma SortedHalves<T>(parts: seq<seq<T>>, h: nat)
    requires Shares(parts, h)
    ensures var sorted := Select(Halves(parts, h), SortedByKey(ChunkIndices(|parts|)));
            |sorted| == 2 * |parts| && forall b :: 0 <= b < |sorted| ==> |sorted[b]| == h
  {
    HalvesSize(parts, h);
  }

  lemma BlockOfEqual<T>(xss: seq<seq<T>>, h: nat, b: nat)
    requires b < |xss| && forall s :: 0 <= s < |xss| ==> |xss[s]| == h
    ensures |Flatten(xss)| == At(|xss|, h) && At(b, h) + h <= |Flatten(xss)| && Block(Flatten(xss), b, h) == xss[b]
  {
    hide At;
    FlattenEqualSize(xss, h);
    Place(b, |xss|, h);
    forall i | 0 <= i < h ensures Block(Flatten(xss), b, h)[i] == xss[b][i] { FlattenEqual(xss, h, b, i); }
  }

  lemma HalvesSize<T>(parts: seq<seq<T>>, h: nat)
    requires Shares(parts, h)
    ensures forall j :: 0 <= j < 2 * |parts| ==> |Halves(parts, h)[j]| == h
  {
  }

  lemma ExactHalf(cp: nat, h: nat)
    requires cp > 0
    ensures HalfSize(At(2 * cp, h), cp) == h
  {
    Quotients(At(2 * cp, h), 2 * cp);
    var (d, q, r) := (2 * cp, At(2 * cp, h) / (2 * cp), At(2 * cp, h) % (2 * cp));
    assert d * h == d * q + r;
    if q < h { Times(q + 1, h, d); }
    if q > h { Times(h + 1, q, d); }
  }

  lemma OnRankHalves<T>(xs: seq<T>, cp: nat, h: nat, r: nat)
    requires |xs| == At(2 * cp, h) && cp > 1 && r < cp
    ensures At(r, h) + h <= |xs| && At(2 * cp - r - 1, h) + h <= |xs|
    ensures OnRank(xs, r, cp) == Block(xs, r, h) + Block(xs, 2 * cp - r - 1, h)
  {
    hide At, HalfSize, OnRank, Block;
    ExactHalf(cp, h);
    OnRankBlocks(xs, cp, r);
    assert OnRank(xs, r, cp) == OnRank(xs, r, cp)[..h] + OnRank(xs, r, cp)[h..];
  }

  /** A rank finds its own tensor in the gathered one. */
  lemma ShardUndoesGather<T>(parts: seq<seq<T>>, h: nat, r: nat)
    requires Shares(parts, h) && r < |parts|
    ensures OnRank(Gathered(parts, h), r, |parts|) == parts[r]
  {
    hide At, HalfSize, Gathered, OnRank, Block, Halves;
    GatheredBlock(parts, h, 2 * r);
    GatheredBlock(parts, h, 2 * r + 1);
    OnRankHalves(Gathered(parts, h), |parts|, h, r);
    TwoHalves(parts, h, r);
  }

  lemma TwoHalves<T>(parts: seq<seq<T>>, h: nat, r: nat)
    requires Shares(parts, h) && r < |parts|
    ensures parts[r] == Halves(parts, h)[2 * r] + Halves(parts, h)[2 * r + 1]
    ensures ChunkIndices(|parts|)[2 * r] == r && ChunkIndices(|parts|)[2 * r + 1] == 2 * |parts| - r - 1
  {
    hide Halves, ChunkIndices, IsPermutation;
    assert (2 * r) / 2 == r && (2 * r + 1) / 2 == r && (2 * r) % 2 == 0 && (2 * r + 1) % 2 == 1;
    assert Halves(parts, h)[2 * r] == parts[r][..h] && Halves(parts, h)[2 * r + 1] == parts[r][h..];
  }

  // ------------------------------------------------------------ the adjoint

  /** The work of the ranks below `k` of the backward pass: each selects its two blocks of the summed gradient. */
  function RankDots(xs: seq<real>, g: seq<real>, cp: nat, k: nat): real
    requires |xs| == |g| && cp > 1 && k <= cp
  {
    if k == 0 then 0.0
    else RankDots(xs, g, cp, k - 1) + Dot(OnRank(xs, k - 1, cp), OnRank(g, k - 1, cp))
  }

  /** Ranks below `k` cover the first k and the last k blocks. */
  lemma {:induction false} RankDotsCover(xs: seq<real>, g: seq<real>, cp: nat, h: nat, k: nat)
    requires |xs| == |g| == At(2 * cp, h) && cp > 1 && k <= cp
    ensures At(k, h) <= At(2 * cp - k, h) <= |xs|
    ensures RankDots(xs, g, cp, k)
         == Dot(xs[..At(k, h)], g[..At(k, h)]) + Dot(xs[At(2 * cp - k, h)..], g[At(2 * cp - k, h)..])
    decreases k
  {
    hide *;
    BlockBounds(cp, h, k);
    if k == 0 {
      NoRankDots(xs, g, cp, h);
    } else {
      RankDotsCover(xs, g, cp, h, k - 1);
      OneRankDot(xs, g, cp, h, k - 1);
      RankDotsStep(xs, g, cp, k);
    }
  }

  lemma BlockBounds(cp: nat, h: nat, k: nat)
    requires k <= cp
    ensures At(k, h) <= At(2 * cp - k, h) <= At(2 * cp, h)
  {
    Times(k, 2 * cp - k, h);
    Times(2 * cp - k, 2 * cp, h);
  }

  lemma NoRankDots(xs: seq<real>, g: seq<real>, cp: nat, h: nat)
    requires |xs| == |g| == At(2 * cp, h) && cp > 1
    ensures At(0, h) == 0 && RankDots(xs, g, cp, 0) == 0.0
    ensures Dot(xs[..At(0, h)], g[..At(0, h)]) == 0.0 == Dot(xs[At(2 * cp, h)..], g[At(2 * cp, h)..])
  {
    assert At(0, h) == 0 && xs[..0] == [] && xs[At(2 * cp, h)..] == [];
  }

  lemma RankDotsStep(xs: seq<real>, g: seq<real>, cp: nat, k: nat)
    requires |xs| == |g| && cp > 1 && 0 < k <= cp
    ensures RankDots(xs, g, cp, k)
         == RankDots(xs, g, cp, k - 1) + Dot(OnRank(xs, k - 1, cp), OnRank(g, k - 1, cp))
  {
  }

  /** One more rank adds one block at each side. */
  lemma OneRankDot(xs: seq<real>, g: seq<real>, cp: nat, h: nat, r: nat)
    requires |xs| == |g| == At(2 * cp, h) && cp > 1 && r < cp
    ensures At(r, h) <= At(r + 1, h) <= |xs| && At(2 * cp - r - 1, h) <= At(2 * cp - r, h) <= |xs|
    ensures Dot(xs[..At(r, h)], g[..At(r, h)]) + Dot(xs[At(2 * cp - r, h)..], g[At(2 * cp - r, h)..])
          + Dot(OnRank(xs, r, cp), OnRank(g, r, cp))
         == Dot(xs[..At(r + 1, h)], g[..At(r + 1, h)])
          + Dot(xs[At(2 * cp - r - 1, h)..], g[At(2 * cp - r - 1, h)..])
  {
    hide *;
    var m := 2 * cp - r - 1;
    Place(r, 2 * cp, h);
    Place(m, 2 * cp, h);
    Ends(xs, g, At(r, h), At(m, h), h);
    OnRankHalves(xs, cp, h, r);
    OnRankHalves(g, cp, h, r);
    DotAppend(Block(xs, r, h), Block(g, r, h), Block(xs, m, h), Block(g, m, h));
    BlockIs(xs, r, h);
    BlockIs(g, r, h);
    BlockIs(xs, m, h);
    BlockIs(g, m, h);
  }

  lemma BlockIs<T>(xs: seq<T>, b: nat, h: nat)
    requires At(b, h) + h <= |xs|
    ensures Block(xs, b, h) == xs[At(b, h)..At(b, h) + h]
  {
  }

  /** A block at `a` extends the front, a block at `b` the back. */
  lemma Ends(xs: seq<real>, g: seq<real>, a: nat, b: nat, h: nat)
    requires |xs| == |g| && a + h <= |xs| && b + h <= |xs|
    ensures Dot(xs[..a + h], g[..a + h]) == Dot(xs[..a], g[..a]) + Dot(xs[a..a + h], g[a..a + h])
    ensures Dot(xs[b..], g[b..]) == Dot(xs[b..b + h], g[b..b + h]) + Dot(xs[b + h..], g[b + h..])
  {
    assert xs[..a + h] == xs[..a] + xs[a..a + h] && g[..a + h] == g[..a] + g[a..a + h];
    DotAppend(xs[..a], g[..a], xs[a..a + h], g[a..a + h]);
    assert xs[b..] == xs[b..b + h] + xs[b + h..] && g[b..] == g[b..b + h] + g[b + h..];
    DotAppend(xs[b..b + h], g[b..b + h], xs[b + h..], g[b + h..]);
  }

  /** The sum over ranks of what the backward pass pairs with each rank's tensor. */
  function BackwardDots(parts: seq<seq<real>>, g: seq<real>, k: nat): real
    requires k <= |parts| && forall s: nat :: s < |parts| ==> |OnRank(g, s, |parts|)| == |parts[s]|
  {
    if k == 0 then 0.0
    else BackwardDots(parts, g, k - 1) + Dot(parts[k - 1], OnRank(g, k - 1, |parts|))
  }

  lemma GradientSize(parts: seq<seq<real>>, h: nat, g: seq<real>)
    requires Shares(parts, h) && |g| == At(2 * |parts|, h)
    ensures forall s: nat :: s < |parts| ==> |OnRank(g, s, |parts|)| == |parts[s]|
  {
    ExactHalf(|parts|, h);
  }

  lemma {:induction false} BackwardIsRankDots(parts: seq<seq<real>>, h: nat, g: seq<real>, k: nat)
    requires Shares(parts, h) && |g| == At(2 * |parts|, h) == |Gathered(parts, h)| && k <= |parts|
    requires forall s: nat :: s < |parts| ==> |OnRank(g, s, |parts|)| == |parts[s]|
    ensures BackwardDots(parts, g, k) == RankDots(Gathered(parts, h), g, |parts|, k)
    decreases k
  {
    hide At, Gathered, OnRank, Dot;
    if k == 0 {
    } else {
      BackwardIsRankDots(parts, h, g, k - 1);
      ShardUndoesGather(parts, h, k - 1);
    }
  }

  /** Pairing the gathered tensor with a summed gradient is pairing every rank's tensor with what the backward pass
      selects for it. */
  lemma SelectionIsAdjoint(parts: seq<seq<real>>, h: nat, g: seq<real>)
    requires Shares(parts, h) && |g| == At(2 * |parts|, h)
    ensures |Gathered(parts, h)| == |g| && forall s: nat :: s < |parts| ==> |OnRank(g, s, |parts|)| == |parts[s]|
    ensures Dot(Gathered(parts, h), g) == BackwardDots(parts, g, |parts|)
  {
    var (cp, xs) := (|parts|, Gathered(parts, h));
    GatheredBlock(parts, h, 0);
    GradientSize(parts, h, g);
    BackwardIsRankDots(parts, h, g, cp);
    RankDotsCover(xs, g, cp, h, cp);
    WholeDot(xs, g, At(cp, h));
    assert 2 * cp - cp == cp;
  }

  lemma WholeDot(xs: seq<real>, g: seq<real>, m: nat)
    requires |xs| == |g| && m <= |xs|
    ensures Dot(xs, g) == Dot(xs[..m], g[..m]) + Dot(xs[m..], g[m..])
  {
    assert xs == xs[..m] + xs[m..] && g == g[..m] + g[m..];
    DotAppend(xs[..m], g[..m], xs[m..], g[m..]);
  }

  // ------------------------------------------------------------ the sum over ranks

  /** The gradients of the first `k` ranks added up, entry by entry. */
  function AllReduce(grads: seq<seq<real>>, n: nat, k: nat): (r: seq<real>)
    requires k <= |grads| && forall s :: 0 <= s < |grads| ==> |grads[s]| == n
    ensures |r| == n
  {
    if k == 0 then seq(n, _ => 0.0) else Plus(AllReduce(grads, n, k - 1), grads[k - 1])
  }

  function Plus(xs: seq<real>, ys: seq<real>): (r: seq<real>)
    requires |xs| == |ys|
    ensures |r| == |xs| && forall i :: 0 <= i < |r| ==> r[i] == xs[i] + ys[i]
  {
    seq(|xs|, i requires 0 <= i < |xs| => xs[i] + ys[i])
  }

  /** What the first `k` ranks' losses see of the gathered tensor, each through its own gradient. */
  function ForwardDots(xs: seq<real>, grads: seq<seq<real>>, k: nat): real
    requires k <= |grads| && forall s :: 0 <= s < |grads| ==> |grads[s]| == |xs|
  {
    if k == 0 then 0.0 else ForwardDots(xs, grads, k - 1) + Dot(xs, grads[k - 1])
  }

  lemma {:induction false} DotPlus(xs: seq<real>, a: seq<real>, b: seq<real>)
    requires |xs| == |a| == |b|
    ensures Dot(xs, Plus(a, b)) == Dot(xs, a) + Dot(xs, b)
  {
    if xs == [] {
    } else {
      assert Plus(a, b)[1..] == Plus(a[1..], b[1..]);
      DotPlus(xs[1..], a[1..], b[1..]);
      Distributes(xs[0], a[0], b[0]);
    }
  }

  lemma Distributes(x: real, a: real, b: real)
    ensures Product(x, a + b) == Product(x, a) + Product(x, b)
  {
  }

  lemma {:induction false} DotZero(xs: seq<real>, zeros: seq<real>)
    requires |xs| == |zeros| && forall i :: 0 <= i < |zeros| ==> zeros[i] == 0.0
    ensures Dot(xs, zeros) == 0.0
  {
    if xs == [] {
    } else {
      DotZero(xs[1..], zeros[1..]);
    }
  }

  lemma {:induction false} DotOfSum(xs: seq<real>, grads: seq<seq<real>>, k: nat)
    requires k <= |grads| && forall s :: 0 <= s < |grads| ==> |grads[s]| == |xs|
    ensures Dot(xs, AllReduce(grads, |xs|, k)) == ForwardDots(xs, grads, k)
  {
    if k == 0 {
      DotZero(xs, AllReduce(grads, |xs|, 0));
    } else {
      DotOfSum(xs, grads, k - 1);
      DotPlus(xs, AllReduce(grads, |xs|, k - 1), grads[k - 1]);
    }
  }

  /** The backward pass, with its sum over ranks, is the adjoint of the gather: what every rank's loss sees of the
      gathered tensor, added up, is what the ranks' tensors give with the gradients returned for them. */
  lemma BackwardIsAdjoint(parts: seq<seq<real>>, h: nat, grads: seq<seq<real>>)
    requires Shares(parts, h) && |grads| == |parts|
    requires forall s :: 0 <= s < |grads| ==> |grads[s]| == At(2 * |parts|, h)
    ensures |Gathered(parts, h)| == At(2 * |parts|, h)
    ensures var g := AllReduce(grads, At(2 * |parts|, h), |grads|);
            && (forall s: nat :: s < |parts| ==> |OnRank(g, s, |parts|)| == |parts[s]|)
            && ForwardDots(Gathered(parts, h), grads, |grads|) == BackwardDots(parts, g, |parts|)
  {
    hide Gathered, OnRank, Dot, AllReduce, BackwardDots, ForwardDots, At;
    var g := AllReduce(grads, At(2 * |parts|, h), |grads|);
    SelectionIsAdjoint(parts, h, g);
    DotOfSum(Gathered(parts, h), grads, |grads|);
  }
}
