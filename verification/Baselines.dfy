/** Group baselines (nemo_rl/algorithms/utils.py): every sample gets a baseline and a spread from the samples of its
    prompt, leaving itself out or not. In exact reals; a spread, which is a square root, is kept as its square. */
module Baselines {
  import opened Sequences

  // ------------------------------------------------------------ one group

  function Weighted(xs: seq<real>, valid: seq<real>): (r: seq<real>)
    requires |valid| == |xs|
    ensures |r| == |xs| && forall k :: 0 <= k < |xs| ==> r[k] == xs[k] * valid[k]
  {
    seq(|xs|, k requires 0 <= k < |xs| => xs[k] * valid[k])
  }

  function Square(x: real): real {
    Product(x, x)
  }

  function Squares(xs: seq<real>): (r: seq<real>)
    ensures |r| == |xs| && forall k :: 0 <= k < |xs| ==> r[k] == Square(xs[k])
  {
    seq(|xs|, k requires 0 <= k < |xs| => Square(xs[k]))
  }

  /** One row of the mask matrix times `xs`: everything, or everything but entry `k`. */
  function RowSum(xs: seq<real>, k: int, leaveOut: bool): real {
    if xs == [] then 0.0
    else (if leaveOut && k == 0 then 0.0 else xs[0]) + RowSum(xs[1..], k - 1, leaveOut)
  }

  /** A spread: the root of a square, or the largest float, which `nan_to_num` puts in place of infinity. */
  datatype Spread = RootOf(square: real) | LargestFloat

  const NO_SPREAD := RootOf(0.0)

  /** The root of x * (n / (n - 1)), repaired by `nan_to_num(0)`. The root of a negative number is not a number and
      becomes 0. With n == 1 the factor is infinite: a positive x gives infinity, a zero or negative one gives no
      number. */
  function SpreadOf(x: real, n: real): (r: Spread)
    ensures r.RootOf? ==> r.square >= 0.0
  {
    if n == 1.0 then if x > 0.0 then LargestFloat else NO_SPREAD
    else
      var square := x * (n / (n - 1.0));
      if square < 0.0 then NO_SPREAD else RootOf(square)
  }

  datatype Stat = Stat(baseline: real, spread: Spread)

  /** What the loop body writes for sample `k` of a group. With at most one valid sample, each is its own baseline. */
  function SampleStat(xs: seq<real>, valid: seq<real>, k: nat, leaveOut: bool): Stat
    requires |valid| == |xs| && k < |xs|
  {
    if RealSum(valid) <= 1.0 then Stat(xs[k], NO_SPREAD)
    else
      var n := RealSum(valid) - if leaveOut then 1.0 else 0.0;
      var mean := RowSum(Weighted(xs, valid), k, leaveOut) / n;
      var square := RowSum(Weighted(Squares(xs), valid), k, leaveOut) / n;
      Stat(mean, SpreadOf(square - Square(mean), n))
  }

  // ------------------------------------------------------------ the loop over prompts

  /** The positions, below `n`, of a prompt's samples. */
  function GroupTo<P(==)>(prompts: seq<P>, p: P, n: nat): (r: seq<int>)
    requires n <= |prompts|
    ensures InRange(r, n) && forall a, b :: 0 <= a < b < |r| ==> r[a] < r[b]
    ensures forall i :: 0 <= i < n ==> (i in r <==> prompts[i] == p)
  {
    if n == 0 then []
    else if prompts[n - 1] == p then GroupTo(prompts, p, n - 1) + [n - 1]
    else GroupTo(prompts, p, n - 1)
  }

  function Group<P(==)>(prompts: seq<P>, p: P): (r: seq<int>)
    ensures InRange(r, |prompts|) && forall i :: 0 <= i < |prompts| ==> (i in r <==> prompts[i] == p)
    ensures forall a, b :: 0 <= a < b < |r| ==> r[a] < r[b]
  {
    GroupTo(prompts, p, |prompts|)
  }

  /** The distinct prompts. The source sorts them; the groups do not overlap, so their order does not matter. */
  function Unique<P(==)>(prompts: seq<P>): (r: seq<P>)
    ensures forall i, j :: 0 <= i < j < |r| ==> r[i] != r[j]
    ensures forall i :: 0 <= i < |prompts| ==> prompts[i] in r
  {
    if prompts == [] then []
    else
      var rest := Unique(prompts[..|prompts| - 1]);
      var last := prompts[|prompts| - 1];
      assert prompts == prompts[..|prompts| - 1] + [last];
      if last in rest then rest else rest + [last]
  }

  /** What the batch should get for a prompt's samples. */
  ghost predicate GroupWritten<P>(prompts: seq<P>, rewards: seq<real>, valid: seq<real>, leaveOut: bool, p: P,
                                      baseline: seq<real>, spread: seq<Spread>)
    requires |rewards| == |valid| == |prompts| == |baseline| == |spread|
  {
    var idx := Group(prompts, p);
    forall k: nat :: k < |idx| ==>
      Stat(baseline[idx[k]], spread[idx[k]]) == SampleStat(Select(rewards, idx), Select(valid, idx), k, leaveOut)
  }

  /** The whole computation: one pass over the distinct prompts, each writing its samples' entries. */
  method BaselineAndSpread<P(==)>(prompts: seq<P>, rewards: seq<real>, valid: seq<real>, leaveOut: bool)
    returns (baseline: array<real>, spread: array<Spread>)
    requires |rewards| == |valid| == |prompts|
    ensures baseline.Length == spread.Length == |prompts|
    ensures forall i :: 0 <= i < |prompts| ==>
      GroupWritten(prompts, rewards, valid, leaveOut, prompts[i], baseline[..], spread[..])
  {
    baseline := new real[|prompts|](_ => 0.0);
    spread := new Spread[|prompts|](_ => NO_SPREAD);
    var unique := Unique(prompts);
    hide *;
    for u := 0 to |unique|
      invariant fresh(baseline) && fresh(spread) && baseline.Length == spread.Length == |prompts|
      invariant AllWritten(prompts, rewards, valid, leaveOut, unique[..u], baseline[..], spread[..])
    {
      ghost var (b0, s0) := (baseline[..], spread[..]);
      WriteGroup(prompts, rewards, valid, leaveOut, unique[u], baseline, spread);
      OneMoreWritten(prompts, rewards, valid, leaveOut, unique, u, b0, s0, baseline[..], spread[..]);
    }
    EveryPromptWritten(prompts, rewards, valid, leaveOut, unique, baseline[..], spread[..]);
  }

  ghost predicate AllWritten<P>(prompts: seq<P>, rewards: seq<real>, valid: seq<real>, leaveOut: bool, ps: seq<P>,
                                baseline: seq<real>, spread: seq<Spread>)
    requires |rewards| == |valid| == |prompts| == |baseline| == |spread|
  {
    forall w :: 0 <= w < |ps| ==> GroupWritten(prompts, rewards, valid, leaveOut, ps[w], baseline, spread)
  }

  lemma EveryPromptWritten<P>(prompts: seq<P>, rewards: seq<real>, valid: seq<real>, leaveOut: bool, unique: seq<P>,
                              baseline: seq<real>, spread: seq<Spread>)
    requires |rewards| == |valid| == |prompts| == |baseline| == |spread|
    requires AllWritten(prompts, rewards, valid, leaveOut, unique[..|unique|], baseline, spread)
    requires forall i :: 0 <= i < |prompts| ==> prompts[i] in unique
    ensures forall i :: 0 <= i < |prompts| ==>
      GroupWritten(prompts, rewards, valid, leaveOut, prompts[i], baseline, spread)
  {
    hide GroupWritten;
  }

  /** One turn of the loop. */
  method WriteGroup<P(==)>(prompts: seq<P>, rewards: seq<real>, valid: seq<real>, leaveOut: bool, p: P,
                           baseline: array<real>, spread: array<Spread>)
    requires |rewards| == |valid| == |prompts| == baseline.Length == spread.Length
    modifies baseline, spread
    ensures GroupWritten(prompts, rewards, valid, leaveOut, p, baseline[..], spread[..])
    ensures forall i :: 0 <= i < |prompts| && prompts[i] != p ==>
      baseline[i] == old(baseline[i]) && spread[i] == old(spread[i])
  {
    hide SampleStat;
    var idx := Group(prompts, p);
    var (xs, ones) := (Select(rewards, idx), Select(valid, idx));
    for k := 0 to |idx|
      invariant forall j: nat :: j < k ==>
        Stat(baseline[idx[j]], spread[idx[j]]) == SampleStat(xs, ones, j, leaveOut)
      invariant forall i :: 0 <= i < |prompts| && prompts[i] != p ==>
        baseline[i] == old(baseline[i]) && spread[i] == old(spread[i])
    {
      var stat := SampleStat(xs, ones, k, leaveOut);
      assert prompts[idx[k]] == p;
      baseline[idx[k]] := stat.baseline;
      spread[idx[k]] := stat.spread;
    }
  }

  /** Another prompt's turn leaves a prompt's entries alone. */
  lemma OneMoreWritten<P>(prompts: seq<P>, rewards: seq<real>, valid: seq<real>, leaveOut: bool, unique: seq<P>, u: nat,
                          b0: seq<real>, s0: seq<Spread>, b1: seq<real>, s1: seq<Spread>)
    requires |rewards| == |valid| == |prompts| == |b0| == |s0| == |b1| == |s1|
    requires u < |unique| && forall w :: 0 <= w < u ==> unique[w] != unique[u]
    requires AllWritten(prompts, rewards, valid, leaveOut, unique[..u], b0, s0)
    requires GroupWritten(prompts, rewards, valid, leaveOut, unique[u], b1, s1)
    requires forall i :: 0 <= i < |prompts| && prompts[i] != unique[u] ==> b1[i] == b0[i] && s1[i] == s0[i]
    ensures AllWritten(prompts, rewards, valid, leaveOut, unique[..u + 1], b1, s1)
  {
    hide GroupWritten;
    forall w | 0 <= w < u ensures GroupWritten(prompts, rewards, valid, leaveOut, unique[w], b1, s1) {
      assert unique[..u][w] == unique[w];
      OtherGroup(prompts, rewards, valid, leaveOut, unique[w], unique[u], b0, s0, b1, s1);
    }
  }

  lemma OtherGroup<P>(prompts: seq<P>, rewards: seq<real>, valid: seq<real>, leaveOut: bool, p: P, q: P,
                          b0: seq<real>, s0: seq<Spread>, b1: seq<real>, s1: seq<Spread>)
    requires |rewards| == |valid| == |prompts| == |b0| == |s0| == |b1| == |s1| && p != q
    requires GroupWritten(prompts, rewards, valid, leaveOut, p, b0, s0)
    requires forall i :: 0 <= i < |prompts| && prompts[i] != q ==> b1[i] == b0[i] && s1[i] == s0[i]
    ensures GroupWritten(prompts, rewards, valid, leaveOut, p, b1, s1)
  {
    hide SampleStat;
    var idx := Group(prompts, p);
    forall k: nat | k < |idx| ensures b1[idx[k]] == b0[idx[k]] && s1[idx[k]] == s0[idx[k]] {
      assert idx[k] in idx;
    }
  }
}
