/** What group baselines guarantee when every sample counts (nemo_rl/algorithms/utils.py, nemo_rl/algorithms/grpo.py):
    advantages that sum to zero, and which groups the zero-spread filter splits. */
module Advantages {
  import opened Baselines
  import opened GroupStatistics
  import opened Sequences

  // ------------------------------------------------------------ advantages

  /** Rewards less baselines. */
  function AdvantagesOf(xs: seq<real>, leaveOut: bool): (r: seq<real>)
    ensures |r| == |xs|
    ensures forall k :: 0 <= k < |xs| ==> r[k] == xs[k] - SampleStat(xs, Ones(|xs|), k, leaveOut).baseline
  {
    seq(|xs|, k requires 0 <= k < |xs| => xs[k] - SampleStat(xs, Ones(|xs|), k, leaveOut).baseline)
  }

  /** Rewards less the group's mean. */
  function Centred(xs: seq<real>): (r: seq<real>)
    requires xs != []
    ensures |r| == |xs| && forall k :: 0 <= k < |xs| ==> r[k] == xs[k] - Mean(xs)
  {
    seq(|xs|, k requires 0 <= k < |xs| => xs[k] - Mean(xs))
  }

  lemma {:induction false} SumLess(xs: seq<real>, c: real, r: seq<real>)
    requires |r| == |xs| && forall k :: 0 <= k < |xs| ==> r[k] == xs[k] - c
    ensures RealSum(r) == RealSum(xs) - Product(|xs| as real, c)
  {
    if xs == [] {
    } else {
      SumLess(xs[1..], c, r[1..]);
    }
  }

  lemma CentredSum(xs: seq<real>)
    requires xs != []
    ensures RealSum(Centred(xs)) == 0.0
  {
    SumLess(xs, Mean(xs), Centred(xs));
    MeanTimes(xs);
  }

  /** Leaving a sample out of its own baseline stretches the mean-centred advantage by n / (n - 1). */
  lemma LeaveOneOutScales(xs: seq<real>)
    requires |xs| > 1
    ensures AdvantagesOf(xs, true) == Scaled(Centred(xs), |xs| as real / (|xs| - 1) as real)
  {
    forall k | 0 <= k < |xs|
      ensures AdvantagesOf(xs, true)[k] == Scaled(Centred(xs), |xs| as real / (|xs| - 1) as real)[k]
    {
      StatIs(xs, k, true);
      LeftOutSum(xs, k);
      LeftOutAdvantage(xs[k], RealSum(xs), |xs| as real);
    }
  }

  lemma LeftOutSum(xs: seq<real>, k: nat)
    requires k < |xs|
    ensures RealSum(Used(xs, k, true)) == RealSum(xs) - xs[k]
  {
    RealSumAppend(xs[..k], xs[k + 1..]);
    RealSumAppend(xs[..k], xs[k..]);
    assert xs == xs[..k] + xs[k..];
    SumHead(xs, k);
  }

  lemma SumHead(xs: seq<real>, k: nat)
    requires k < |xs|
    ensures RealSum(xs[k..]) == xs[k] + RealSum(xs[k + 1..])
  {
    assert xs[k..][1..] == xs[k + 1..];
  }

  lemma LeftOutAdvantage(x: real, sum: real, n: real)
    requires n > 1.0
    ensures x - (sum - x) / (n - 1.0) == Product(n / (n - 1.0), x - sum / n)
  {
    var (d, m, b) := (n - 1.0, sum / n, (sum - x) / (n - 1.0));
    assert b * d == sum - x && n * m == sum;
    ScaleQuotient(x - m, n, d);
    assert (x - m) * (n / d) == (n * (x - m)) / d;
    assert (x - b) * d == n * (x - m);
    assert (n * (x - m)) / d == x - b;
  }

  /** In both modes the advantages of a group sum to zero. */
  lemma GroupAdvantagesSumToZero(xs: seq<real>, leaveOut: bool)
    requires xs != []
    ensures RealSum(AdvantagesOf(xs, leaveOut)) == 0.0
  {
    CentredSum(xs);
    if |xs| == 1 {
      StatIs(xs, 0, leaveOut);
      assert AdvantagesOf(xs, leaveOut) == [0.0];
    } else if leaveOut {
      LeaveOneOutScales(xs);
      ScaledSum(Centred(xs), |xs| as real / (|xs| - 1) as real);
    } else {
      forall k | 0 <= k < |xs| ensures AdvantagesOf(xs, false)[k] == Centred(xs)[k] { StatIs(xs, k, false); }
      assert AdvantagesOf(xs, false) == Centred(xs);
    }
  }

  // ------------------------------------------------------------ filtering

  /** The filter on the spread keeps sample `k`. */
  predicate Kept(xs: seq<real>, k: nat, leaveOut: bool)
    requires k < |xs|
  {
    SampleStat(xs, Ones(|xs|), k, leaveOut).spread != NO_SPREAD
  }

  /** Some of the group is kept and some dropped. */
  ghost predicate SplitsGroup(xs: seq<real>, leaveOut: bool) {
    exists k: nat, l: nat :: k < |xs| && l < |xs| && Kept(xs, k, leaveOut) && !Kept(xs, l, leaveOut)
  }

  /** The other samples of the group are equal to each other but not to sample `k`. */
  predicate OddOneOut(xs: seq<real>, k: nat)
    requires k < |xs|
  {
    AllEqual(Used(xs, k, true)) && !AllEqual(xs)
  }

  /** With the mean baseline a group is kept or dropped as a whole, and dropped exactly when its rewards are equal. */
  lemma MeanFilterKeepsGroups(xs: seq<real>)
    ensures !SplitsGroup(xs, false)
    ensures forall k: nat :: k < |xs| ==> (Kept(xs, k, false) <==> !AllEqual(xs))
  {
    forall k: nat | k < |xs| ensures Kept(xs, k, false) <==> !AllEqual(xs) {
      NoSpreadIff(xs, k, false);
    }
  }

  /** With the leave-one-out baseline a group of three or more is split exactly when one sample differs from the rest,
      which are equal: that sample's own spread is zero. */
  lemma LeaveOneOutSplitsIff(xs: seq<real>)
    requires |xs| > 2
    ensures SplitsGroup(xs, true) <==> exists k: nat :: k < |xs| && OddOneOut(xs, k)
  {
    hide Kept, OddOneOut;
    if SplitsGroup(xs, true) {
      var k: nat, l: nat :| k < |xs| && l < |xs| && Kept(xs, k, true) && !Kept(xs, l, true);
      DroppedIsOdd(xs, k, l);
    }
    if k: nat :| k < |xs| && OddOneOut(xs, k) {
      var l := if k == 0 then 1 else 0;
      OddIsDropped(xs, k, l);
    }
  }

  /** What equality of the others means, position by position. */
  lemma OthersEqual(xs: seq<real>, k: nat)
    requires k < |xs|
    ensures AllEqual(Used(xs, k, true))
       <==> forall i, j :: 0 <= i < |xs| && 0 <= j < |xs| && i != k && j != k ==> xs[i] == xs[j]
  {
    var others := Used(xs, k, true);
    assert forall i :: 0 <= i < |xs| && i != k ==> xs[i] == others[if i < k then i else i - 1];
    assert forall p :: 0 <= p < |others| ==> others[p] == xs[if p < k then p else p + 1];
  }

  lemma DroppedIsOdd(xs: seq<real>, k: nat, l: nat)
    requires k < |xs| && l < |xs| && Kept(xs, k, true) && !Kept(xs, l, true)
    ensures OddOneOut(xs, l)
  {
    NoSpreadIff(xs, k, true);
    NoSpreadIff(xs, l, true);
    OthersEqual(xs, k);
    hide Used, SampleStat;
  }

  lemma OddIsDropped(xs: seq<real>, k: nat, l: nat)
    requires |xs| > 2 && k < |xs| && l < |xs| && k != l && OddOneOut(xs, k)
    ensures Kept(xs, l, true) && !Kept(xs, k, true)
  {
    NoSpreadIff(xs, k, true);
    NoSpreadIff(xs, l, true);
    OthersEqual(xs, k);
    OthersEqual(xs, l);
    hide Used, SampleStat;
    var i, j :| 0 <= i < |xs| && 0 <= j < |xs| && xs[i] != xs[j];
    var o := if 0 != k && 0 != l then 0 else if 1 != k && 1 != l then 1 else 2;
    assert xs[k] != xs[o];
  }

  /** A group of two is never kept with the leave-one-out baseline: one sample has no spread. */
  lemma PairsAreDropped(xs: seq<real>, k: nat)
    requires |xs| <= 2 && k < |xs|
    ensures !Kept(xs, k, true)
  {
    StatIs(xs, k, true);
  }

  /** One success among three attempts: its own spread is zero and the others' is not, so the group is split. */
  lemma SplitGroupExample()
    ensures SplitsGroup([1.0, 0.0, 0.0], true)
  {
    var xs := [1.0, 0.0, 0.0];
    hide SampleStat;
    NoSpreadIff(xs, 0, true);
    NoSpreadIff(xs, 1, true);
    assert Used(xs, 1, true)[0] == 1.0 && Used(xs, 1, true)[1] == 0.0;
    assert Kept(xs, 1, true) && !Kept(xs, 0, true);
  }

  // ------------------------------------------------------------ the whole batch

  /** Rewards less baselines, over the batch. */
  function Less(rewards: seq<real>, baseline: seq<real>): (r: seq<real>)
    requires |baseline| == |rewards|
    ensures |r| == |rewards| && forall i :: 0 <= i < |r| ==> r[i] == rewards[i] - baseline[i]
  {
    seq(|rewards|, i requires 0 <= i < |rewards| => rewards[i] - baseline[i])
  }

  /** In the arrays written for a batch of valid samples, the advantages of every prompt's samples sum to zero. */
  lemma BatchAdvantagesSumToZero<P>(prompts: seq<P>, rewards: seq<real>, leaveOut: bool, i: nat, baseline: seq<real>,
                                    spread: seq<Spread>)
    requires i < |rewards| == |prompts| == |baseline| == |spread|
    requires GroupWritten(prompts, rewards, Ones(|prompts|), leaveOut, prompts[i], baseline, spread)
    ensures var group := Group(prompts, prompts[i]);
            && Select(Less(rewards, baseline), group) == AdvantagesOf(Select(rewards, group), leaveOut)
            && RealSum(Select(Less(rewards, baseline), group)) == 0.0
  {
    hide SampleStat;
    var idx := Group(prompts, prompts[i]);
    var xs := Select(rewards, idx);
    assert i in idx;
    assert Select(Ones(|prompts|), idx) == Ones(|xs|);
    assert Select(Less(rewards, baseline), idx) == AdvantagesOf(xs, leaveOut);
    GroupAdvantagesSumToZero(xs, leaveOut);
  }

  /** With the mean baseline, a sample of the batch has no spread exactly when its prompt's rewards are all equal. */
  lemma BatchSpreadByPrompt<P>(prompts: seq<P>, rewards: seq<real>, i: nat, baseline: seq<real>, spread: seq<Spread>)
    requires i < |rewards| == |prompts| == |baseline| == |spread|
    requires GroupWritten(prompts, rewards, Ones(|prompts|), false, prompts[i], baseline, spread)
    ensures spread[i] == NO_SPREAD <==> AllEqual(Select(rewards, Group(prompts, prompts[i])))
  {
    hide SampleStat;
    var idx := Group(prompts, prompts[i]);
    var k: nat :| k < |idx| && idx[k] == i;
    assert Select(Ones(|prompts|), idx) == Ones(|idx|);
    assert Stat(baseline[idx[k]], spread[idx[k]]) == SampleStat(Select(rewards, idx), Ones(|idx|), k, false);
    NoSpreadIff(Select(rewards, idx), k, false);
  }

  // ------------------------------------------------------------ normalisation

  function Normalized(advantage: real, std: real, epsilon: real): real
    requires epsilon >= 0.0
  {
    if std > 0.0 then advantage / (std + epsilon) else advantage
  }

  /** Divides by the spread through a mask, in place: entries without spread stay as they are. */
  method NormalizeAdvantages(advantages: array<real>, std: seq<real>, epsilon: real)
    requires |std| == advantages.Length && epsilon >= 0.0
    modifies advantages
    ensures forall i :: 0 <= i < |std| ==> advantages[i] == Normalized(old(advantages[i]), std[i], epsilon)
  {
    for i := 0 to |std|
      invariant forall j :: 0 <= j < |std| ==>
        advantages[j] == if j < i then Normalized(old(advantages[j]), std[j], epsilon) else old(advantages[j])
    {
      if std[i] > 0.0 { advantages[i] := advantages[i] / (std[i] + epsilon); }
    }
  }

  /** Normalising never flips the sign of an advantage. */
  lemma NormalizedKeepsSign(a: real, std: real, epsilon: real)
    requires epsilon >= 0.0
    ensures Normalized(a, std, epsilon) > 0.0 <==> a > 0.0
    ensures Normalized(a, std, epsilon) == 0.0 <==> a == 0.0
  {
    if std > 0.0 {
      var (d, q) := (std + epsilon, a / (std + epsilon));
      assert Product(q, d) == a;
      if q > 0.0 { ProductPositive(q, d); }
      if q < 0.0 {
        ProductPositive(-q, d);
        assert Product(-q, d) == -a;
      }
    }
  }

  /** With the mean baseline a group shares one spread, and its normalised advantages still sum to zero. */
  lemma NormalizedSumToZero(xs: seq<real>, std: real, epsilon: real, r: seq<real>)
    requires xs != [] && epsilon >= 0.0 && |r| == |xs|
    requires forall k :: 0 <= k < |xs| ==> r[k] == Normalized(AdvantagesOf(xs, false)[k], std, epsilon)
    ensures RealSum(r) == 0.0
  {
    var advantages := AdvantagesOf(xs, false);
    GroupAdvantagesSumToZero(xs, false);
    if std > 0.0 {
      var c := 1.0 / (std + epsilon);
      forall k | 0 <= k < |xs| ensures r[k] == Product(c, advantages[k]) {
        Reciprocal(advantages[k], std + epsilon);
      }
      assert r == Scaled(advantages, c);
      ScaledSum(advantages, c);
    } else {
      assert r == advantages;
    }
  }

  lemma Reciprocal(x: real, d: real)
    requires d > 0.0
    ensures x / d == Product(1.0 / d, x)
  {
    ScaleQuotient(x, 1.0, d);
  }

  lemma {:induction false} ScaledDeviations(ys: seq<real>, c: real)
    ensures SquaredDeviations(Scaled(ys, c), 0.0) == Product(Square(c), SquaredDeviations(ys, 0.0))
  {
    if ys == [] {
    } else {
      assert Scaled(ys, c)[1..] == Scaled(ys[1..], c);
      ScaledDeviations(ys[1..], c);
      SquareOfScaled(c, ys[0], SquaredDeviations(ys[1..], 0.0));
    }
  }

  lemma SquareOfScaled(c: real, y: real, rest: real)
    ensures Square(Product(c, y) - 0.0) + Product(Square(c), rest) == Product(Square(c), Square(y - 0.0) + rest)
  {
    assert (c * y) * (c * y) == (c * c) * (y * y);
  }

  lemma {:induction false} CentredDeviations(xs: seq<real>, c: real, ys: seq<real>)
    requires |ys| == |xs| && forall k :: 0 <= k < |xs| ==> ys[k] == xs[k] - c
    ensures SquaredDeviations(ys, 0.0) == SquaredDeviations(xs, c)
  {
    if xs == [] {
    } else {
      CentredDeviations(xs[1..], c, ys[1..]);
    }
  }

  /** With the mean baseline, a group whose spread is `std` comes out with the spread std / (std + epsilon): without an
      epsilon its sample variance is 1. */
  lemma NormalizedSpread(xs: seq<real>, std: real, epsilon: real, r: seq<real>)
    requires |xs| > 1 && std > 0.0 && epsilon >= 0.0 && |r| == |xs|
    requires SampleSpread(xs) == RootOf(Square(std))
    requires forall k :: 0 <= k < |xs| ==> r[k] == Normalized(AdvantagesOf(xs, false)[k], std, epsilon)
    ensures SampleSpread(r) == RootOf(Square(std / (std + epsilon)))
    ensures epsilon == 0.0 ==> SampleSpread(r) == RootOf(1.0)
  {
    hide SampleStat, Square, RealSum, SquaredDeviations, Product;
    var (advantages, c) := (AdvantagesOf(xs, false), 1.0 / (std + epsilon));
    NormalizedSumToZero(xs, std, epsilon, r);
    forall k | 0 <= k < |xs| ensures r[k] == Product(c, advantages[k]) { Reciprocal(advantages[k], std + epsilon); }
    assert r == Scaled(advantages, c);
    ScaledDeviations(advantages, c);
    forall k | 0 <= k < |xs| ensures advantages[k] == xs[k] - Mean(xs) { StatIs(xs, k, false); }
    CentredDeviations(xs, Mean(xs), advantages);
    SpreadScales(SquaredDeviations(xs, Mean(xs)), (|xs| - 1) as real, std, epsilon);
  }

  lemma SpreadScales(deviations: real, n: real, std: real, epsilon: real)
    requires n > 0.0 && std > 0.0 && epsilon >= 0.0 && deviations / n == Square(std)
    ensures Product(Square(1.0 / (std + epsilon)), deviations) / n == Square(std / (std + epsilon))
    ensures epsilon == 0.0 ==> Square(std / (std + epsilon)) == 1.0
  {
    var (c, q) := (1.0 / (std + epsilon), std / (std + epsilon));
    assert q == c * std by { Reciprocal(std, std + epsilon); }
    assert deviations == Square(std) * n;
    assert Product(Square(c), deviations) == Square(q) * n;
  }
}
