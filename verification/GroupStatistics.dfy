/** What the statistics of a group are (nemo_rl/algorithms/utils.py): the mean and the sample variance of the samples
    used, under any mask, and what a masked sample gets when it is left out of a sum it was never in. */
module GroupStatistics {
  import opened Baselines
  import opened Sequences

  predicate ZeroOne(valid: seq<real>) {
    forall i :: 0 <= i < |valid| ==> valid[i] == 0.0 || valid[i] == 1.0
  }

  function Ones(n: nat): (r: seq<real>)
    ensures |r| == n && forall i :: 0 <= i < n ==> r[i] == 1.0
  {
    seq(n, _ => 1.0)
  }

  /** The valid samples in order, without the one at `skip`. */
  function ValidExcept(xs: seq<real>, valid: seq<real>, skip: int): seq<real>
    requires |valid| == |xs|
  {
    if xs == [] then []
    else (if skip == 0 || valid[0] == 0.0 then [] else [xs[0]]) + ValidExcept(xs[1..], valid[1..], skip - 1)
  }

  /** The samples used for sample `k`: the valid ones of its group, itself left out or not. */
  function UsedValid(xs: seq<real>, valid: seq<real>, k: nat, leaveOut: bool): seq<real>
    requires |valid| == |xs|
  {
    ValidExcept(xs, valid, if leaveOut then k else -1)
  }

  /** The samples used when all count: the group, or the group without sample `k`. */
  function Used(xs: seq<real>, k: nat, leaveOut: bool): (r: seq<real>)
    requires k < |xs|
    ensures |r| == |xs| - if leaveOut then 1 else 0
  {
    if leaveOut then xs[..k] + xs[k + 1..] else xs
  }

  function Mean(xs: seq<real>): real
    requires xs != []
  {
    RealSum(xs) / |xs| as real
  }

  /** The sum of squared differences from `c`. */
  function SquaredDeviations(xs: seq<real>, c: real): real {
    if xs == [] then 0.0 else Square(xs[0] - c) + SquaredDeviations(xs[1..], c)
  }

  /** The sample variance, as the square of a spread; one sample has none. */
  function SampleSpread(xs: seq<real>): Spread
    requires xs != []
  {
    if |xs| == 1 then NO_SPREAD else RootOf(SquaredDeviations(xs, Mean(xs)) / (|xs| - 1) as real)
  }

  // ------------------------------------------------------------ masked sums

  lemma {:induction false} RowSumIsUsed(xs: seq<real>, valid: seq<real>, k: int, leaveOut: bool, skip: int)
    requires |valid| == |xs| && ZeroOne(valid) && if leaveOut then skip == k else skip < 0
    ensures RowSum(Weighted(xs, valid), k, leaveOut) == RealSum(ValidExcept(xs, valid, skip))
  {
    if xs == [] {
    } else {
      RowSumIsUsed(xs[1..], valid[1..], k - 1, leaveOut, skip - 1);
      WeightedHead(xs, valid);
      if skip != 0 && valid[0] != 0.0 {
        assert ValidExcept(xs, valid, skip)[1..] == ValidExcept(xs[1..], valid[1..], skip - 1);
      } else {
        assert ValidExcept(xs, valid, skip) == ValidExcept(xs[1..], valid[1..], skip - 1);
      }
    }
  }

  lemma WeightedHead(xs: seq<real>, valid: seq<real>)
    requires |valid| == |xs| && ZeroOne(valid) && xs != []
    ensures Weighted(xs, valid)[1..] == Weighted(xs[1..], valid[1..])
    ensures Weighted(xs, valid)[0] == if valid[0] == 0.0 then 0.0 else xs[0]
  {
    forall i | 0 <= i < |xs[1..]| ensures Weighted(xs, valid)[i + 1] == xs[1..][i] * valid[1..][i] {
      assert xs[1..][i] == xs[i + 1] && valid[1..][i] == valid[i + 1];
    }
  }

  lemma {:induction false} UsedSquares(xs: seq<real>, valid: seq<real>, skip: int)
    requires |valid| == |xs|
    ensures ValidExcept(Squares(xs), valid, skip) == Squares(ValidExcept(xs, valid, skip))
  {
    hide Square;
    if xs == [] {
    } else {
      UsedSquares(xs[1..], valid[1..], skip - 1);
      assert Squares(xs)[1..] == Squares(xs[1..]);
    }
  }

  lemma {:induction false} UsedCount(xs: seq<real>, valid: seq<real>, skip: int)
    requires |valid| == |xs| && ZeroOne(valid)
    ensures |ValidExcept(xs, valid, skip)| as real == RealSum(valid) - if 0 <= skip < |xs| then valid[skip] else 0.0
  {
    if xs == [] {
    } else {
      UsedCount(xs[1..], valid[1..], skip - 1);
    }
  }

  /** Skipping a masked sample skips nothing. */
  lemma {:induction false} SkipMasked(xs: seq<real>, valid: seq<real>, k: nat, none: int)
    requires |valid| == |xs| && k < |xs| && valid[k] == 0.0 && none < 0
    ensures ValidExcept(xs, valid, k) == ValidExcept(xs, valid, none)
  {
    if k == 0 {
      SkipNothing(xs[1..], valid[1..], -1, none - 1);
    } else {
      SkipMasked(xs[1..], valid[1..], k - 1, none - 1);
    }
  }

  lemma {:induction false} SkipNothing(xs: seq<real>, valid: seq<real>, a: int, b: int)
    requires |valid| == |xs| && a < 0 && b < 0
    ensures ValidExcept(xs, valid, a) == ValidExcept(xs, valid, b)
  {
    if xs == [] {
    } else {
      SkipNothing(xs[1..], valid[1..], a - 1, b - 1);
    }
  }

  lemma {:induction false} AllUsed(xs: seq<real>, skip: int)
    requires skip < |xs|
    ensures ValidExcept(xs, Ones(|xs|), skip) == if skip < 0 then xs else Used(xs, skip, true)
  {
    if xs == [] {
    } else {
      assert Ones(|xs|)[1..] == Ones(|xs[1..]|);
      AllUsed(xs[1..], skip - 1);
      UsedCons(xs, skip);
    }
  }

  lemma UsedCons(xs: seq<real>, skip: int)
    requires xs != [] && skip < |xs|
    ensures xs == [xs[0]] + xs[1..] && (skip == 0 ==> Used(xs, 0, true) == xs[1..])
    ensures skip > 0 ==> Used(xs, skip, true) == [xs[0]] + Used(xs[1..], skip - 1, true)
  {
  }

  // ------------------------------------------------------------ the variance formula

  lemma {:induction false} OnesSum(n: nat)
    ensures RealSum(Ones(n)) == n as real
  {
    if n == 0 {
    } else {
      assert Ones(n)[1..] == Ones(n - 1);
      OnesSum(n - 1);
    }
  }

  /** The squared deviations from `c`, multiplied out. */
  function Expanded(squares: real, sum: real, n: real, c: real): real {
    squares - 2.0 * c * sum + n * Square(c)
  }

  lemma {:induction false} ExpandDeviations(xs: seq<real>, c: real)
    ensures SquaredDeviations(xs, c) == Expanded(RealSum(Squares(xs)), RealSum(xs), |xs| as real, c)
  {
    hide Square, Expanded;
    if xs == [] {
      ExpandNone(c);
    } else {
      ExpandDeviations(xs[1..], c);
      assert Squares(xs)[1..] == Squares(xs[1..]);
      ExpandOne(xs[0], RealSum(Squares(xs[1..])), RealSum(xs[1..]), |xs[1..]| as real, c);
    }
  }

  lemma ExpandNone(c: real)
    ensures Expanded(0.0, 0.0, 0.0, c) == 0.0
  {
  }

  lemma ExpandOne(x: real, squares: real, sum: real, n: real, c: real)
    ensures Square(x - c) + Expanded(squares, sum, n, c) == Expanded(Square(x) + squares, x + sum, n + 1.0, c)
  {
  }

  /** Around the mean the deviations are the squares less n times the squared mean. */
  lemma DeviationsAroundMean(xs: seq<real>)
    requires xs != []
    ensures SquaredDeviations(xs, Mean(xs)) == RealSum(Squares(xs)) - Product(|xs| as real, Square(Mean(xs)))
  {
    hide *;
    ExpandDeviations(xs, Mean(xs));
    MeanTimes(xs);
    ExpandMean(RealSum(Squares(xs)), RealSum(xs), |xs| as real, Mean(xs));
  }

  lemma MeanTimes(xs: seq<real>)
    requires xs != []
    ensures Product(|xs| as real, Mean(xs)) == RealSum(xs)
  {
    QuotientTimes(RealSum(xs), |xs| as real);
  }

  lemma QuotientTimes(x: real, d: real)
    requires d > 0.0
    ensures Product(d, x / d) == x
  {
  }

  lemma ExpandMean(squares: real, sum: real, n: real, c: real)
    requires Product(n, c) == sum
    ensures Expanded(squares, sum, n, c) == squares - Product(n, Square(c))
  {
    assert 2.0 * c * sum == 2.0 * (n * (c * c));
  }

  lemma VarianceFormula(squares: real, square: real, n: real)
    requires n > 1.0
    ensures (squares / n - square) * (n / (n - 1.0)) == (squares - Product(n, square)) / (n - 1.0)
  {
    var a := squares / n;
    assert squares == n * a;
    ScaleQuotient(a - square, n, n - 1.0);
    assert n * (a - square) == squares - n * square;
  }

  lemma ScaleQuotient(x: real, n: real, d: real)
    requires d > 0.0
    ensures x * (n / d) == (n * x) / d
  {
    var q := n / d;
    assert n == q * d;
    assert n * x == (x * q) * d;
  }

  /** The squared differences of every sample in `ys` from every one in `xs`. */
  function Differences(ys: seq<real>, xs: seq<real>): real {
    if ys == [] then 0.0 else SquaredDeviations(xs, ys[0]) + Differences(ys[1..], xs)
  }

  function PairsExpanded(n: real, squares: real, sum: real, m: real, squares': real, sum': real): real {
    n * squares' - 2.0 * sum * sum' + m * squares
  }

  lemma {:induction false} DifferencesAre(ys: seq<real>, xs: seq<real>)
    ensures Differences(ys, xs) == PairsExpanded(|ys| as real, RealSum(Squares(ys)), RealSum(ys),
                                             |xs| as real, RealSum(Squares(xs)), RealSum(xs))
  {
    hide Square, Expanded, PairsExpanded;
    if ys == [] {
      NoPairs(|xs| as real, RealSum(Squares(xs)), RealSum(xs));
    } else {
      DifferencesAre(ys[1..], xs);
      ExpandDeviations(xs, ys[0]);
      assert Squares(ys)[1..] == Squares(ys[1..]);
      OneMorePairs(ys[0], |ys[1..]| as real, RealSum(Squares(ys[1..])), RealSum(ys[1..]),
                   |xs| as real, RealSum(Squares(xs)), RealSum(xs));
    }
  }

  lemma NoPairs(m: real, squares: real, sum: real)
    ensures PairsExpanded(0.0, 0.0, 0.0, m, squares, sum) == 0.0
  {
  }

  lemma OneMorePairs(y: real, n: real, squares: real, sum: real, m: real, squares': real, sum': real)
    ensures Expanded(squares', sum', m, y) + PairsExpanded(n, squares, sum, m, squares', sum')
         == PairsExpanded(n + 1.0, Square(y) + squares, y + sum, m, squares', sum')
  {
  }

  /** The sample variance without a mean: the squared differences of all pairs, each pair once, averaged over the
      n * (n - 1) ordered pairs. */
  lemma SpreadIsPairwise(xs: seq<real>)
    requires |xs| > 1
    ensures SampleSpread(xs).RootOf?
    ensures Product(2.0 * Product(|xs| as real, (|xs| - 1) as real), SampleSpread(xs).square) == Differences(xs, xs)
  {
    hide Square, Differences, SquaredDeviations, RealSum, Squares, Mean, PairsExpanded;
    DifferencesAre(xs, xs);
    DeviationsAroundMean(xs);
    MeanTimes(xs);
    PairwiseVariance(|xs| as real, Mean(xs), RealSum(Squares(xs)), RealSum(xs), SquaredDeviations(xs, Mean(xs)));
  }

  lemma PairwiseVariance(n: real, mean: real, squares: real, sum: real, deviations: real)
    requires n > 1.0 && Product(n, mean) == sum && deviations == squares - Product(n, Square(mean))
    ensures Product(2.0 * Product(n, n - 1.0), deviations / (n - 1.0))
         == PairsExpanded(n, squares, sum, n, squares, sum)
  {
    var v := deviations / (n - 1.0);
    assert (n - 1.0) * v == deviations;
    assert 2.0 * (n * (n - 1.0)) * v == 2.0 * n * deviations;
    assert n * (n * (mean * mean)) == sum * sum;
  }

  // ------------------------------------------------------------ the loop body in plain terms

  /** What is written when two or more samples of the group are valid, by the sums over the samples used. */
  function StatOf(used: seq<real>, n: real): Stat
    requires n != 0.0
  {
    Stat(RealSum(used) / n, SpreadOf(RealSum(Squares(used)) / n - Square(RealSum(used) / n), n))
  }

  lemma StatByUsed(xs: seq<real>, valid: seq<real>, k: nat, leaveOut: bool)
    requires |valid| == |xs| && k < |xs| && ZeroOne(valid)
    ensures var (stat, m) := (SampleStat(xs, valid, k, leaveOut), |ValidExcept(xs, valid, -1)|);
            if m <= 1 then stat == Stat(xs[k], NO_SPREAD)
            else stat == StatOf(UsedValid(xs, valid, k, leaveOut), (if leaveOut then m - 1 else m) as real)
  {
    hide Square, RowSum, RealSum, ValidExcept, SpreadOf, Squares, Weighted;
    var skip := if leaveOut then k else -1;
    UsedCount(xs, valid, -1);
    RowSumIsUsed(xs, valid, k, leaveOut, skip);
    RowSumIsUsed(Squares(xs), valid, k, leaveOut, skip);
    UsedSquares(xs, valid, skip);
  }

  /** For a valid sample, and in mean mode for every sample: the mean and the sample variance of the valid samples used,
      when two or more of the group are valid; otherwise its own reward and no spread. */
  lemma MaskedStatIs(xs: seq<real>, valid: seq<real>, k: nat, leaveOut: bool)
    requires |valid| == |xs| && k < |xs| && ZeroOne(valid) && (leaveOut ==> valid[k] == 1.0)
    ensures var (stat, used) := (SampleStat(xs, valid, k, leaveOut), UsedValid(xs, valid, k, leaveOut));
            if |ValidExcept(xs, valid, -1)| <= 1 then stat == Stat(xs[k], NO_SPREAD)
            else used != [] && stat == Stat(Mean(used), SampleSpread(used))
  {
    hide ValidExcept, SampleStat, StatOf;
    var used := UsedValid(xs, valid, k, leaveOut);
    StatByUsed(xs, valid, k, leaveOut);
    UsedCount(xs, valid, -1);
    UsedCount(xs, valid, if leaveOut then k else -1);
    if |ValidExcept(xs, valid, -1)| > 1 { UsedStat(used); }
  }

  lemma UsedStat(used: seq<real>)
    requires used != []
    ensures StatOf(used, |used| as real) == Stat(Mean(used), SampleSpread(used))
  {
    hide SpreadOf, SampleSpread, Square, RealSum;
    SpreadIs(used);
  }

  lemma SpreadIs(used: seq<real>)
    requires used != []
    ensures SpreadOf(RealSum(Squares(used)) / |used| as real - Square(Mean(used)), |used| as real) == SampleSpread(used)
  {
    hide Square, RealSum, SquaredDeviations;
    DeviationsAroundMean(used);
    DeviationsZero(used, Mean(used));
    if |used| > 1 {
      VarianceFormula(RealSum(Squares(used)), Square(Mean(used)), |used| as real);
      QuotientZero(SquaredDeviations(used, Mean(used)), (|used| - 1) as real);
    } else {
      OneSquare(used);
    }
  }

  lemma OneSquare(used: seq<real>)
    requires |used| == 1
    ensures RealSum(Squares(used)) == Square(Mean(used))
  {
    hide Square;
    assert used[1..] == [] && Squares(used)[1..] == [];
  }

  /** A masked sample with the leave-one-out baseline: it is left out of a sum that it is not in, so the sum of all `m`
      valid samples is divided by m - 1. That is their mean only if it is zero. The spread comes from the same
      quotients: with three or more valid samples it is zero when they vary too little, and with two it is zero or the
      largest float, the latter exactly when one reward is positive and the other negative. */
  lemma MaskedSampleStatIs(xs: seq<real>, valid: seq<real>, k: nat)
    requires |valid| == |xs| && k < |xs| && ZeroOne(valid) && valid[k] == 0.0
    ensures var (stat, all) := (SampleStat(xs, valid, k, true), ValidExcept(xs, valid, -1));
            if |all| <= 1 then stat == Stat(xs[k], NO_SPREAD) else OffMean(all, stat)
  {
    hide *;
    MaskedStat(xs, valid, k);
    MaskedSpread(ValidExcept(xs, valid, -1));
  }

  lemma MaskedStat(xs: seq<real>, valid: seq<real>, k: nat)
    requires |valid| == |xs| && k < |xs| && ZeroOne(valid) && valid[k] == 0.0
    ensures var (stat, all) := (SampleStat(xs, valid, k, true), ValidExcept(xs, valid, -1));
            if |all| <= 1 then stat == Stat(xs[k], NO_SPREAD) else stat == StatOf(all, (|all| - 1) as real)
  {
    hide SampleStat, ValidExcept, StatOf;
    StatByUsed(xs, valid, k, true);
    SkipMasked(xs, valid, k, -1);
  }

  /** What a masked sample gets when two or more samples are valid, beside their mean and spread. */
  predicate OffMean(all: seq<real>, stat: Stat)
    requires |all| > 1
  {
    var (sum, squares) := (RealSum(all), RealSum(Squares(all)));
    && stat.baseline == sum / (|all| - 1) as real
    && (stat.baseline == Mean(all) <==> sum == 0.0)
    && (|all| == 2 ==> stat.spread == if Product(all[0], all[1]) < 0.0 then LargestFloat else NO_SPREAD)
    && (|all| > 2 ==> stat.spread.RootOf?)
    && (|all| > 2 ==> (stat.spread == NO_SPREAD <==> Product((|all| - 1) as real, squares) <= Square(sum)))
  }

  lemma MaskedSpread(all: seq<real>)
    ensures |all| > 1 ==> OffMean(all, StatOf(all, (|all| - 1) as real))
  {
    hide Square, RealSum, Squares, SpreadOf, Product, Mean, StatOf;
    if |all| > 1 {
      MaskedBaseline(all);
      if |all| == 2 { TwoValid(all); } else { ManyValid(all); }
    }
  }

  lemma MaskedBaseline(all: seq<real>)
    requires |all| > 1
    ensures var baseline := StatOf(all, (|all| - 1) as real).baseline;
            baseline == RealSum(all) / (|all| - 1) as real && (baseline == Mean(all) <==> RealSum(all) == 0.0)
  {
    hide Square, RealSum, Squares, SpreadOf;
    SameQuotient(RealSum(all), |all| as real);
  }

  lemma ManyValid(all: seq<real>)
    requires |all| > 2
    ensures var (n, spread) := ((|all| - 1) as real, StatOf(all, (|all| - 1) as real).spread);
            && spread.RootOf?
            && (spread == NO_SPREAD <==> Product(n, RealSum(Squares(all))) <= Square(RealSum(all)))
  {
    hide Square, RealSum, Squares, SpreadOf, Product;
    TooLittle(RealSum(Squares(all)), RealSum(all), (|all| - 1) as real);
  }

  lemma SameQuotient(sum: real, m: real)
    requires m > 1.0
    ensures sum / (m - 1.0) == sum / m <==> sum == 0.0
  {
    var (a, b) := (sum / (m - 1.0), sum / m);
    QuotientTimes(sum, m - 1.0);
    QuotientTimes(sum, m);
    assert Product(m - 1.0, a) == Product(m, a) - a;
    if sum == 0.0 { assert a == 0.0 && b == 0.0; }
  }

  lemma TwoValid(all: seq<real>)
    requires |all| == 2
    ensures StatOf(all, 1.0).spread == if Product(all[0], all[1]) < 0.0 then LargestFloat else NO_SPREAD
  {
    hide Square, Product, RealSum, Squares, SpreadOf;
    PairSums(all);
    PairSpread(all[0], all[1]);
  }

  lemma PairSums(all: seq<real>)
    requires |all| == 2
    ensures RealSum(all) == all[0] + all[1] && RealSum(Squares(all)) == Square(all[0]) + Square(all[1])
  {
    hide Square, RealSum;
    PairSum(all);
    PairSum(Squares(all));
  }

  lemma PairSum(xs: seq<real>)
    requires |xs| == 2
    ensures RealSum(xs) == xs[0] + xs[1]
  {
    assert RealSum(xs[1..][1..]) == 0.0;
    assert RealSum(xs[1..]) == xs[1];
  }

  lemma PairSpread(a: real, b: real)
    ensures SpreadOf((Square(a) + Square(b)) / 1.0 - Square((a + b) / 1.0), 1.0)
         == if Product(a, b) < 0.0 then LargestFloat else NO_SPREAD
  {
    hide Square, Product;
    assert (a + b) / 1.0 == a + b;
    Binomial(a, b);
  }

  lemma Binomial(a: real, b: real)
    ensures Square(a + b) == Square(a) + Square(b) + 2.0 * Product(a, b)
  {
  }

  lemma TooLittle(squares: real, sum: real, n: real)
    requires n > 1.0
    ensures var spread := SpreadOf(squares / n - Square(sum / n), n);
            spread.RootOf? && (spread == NO_SPREAD <==> Product(n, squares) <= Square(sum))
  {
    var (a, b) := (squares / n, sum / n);
    assert squares == Product(n, a) && sum == Product(n, b);
    SquareOfProduct(n, a, b);
    var factor := n / (n - 1.0);
    assert Product(factor, n - 1.0) == n;
    SignOfProduct(a - Square(b), factor);
    SignOfProduct(a - Square(b), Square(n));
    ProductPositive(n, n);
  }

  lemma SquareOfProduct(n: real, a: real, b: real)
    ensures Product(n, Product(n, a)) - Square(Product(n, b)) == Product(a - Square(b), Square(n))
  {
  }

  lemma SignOfProduct(x: real, d: real)
    ensures d > 0.0 ==> (Product(x, d) <= 0.0 <==> x <= 0.0) && (Product(x, d) < 0.0 <==> x < 0.0)
  {
    if d > 0.0 {
      if x > 0.0 { ProductPositive(x, d); }
      if x < 0.0 { ProductPositive(-x, d); assert Product(-x, d) == -Product(x, d); }
    }
  }

  /** A masked sample that failed beside three that succeeded gets a baseline of 1.5 and no spread; beside rewards of 1
      and -1 its spread is the largest float. */
  lemma MaskedExamples()
    ensures SampleStat([1.0, 1.0, 1.0, 0.0], [1.0, 1.0, 1.0, 0.0], 3, true) == Stat(1.5, NO_SPREAD)
    ensures SampleStat([1.0, -1.0, 5.0], [1.0, 1.0, 0.0], 2, true) == Stat(0.0, LargestFloat)
  {
  }

  /** The statistics of a group in which every sample counts. */
  lemma StatIs(xs: seq<real>, k: nat, leaveOut: bool)
    requires k < |xs|
    ensures var (stat, used) := (SampleStat(xs, Ones(|xs|), k, leaveOut), Used(xs, k, leaveOut));
            if |xs| == 1 then stat == Stat(xs[k], NO_SPREAD)
            else used != [] && stat == Stat(Mean(used), SampleSpread(used))
  {
    hide SampleStat, ValidExcept, Mean, SampleSpread;
    MaskedStatIs(xs, Ones(|xs|), k, leaveOut);
    AllUsed(xs, -1);
    AllUsed(xs, if leaveOut then k else -1);
  }

  // ------------------------------------------------------------ no spread

  predicate AllEqual(xs: seq<real>) {
    forall i, j :: 0 <= i < |xs| && 0 <= j < |xs| ==> xs[i] == xs[j]
  }

  lemma {:induction false} DeviationsZero(xs: seq<real>, c: real)
    ensures SquaredDeviations(xs, c) >= 0.0
    ensures SquaredDeviations(xs, c) == 0.0 <==> forall i :: 0 <= i < |xs| ==> xs[i] == c
  {
    if xs == [] {
    } else {
      DeviationsZero(xs[1..], c);
      SquareZero(xs[0] - c);
      assert (forall i :: 0 <= i < |xs| ==> xs[i] == c)
        <==> xs[0] == c && forall i :: 0 <= i < |xs[1..]| ==> xs[1..][i] == c by {
        assert forall i :: 0 <= i < |xs[1..]| ==> xs[1..][i] == xs[i + 1];
        assert forall i :: 1 <= i < |xs| ==> xs[i] == xs[1..][i - 1];
      }
    }
  }

  lemma SquareZero(x: real)
    ensures Square(x) >= 0.0 && (Square(x) == 0.0 <==> x == 0.0)
  {
    if x > 0.0 {
      ProductPositive(x, x);
    } else if x < 0.0 {
      Mirrored(x);
      ProductPositive(-x, -x);
    }
  }

  lemma ProductPositive(a: real, b: real)
    requires a > 0.0 && b > 0.0
    ensures Product(a, b) > 0.0
  {
  }

  lemma Mirrored(x: real)
    ensures Square(-x) == Square(x)
  {
  }

  lemma {:induction false} SumOfEqual(xs: seq<real>, c: real)
    requires forall i :: 0 <= i < |xs| ==> xs[i] == c
    ensures RealSum(xs) == Product(|xs| as real, c)
  {
    if xs == [] {
    } else {
      SumOfEqual(xs[1..], c);
    }
  }

  lemma AllEqualIsMean(xs: seq<real>)
    requires xs != []
    ensures AllEqual(xs) <==> forall i :: 0 <= i < |xs| ==> xs[i] == Mean(xs)
  {
    if AllEqual(xs) {
      SumOfEqual(xs, xs[0]);
      MeanTimes(xs);
      Cancel(|xs| as real, xs[0], Mean(xs));
    }
  }

  lemma Cancel(n: real, x: real, y: real)
    requires n > 0.0 && Product(n, x) == Product(n, y)
    ensures x == y
  {
    assert n * (x - y) == 0.0;
  }

  /** The spread is never infinite, and zero exactly when the samples used are equal (or fewer than two). */
  lemma NoSpreadIff(xs: seq<real>, k: nat, leaveOut: bool)
    requires k < |xs|
    ensures var spread := SampleStat(xs, Ones(|xs|), k, leaveOut).spread;
            spread.RootOf? && (spread == NO_SPREAD <==> AllEqual(Used(xs, k, leaveOut)))
  {
    hide SampleStat, SquaredDeviations, Mean;
    var used := Used(xs, k, leaveOut);
    StatIs(xs, k, leaveOut);
    if |used| > 1 {
      DeviationsZero(used, Mean(used));
      AllEqualIsMean(used);
      QuotientZero(SquaredDeviations(used, Mean(used)), (|used| - 1) as real);
    }
  }

  lemma QuotientZero(x: real, d: real)
    requires x >= 0.0 && d > 0.0
    ensures x / d >= 0.0 && (x / d == 0.0 <==> x == 0.0)
  {
    var q := x / d;
    assert q * d == x;
  }
}
