/** What the loss of a batch means (nemo_rl/algorithms/loss_functions.py): masked means over the batch's tensors
    (nemo_rl/algorithms/utils.py), in which a sample or token that is masked out has no part. */
module MaskedLoss {
  import opened PackedLoss
  import opened Sequences

  // ------------------------------------------------------------ masked means

  /** `masked_mean`: over all entries of a tensor, with the given normalisation. */
  function MeanOver(values: seq<real>, mask: seq<real>, count: real): real
    requires |mask| == |values| && count >= 0.0
  {
    Dot(values, mask) / (count + EPSILON)
  }

  lemma {:induction false} MaskedSumIs<X>(f: X -> real, tokens: seq<X>, mask: seq<real>)
    requires |mask| == |tokens|
    ensures MaskedSum(f, tokens, mask) == Dot(Map(f, tokens), mask)
  {
    if tokens == [] {
    } else {
      assert Map(f, tokens)[1..] == Map(f, tokens[1..]);
      MaskedSumIs(f, tokens[1..], mask[1..]);
    }
  }

  lemma {:induction false} DotScaled(values: seq<real>, mask: seq<real>, c: real)
    requires |mask| == |values|
    ensures Dot(values, Scaled(mask, c)) == Product(Dot(values, mask), c)
  {
    if values == [] {
    } else {
      DotScaled(values[1..], mask[1..], c);
      assert Scaled(mask, c)[1..] == Scaled(mask[1..], c);
      Factor(values[0], mask[0], c, Dot(values[1..], mask[1..]));
    }
  }

  lemma Factor(x: real, m: real, c: real, rest: real)
    ensures Product(x, Product(c, m)) + Product(rest, c) == Product(Product(x, m) + rest, c)
  {
  }

  /** The terms of a row. */
  function Terms<X>(o: Objective<X>, row: Row<X>): (r: seq<real>)
    requires WellFormed(row)
    ensures |r| == |row.mask|
  {
    Map(TermIn(o, ContextOf(o, row)), row.tokens)
  }

  /** What a row passes on to its terms: a masked mean over its tokens, and a masked sum that counts only if the sample
      does. */
  lemma ContextIs<X>(o: Objective<X>, row: Row<X>)
    requires WellFormed(row)
    ensures RealSum(row.mask) >= 0.0
    ensures ContextOf(o, row).mean == MeanOver(Map(o.meanOf, row.tokens), row.mask, RealSum(row.mask))
    ensures ContextOf(o, row).sum == Dot(Map(o.sumOf, row.tokens), Scaled(row.mask, row.sample))
  {
    MaskPositive(row.mask);
    MaskedSumIs(o.meanOf, row.tokens, row.mask);
    MaskedSumIs(o.sumOf, row.tokens, row.mask);
    DotScaled(Map(o.sumOf, row.tokens), row.mask, row.sample);
  }

  // ------------------------------------------------------------ the loss over tokens

  /** The batch's terms, row by row, and its mask: every token's times its sample's. */
  function AllTerms<X>(o: Objective<X>, rows: seq<Row<X>>): (r: seq<seq<real>>)
    requires AllWellFormed(rows)
    ensures |r| == |rows| && forall i :: 0 <= i < |rows| ==> r[i] == Terms(o, rows[i])
  {
    seq(|rows|, i requires 0 <= i < |rows| => Terms(o, rows[i]))
  }

  function Masks<X>(rows: seq<Row<X>>): (r: seq<seq<real>>)
    ensures |r| == |rows| && forall i :: 0 <= i < |rows| ==> r[i] == Scaled(rows[i].mask, rows[i].sample)
  {
    seq(|rows|, i requires 0 <= i < |rows| => Scaled(rows[i].mask, rows[i].sample))
  }

  lemma TokenRow<X>(o: Objective<X>, row: Row<X>)
    requires o.level.Tokens? && WellFormed(row)
    ensures RowTerm(o, row) == Dot(Terms(o, row), Scaled(row.mask, row.sample))
  {
    MaskedSumIs(TermIn(o, ContextOf(o, row)), row.tokens, row.mask);
    DotScaled(Terms(o, row), row.mask, row.sample);
  }

  lemma {:induction false} TokenSum<X>(o: Objective<X>, rows: seq<Row<X>>)
    requires o.level.Tokens? && AllWellFormed(rows)
    ensures |Flatten(AllTerms(o, rows))| == |Flatten(Masks(rows))|
    ensures RealSum(RowTerms(o, rows)) == Dot(Flatten(AllTerms(o, rows)), Flatten(Masks(rows)))
  {
    hide RowTerm, Terms, WellFormed;
    if rows == [] {
    } else {
      TokenSum(o, rows[1..]);
      TokenRow(o, rows[0]);
      assert RowTerms(o, rows)[1..] == RowTerms(o, rows[1..]);
      assert AllTerms(o, rows)[1..] == AllTerms(o, rows[1..]) && Masks(rows)[1..] == Masks(rows[1..]);
      DotAppend(Terms(o, rows[0]), Scaled(rows[0].mask, rows[0].sample), Flatten(AllTerms(o, rows[1..])),
                Flatten(Masks(rows[1..])));
    }
  }

  /** At token level the loss is the masked mean of all terms of the batch, with the global count. */
  lemma TokenLossIs<X>(o: Objective<X>, rows: seq<Row<X>>, count: real)
    requires o.level.Tokens? && AllWellFormed(rows) && count >= 0.0
    ensures |Flatten(AllTerms(o, rows))| == |Flatten(Masks(rows))|
    ensures Loss(o, rows, count) == MeanOver(Flatten(AllTerms(o, rows)), Flatten(Masks(rows)), count)
  {
    TokenSum(o, rows);
  }

  // ------------------------------------------------------------ the loss over sequences

  /** Each row's masked mean over its own tokens. */
  function Means<X>(o: Objective<X>, rows: seq<Row<X>>): (r: seq<real>)
    requires AllWellFormed(rows)
    ensures |r| == |rows|
    ensures forall i :: 0 <= i < |rows| ==>
      RealSum(rows[i].mask) >= 0.0 && r[i] == MeanOver(Terms(o, rows[i]), rows[i].mask, RealSum(rows[i].mask))
  {
    RowMasksPositive(rows);
    seq(|rows|, i requires 0 <= i < |rows| => MeanOver(Terms(o, rows[i]), rows[i].mask, RealSum(rows[i].mask)))
  }

  lemma RowMasksPositive<X>(rows: seq<Row<X>>)
    requires AllWellFormed(rows)
    ensures forall i :: 0 <= i < |rows| ==> RealSum(rows[i].mask) >= 0.0
  {
    forall i | 0 <= i < |rows| ensures RealSum(rows[i].mask) >= 0.0 { MaskPositive(rows[i].mask); }
  }

  function SampleMask<X>(rows: seq<Row<X>>): (r: seq<real>)
    ensures |r| == |rows| && forall i :: 0 <= i < |rows| ==> r[i] == rows[i].sample
  {
    seq(|rows|, i requires 0 <= i < |rows| => rows[i].sample)
  }

  lemma SequenceRow<X>(o: Objective<X>, row: Row<X>)
    requires o.level.Sequences? && WellFormed(row)
    ensures RealSum(row.mask) >= 0.0
    ensures RowTerm(o, row) == Product(MeanOver(Terms(o, row), row.mask, RealSum(row.mask)), row.sample)
  {
    MaskPositive(row.mask);
    MaskedSumIs(TermIn(o, ContextOf(o, row)), row.tokens, row.mask);
  }

  lemma {:induction false} SequenceSum<X>(o: Objective<X>, rows: seq<Row<X>>)
    requires o.level.Sequences? && AllWellFormed(rows)
    ensures RealSum(RowTerms(o, rows)) == Dot(Means(o, rows), SampleMask(rows))
  {
    hide RowTerm, Terms, WellFormed, MeanOver;
    if rows == [] {
    } else {
      SequenceSum(o, rows[1..]);
      SequenceRow(o, rows[0]);
      assert RowTerms(o, rows)[1..] == RowTerms(o, rows[1..]);
      assert Means(o, rows)[1..] == Means(o, rows[1..]) && SampleMask(rows)[1..] == SampleMask(rows[1..]);
    }
  }

  /** At sequence level it is the masked mean over the samples, with the global count, of each sequence's masked mean
      over its own tokens. */
  lemma SequenceLossIs<X>(o: Objective<X>, rows: seq<Row<X>>, count: real)
    requires o.level.Sequences? && AllWellFormed(rows) && count >= 0.0
    ensures Loss(o, rows, count) == MeanOver(Means(o, rows), SampleMask(rows), count)
  {
    SequenceSum(o, rows);
  }

  // ------------------------------------------------------------ what is masked out

  lemma {:induction false} DotNothing(values: seq<real>, mask: seq<real>)
    requires |mask| == |values| && forall t :: 0 <= t < |mask| ==> mask[t] == 0.0
    ensures Dot(values, mask) == 0.0
  {
    if values == [] {
    } else {
      DotNothing(values[1..], mask[1..]);
      TimesZero(values[0]);
    }
  }

  /** The sample does not count, or none of its tokens does. */
  ghost predicate MaskedOut<X>(row: Row<X>) {
    row.sample == 0.0 || forall t :: 0 <= t < |row.mask| ==> row.mask[t] == 0.0
  }

  /** What is masked out adds nothing to the loss and no ratio to the metrics, whatever its tokens are. */
  lemma MaskedOutAddsNothing<X>(o: Objective<X>, row: Row<X>)
    requires WellFormed(row) && MaskedOut(row)
    ensures RowTerm(o, row) == 0.0 && ValidRatios(o, row) == []
  {
    hide Product;
    match o.level {
      case Tokens =>
        TokenRow(o, row);
        if row.sample == 0.0 { assert Scaled(row.mask, row.sample) == Scaled(row.mask, 0.0); }
        forall t | 0 <= t < |row.mask| ensures Scaled(row.mask, row.sample)[t] == 0.0 {
          TimesZero(row.mask[t]);
          TimesZero(row.sample);
        }
        DotNothing(Terms(o, row), Scaled(row.mask, row.sample));
      case Sequences =>
        SequenceRow(o, row);
        if row.sample == 0.0 {
          TimesZero(MeanOver(Terms(o, row), row.mask, RealSum(row.mask)));
        } else {
          DotNothing(Terms(o, row), row.mask);
          assert MeanOver(Terms(o, row), row.mask, RealSum(row.mask)) == 0.0;
          TimesZero(row.sample);
        }
    }
    NoValidValues(RatioIn(o, ContextOf(o, row)), row);
  }

  lemma {:induction false} NoValidValues<X>(f: X -> real, row: Row<X>)
    requires |row.mask| == |row.tokens| && MaskedOut(row)
    ensures ValidValues(f, row) == []
    decreases |row.tokens|
  {
    if row.tokens == [] {
    } else {
      TimesZero(row.mask[0]);
      TimesZero(row.sample);
      NoValidValues(f, Row(row.tokens[1..], row.mask[1..], row.sample));
    }
  }

  /** A sample that does not count can be left out of its batch. */
  lemma MaskedRowLeavesLoss<X>(o: Objective<X>, before: seq<Row<X>>, row: Row<X>, after: seq<Row<X>>, count: real)
    requires AllWellFormed(before) && WellFormed(row) && AllWellFormed(after) && count >= 0.0 && MaskedOut(row)
    ensures AllWellFormed(before + [row] + after) && AllWellFormed(before + after)
    ensures Loss(o, before + [row] + after, count) == Loss(o, before + after, count)
  {
    hide RowTerm, WellFormed, MaskedOut, RealSum;
    MaskedOutAddsNothing(o, row);
    var (a, b) := (RowTerms(o, before), RowTerms(o, after));
    assert RowTerms(o, before + [row] + after) == a + [0.0] + b && RowTerms(o, before + after) == a + b;
    SumWithoutZero(a, b);
  }

  lemma SumWithoutZero(a: seq<real>, b: seq<real>)
    ensures RealSum(a + [0.0] + b) == RealSum(a + b)
  {
    RealSumAppend(a + [0.0], b);
    RealSumAppend(a, [0.0]);
    RealSumAppend(a, b);
  }

  /** The terms do not depend on the masked sum of their row, the one input that itself counts the sample. */
  ghost predicate IgnoresSum<X(!new)>(o: Objective<X>) {
    forall mean, a, b, x :: o.term(Context(mean, a), x) == o.term(Context(mean, b), x)
  }

  /** Such a row's share of the loss is proportional to its sample's mask. */
  lemma ShareScales<X(!new)>(o: Objective<X>, row: Row<X>)
    requires WellFormed(row) && IgnoresSum(o)
    ensures RowTerm(o, row) == Product(row.sample, RowTerm(o, row.(sample := 1.0)))
  {
    hide MaskedSum;
    var (whole, c, c') := (row.(sample := 1.0), ContextOf(o, row), ContextOf(o, row.(sample := 1.0)));
    forall t | 0 <= t < |row.tokens| ensures Terms(o, row)[t] == Terms(o, whole)[t] {
      assert c == Context(c.mean, c.sum) && c' == Context(c.mean, c'.sum);
    }
    assert Terms(o, row) == Terms(o, whole);
    match o.level {
      case Tokens =>
        TokenRow(o, row);
        TokenRow(o, whole);
        DotScaled(Terms(o, row), row.mask, row.sample);
        DotScaled(Terms(o, row), row.mask, 1.0);
      case Sequences =>
        SequenceRow(o, row);
        SequenceRow(o, whole);
    }
  }

  // ------------------------------------------------------------ what is counted

  ghost predicate AlwaysOne<X(!new)>(o: Objective<X>) {
    forall c, x :: o.term(c, x) == 1.0
  }

  lemma {:induction false} DotOnes(values: seq<real>, mask: seq<real>)
    requires |mask| == |values| && forall t :: 0 <= t < |values| ==> values[t] == 1.0
    ensures Dot(values, mask) == RealSum(mask)
  {
    if values == [] {
    } else {
      DotOnes(values[1..], mask[1..]);
    }
  }

  lemma {:induction false} FlattenSum(xss: seq<seq<real>>, sums: seq<real>)
    requires |sums| == |xss| && forall i :: 0 <= i < |xss| ==> sums[i] == RealSum(xss[i])
    ensures RealSum(Flatten(xss)) == RealSum(sums)
  {
    if xss == [] {
    } else {
      FlattenSum(xss[1..], sums[1..]);
      RealSumAppend(xss[0], Flatten(xss[1..]));
    }
  }

  /** The mask of a row, summed: its sample's mask times its valid tokens. */
  function ValidTokens<X>(rows: seq<Row<X>>): (r: seq<real>)
    ensures |r| == |rows|
    ensures forall i :: 0 <= i < |rows| ==> r[i] == Product(rows[i].sample, RealSum(rows[i].mask))
  {
    seq(|rows|, i requires 0 <= i < |rows| => Product(rows[i].sample, RealSum(rows[i].mask)))
  }

  /** With every term one the token-level loss counts the valid tokens of the samples that count. */
  lemma TokensCounted<X(!new)>(o: Objective<X>, rows: seq<Row<X>>, count: real)
    requires o.level.Tokens? && AlwaysOne(o) && AllWellFormed(rows) && count >= 0.0
    ensures Loss(o, rows, count) == RealSum(ValidTokens(rows)) / (count + EPSILON)
  {
    hide WellFormed;
    TokenLossIs(o, rows, count);
    AllOnes(AllTerms(o, rows));
    DotOnes(Flatten(AllTerms(o, rows)), Flatten(Masks(rows)));
    forall i | 0 <= i < |rows| ensures ValidTokens(rows)[i] == RealSum(Masks(rows)[i]) {
      ScaledSum(rows[i].mask, rows[i].sample);
    }
    FlattenSum(Masks(rows), ValidTokens(rows));
  }

  /** And the sequence-level loss the samples that count: each for its valid tokens over these and the constant that
      keeps the division finite. */
  lemma SequencesCounted<X(!new)>(o: Objective<X>, rows: seq<Row<X>>, count: real)
    requires o.level.Sequences? && AlwaysOne(o) && AllWellFormed(rows) && count >= 0.0
    ensures Loss(o, rows, count) == Dot(Means(o, rows), SampleMask(rows)) / (count + EPSILON)
    ensures forall i :: 0 <= i < |rows| ==>
      var valid := RealSum(rows[i].mask);
      valid >= 0.0 && Means(o, rows)[i] == valid / (valid + EPSILON)
  {
    SequenceLossIs(o, rows, count);
    RowMasksPositive(rows);
    forall i | 0 <= i < |rows| ensures Dot(Terms(o, rows[i]), rows[i].mask) == RealSum(rows[i].mask) {
      DotOnes(Terms(o, rows[i]), rows[i].mask);
    }
  }

  lemma {:induction false} AllOnes(xss: seq<seq<real>>)
    requires forall i, t :: 0 <= i < |xss| && 0 <= t < |xss[i]| ==> xss[i][t] == 1.0
    ensures forall t :: 0 <= t < |Flatten(xss)| ==> Flatten(xss)[t] == 1.0
  {
    if xss == [] {
    } else {
      AllOnes(xss[1..]);
    }
  }

  // ------------------------------------------------------------ the loss's inputs

  /** Position j of the loss has the log-probability of token j + 1, given the logits at j, with the values and the mask
      of token j + 1; the last position has no next token. */
  lemma InputsAreShifted<L, V>(g: (L, int) -> real, samples: seq<Sample<V>>, logits: seq<seq<L>>, i: nat, j: nat)
    requires |logits| == |samples| && forall k :: 0 <= k < |samples| ==> |logits[k]| >= |samples[k].tokens|
    requires i < |samples| && j + 1 < |samples[i].tokens|
    ensures var (row, next) := (Unpacked(g, samples, logits)[i], samples[i].tokens[j + 1]);
            && |row.tokens| == |row.mask| == |samples[i].tokens| - 1 && row.sample == samples[i].mask
            && row.tokens[j] == (g(logits[i][j], next.id), next.values) && row.mask[j] == next.mask
  {
    assert Unpacked(g, samples, logits)[i] == Whole(g, samples[i], logits[i]);
  }

  // ------------------------------------------------------------ the metrics

  /** Position `t` is valid in the ratio metrics. */
  predicate Valid<X>(row: Row<X>, t: nat)
    requires t < |row.mask|
  {
    Product(row.mask[t], row.sample) != 0.0
  }

  lemma {:induction false} ValidValuesAre<X>(f: X -> real, row: Row<X>, x: real)
    requires |row.mask| == |row.tokens|
    ensures x in ValidValues(f, row) <==> exists t: nat :: t < |row.mask| && Valid(row, t) && f(row.tokens[t]) == x
    decreases |row.tokens|
  {
    if row.tokens == [] {
    } else {
      var rest := Row(row.tokens[1..], row.mask[1..], row.sample);
      ValidValuesAre(f, rest, x);
      forall t: nat | t < |rest.mask|
        ensures Valid(rest, t) == Valid(row, t + 1) && f(rest.tokens[t]) == f(row.tokens[t + 1])
      {
      }
      assert forall t: nat :: 1 <= t < |row.mask| ==> Valid(rest, t - 1) == Valid(row, t);
      assert Valid(row, 0) ==> f(row.tokens[0]) in ValidValues(f, row);
    }
  }

  /** The smallest and the largest of some values are among them and bound them; without values they are infinite. */
  lemma {:induction false} ExtremesAre(xs: seq<real>)
    ensures Smallest(xs) == PositiveInfinity <==> xs == []
    ensures Largest(xs) == NegativeInfinity <==> xs == []
    ensures xs != [] ==> Smallest(xs).Finite? && Smallest(xs).value in xs
    ensures xs != [] ==> forall i :: 0 <= i < |xs| ==> Smallest(xs).value <= xs[i]
    ensures xs != [] ==> Largest(xs).Finite? && Largest(xs).value in xs
    ensures xs != [] ==> forall i :: 0 <= i < |xs| ==> xs[i] <= Largest(xs).value
  {
    if xs == [] {
    } else {
      ExtremesAre(xs[1..]);
    }
  }
}
