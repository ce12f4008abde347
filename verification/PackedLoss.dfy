/** The loss of packed sequences, one sequence at a time (nemo_rl/algorithms/loss_functions.py), against the loss of
    the unpacked batch. A sequence's logits are a slice of every rank's packed buffer; its loss is a masked sum of
    per-token terms with a global normalisation (nemo_rl/algorithms/utils.py), over tokens or over sequences. */
module PackedLoss {
  import opened ContextParallel
  import opened PackedLogprobs
  import opened Sequences

  // ------------------------------------------------------------ the loss of a batch

  /** A sequence as the loss sees it: per-position inputs with their mask, and the sample's mask. */
  datatype Row<X> = Row(tokens: seq<X>, mask: seq<real>, sample: real)

  ghost predicate WellFormed<X>(row: Row<X>) {
    |row.mask| == |row.tokens| && row.sample >= 0.0 && forall t :: 0 <= t < |row.mask| ==> row.mask[t] >= 0.0
  }

  ghost predicate AllWellFormed<X>(rows: seq<Row<X>>) {
    forall i :: 0 <= i < |rows| ==> WellFormed(rows[i])
  }

  /** Keeps a division by a sum of masks finite. */
  const EPSILON := 0.00000001

  function MaskedSum<X>(f: X -> real, tokens: seq<X>, mask: seq<real>): real
    requires |mask| == |tokens|
  {
    if tokens == [] then 0.0 else Product(f(tokens[0]), mask[0]) + MaskedSum(f, tokens[1..], mask[1..])
  }

  lemma {:induction false} MaskPositive(mask: seq<real>)
    requires forall t :: 0 <= t < |mask| ==> mask[t] >= 0.0
    ensures RealSum(mask) >= 0.0
  {
    if mask == [] {
    } else {
      MaskPositive(mask[1..]);
    }
  }

  /** What is averaged: tokens over the whole batch, or sequences, each averaged over its own tokens. */
  datatype Level = Tokens | Sequences

  /** What sequence-level ratios take from a whole row: a masked mean, as of the log ratios, and a masked sum. */
  datatype Context = Context(mean: real, sum: real)

  /** A loss: the inputs of its context, and at every position a term and the ratio that the metrics track. */
  datatype Objective<!X> = Objective(level: Level, meanOf: X -> real, sumOf: X -> real,
                                     term: (Context, X) -> real, ratio: (Context, X) -> real)

  function MaskedMean<X>(f: X -> real, row: Row<X>): real
    requires WellFormed(row)
  {
    MaskPositive(row.mask);
    MaskedSum(f, row.tokens, row.mask) / (RealSum(row.mask) + EPSILON)
  }

  function ContextOf<X>(o: Objective<X>, row: Row<X>): Context
    requires WellFormed(row)
  {
    Context(MaskedMean(o.meanOf, row), Product(MaskedSum(o.sumOf, row.tokens, row.mask), row.sample))
  }

  function TermIn<X>(o: Objective<X>, c: Context): X -> real {
    x => o.term(c, x)
  }

  function RatioIn<X>(o: Objective<X>, c: Context): X -> real {
    x => o.ratio(c, x)
  }

  /** A row's share of the sum. */
  function RowTerm<X>(o: Objective<X>, row: Row<X>): real
    requires WellFormed(row)
  {
    var f := TermIn(o, ContextOf(o, row));
    match o.level
    case Tokens => Product(MaskedSum(f, row.tokens, row.mask), row.sample)
    case Sequences => Product(MaskedMean(f, row), row.sample)
  }

  function RowTerms<X>(o: Objective<X>, rows: seq<Row<X>>): (r: seq<real>)
    requires AllWellFormed(rows)
    ensures |r| == |rows| && forall i :: 0 <= i < |rows| ==> r[i] == RowTerm(o, rows[i])
  {
    seq(|rows|, i requires 0 <= i < |rows| => RowTerm(o, rows[i]))
  }

  /** The loss of a batch, normalised by the global count of valid tokens or sequences. */
  function Loss<X>(o: Objective<X>, rows: seq<Row<X>>, count: real): real
    requires AllWellFormed(rows) && count >= 0.0
  {
    RealSum(RowTerms(o, rows)) / (count + EPSILON)
  }

  // ------------------------------------------------------------ extreme ratios

  /** A metric with infinities, the sentinels of a sequence without valid tokens. */
  datatype Extended = NegativeInfinity | Finite(value: real) | PositiveInfinity

  /** The values at valid tokens. */
  function ValidValues<X>(f: X -> real, row: Row<X>): seq<real>
    requires |row.mask| == |row.tokens|
    decreases |row.tokens|
  {
    if row.tokens == [] then []
    else
      var rest := ValidValues(f, Row(row.tokens[1..], row.mask[1..], row.sample));
      if Product(row.mask[0], row.sample) != 0.0 then [f(row.tokens[0])] + rest else rest
  }

  function ValidRatios<X>(o: Objective<X>, row: Row<X>): seq<real>
    requires WellFormed(row)
  {
    ValidValues(RatioIn(o, ContextOf(o, row)), row)
  }

  function AllRatios<X>(o: Objective<X>, rows: seq<Row<X>>): (r: seq<seq<real>>)
    requires AllWellFormed(rows)
    ensures |r| == |rows| && forall i :: 0 <= i < |rows| ==> r[i] == ValidRatios(o, rows[i])
  {
    seq(|rows|, i requires 0 <= i < |rows| => ValidRatios(o, rows[i]))
  }

  function Smallest(xs: seq<real>): Extended {
    if xs == [] then PositiveInfinity
    else
      var rest := Smallest(xs[1..]);
      if rest.Finite? && rest.value <= xs[0] then rest else Finite(xs[0])
  }

  function Largest(xs: seq<real>): Extended {
    if xs == [] then NegativeInfinity
    else
      var rest := Largest(xs[1..]);
      if rest.Finite? && rest.value >= xs[0] then rest else Finite(xs[0])
  }

  /** Folding a sequence's minimum into the accumulated one; infinite values are skipped. */
  function FoldSmallest(acc: Extended, x: Extended): Extended {
    if !x.Finite? then acc
    else if acc.Finite? && acc.value <= x.value then acc
    else if acc.NegativeInfinity? then acc
    else x
  }

  function FoldLargest(acc: Extended, x: Extended): Extended {
    if !x.Finite? then acc
    else if acc.Finite? && acc.value >= x.value then acc
    else if acc.PositiveInfinity? then acc
    else x
  }

  lemma {:induction false} SmallestAppend(a: seq<real>, b: seq<real>)
    ensures Smallest(a + b) == FoldSmallest(Smallest(a), Smallest(b))
    ensures !Smallest(b).NegativeInfinity?
  {
    if a == [] {
      assert a + b == b;
      SmallestKind(b);
    } else {
      assert (a + b)[0] == a[0] && (a + b)[1..] == a[1..] + b;
      SmallestAppend(a[1..], b);
      SmallestKind(a[1..]);
      SmallestKind(b);
    }
  }

  lemma SmallestKind(xs: seq<real>)
    ensures !Smallest(xs).NegativeInfinity? && (Smallest(xs).Finite? <==> xs != [])
  {
  }

  lemma {:induction false} LargestAppend(a: seq<real>, b: seq<real>)
    ensures Largest(a + b) == FoldLargest(Largest(a), Largest(b))
  {
    if a == [] {
      assert a + b == b;
      LargestKind(b);
    } else {
      assert (a + b)[0] == a[0] && (a + b)[1..] == a[1..] + b;
      LargestAppend(a[1..], b);
      LargestKind(a[1..]);
      LargestKind(b);
    }
  }

  lemma LargestKind(xs: seq<real>)
    ensures !Largest(xs).PositiveInfinity? && (Largest(xs).Finite? <==> xs != [])
  {
  }

  // ------------------------------------------------------------ cutting

  lemma {:induction false} CutSum<X>(f: X -> real, tokens: seq<X>, mask: seq<real>, length: nat)
    requires |mask| == |tokens| && length <= |tokens|
    requires forall t :: length <= t < |mask| ==> mask[t] == 0.0
    ensures MaskedSum(f, tokens[..length], mask[..length]) == MaskedSum(f, tokens, mask)
    ensures RealSum(mask[..length]) == RealSum(mask)
  {
    if tokens == [] {
    } else {
      if length == 0 {
        CutSum(f, tokens[1..], mask[1..], 0);
        TimesZero(f(tokens[0]));
      } else {
        CutSum(f, tokens[1..], mask[1..], length - 1);
        assert tokens[..length][1..] == tokens[1..][..length - 1];
        assert mask[..length][1..] == mask[1..][..length - 1];
      }
    }
  }

  lemma TimesZero(x: real)
    ensures Product(x, 0.0) == 0.0 && Product(0.0, x) == 0.0
  {
  }

  lemma {:induction false} CutValid<X>(f: X -> real, row: Row<X>, length: nat)
    requires |row.mask| == |row.tokens| && length <= |row.tokens|
    requires forall t :: length <= t < |row.mask| ==> row.mask[t] == 0.0
    ensures ValidValues(f, Row(row.tokens[..length], row.mask[..length], row.sample)) == ValidValues(f, row)
    decreases |row.tokens|
  {
    if row.tokens == [] {
    } else {
      var rest := Row(row.tokens[1..], row.mask[1..], row.sample);
      if length == 0 {
        CutValid(f, rest, 0);
        TimesZero(row.sample);
      } else {
        CutValid(f, rest, length - 1);
        assert row.tokens[..length][1..] == rest.tokens[..length - 1];
        assert row.mask[..length][1..] == rest.mask[..length - 1];
      }
    }
  }

  /** The first `n` positions of a row. */
  function Prefix<X>(row: Row<X>, n: nat): Row<X>
    requires n <= |row.tokens| == |row.mask|
  {
    Row(row.tokens[..n], row.mask[..n], row.sample)
  }

  /** Leaving out masked positions at the end changes nothing that the loss or its metrics see. */
  lemma PrefixKeeps<X>(o: Objective<X>, row: Row<X>, n: nat)
    requires WellFormed(row) && n <= |row.tokens| && forall t :: n <= t < |row.mask| ==> row.mask[t] == 0.0
    ensures WellFormed(Prefix(row, n))
    ensures RowTerm(o, Prefix(row, n)) == RowTerm(o, row) && ValidRatios(o, Prefix(row, n)) == ValidRatios(o, row)
  {
    hide MaskedSum, ValidValues, RealSum;
    CutSum(o.meanOf, row.tokens, row.mask, n);
    CutSum(o.sumOf, row.tokens, row.mask, n);
    var c := ContextOf(o, row);
    CutSum(TermIn(o, c), row.tokens, row.mask, n);
    CutValid(RatioIn(o, c), row, n);
  }

  // ------------------------------------------------------------ a sample and its logits

  /** A sample of the data: at every token its id, its mask and what other per-token columns hold, padded to the width
      of the batch; and the sample's mask. */
  datatype Token<V> = Token(id: int, mask: real, values: V)
  datatype Sample<V> = Sample(tokens: seq<Token<V>>, mask: real)

  function Ids<V>(tokens: seq<Token<V>>): (r: seq<int>)
    ensures |r| == |tokens| && forall t :: 0 <= t < |r| ==> r[t] == tokens[t].id
  {
    seq(|tokens|, t requires 0 <= t < |tokens| => tokens[t].id)
  }

  function After<V>(sample: Sample<V>): nat {
    if sample.tokens == [] then 0 else |sample.tokens| - 1
  }

  /** Position j of the loss: the log-probability of token j + 1 with that token's columns. */
  function Shifted<V>(sample: Sample<V>, logprobs: seq<real>): (r: Row<(real, V)>)
    requires |logprobs| == After(sample)
    ensures |r.tokens| == |r.mask| == |logprobs|
  {
    Row(seq(|logprobs|, j requires 0 <= j < |logprobs| => (logprobs[j], sample.tokens[j + 1].values)),
        seq(|logprobs|, j requires 0 <= j < |logprobs| => sample.tokens[j + 1].mask), sample.mask)
  }

  /** The loss inputs of a sample whose logits are `logits`. */
  function Whole<L, V>(g: (L, int) -> real, sample: Sample<V>, logits: seq<L>): Row<(real, V)>
    requires |logits| >= |sample.tokens|
  {
    Shifted(sample, seq(After(sample), j requires 0 <= j < After(sample) => g(logits[j], sample.tokens[j + 1].id)))
  }

  /** The loss inputs of the unpacked batch. */
  function Unpacked<L, V>(g: (L, int) -> real, samples: seq<Sample<V>>, logits: seq<seq<L>>): (r: seq<Row<(real, V)>>)
    requires |logits| == |samples| && forall i :: 0 <= i < |samples| ==> |logits[i]| >= |samples[i].tokens|
    ensures |r| == |samples| && forall i :: 0 <= i < |r| ==> r[i] == Whole(g, samples[i], logits[i])
  {
    seq(|samples|, i requires 0 <= i < |samples| => Whole(g, samples[i], logits[i]))
  }

  /** A sample cut to its unpadded length; one of a single token is left alone. */
  function Cut<V>(sample: Sample<V>, length: nat): Sample<V> {
    if |sample.tokens| > 1 && length <= |sample.tokens| then Sample(sample.tokens[..length], sample.mask) else sample
  }

  /** Beyond its unpadded length a sample is masked out. */
  ghost predicate PaddingMasked<V>(sample: Sample<V>, length: nat) {
    && sample.mask >= 0.0
    && forall t :: 0 <= t < |sample.tokens| ==>
         sample.tokens[t].mask >= 0.0 && (t >= length ==> sample.tokens[t].mask == 0.0)
  }

  /** The sample's slice of the packed logits is long enough, and the logits of its unpacked row agree with it as far as
      the sample is not padding. */
  ghost predicate Matches<L, V>(sample: Sample<V>, length: nat, segment: seq<L>, logits: seq<L>) {
    var n := |Cut(sample, length).tokens|;
    && PaddingMasked(sample, length) && n <= |segment| && n <= |logits| && segment[..n] == logits[..n]
  }

  /** Cutting a sample, with the logits of its slice, changes nothing that the loss or its metrics see. */
  lemma CutKeeps<L, V>(o: Objective<(real, V)>, g: (L, int) -> real, sample: Sample<V>, length: nat, segment: seq<L>,
                       logits: seq<L>)
    requires Matches(sample, length, segment, logits) && |logits| >= |sample.tokens|
    ensures |segment| >= |Cut(sample, length).tokens|
    ensures var (row, whole) := (Whole(g, Cut(sample, length), segment), Whole(g, sample, logits));
            && WellFormed(row) && WellFormed(whole)
            && RowTerm(o, row) == RowTerm(o, whole) && ValidRatios(o, row) == ValidRatios(o, whole)
  {
    hide RowTerm, ValidRatios;
    var (cut, whole) := (Cut(sample, length), Whole(g, sample, logits));
    WholeWellFormed(g, sample, length, logits);
    CutIsPrefix(g, sample, length, segment, logits);
    PrefixKeeps(o, whole, After(cut));
  }

  lemma WholeWellFormed<L, V>(g: (L, int) -> real, sample: Sample<V>, length: nat, logits: seq<L>)
    requires PaddingMasked(sample, length) && |logits| >= |sample.tokens|
    ensures WellFormed(Whole(g, sample, logits))
    ensures forall t :: 0 <= t < After(sample) && t + 1 >= length ==> Whole(g, sample, logits).mask[t] == 0.0
  {
  }

  lemma CutIsPrefix<L, V>(g: (L, int) -> real, sample: Sample<V>, length: nat, segment: seq<L>, logits: seq<L>)
    requires Matches(sample, length, segment, logits) && |logits| >= |sample.tokens|
    ensures After(Cut(sample, length)) <= After(sample) && |segment| >= |Cut(sample, length).tokens|
    ensures Whole(g, Cut(sample, length), segment) == Prefix(Whole(g, sample, logits), After(Cut(sample, length)))
  {
    var cut := Cut(sample, length);
    forall j | 0 <= j < |cut.tokens| ensures segment[j] == logits[j] {
      assert segment[..|cut.tokens|][j] == logits[..|cut.tokens|][j];
    }
    var (row, whole) := (Whole(g, cut, segment), Whole(g, sample, logits));
    assert row.tokens == whole.tokens[..After(cut)];
    assert row.mask == whole.mask[..After(cut)];
  }

  // ------------------------------------------------------------ one sequence at a time

  /** The loss inputs of one sequence: its data cut, its log-probabilities from every rank's slice of the logits. */
  method SequenceRow<L, V>(g: (L, int) -> real, shards: seq<seq<L>>, cp: nat, sample: Sample<V>, length: nat,
                           ghost segment: seq<L>) returns (row: Row<(real, V)>)
    requires cp > 0 && |shards| == cp && (cp > 1 ==> |segment| % (2 * cp) == 0)
    requires shards == Parts(segment, cp) && |segment| >= |Cut(sample, length).tokens|
    ensures row == Whole(g, Cut(sample, length), segment)
  {
    var cut := Cut(sample, length);
    hide OnRank;
    var logprobs := RowLogprobs(g, shards, Ids(cut.tokens), cp, None, segment);
    row := Shifted(cut, logprobs);
    ghost var whole := Whole(g, cut, segment);
    assert row.tokens == whole.tokens && row.mask == whole.mask;
  }

  /** The loop over packed sequences: the data of each is cut, its logits are narrowed on every rank, its loss is
      computed alone with the global count, and all are accumulated. `g` gives a token's log-probability, as
      `VocabParallel.Entry` does. */
  method PackedLosses<L, V>(o: Objective<(real, V)>, g: (L, int) -> real, mine: seq<seq<L>>, total: nat, cu: seq<nat>,
                            cp: nat, samples: seq<Sample<V>>, lengths: seq<nat>, count: real,
                            ghost packed: seq<L>, ghost logits: seq<seq<L>>)
    returns (loss: real, smallest: Extended, largest: Extended)
    requires count >= 0.0 && |packed| == total && Packed(cu, total, cp)
    requires RanksHold(mine, cu, total, cp, Segments(packed, cu))
    requires |lengths| == |samples| == |logits| == |cu| - 1
    requires forall i :: 0 <= i < |samples| ==> |logits[i]| >= |samples[i].tokens|
    requires forall i :: 0 <= i < |samples| ==> Matches(samples[i], lengths[i], Segment(packed, cu, i), logits[i])
    ensures var rows := Unpacked(g, samples, logits);
            && AllWellFormed(rows) && loss == Loss(o, rows, count)
            && smallest == Smallest(Flatten(AllRatios(o, rows))) && largest == Largest(Flatten(AllRatios(o, rows)))
  {
    loss, smallest, largest := 0.0, PositiveInfinity, NegativeInfinity;
    NoRows(o, count);
    ghost var rows := Unpacked(g, samples, logits);
    hide *;
    for i := 0 to |samples|
      invariant Accumulated(o, rows[..i], count, loss, smallest, largest)
    {
      ghost var segment := Segment(packed, cu, i);
      SliceIsShare(mine, cu, total, cp, packed, i);
      var shards := SharesOf(mine, cu, total, cp, i);
      CutKeeps(o, g, samples[i], lengths[i], segment, logits[i]);
      var row := SequenceRow(g, shards, cp, samples[i], lengths[i], segment);
      OneMoreRow(o, rows, i, row, count, loss, smallest, largest);
      loss := loss + Loss(o, [row], count);
      smallest := FoldSmallest(smallest, Smallest(ValidRatios(o, row)));
      largest := FoldLargest(largest, Largest(ValidRatios(o, row)));
    }
    assert rows[..|samples|] == rows;
    AccumulatedAll(o, rows, count, loss, smallest, largest);
  }

  /** A rank's slice of its buffer is its share of the sequence's logits. */
  lemma SliceIsShare<L>(mine: seq<seq<L>>, cu: seq<nat>, total: nat, cp: nat, packed: seq<L>, i: nat)
    requires |packed| == total && Packed(cu, total, cp) && i + 1 < |cu|
    requires RanksHold(mine, cu, total, cp, Segments(packed, cu))
    ensures cp > 0 && Offsets(cu, total) && |mine| == cp && forall r: nat :: r < cp ==> |mine[r]| == total / cp
    ensures SharesOf(mine, cu, total, cp, i) == Parts(Segment(packed, cu, i), cp)
    ensures cp > 1 ==> |Segment(packed, cu, i)| % (2 * cp) == 0
  {
    SharesAreParts(mine, cu, total, cp, Segments(packed, cu), i);
    if cp > 1 { ShareSize(cu, total, cp, i, |Segment(packed, cu, i)|); }
  }

  /** What the loop holds after some rows. */
  ghost predicate Accumulated<X>(o: Objective<X>, rows: seq<Row<X>>, count: real, loss: real, smallest: Extended,
                                 largest: Extended)
    requires count >= 0.0
  {
    && AllWellFormed(rows) && loss == Loss(o, rows, count)
    && smallest == Smallest(Flatten(AllRatios(o, rows))) && largest == Largest(Flatten(AllRatios(o, rows)))
  }

  lemma AccumulatedAll<X>(o: Objective<X>, rows: seq<Row<X>>, count: real, loss: real, smallest: Extended,
                          largest: Extended)
    requires count >= 0.0 && Accumulated(o, rows, count, loss, smallest, largest)
    ensures AllWellFormed(rows) && loss == Loss(o, rows, count)
    ensures smallest == Smallest(Flatten(AllRatios(o, rows))) && largest == Largest(Flatten(AllRatios(o, rows)))
  {
  }

  lemma NoRows<X>(o: Objective<X>, count: real)
    requires count >= 0.0
    ensures Accumulated(o, [], count, 0.0, PositiveInfinity, NegativeInfinity)
  {
  }

  lemma OneMoreRow<X>(o: Objective<X>, rows: seq<Row<X>>, i: nat, row: Row<X>, count: real, loss: real,
                      smallest: Extended, largest: Extended)
    requires count >= 0.0 && i < |rows| && WellFormed(row) && WellFormed(rows[i])
    requires RowTerm(o, row) == RowTerm(o, rows[i]) && ValidRatios(o, row) == ValidRatios(o, rows[i])
    requires Accumulated(o, rows[..i], count, loss, smallest, largest)
    ensures AllWellFormed([row])
    ensures Accumulated(o, rows[..i + 1], count, loss + Loss(o, [row], count),
                        FoldSmallest(smallest, Smallest(ValidRatios(o, row))),
                        FoldLargest(largest, Largest(ValidRatios(o, row))))
  {
    hide WellFormed, RowTerm, ValidRatios, FoldSmallest, FoldLargest, Smallest, Largest, Loss;
    assert rows[..i + 1] == rows[..i] + [rows[i]];
    LossSnoc(o, rows[..i], rows[i], row, count);
    assert AllRatios(o, rows[..i + 1]) == AllRatios(o, rows[..i]) + [ValidRatios(o, row)];
    FlattenSnoc(AllRatios(o, rows[..i]), ValidRatios(o, row));
    SmallestAppend(Flatten(AllRatios(o, rows[..i])), ValidRatios(o, row));
    LargestAppend(Flatten(AllRatios(o, rows[..i])), ValidRatios(o, row));
  }

  lemma LossSnoc<X>(o: Objective<X>, rows: seq<Row<X>>, last: Row<X>, row: Row<X>, count: real)
    requires count >= 0.0 && AllWellFormed(rows) && WellFormed(last) && WellFormed(row)
    requires RowTerm(o, row) == RowTerm(o, last)
    ensures AllWellFormed(rows + [last])
    ensures Loss(o, rows + [last], count) == Loss(o, rows, count) + Loss(o, [row], count)
  {
    hide WellFormed, RowTerm;
    assert RowTerms(o, rows + [last]) == RowTerms(o, rows) + [RowTerm(o, last)];
    RealSumAppend(RowTerms(o, rows), [RowTerm(o, last)]);
    assert RowTerms(o, [row]) == [RowTerm(o, row)];
    QuotientOfSum(RealSum(RowTerms(o, rows)), RealSum([RowTerm(o, row)]), count + EPSILON);
  }

  lemma QuotientOfSum(a: real, b: real, d: real)
    requires d > 0.0
    ensures (a + b) / d == a / d + b / d
  {
  }
}
