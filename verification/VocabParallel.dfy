/** Log-probabilities from logits whose vocabulary is split over tensor-parallel ranks
    (nemo_rl/distributed/model_utils.py). Logits are reals, `exp` and `log` parameters, and a reduction over a group
    is a fold over the ranks. */
module VocabParallel {
  import opened Sequences

  // ------------------------------------------------------------ on one rank that holds everything

  function MaxOf(xs: seq<real>): (m: real)
    requires xs != []
    ensures m in xs && forall i :: 0 <= i < |xs| ==> xs[i] <= m
  {
    if |xs| == 1 then xs[0]
    else
      var m := MaxOf(xs[1..]);
      if xs[0] >= m then xs[0] else m
  }

  function Shifted(xs: seq<real>, m: real): (r: seq<real>)
    ensures |r| == |xs| && forall i :: 0 <= i < |xs| ==> r[i] == xs[i] - m
  {
    seq(|xs|, i requires 0 <= i < |xs| => xs[i] - m)
  }

  /** The log-softmax of a whole vector of logits. */
  function LogSoftmax(xs: seq<real>, exp: real -> real, log: real -> real): (r: seq<real>)
    requires xs != []
    ensures |r| == |xs|
  {
    var shifted := Shifted(xs, MaxOf(xs));
    Shifted(shifted, log(RealSum(Map(exp, shifted))))
  }

  // ------------------------------------------------------------ split over ranks

  /** Every rank holds `v` logits. */
  predicate Split(parts: seq<seq<real>>, v: nat) {
    v > 0 && parts != [] && forall t :: 0 <= t < |parts| ==> |parts[t]| == v
  }

  function MaxEach(parts: seq<seq<real>>): (r: seq<real>)
    requires forall t :: 0 <= t < |parts| ==> parts[t] != []
    ensures |r| == |parts| && forall t :: 0 <= t < |parts| ==> r[t] == MaxOf(parts[t])
  {
    seq(|parts|, t requires 0 <= t < |parts| => MaxOf(parts[t]))
  }

  /** Each rank's sum of exponentials of its logits less `m`. */
  function SumEach(parts: seq<seq<real>>, m: real, exp: real -> real): (r: seq<real>)
    ensures |r| == |parts| && forall t :: 0 <= t < |parts| ==> r[t] == RealSum(Map(exp, Shifted(parts[t], m)))
  {
    seq(|parts|, t requires 0 <= t < |parts| => RealSum(Map(exp, Shifted(parts[t], m))))
  }

  /** Rank `t`'s part of the distributed log-softmax: a maximum and a sum are reduced over the group. */
  function DistributedLogSoftmax(parts: seq<seq<real>>, t: nat, v: nat, exp: real -> real, log: real -> real)
    : (r: seq<real>)
    requires Split(parts, v) && t < |parts|
    ensures |r| == v
  {
    var m := MaxOf(MaxEach(parts));
    var total := RealSum(SumEach(parts, m, exp));
    Shifted(Shifted(parts[t], m), log(total))
  }

  lemma {:induction false} FlattenMember(parts: seq<seq<real>>, x: real)
    ensures x in Flatten(parts) <==> exists t :: 0 <= t < |parts| && x in parts[t]
  {
    if parts == [] {
    } else {
      FlattenMember(parts[1..], x);
      assert x in Flatten(parts) <==> x in parts[0] || x in Flatten(parts[1..]);
      assert x in Flatten(parts[1..]) ==> exists t :: 0 <= t < |parts[1..]| && x in parts[1..][t];
      assert forall t :: 0 <= t < |parts[1..]| ==> parts[1..][t] == parts[t + 1];
      assert forall t :: 1 <= t < |parts| ==> parts[t] == parts[1..][t - 1];
    }
  }

  /** The maximum of the ranks' maxima is the maximum. */
  lemma MaxOfMaxima(parts: seq<seq<real>>, v: nat)
    requires Split(parts, v)
    ensures Flatten(parts) != [] && MaxOf(MaxEach(parts)) == MaxOf(Flatten(parts))
  {
    assert Flatten(parts) == parts[0] + Flatten(parts[1..]);
    var (m, full) := (MaxOf(MaxEach(parts)), MaxOf(Flatten(parts)));
    FlattenMember(parts, full);
    var t :| 0 <= t < |parts| && full in parts[t];
    assert full <= MaxEach(parts)[t] <= m;
    var t' :| 0 <= t' < |parts| && MaxEach(parts)[t'] == m;
    FlattenMember(parts, m);
    assert m in Flatten(parts);
  }

  lemma {:induction false} SumOfSums(parts: seq<seq<real>>, m: real, exp: real -> real)
    ensures RealSum(SumEach(parts, m, exp)) == RealSum(Map(exp, Shifted(Flatten(parts), m)))
  {
    if parts == [] {
      assert Map(exp, Shifted(Flatten(parts), m)) == [];
    } else {
      SumOfSums(parts[1..], m, exp);
      assert SumEach(parts, m, exp)[1..] == SumEach(parts[1..], m, exp);
      ExpSumAppend(parts[0], Flatten(parts[1..]), m, exp);
    }
  }

  lemma ExpSumAppend(xs: seq<real>, ys: seq<real>, m: real, exp: real -> real)
    ensures RealSum(Map(exp, Shifted(xs + ys, m)))
         == RealSum(Map(exp, Shifted(xs, m))) + RealSum(Map(exp, Shifted(ys, m)))
  {
    var (a, b) := (Map(exp, Shifted(xs, m)), Map(exp, Shifted(ys, m)));
    assert Shifted(xs + ys, m) == Shifted(xs, m) + Shifted(ys, m);
    MapAppend(exp, Shifted(xs, m), Shifted(ys, m));
    RealSumAppend(a, b);
  }

  lemma MapAppend(f: real -> real, xs: seq<real>, ys: seq<real>)
    ensures Map(f, xs + ys) == Map(f, xs) + Map(f, ys)
  {
  }

  /** The distributed log-softmax is the log-softmax: rank t's entry i is entry t * v + i of the whole. */
  lemma DistributedIsWhole(parts: seq<seq<real>>, t: nat, v: nat, i: nat, exp: real -> real, log: real -> real)
    requires Split(parts, v) && t < |parts| && i < v
    ensures |Flatten(parts)| == At(|parts|, v) && At(t, v) + i < |Flatten(parts)|
    ensures DistributedLogSoftmax(parts, t, v, exp, log)[i] == LogSoftmax(Flatten(parts), exp, log)[At(t, v) + i]
  {
    FlattenEqual(parts, v, t, i);
    MaxOfMaxima(parts, v);
    SumOfSums(parts, MaxOf(Flatten(parts)), exp);
  }

  /** The laws of exp and log that the subtraction of the maximum relies on. */
  ghost predicate ExpLog(exp: real -> real, log: real -> real) {
    && (forall a, b :: Product(exp(a - b), exp(b)) == exp(a))
    && (forall a :: exp(a) > 0.0)
    && (forall x, b :: x > 0.0 ==> log(Product(x, exp(b))) == log(x) + b)
  }

  /** Subtracting the maximum changes nothing: each entry is its logit less the log of the sum of exponentials. */
  lemma LogSoftmaxIsNormalised(xs: seq<real>, i: nat, exp: real -> real, log: real -> real)
    requires i < |xs| && ExpLog(exp, log)
    ensures LogSoftmax(xs, exp, log)[i] == xs[i] - log(RealSum(Map(exp, xs)))
  {
    var m := MaxOf(xs);
    var total := RealSum(Map(exp, Shifted(xs, m)));
    SumScales(xs, m, exp, log);
    TotalPositive(xs, m, exp, log);
    LogLaw(exp, log, total, m);
  }

  lemma ExpLaw(exp: real -> real, log: real -> real, a: real, b: real)
    requires ExpLog(exp, log)
    ensures Product(exp(a - b), exp(b)) == exp(a)
  {
  }

  lemma LogLaw(exp: real -> real, log: real -> real, x: real, b: real)
    requires ExpLog(exp, log) && x > 0.0
    ensures log(Product(x, exp(b))) == log(x) + b
  {
    hide Product;
  }

  lemma TotalPositive(xs: seq<real>, m: real, exp: real -> real, log: real -> real)
    requires ExpLog(exp, log) && xs != []
    ensures RealSum(Map(exp, Shifted(xs, m))) > 0.0
  {
    SumPositive(Map(exp, Shifted(xs, m)));
  }

  lemma {:induction false} SumScales(xs: seq<real>, m: real, exp: real -> real, log: real -> real)
    requires ExpLog(exp, log)
    ensures Product(RealSum(Map(exp, Shifted(xs, m))), exp(m)) == RealSum(Map(exp, xs))
  {
    hide *;
    if |xs| == 0 {
      NothingToScale(xs, m, exp);
    } else {
      SumScales(xs[1..], m, exp, log);
      ExpLaw(exp, log, xs[0], m);
      ExpSumCons(xs, m, exp);
      PlainSumCons(xs, exp);
      ProductDistributes(exp(xs[0] - m), RealSum(Map(exp, Shifted(xs[1..], m))), exp(m));
    }
  }

  lemma NothingToScale(xs: seq<real>, m: real, exp: real -> real)
    requires xs == []
    ensures Product(RealSum(Map(exp, Shifted(xs, m))), exp(m)) == 0.0 == RealSum(Map(exp, xs))
  {
  }

  lemma PlainSumCons(xs: seq<real>, exp: real -> real)
    requires xs != []
    ensures RealSum(Map(exp, xs)) == exp(xs[0]) + RealSum(Map(exp, xs[1..]))
  {
    assert Map(exp, xs)[1..] == Map(exp, xs[1..]);
  }

  lemma ProductDistributes(a: real, b: real, c: real)
    ensures Product(a + b, c) == Product(a, c) + Product(b, c)
  {
  }

  lemma ExpSumCons(xs: seq<real>, m: real, exp: real -> real)
    requires xs != []
    ensures RealSum(Map(exp, Shifted(xs, m))) == exp(xs[0] - m) + RealSum(Map(exp, Shifted(xs[1..], m)))
  {
    assert Map(exp, Shifted(xs, m))[1..] == Map(exp, Shifted(xs[1..], m));
  }

  lemma {:induction false} SumPositive(xs: seq<real>)
    requires xs != [] && forall i :: 0 <= i < |xs| ==> xs[i] > 0.0
    ensures RealSum(xs) > 0.0
  {
    if |xs| <= 1 {
    } else {
      SumPositive(xs[1..]);
    }
  }

  // ------------------------------------------------------------ one token's log-probability

  /** Rank `t`'s contribution: its entry for the target if the target is in its part of the vocabulary, else zero. */
  function Contribution(parts: seq<seq<real>>, t: nat, v: nat, target: int, exp: real -> real, log: real -> real): real
    requires Split(parts, v) && t < |parts|
  {
    var masked := target < At(t, v) || target >= At(t + 1, v);
    var local := if masked then 0 else target - At(t, v);
    Place(t, t + 1, v);
    if masked then 0.0 else DistributedLogSoftmax(parts, t, v, exp, log)[local]
  }

  function SumContributions(parts: seq<seq<real>>, k: nat, v: nat, target: int, exp: real -> real, log: real -> real)
    : real
    requires Split(parts, v) && k <= |parts|
  {
    if k == 0 then 0.0
    else SumContributions(parts, k - 1, v, target, exp, log) + Contribution(parts, k - 1, v, target, exp, log)
  }

  /** The sum over all ranks. */
  function TokenLogprob(parts: seq<seq<real>>, v: nat, target: int, exp: real -> real, log: real -> real): real
    requires Split(parts, v)
  {
    SumContributions(parts, |parts|, v, target, exp, log)
  }

  lemma ContributionIs(parts: seq<seq<real>>, t: nat, v: nat, target: int, exp: real -> real, log: real -> real)
    requires Split(parts, v) && t < |parts|
    ensures At(t + 1, v) <= At(|parts|, v) == |Flatten(parts)|
    ensures Contribution(parts, t, v, target, exp, log)
         == if At(t, v) <= target < At(t + 1, v) then LogSoftmax(Flatten(parts), exp, log)[target] else 0.0
  {
    hide At, LogSoftmax, DistributedLogSoftmax, Flatten;
    SplitSize(parts, v);
    Place(t, |parts|, v);
    if At(t, v) <= target < At(t + 1, v) {
      DistributedIsWhole(parts, t, v, target - At(t, v), exp, log);
    }
  }

  lemma {:induction false} SumSoFar(parts: seq<seq<real>>, k: nat, v: nat, target: int, exp: real -> real,
                                    log: real -> real)
    requires Split(parts, v) && k <= |parts|
    ensures At(k, v) <= At(|parts|, v) == |Flatten(parts)|
    ensures SumContributions(parts, k, v, target, exp, log)
         == if 0 <= target < At(k, v) then LogSoftmax(Flatten(parts), exp, log)[target] else 0.0
    decreases k
  {
    hide *;
    SplitSize(parts, v);
    Place(0, |parts|, v);
    if k == 0 {
      NoContribution(parts, v, target, exp, log);
    } else {
      Place(k - 1, |parts|, v);
      SumSoFar(parts, k - 1, v, target, exp, log);
      ContributionIs(parts, k - 1, v, target, exp, log);
      OneMore(parts, k - 1, v, target, exp, log);
    }
  }

  lemma SplitSize(parts: seq<seq<real>>, v: nat)
    requires Split(parts, v)
    ensures |parts| > 0 && |Flatten(parts)| == At(|parts|, v)
  {
    FlattenEqualSize(parts, v);
  }

  lemma NoContribution(parts: seq<seq<real>>, v: nat, target: int, exp: real -> real, log: real -> real)
    requires Split(parts, v)
    ensures SumContributions(parts, 0, v, target, exp, log) == 0.0
  {
  }

  lemma OneMore(parts: seq<seq<real>>, k: nat, v: nat, target: int, exp: real -> real, log: real -> real)
    requires Split(parts, v) && k < |parts|
    ensures SumContributions(parts, k + 1, v, target, exp, log)
         == SumContributions(parts, k, v, target, exp, log) + Contribution(parts, k, v, target, exp, log)
  {
  }

  /** The masked gather summed over ranks is the full log-probability of the target, and zero outside the
      vocabulary. */
  lemma TokenLogprobIsFull(parts: seq<seq<real>>, v: nat, target: int, exp: real -> real, log: real -> real)
    requires Split(parts, v)
    ensures |Flatten(parts)| == At(|parts|, v)
    ensures TokenLogprob(parts, v, target, exp, log)
         == if 0 <= target < At(|parts|, v) then LogSoftmax(Flatten(parts), exp, log)[target] else 0.0
  {
    SumSoFar(parts, |parts|, v, target, exp, log);
  }

  // ------------------------------------------------------------ chunks of positions

  /** A position's logits on every rank, and its target. */
  datatype Position = Position(parts: seq<seq<real>>, target: int)

  ghost predicate AllSplit(ps: seq<Position>, v: nat) {
    forall i :: 0 <= i < |ps| ==> Split(ps[i].parts, v)
  }

  /** Without chunks. */
  function Logprobs(ps: seq<Position>, v: nat, exp: real -> real, log: real -> real): (r: seq<real>)
    requires AllSplit(ps, v)
    ensures |r| == |ps|
    ensures forall i :: 0 <= i < |ps| ==> r[i] == TokenLogprob(ps[i].parts, v, ps[i].target, exp, log)
  {
    seq(|ps|, i requires 0 <= i < |ps| => TokenLogprob(ps[i].parts, v, ps[i].target, exp, log))
  }

  /** Work on every entry, done chunk after chunk. */
  method InChunks<A, B>(f: A -> B, xs: seq<A>, chunkSize: nat) returns (r: seq<B>)
    requires chunkSize > 0
    ensures r == Map(f, xs)
  {
    var chunks := (|xs| + chunkSize - 1) / chunkSize;
    r := [];
    ChunksCover(|xs|, chunkSize);
    Place(0, 1, chunkSize);
    hide At;
    for c := 0 to chunks
      invariant |r| == Min(|xs|, At(c, chunkSize))
      invariant r == Map(f, xs[..|r|])
    {
      Place(c, chunks, chunkSize);
      var start := At(c, chunkSize);
      var end := Min(|xs|, At(c + 1, chunkSize));
      StartsInside(|xs|, chunkSize, c);
      assert Map(f, xs[..end]) == Map(f, xs[..start]) + Map(f, xs[start..end]);
      r := r + Map(f, xs[start..end]);
    }
    assert xs[..|r|] == xs;
  }

  /** A token's entry: the masked gather summed over the tensor-parallel ranks. */
  function Entry(v: nat, exp: real -> real, log: real -> real): (seq<seq<real>>, int) -> real {
    (parts: seq<seq<real>>, target: int) =>
      if Split(parts, v) then TokenLogprob(parts, v, target, exp, log) else 0.0
  }

  /** The loop over chunks of positions. */
  method ChunkedLogprobs(ps: seq<Position>, v: nat, chunkSize: nat, exp: real -> real, log: real -> real)
    returns (r: seq<real>)
    requires AllSplit(ps, v) && chunkSize > 0
    ensures r == Logprobs(ps, v, exp, log)
  {
    hide TokenLogprob, Split;
    r := InChunks((p: Position) => Entry(v, exp, log)(p.parts, p.target), ps, chunkSize);
    forall i | 0 <= i < |ps| ensures r[i] == TokenLogprob(ps[i].parts, v, ps[i].target, exp, log) {
      assert r[i] == Entry(v, exp, log)(ps[i].parts, ps[i].target);
    }
  }

  lemma ChunksCover(n: nat, size: nat)
    requires size > 0
    ensures At((n + size - 1) / size, size) >= n && (n + size - 1) / size >= 0
  {
    var q := (n + size - 1) / size;
    assert n + size - 1 == q * size + (n + size - 1) % size;
  }

  lemma StartsInside(n: nat, size: nat, c: nat)
    requires size > 0 && c < (n + size - 1) / size
    ensures At(c, size) < n
  {
    var q := (n + size - 1) / size;
    assert n + size - 1 == q * size + (n + size - 1) % size;
    Times(c + 1, q, size);
  }

  // ------------------------------------------------------------ backward

  /** The gradient of one entry: one if the target is this entry and on this rank, less the softmax, scaled. */
  function OneHotGradient(chosen: bool, softmax: real, g: real): real {
    ((if chosen then 1.0 else 0.0) - softmax) * g
  }

  /** `row` of the flat gradient, which begins at `start`, is what a one-hot row for `chosen` gives. */
  ghost predicate RowIs(flat: seq<real>, start: nat, softmax: seq<real>, chosen: int, g: real) {
    && start + |softmax| <= |flat|
    && forall i :: start <= i < start + |softmax| ==>
         flat[i] == OneHotGradient(i - start == chosen, softmax[i - start], g)
  }

  /** The backward pass by scattering: the negated softmax is scaled in place, and each unmasked position's gradient
      is added at its target's flat index. Every row is what a one-hot row would give. */
  method ScatterBackward(softmax: seq<seq<real>>, masked: seq<bool>, local: seq<nat>, g: seq<real>, v: nat)
    returns (grad: array<real>)
    requires |softmax| == |masked| == |local| == |g|
    requires forall p :: 0 <= p < |softmax| ==> |softmax[p]| == v && local[p] < v
    ensures grad.Length == At(|softmax|, v)
    ensures forall p: nat :: p < |softmax| ==>
      RowIs(grad[..], At(p, v), softmax[p], if masked[p] then -1 else local[p], g[p])
  {
    grad := NegatedSoftmax(softmax, g, v);
    hide At, RowIs, OneHotGradient;
    for p := 0 to |softmax|
      invariant forall q: nat :: q < |softmax| ==>
        RowIs(grad[..], At(q, v), softmax[q], if q >= p || masked[q] then -1 else local[q], g[q])
    {
      Place(p, |softmax|, v);
      if !masked[p] {
        ghost var before := grad[..];
        var i := At(p, v) + local[p];
        grad[i] := grad[i] + g[p];
        assert grad[..] == before[i := before[i] + g[p]];
        RowScattered(before, At(p, v), softmax[p], local[p], g[p]);
        forall q: nat | q < |softmax| && q != p
          ensures RowIs(grad[..], At(q, v), softmax[q], if q >= p || masked[q] then -1 else local[q], g[q])
        {
          if q < p { Place(q, p, v); } else { Place(p, q, v); }
          RowUntouched(before, At(q, v), softmax[q], if q >= p || masked[q] then -1 else local[q], g[q], i, grad[i]);
        }
      }
    }
  }

  lemma RowScattered(flat: seq<real>, start: nat, softmax: seq<real>, chosen: nat, g: real)
    requires RowIs(flat, start, softmax, -1, g) && chosen < |softmax|
    ensures RowIs(flat[start + chosen := flat[start + chosen] + g], start, softmax, chosen, g)
  {
  }

  lemma RowUntouched(flat: seq<real>, start: nat, softmax: seq<real>, chosen: int, g: real, i: nat, x: real)
    requires RowIs(flat, start, softmax, chosen, g) && i < |flat| && (i < start || start + |softmax| <= i)
    ensures RowIs(flat[i := x], start, softmax, chosen, g)
  {
  }

  method NegatedSoftmax(softmax: seq<seq<real>>, g: seq<real>, v: nat) returns (grad: array<real>)
    requires |softmax| == |g| && forall p :: 0 <= p < |softmax| ==> |softmax[p]| == v
    ensures fresh(grad) && grad.Length == At(|softmax|, v)
    ensures forall p: nat :: p < |softmax| ==> RowIs(grad[..], At(p, v), softmax[p], -1, g[p])
  {
    grad := new real[At(|softmax|, v)];
    Place(0, 1, v);
    hide At;
    for p := 0 to |softmax|
      invariant forall q: nat :: q < p ==> RowIs(grad[..], At(q, v), softmax[q], -1, g[q])
    {
      Place(p, |softmax|, v);
      ghost var before := grad[..];
      var start := At(p, v);
      for w := 0 to v
        invariant forall i :: 0 <= i < start ==> grad[i] == before[i]
        invariant forall i :: start <= i < start + w ==> grad[i] == OneHotGradient(false, softmax[p][i - start], g[p])
      {
        grad[start + w] := -softmax[p][w] * g[p];
      }
      forall q: nat | q < p ensures RowIs(grad[..], At(q, v), softmax[q], -1, g[q]) {
        Place(q, p, v);
        assert RowIs(before, At(q, v), softmax[q], -1, g[q]);
      }
    }
  }
}
