/** The backward pass of the distributed log-probability (nemo_rl/distributed/model_utils.py): what a position's row of
    the gradient is on every rank, and that the rows of all ranks together are the gradient of the forward pass. */
module LogprobGradient {
  import opened Sequences
  import opened VocabParallel

  // ------------------------------------------------------------ one row

  /** Where the target is on rank `t`, or -1 for a rank that masks it. */
  function LocalTarget(target: int, t: nat, v: nat): int {
    if target < At(t, v) || target >= At(t + 1, v) then -1 else target - At(t, v)
  }

  /** The row that the backward pass puts at `start` of its flat gradient. */
  function RowOf(flat: seq<real>, start: nat, v: nat): (r: seq<real>)
    requires start + v <= |flat|
    ensures |r| == v
  {
    flat[start..start + v]
  }

  lemma GradientScales(chosen: bool, softmax: real, g: real)
    ensures OneHotGradient(chosen, softmax, g) == Product(g, OneHotGradient(chosen, softmax, 1.0))
  {
  }

  /** A row is proportional to its incoming gradient, and zero where that is zero. */
  lemma RowScales(flat: seq<real>, unit: seq<real>, start: nat, softmax: seq<real>, chosen: int, g: real, i: nat)
    requires RowIs(flat, start, softmax, chosen, g) && RowIs(unit, start, softmax, chosen, 1.0) && i < |softmax|
    ensures flat[start + i] == Product(g, unit[start + i])
    ensures g == 0.0 ==> flat[start + i] == 0.0
  {
    hide OneHotGradient, Product;
    GradientScales(start + i - start == chosen, softmax[i], g);
    TimesNothing(unit[start + i]);
  }

  lemma TimesNothing(x: real)
    ensures Product(0.0, x) == 0.0
  {
  }

  /** With a nonnegative incoming gradient the target's logit is pushed up and all others down. */
  lemma RowSigns(flat: seq<real>, start: nat, softmax: seq<real>, chosen: int, g: real, i: nat)
    requires RowIs(flat, start, softmax, chosen, g) && g >= 0.0 && i < |softmax| && 0.0 <= softmax[i] <= 1.0
    ensures if i == chosen then flat[start + i] >= 0.0 else flat[start + i] <= 0.0
  {
    assert flat[start + i] == OneHotGradient(i == chosen, softmax[i], g);
  }

  // ------------------------------------------------------------ all ranks together

  /** The softmax that rank `t` keeps from the forward pass. */
  function SoftmaxOn(parts: seq<seq<real>>, t: nat, v: nat, exp: real -> real, log: real -> real): (r: seq<real>)
    requires Split(parts, v) && t < |parts|
    ensures |r| == v
  {
    Map(exp, DistributedLogSoftmax(parts, t, v, exp, log))
  }

  /** A position's row on every rank, as the backward pass leaves it. */
  ghost predicate RowsOnRanks(rows: seq<seq<real>>, parts: seq<seq<real>>, v: nat, target: int, g: real,
                              exp: real -> real, log: real -> real)
    requires Split(parts, v)
  {
    |rows| == |parts| && forall t: nat :: t < |parts| ==>
      |rows[t]| == v && RowIs(rows[t], 0, SoftmaxOn(parts, t, v, exp, log), LocalTarget(target, t, v), g)
  }

  lemma RowAlone(flat: seq<real>, start: nat, softmax: seq<real>, chosen: int, g: real)
    requires RowIs(flat, start, softmax, chosen, g)
    ensures RowIs(RowOf(flat, start, |softmax|), 0, softmax, chosen, g)
  {
    forall i | 0 <= i < |softmax|
      ensures RowOf(flat, start, |softmax|)[i] == OneHotGradient(i == chosen, softmax[i], g)
    {
      assert flat[start + i] == OneHotGradient(start + i - start == chosen, softmax[start + i - start], g);
    }
  }

  /** The rows at `start` of every rank's flat gradient. */
  function RowsAt(flats: seq<seq<real>>, start: nat, v: nat): (r: seq<seq<real>>)
    requires forall t :: 0 <= t < |flats| ==> start + v <= |flats[t]|
    ensures |r| == |flats| && forall t :: 0 <= t < |r| ==> r[t] == RowOf(flats[t], start, v)
  {
    seq(|flats|, t requires 0 <= t < |flats| => RowOf(flats[t], start, v))
  }

  /** What the scattering backward pass promises for position `p` on every rank. */
  lemma RowsAtPosition(flats: seq<seq<real>>, p: nat, parts: seq<seq<real>>, v: nat, target: int, g: real,
                       exp: real -> real, log: real -> real)
    requires Split(parts, v) && |flats| == |parts|
    requires forall t: nat :: t < |parts| ==>
      RowIs(flats[t], At(p, v), SoftmaxOn(parts, t, v, exp, log), LocalTarget(target, t, v), g)
    ensures forall t :: 0 <= t < |flats| ==> At(p, v) + v <= |flats[t]|
    ensures RowsOnRanks(RowsAt(flats, At(p, v), v), parts, v, target, g, exp, log)
  {
    hide DistributedLogSoftmax, At, OneHotGradient;
    forall t: nat | t < |parts|
      ensures At(p, v) + v <= |flats[t]|
      ensures RowIs(RowOf(flats[t], At(p, v), v), 0, SoftmaxOn(parts, t, v, exp, log), LocalTarget(target, t, v), g)
    {
      RowAlone(flats[t], At(p, v), SoftmaxOn(parts, t, v, exp, log), LocalTarget(target, t, v), g);
    }
  }

  /** The one-hot row over the whole vocabulary. */
  function WholeGradient(xs: seq<real>, target: int, g: real, exp: real -> real, log: real -> real): (r: seq<real>)
    requires xs != []
    ensures |r| == |xs|
    ensures forall w :: 0 <= w < |xs| ==> r[w] == OneHotGradient(w == target, exp(LogSoftmax(xs, exp, log)[w]), g)
  {
    seq(|xs|, w requires 0 <= w < |xs| => OneHotGradient(w == target, exp(LogSoftmax(xs, exp, log)[w]), g))
  }

  lemma RowsAreWhole(rows: seq<seq<real>>, parts: seq<seq<real>>, v: nat, target: int, g: real, exp: real -> real,
                     log: real -> real)
    requires Split(parts, v) && RowsOnRanks(rows, parts, v, target, g, exp, log)
    ensures Flatten(parts) != []
    ensures Flatten(rows) == WholeGradient(Flatten(parts), target, g, exp, log)
  {
    hide Flatten, OneHotGradient, LogSoftmax, DistributedLogSoftmax, At;
    SplitSize(parts, v);
    FlattenEqualSize(rows, v);
    NotEmpty(|parts|, v);
    var whole := WholeGradient(Flatten(parts), target, g, exp, log);
    forall w: nat | w < At(|parts|, v) ensures Flatten(rows)[w] == whole[w] {
      var t, i := Locate(w, |parts|, v);
      FlattenEqual(rows, v, t, i);
      DistributedIsWhole(parts, t, v, i, exp, log);
      Place(t, |parts|, v);
      assert rows[t][i] == OneHotGradient(i == LocalTarget(target, t, v), SoftmaxOn(parts, t, v, exp, log)[i], g);
    }
  }

  lemma NotEmpty(n: nat, v: nat)
    requires n > 0 && v > 0
    ensures At(n, v) > 0
  {
    Times(1, n, v);
  }

  /** The rank and the position there of entry `w` of the vocabulary. */
  lemma Locate(w: nat, n: nat, v: nat) returns (t: nat, i: nat)
    requires v > 0 && w < At(n, v)
    ensures t < n && i < v && w == At(t, v) + i
  {
    t, i := w / v, w % v;
    assert w == t * v + i;
    if t >= n { Times(n, t, v); }
  }

  // ------------------------------------------------------------ the softmax

  /** What else is needed of exp and log: they are inverse, and exp lies above its tangent at 0. */
  ghost predicate Inverse(exp: real -> real, log: real -> real) {
    && ExpLog(exp, log)
    && (forall x :: x > 0.0 ==> exp(log(x)) == x)
    && (forall a :: exp(a) >= 1.0 + a)
  }

  function Softmax(xs: seq<real>, exp: real -> real, log: real -> real): (r: seq<real>)
    requires xs != []
    ensures |r| == |xs|
  {
    Map(exp, LogSoftmax(xs, exp, log))
  }

  lemma ExpPositive(a: real, exp: real -> real, log: real -> real)
    requires ExpLog(exp, log)
    ensures exp(a) > 0.0
  {
  }

  lemma SumPositiveExp(xs: seq<real>, exp: real -> real, log: real -> real)
    requires ExpLog(exp, log) && xs != []
    ensures RealSum(Map(exp, xs)) > 0.0
  {
    var terms := Map(exp, xs);
    forall i | 0 <= i < |terms| ensures terms[i] > 0.0 { ExpPositive(xs[i], exp, log); }
    SumPositive(terms);
  }

  lemma SoftmaxIs(xs: seq<real>, exp: real -> real, log: real -> real)
    requires xs != [] && ExpLog(exp, log)
    ensures Softmax(xs, exp, log) == Map(exp, Shifted(xs, log(RealSum(Map(exp, xs)))))
  {
    hide LogSoftmax;
    var c := log(RealSum(Map(exp, xs)));
    forall i | 0 <= i < |xs| ensures LogSoftmax(xs, exp, log)[i] == Shifted(xs, c)[i] {
      LogSoftmaxIsNormalised(xs, i, exp, log);
    }
    assert LogSoftmax(xs, exp, log) == Shifted(xs, c);
  }

  /** The softmax sums to one. */
  lemma SoftmaxSumsToOne(xs: seq<real>, exp: real -> real, log: real -> real)
    requires xs != [] && Inverse(exp, log)
    ensures RealSum(Softmax(xs, exp, log)) == 1.0
  {
    hide *;
    ExpLogOf(exp, log);
    SoftmaxIs(xs, exp, log);
    SumPositiveExp(xs, exp, log);
    var total := RealSum(Map(exp, xs));
    SumScales(xs, log(total), exp, log);
    Undone(total, exp, log);
    SameProduct(RealSum(Softmax(xs, exp, log)), total);
  }

  lemma ExpLogOf(exp: real -> real, log: real -> real)
    requires Inverse(exp, log)
    ensures ExpLog(exp, log)
  {
  }

  lemma Undone(x: real, exp: real -> real, log: real -> real)
    requires Inverse(exp, log) && x > 0.0
    ensures exp(log(x)) == x
  {
  }

  lemma SameProduct(a: real, b: real)
    requires b > 0.0 && Product(a, b) == b
    ensures a == 1.0
  {
    assert (a - 1.0) * b == 0.0;
  }

  // ------------------------------------------------------------ gradients that cancel

  lemma {:induction false} OneHotSum(ps: seq<real>, target: int, g: real, r: seq<real>)
    requires |r| == |ps| && forall w :: 0 <= w < |ps| ==> r[w] == OneHotGradient(w == target, ps[w], g)
    ensures RealSum(r) == Product((if 0 <= target < |ps| then 1.0 else 0.0) - RealSum(ps), g)
  {
    if ps == [] {
    } else {
      OneHotSum(ps[1..], target - 1, g, r[1..]);
      assert r[0] == OneHotGradient(0 == target, ps[0], g);
    }
  }

  /** The gradients of a position, summed over all ranks, cancel if and only if nothing comes in or its target is in the
      vocabulary; a target outside it leaves the negated incoming gradient. */
  lemma GradientsCancelIff(rows: seq<seq<real>>, parts: seq<seq<real>>, v: nat, target: int, g: real,
                           exp: real -> real, log: real -> real)
    requires Split(parts, v) && RowsOnRanks(rows, parts, v, target, g, exp, log) && Inverse(exp, log)
    ensures RealSum(Flatten(rows)) == if 0 <= target < At(|parts|, v) then 0.0 else -g
    ensures RealSum(Flatten(rows)) == 0.0 <==> g == 0.0 || 0 <= target < At(|parts|, v)
  {
    hide At, LogSoftmax, Flatten, RealSum, Inverse, Split, RowsOnRanks, OneHotGradient;
    RowsAreWhole(rows, parts, v, target, g, exp, log);
    SplitSize(parts, v);
    var xs := Flatten(parts);
    SoftmaxSumsToOne(xs, exp, log);
    OneHotSum(Softmax(xs, exp, log), target, g, Flatten(rows));
  }

  // ------------------------------------------------------------ the gradient of the forward pass

  function Difference(ys: seq<real>, xs: seq<real>): (r: seq<real>)
    requires |ys| == |xs|
    ensures |r| == |xs| && forall w :: 0 <= w < |xs| ==> r[w] == ys[w] - xs[w]
  {
    seq(|xs|, w requires 0 <= w < |xs| => ys[w] - xs[w])
  }

  lemma {:induction false} OneHotDot(ps: seq<real>, target: int, g: real, r: seq<real>, d: seq<real>)
    requires |r| == |ps| == |d| && forall w :: 0 <= w < |ps| ==> r[w] == OneHotGradient(w == target, ps[w], g)
    ensures Dot(r, d) == Product(g, (if 0 <= target < |d| then d[target] else 0.0) - Dot(ps, d))
  {
    if ps == [] {
    } else {
      var rest := if 1 <= target < |d| then d[target] else 0.0;
      OneHotDot(ps[1..], target - 1, g, r[1..], d[1..]);
      assert r[0] == OneHotGradient(0 == target, ps[0], g);
      hide OneHotGradient, Product, Dot;
      OneHotHead(0 == target, ps[0], g, d[0], rest, Dot(ps[1..], d[1..]));
      DotHead(r, d);
      DotHead(ps, d);
    }
  }

  lemma DotHead(xs: seq<real>, ys: seq<real>)
    requires |xs| == |ys| > 0
    ensures Dot(xs, ys) == Product(xs[0], ys[0]) + Dot(xs[1..], ys[1..])
  {
  }

  lemma OneHotHead(chosen: bool, p: real, g: real, d: real, rest: real, dot: real)
    requires chosen ==> rest == 0.0
    ensures Product(OneHotGradient(chosen, p, g), d) + Product(g, rest - dot)
         == Product(g, (if chosen then d else rest) - (Product(p, d) + dot))
  {
    var one := if chosen then 1.0 else 0.0;
    assert (one - p) * g * d == g * (one * d) - g * (p * d);
  }

  /** A bound on every term bounds the sum. */
  lemma {:induction false} TangentSum(ps: seq<real>, d: seq<real>, m: real, qs: seq<real>)
    requires |qs| == |ps| == |d| && forall w :: 0 <= w < |ps| ==> qs[w] >= Product(ps[w], 1.0 + d[w] - m)
    ensures RealSum(qs) >= Product(RealSum(ps), 1.0 - m) + Dot(ps, d)
  {
    if ps == [] {
    } else {
      TangentSum(ps[1..], d[1..], m, qs[1..]);
      SplitTerm(ps[0], d[0], m, RealSum(ps[1..]));
    }
  }

  lemma SplitTerm(p: real, d: real, m: real, rest: real)
    ensures Product(p, 1.0 + d - m) + Product(rest, 1.0 - m) == Product(p + rest, 1.0 - m) + Product(p, d)
  {
  }

  lemma TangentTerm(x: real, y: real, c: real, m: real, exp: real -> real, log: real -> real)
    requires Inverse(exp, log)
    ensures exp(y - (c + m)) >= Product(exp(x - c), 1.0 + (y - x) - m)
  {
    hide *;
    ExpLogOf(exp, log);
    ExpLaw(exp, log, y - (c + m), y - x - m);
    assert y - (c + m) - (y - x - m) == x - c;
    var (p, q, b) := (exp(x - c), exp(y - x - m), 1.0 + (y - x) - m);
    ExpPositive(x - c, exp, log);
    AboveTangent(y - x - m, exp, log);
    ProductGrows(p, b, q);
  }

  lemma ProductGrows(p: real, b: real, q: real)
    requires p >= 0.0 && b <= q
    ensures Product(p, b) <= Product(p, q)
  {
  }

  /** The log of the sum of exponentials lies above its tangent, which is the expectation under the softmax. */
  lemma LogSumTangent(xs: seq<real>, ys: seq<real>, exp: real -> real, log: real -> real)
    requires xs != [] && |ys| == |xs| && Inverse(exp, log)
    ensures log(RealSum(Map(exp, ys)))
         >= log(RealSum(Map(exp, xs))) + Dot(Softmax(xs, exp, log), Difference(ys, xs))
  {
    hide *;
    ExpLogOf(exp, log);
    SoftmaxIs(xs, exp, log);
    SoftmaxSumsToOne(xs, exp, log);
    var c := log(RealSum(Map(exp, xs)));
    var (ps, d) := (Softmax(xs, exp, log), Difference(ys, xs));
    var m := Dot(ps, d);
    var qs := Map(exp, Shifted(ys, c + m));
    forall w | 0 <= w < |xs| ensures qs[w] >= Product(ps[w], 1.0 + d[w] - m) {
      TangentTerm(xs[w], ys[w], c, m, exp, log);
    }
    TangentSum(ps, d, m, qs);
    OneTimes(1.0 - m);
    SumScales(ys, c + m, exp, log);
    SumPositiveExp(ys, exp, log);
    AboveExp(RealSum(Map(exp, ys)), RealSum(qs), c + m, exp, log);
  }

  lemma OneTimes(x: real)
    ensures Product(1.0, x) == x
  {
  }

  /** exp grows strictly. */
  lemma ExpGrows(a: real, b: real, exp: real -> real, log: real -> real)
    requires Inverse(exp, log) && a < b
    ensures 0.0 < exp(a) < exp(b)
  {
    hide *;
    ExpLogOf(exp, log);
    ExpPositive(a, exp, log);
    ExpLaw(exp, log, b, a);
    AboveTangent(b - a, exp, log);
    StrictProduct(exp(b - a), exp(a));
  }

  lemma AboveTangent(a: real, exp: real -> real, log: real -> real)
    requires Inverse(exp, log)
    ensures exp(a) >= 1.0 + a
  {
  }

  lemma StrictProduct(e: real, x: real)
    requires x > 0.0
    ensures e > 1.0 ==> Product(e, x) > x
    ensures e >= 1.0 ==> Product(e, x) >= x
  {
  }

  lemma AboveExp(total: real, q: real, c: real, exp: real -> real, log: real -> real)
    requires Inverse(exp, log) && total > 0.0 && q >= 1.0 && Product(q, exp(c)) == total
    ensures log(total) >= c
  {
    hide *;
    ExpLogOf(exp, log);
    ExpPositive(c, exp, log);
    Undone(total, exp, log);
    StrictProduct(q, exp(c));
    if log(total) < c { ExpGrows(log(total), c, exp, log); }
  }

  lemma WholeTangent(xs: seq<real>, ys: seq<real>, target: nat, g: real, exp: real -> real, log: real -> real)
    requires target < |xs| == |ys| && Inverse(exp, log) && g >= 0.0
    ensures Product(g, LogSoftmax(ys, exp, log)[target] - LogSoftmax(xs, exp, log)[target])
         <= Dot(WholeGradient(xs, target, g, exp, log), Difference(ys, xs))
  {
    hide *;
    ExpLogOf(exp, log);
    LogSoftmaxIsNormalised(xs, target, exp, log);
    LogSoftmaxIsNormalised(ys, target, exp, log);
    LogSumTangent(xs, ys, exp, log);
    WholeRow(xs, target, g, exp, log);
    var (ps, d) := (Softmax(xs, exp, log), Difference(ys, xs));
    OneHotDot(ps, target, g, WholeGradient(xs, target, g, exp, log), d);
    ProductGrows(g, LogSoftmax(ys, exp, log)[target] - LogSoftmax(xs, exp, log)[target], d[target] - Dot(ps, d));
  }

  lemma WholeRow(xs: seq<real>, target: int, g: real, exp: real -> real, log: real -> real)
    requires xs != []
    ensures var r := WholeGradient(xs, target, g, exp, log);
            forall w :: 0 <= w < |xs| ==> r[w] == OneHotGradient(w == target, Softmax(xs, exp, log)[w], g)
  {
    hide LogSoftmax, OneHotGradient;
  }

  /** The rows of all ranks are the gradient of the forward pass: scaled by the incoming gradient, no other logits raise
      the target's log-probability by more than the linear function with this gradient, and a concave function has only
      one such. */
  lemma RowsAreGradient(rows: seq<seq<real>>, parts: seq<seq<real>>, others: seq<seq<real>>, v: nat, target: int,
                        g: real, exp: real -> real, log: real -> real)
    requires Split(parts, v) && Split(others, v) && |others| == |parts| && 0 <= target < At(|parts|, v)
    requires RowsOnRanks(rows, parts, v, target, g, exp, log) && Inverse(exp, log) && g >= 0.0
    ensures |Flatten(rows)| == |Flatten(others)| == |Flatten(parts)|
    ensures Product(g, TokenLogprob(others, v, target, exp, log) - TokenLogprob(parts, v, target, exp, log))
         <= Dot(Flatten(rows), Difference(Flatten(others), Flatten(parts)))
  {
    hide *;
    SplitSize(parts, v);
    SplitSize(others, v);
    RowsAreWhole(rows, parts, v, target, g, exp, log);
    TokenLogprobIsFull(parts, v, target, exp, log);
    TokenLogprobIsFull(others, v, target, exp, log);
    WholeTangent(Flatten(parts), Flatten(others), target, g, exp, log);
  }
}
