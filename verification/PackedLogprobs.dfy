/** Log-probabilities of packed sequences under context and tensor parallelism (nemo_rl/distributed/model_utils.py):
    per-sequence shift, zig-zag shard, per-token log-probability, per-sequence gather, unpacking. */
module PackedLogprobs {
  import opened ContextParallel
  import Dealing
  import opened Sequences
  import opened VocabParallel

  /** `roll` by -1: every token's target is its successor, the last one's the first token. */
  function Roll<T>(xs: seq<T>): (r: seq<T>)
    ensures |r| == |xs|
    ensures forall i :: 0 <= i < |xs| ==> r[i] == xs[if i + 1 < |xs| then i + 1 else 0]
  {
    if xs == [] then [] else xs[1..] + [xs[0]]
  }

  // ------------------------------------------------------------ sequences laid end to end

  /** Where sequences begin and end in a buffer of `total` entries. */
  ghost predicate Offsets(cu: seq<nat>, total: nat) {
    && |cu| > 0 && cu[0] == 0 && cu[|cu| - 1] == total
    && forall i, j :: 0 <= i <= j < |cu| ==> cu[i] <= cu[j]
  }

  function Segment<T>(xs: seq<T>, cu: seq<nat>, i: nat): (r: seq<T>)
    requires Offsets(cu, |xs|) && i + 1 < |cu|
    ensures |r| == cu[i + 1] - cu[i]
  {
    assert cu[i + 1] <= cu[|cu| - 1];
    xs[cu[i]..cu[i + 1]]
  }

  /** The buffer's first `k` segments are `parts`. */
  ghost predicate LaidTo<T>(buffer: seq<T>, cu: seq<nat>, parts: seq<seq<T>>, k: nat) {
    && Offsets(cu, |buffer|) && |parts| == |cu| - 1 && k <= |parts|
    && forall i: nat :: i < k ==> Segment(buffer, cu, i) == parts[i]
  }

  ghost predicate Laid<T>(buffer: seq<T>, cu: seq<nat>, parts: seq<seq<T>>) {
    LaidTo(buffer, cu, parts, |parts|)
  }

  function Segments<T>(xs: seq<T>, cu: seq<nat>): (r: seq<seq<T>>)
    requires Offsets(cu, |xs|)
    ensures Laid(xs, cu, r)
  {
    seq(|cu| - 1, i requires 0 <= i < |cu| - 1 => Segment(xs, cu, i))
  }

  /** Slice assignment. */
  function Write<T>(buffer: seq<T>, start: nat, end: nat, part: seq<T>): (r: seq<T>)
    requires start <= end <= |buffer| && |part| == end - start
    ensures |r| == |buffer|
    ensures r[start..end] == part && r[..start] == buffer[..start] && r[end..] == buffer[end..]
  {
    buffer[..start] + part + buffer[end..]
  }

  /** Writing the next segment. */
  lemma WriteSegment<T>(buffer: seq<T>, cu: seq<nat>, parts: seq<seq<T>>, k: nat)
    requires LaidTo(buffer, cu, parts, k) && k < |parts| && |parts[k]| == cu[k + 1] - cu[k]
    ensures cu[k] <= cu[k + 1] <= |buffer|
    ensures LaidTo(Write(buffer, cu[k], cu[k + 1], parts[k]), cu, parts, k + 1)
  {
    assert cu[k + 1] <= cu[|cu| - 1];
    var after := Write(buffer, cu[k], cu[k + 1], parts[k]);
    forall i: nat | i < k ensures Segment(after, cu, i) == parts[i] {
      assert cu[i + 1] <= cu[k];
      assert Segment(after, cu, i) == after[..cu[k]][cu[i]..cu[i + 1]];
      assert Segment(buffer, cu, i) == buffer[..cu[k]][cu[i]..cu[i + 1]];
    }
  }

  function Zip<A, B>(f: (A, int) -> B, xs: seq<A>, ys: seq<int>): (r: seq<B>)
    requires |xs| == |ys|
    ensures |r| == |xs| && forall i :: 0 <= i < |xs| ==> r[i] == f(xs[i], ys[i])
  {
    seq(|xs|, i requires 0 <= i < |xs| => f(xs[i], ys[i]))
  }

  ghost predicate SameShape<A>(xss: seq<seq<A>>, yss: seq<seq<int>>) {
    |xss| == |yss| && forall i :: 0 <= i < |xss| ==> |xss[i]| == |yss[i]|
  }

  function ZipEach<A, B>(f: (A, int) -> B, xss: seq<seq<A>>, yss: seq<seq<int>>): (r: seq<seq<B>>)
    requires SameShape(xss, yss)
    ensures |r| == |xss| && forall i :: 0 <= i < |xss| ==> r[i] == Zip(f, xss[i], yss[i])
  {
    seq(|xss|, i requires 0 <= i < |xss| => Zip(f, xss[i], yss[i]))
  }

  /** Per-token work respects the segments. */
  lemma LaidZip<A, B>(f: (A, int) -> B, xs: seq<A>, ys: seq<int>, xss: seq<seq<A>>, yss: seq<seq<int>>, cu: seq<nat>)
    requires |xs| == |ys| && Laid(xs, cu, xss) && Laid(ys, cu, yss)
    ensures SameShape(xss, yss) && Laid(Zip(f, xs, ys), cu, ZipEach(f, xss, yss))
  {
    forall i: nat | i < |xss|
      ensures |xss[i]| == |yss[i]| && Segment(Zip(f, xs, ys), cu, i) == Zip(f, xss[i], yss[i])
    {
      assert Segment(xs, cu, i) == xss[i] && Segment(ys, cu, i) == yss[i];
    }
  }

  function Pairs<A>(xs: seq<A>, ys: seq<int>): (r: seq<(A, int)>)
    requires |xs| == |ys|
    ensures |r| == |xs| && forall i :: 0 <= i < |xs| ==> r[i] == (xs[i], ys[i])
  {
    seq(|xs|, i requires 0 <= i < |xs| => (xs[i], ys[i]))
  }

  /** Every token's entry, all at once or chunk after chunk. */
  method Entries<A, B>(f: (A, int) -> B, xs: seq<A>, ys: seq<int>, chunkSize: Option<nat>) returns (r: seq<B>)
    requires |xs| == |ys| && chunkSize != Some(0)
    ensures r == Zip(f, xs, ys)
  {
    if chunkSize.None? { return Zip(f, xs, ys); }
    var pairs := Pairs(xs, ys);
    r := InChunks((p: (A, int)) => f(p.0, p.1), pairs, chunkSize.value);
  }

  function Positions(xs: seq<seq<seq<real>>>, ys: seq<int>): (r: seq<Position>)
    requires |xs| == |ys|
    ensures |r| == |xs| && forall i :: 0 <= i < |xs| ==> r[i] == Position(xs[i], ys[i])
  {
    seq(|xs|, i requires 0 <= i < |xs| => Position(xs[i], ys[i]))
  }

  /** With tensor parallelism the entries are the log-probabilities of the positions, chunked or not. */
  lemma EntriesAreLogprobs(xs: seq<seq<seq<real>>>, ys: seq<int>, v: nat, exp: real -> real, log: real -> real)
    requires |xs| == |ys| && AllSplit(Positions(xs, ys), v)
    ensures Zip(Entry(v, exp, log), xs, ys) == Logprobs(Positions(xs, ys), v, exp, log)
  {
  }

  // ------------------------------------------------------------ shards of sequences

  /** Every padded length is a multiple of 2 * cp; with one rank any length will do. */
  ghost predicate Packed(cu: seq<nat>, total: nat, cp: nat) {
    && Offsets(cu, total) && cp > 0
    && (cp > 1 ==> forall i :: 0 <= i < |cu| ==> cu[i] % (2 * cp) == 0)
  }

  /** The offsets on one rank. */
  function Locals(cu: seq<nat>, cp: nat): (r: seq<nat>)
    requires cp > 0
    ensures |r| == |cu| && forall i :: 0 <= i < |cu| ==> r[i] == cu[i] / cp
  {
    assert forall x: nat :: x / cp >= 0 by { forall x: nat ensures x / cp >= 0 { Quotients(x, cp); } }
    seq<nat>(|cu|, i requires 0 <= i < |cu| => cu[i] / cp)
  }

  lemma LocalOffsets(cu: seq<nat>, total: nat, cp: nat)
    requires Packed(cu, total, cp)
    ensures total / cp >= 0 && Offsets(Locals(cu, cp), total / cp)
  {
    Quotients(total, cp);
    Exact(0, 0, cp);
    forall i, j | 0 <= i <= j < |cu| ensures cu[i] / cp <= cu[j] / cp { QuotientGrows(cu[i], cu[j], cp); }
  }

  /** A rank's share of a sequence has the size of its segment. */
  lemma ShareSize(cu: seq<nat>, total: nat, cp: nat, i: nat, n: nat)
    requires Packed(cu, total, cp) && cp > 1 && i + 1 < |cu| && n == cu[i + 1] - cu[i]
    ensures n % (2 * cp) == 0 && cu[i + 1] / cp - cu[i] / cp == 2 * HalfSize(n, cp)
  {
    EvenSplit(cu[i], cu[i + 1], cp);
  }

  lemma EvenSplit(a: nat, b: nat, cp: nat)
    requires cp > 0 && a <= b && a % (2 * cp) == 0 && b % (2 * cp) == 0
    ensures (b - a) % (2 * cp) == 0 && b / cp - a / cp == 2 * HalfSize(b - a, cp)
  {
    var d := 2 * cp;
    var (p, q) := (a / d, b / d);
    assert a == p * d && b == q * d;
    Exact(a, 2 * p, cp);
    Exact(b, 2 * q, cp);
    assert b - a == (q - p) * d;
    if q < p { Times(q + 1, p, d); }
    Exact(b - a, q - p, d);
  }

  lemma Exact(x: nat, q: int, d: nat)
    requires d > 0 && x == q * d
    ensures x / d == q && x % d == 0
  {
    Dealing.Quotient(x / d, x % d, q, 0, d);
  }

  function RollEach<T>(xss: seq<seq<T>>): (r: seq<seq<T>>)
    ensures |r| == |xss| && forall i :: 0 <= i < |xss| ==> r[i] == Roll(xss[i])
  {
    seq(|xss|, i requires 0 <= i < |xss| => Roll(xss[i]))
  }

  function OnRankEach<T>(xss: seq<seq<T>>, r: nat, cp: nat): (p: seq<seq<T>>)
    requires r < cp
    ensures |p| == |xss| && forall i :: 0 <= i < |xss| ==> p[i] == OnRank(xss[i], r, cp)
  {
    seq(|xss|, i requires 0 <= i < |xss| => OnRank(xss[i], r, cp))
  }

  /** The targets of rank `r`: each sequence is shifted on its own, then sharded. */
  method RankTargets(target: seq<int>, cu: seq<nat>, cp: nat, r: nat) returns (rolled: seq<int>)
    requires Packed(cu, |target|, cp) && r < cp
    ensures |rolled| == |target| / cp
    ensures Laid(rolled, Locals(cu, cp), OnRankEach(RollEach(Segments(target, cu)), r, cp))
  {
    var local := Locals(cu, cp);
    LocalOffsets(cu, |target|, cp);
    ghost var goal := OnRankEach(RollEach(Segments(target, cu)), r, cp);
    hide OnRank, Roll, Offsets, Write;
    rolled := seq(|target| / cp, _ => 0);
    for i := 0 to |cu| - 1
      invariant |rolled| == |target| / cp && LaidTo(rolled, local, goal, i)
    {
      var part := OnRank(Roll(Segment(target, cu, i)), r, cp);
      if cp > 1 { ShareSize(cu, |target|, cp, i, |Segment(target, cu, i)|); }
      else { WholeShare(cu, cp, i); }
      WriteSegment(rolled, local, goal, i);
      rolled := Write(rolled, local[i], local[i + 1], part);
    }
  }

  lemma WholeShare(cu: seq<nat>, cp: nat, i: nat)
    requires cp == 1 && i + 1 < |cu| && cu[i] <= cu[i + 1]
    ensures cu[i + 1] / cp - cu[i] / cp == cu[i + 1] - cu[i]
  {
  }

  /** Per-token work on a rank's share is the rank's share of the per-token work. */
  lemma OnRankZip<A, B>(f: (A, int) -> B, xs: seq<A>, ys: seq<int>, r: nat, cp: nat)
    requires r < cp && |xs| == |ys|
    ensures Zip(f, OnRank(xs, r, cp), OnRank(ys, r, cp)) == OnRank(Zip(f, xs, ys), r, cp)
  {
    hide At, HalfSize, Block;
    if cp > 1 {
      BlockFits(|xs|, cp, r);
      BlockFits(|xs|, cp, 2 * cp - r - 1);
      BlockZip(f, xs, ys, r, HalfSize(|xs|, cp));
      BlockZip(f, xs, ys, 2 * cp - r - 1, HalfSize(|xs|, cp));
    }
  }

  lemma BlockZip<A, B>(f: (A, int) -> B, xs: seq<A>, ys: seq<int>, b: nat, h: nat)
    requires |xs| == |ys| && At(b, h) + h <= |xs|
    ensures Block(Zip(f, xs, ys), b, h) == Zip(f, Block(xs, b, h), Block(ys, b, h))
  {
  }

  /** What every token's entry should be: its logits with its successor in the sequence. */
  function FullProbs<A, B>(f: (A, int) -> B, logits: seq<A>, target: seq<int>, cu: seq<nat>): (r: seq<seq<B>>)
    requires |logits| == |target| && Offsets(cu, |target|)
    ensures |r| == |cu| - 1
    ensures forall i: nat :: i < |r| ==> r[i] == Zip(f, Segment(logits, cu, i), Roll(Segment(target, cu, i)))
  {
    seq(|cu| - 1, i requires 0 <= i < |cu| - 1 => Zip(f, Segment(logits, cu, i), Roll(Segment(target, cu, i))))
  }

  /** A rank's entries are its shares of every sequence's entries. */
  method RankProbs<A, B>(f: (A, int) -> B, mine: seq<A>, target: seq<int>, cu: seq<nat>, cp: nat, r: nat,
                         chunkSize: Option<nat>, ghost logits: seq<A>) returns (probs: seq<B>)
    requires chunkSize != Some(0)
    requires |logits| == |target| && Packed(cu, |target|, cp) && r < cp
    requires |mine| == |target| / cp && Laid(mine, Locals(cu, cp), OnRankEach(Segments(logits, cu), r, cp))
    ensures |probs| == |target| / cp
    ensures Laid(probs, Locals(cu, cp), OnRankEach(FullProbs(f, logits, target, cu), r, cp))
  {
    var rolled := RankTargets(target, cu, cp, r);
    probs := Entries(f, mine, rolled, chunkSize);
    ghost var (xss, yss) := (Segments(logits, cu), RollEach(Segments(target, cu)));
    LaidZip(f, mine, rolled, OnRankEach(xss, r, cp), OnRankEach(yss, r, cp), Locals(cu, cp));
    SharesOfFull(f, logits, target, cu, cp, r);
  }

  lemma SharesOfFull<A, B>(f: (A, int) -> B, logits: seq<A>, target: seq<int>, cu: seq<nat>, cp: nat, r: nat)
    requires |logits| == |target| && Packed(cu, |target|, cp) && r < cp
    requires SameShape(OnRankEach(Segments(logits, cu), r, cp), OnRankEach(RollEach(Segments(target, cu)), r, cp))
    ensures ZipEach(f, OnRankEach(Segments(logits, cu), r, cp), OnRankEach(RollEach(Segments(target, cu)), r, cp))
         == OnRankEach(FullProbs(f, logits, target, cu), r, cp)
  {
    hide OnRank, Roll, Offsets;
    forall i: nat | i < |cu| - 1
      ensures Zip(f, OnRank(Segment(logits, cu, i), r, cp), OnRank(Roll(Segment(target, cu, i)), r, cp))
           == OnRank(Zip(f, Segment(logits, cu, i), Roll(Segment(target, cu, i))), r, cp)
    {
      OnRankZip(f, Segment(logits, cu, i), Roll(Segment(target, cu, i)), r, cp);
    }
  }

  // ------------------------------------------------------------ gathering and unpacking

  /** Every rank holds its shares of `full`. */
  ghost predicate RanksHold<T>(probs: seq<seq<T>>, cu: seq<nat>, total: nat, cp: nat, full: seq<seq<T>>)
    requires Packed(cu, total, cp)
  {
    && |probs| == cp && |full| == |cu| - 1
    && (forall i: nat :: i < |full| ==> |full[i]| == cu[i + 1] - cu[i])
    && forall r: nat :: r < cp ==> |probs[r]| == total / cp && Laid(probs[r], Locals(cu, cp), OnRankEach(full, r, cp))
  }

  /** The shares of one sequence on all ranks. */
  function SharesOf<T>(probs: seq<seq<T>>, cu: seq<nat>, total: nat, cp: nat, i: nat): (r: seq<seq<T>>)
    requires Packed(cu, total, cp) && i + 1 < |cu| && forall r: nat :: r < |probs| ==> |probs[r]| == total / cp
    ensures |r| == |probs| && Offsets(Locals(cu, cp), total / cp)
    ensures forall s: nat :: s < |probs| ==> r[s] == Segment(probs[s], Locals(cu, cp), i)
  {
    LocalOffsets(cu, total, cp);
    seq(|probs|, s requires 0 <= s < |probs| => Segment(probs[s], Locals(cu, cp), i))
  }

  lemma SharesAreParts<T>(probs: seq<seq<T>>, cu: seq<nat>, total: nat, cp: nat, full: seq<seq<T>>, i: nat)
    requires Packed(cu, total, cp) && RanksHold(probs, cu, total, cp, full) && i < |full|
    ensures SharesOf(probs, cu, total, cp, i) == Parts(full[i], cp)
  {
    hide OnRank, Offsets;
    forall r: nat | r < cp ensures SharesOf(probs, cu, total, cp, i)[r] == Parts(full[i], cp)[r] {
      assert OnRankEach(full, r, cp)[i] == OnRank(full[i], r, cp);
    }
  }

  /** The gather, sequence by sequence; with one rank there is nothing to do. */
  method GatherSequences(probs: seq<seq<real>>, cu: seq<nat>, total: nat, cp: nat, ghost full: seq<seq<real>>)
    returns (all: seq<real>)
    requires Packed(cu, total, cp) && RanksHold(probs, cu, total, cp, full)
    ensures |all| == total && Laid(all, cu, full)
  {
    if cp == 1 {
      OneRank(probs[0], cu, total, full);
      return probs[0];
    }
    WholeTotal(cu, total, cp);
    FullSizes(probs, cu, total, cp, full);
    hide *;
    all := seq(At(|probs[0]|, cp), _ => 0.0);
    NothingLaid(all, cu, full);
    for i := 0 to |cu| - 1
      invariant |all| == total && LaidTo(all, cu, full, i)
    {
      SharesAreParts(probs, cu, total, cp, full, i);
      ShareSize(cu, total, cp, i, |full[i]|);
      var gathered := GatherOne(SharesOf(probs, cu, total, cp, i), full[i]);
      WriteSegment(all, cu, full, i);
      all := Write(all, cu[i], cu[i + 1], gathered);
    }
    assert |full| == |cu| - 1;
    AllLaid(all, cu, full);
  }

  method GatherOne(parts: seq<seq<real>>, ghost xs: seq<real>) returns (r: seq<real>)
    requires |parts| > 1 && parts == Parts(xs, |parts|) && |xs| % (2 * |parts|) == 0
    ensures r == xs
  {
    hide *;
    PartsGather(parts, xs);
    r := AllGather(parts);
  }

  lemma PartsGather(parts: seq<seq<real>>, xs: seq<real>)
    requires |parts| > 1 && parts == Parts(xs, |parts|) && |xs| % (2 * |parts|) == 0
    ensures forall s: nat :: s < |parts| ==> |parts[s]| == |parts[0]| && |parts[s]| % 2 == 0
    ensures |parts[0]| == 2 * (|parts[0]| / 2) && Gathered(parts, |parts[0]| / 2) == xs
  {
    var (cp, h) := (|parts|, HalfSize(|xs|, |parts|));
    GatherRebuildsIff(xs, cp);
    hide Gathered, HalfSize, OnRank;
    forall s: nat | s < cp ensures |parts[s]| == 2 * h { assert parts[s] == OnRank(xs, s, cp); }
    assert |parts[0]| / 2 == h;
  }

  lemma FullSizes(probs: seq<seq<real>>, cu: seq<nat>, total: nat, cp: nat, full: seq<seq<real>>)
    requires Packed(cu, total, cp) && RanksHold(probs, cu, total, cp, full) && cp > 1
    ensures |probs| == cp && |full| == |cu| - 1 && Offsets(cu, total) && |probs[0]| == total / cp
    ensures forall i: nat :: i < |full| ==> |full[i]| == cu[i + 1] - cu[i]
    ensures forall r: nat :: r < |probs| ==> |probs[r]| == total / cp
  {
  }

  lemma NothingLaid<T>(buffer: seq<T>, cu: seq<nat>, parts: seq<seq<T>>)
    requires Offsets(cu, |buffer|) && |parts| == |cu| - 1
    ensures LaidTo(buffer, cu, parts, 0)
  {
  }

  lemma AllLaid<T>(buffer: seq<T>, cu: seq<nat>, parts: seq<seq<T>>)
    requires LaidTo(buffer, cu, parts, |parts|)
    ensures Laid(buffer, cu, parts)
  {
  }

  lemma OneRank(mine: seq<real>, cu: seq<nat>, total: nat, full: seq<seq<real>>)
    requires Packed(cu, total, 1) && RanksHold([mine], cu, total, 1, full)
    ensures |mine| == total && Laid(mine, cu, full)
  {
    assert Locals(cu, 1) == cu;
    assert OnRankEach(full, 0, 1) == full;
    assert [mine][0] == mine && |mine| == total / 1;
  }

  lemma WholeTotal(cu: seq<nat>, total: nat, cp: nat)
    requires Packed(cu, total, cp) && cp > 1
    ensures At(total / cp, cp) == total
  {
    var q := total / (2 * cp);
    assert total == q * (2 * cp) + total % (2 * cp);
    assert total == (2 * q) * cp;
    Exact(total, 2 * q, cp);
  }

  /** A sequence's entries without its last token's, cut or filled with zeros to `width` - 1. */
  ghost predicate RowOf(row: seq<real>, entries: seq<real>, width: nat) {
    |row| == width - 1 && forall j: nat :: j < width - 1 ==> row[j] == if j + 1 < |entries| then entries[j] else 0.0
  }

  method UnpackRow(entries: seq<real>, width: nat) returns (row: seq<real>)
    requires width > 0
    ensures RowOf(row, entries, width)
  {
    row := seq(width - 1, _ => 0.0);
    if |entries| > 0 {
      var probs := entries[..|entries| - 1];
      var n := Min(|probs|, width - 1);
      if n > 0 {
        ghost var zeros := row;
        row := Write(row, 0, n, probs[..n]);
        assert forall j :: 0 <= j < n ==> row[j] == row[0..n][j];
        assert forall j :: n <= j < width - 1 ==> row[j] == row[n..][j - n] == zeros[n..][j - n];
      }
    }
  }

  /** The result: one row of `width` - 1 entries a sequence. */
  method Unpack(all: seq<real>, cu: seq<nat>, width: nat) returns (out: seq<seq<real>>)
    requires Offsets(cu, |all|) && width > 0
    ensures |out| == |cu| - 1
    ensures forall i: nat :: i < |out| ==> RowOf(out[i], Segment(all, cu, i), width)
  {
    assert |cu| > 0;
    hide RowOf, Offsets;
    out := seq(|cu| - 1, _ => seq(width - 1, _ => 0.0));
    for i := 0 to |cu| - 1
      invariant |out| == |cu| - 1
      invariant forall k: nat :: k < i ==> RowOf(out[k], Segment(all, cu, k), width)
    {
      var row := UnpackRow(Segment(all, cu, i), width);
      out := out[i := row];
    }
  }

  /** Row i holds, for each token j but the sequence's last, the entry of its logits with token j + 1, as far as the
      row is wide, and zeros beyond. */
  ghost predicate ShiftedRows<A>(out: seq<seq<real>>, f: (A, int) -> real, logits: seq<A>, target: seq<int>,
                                 cu: seq<nat>, width: nat)
    requires |logits| == |target| && Offsets(cu, |target|)
  {
    |out| == |cu| - 1 && forall i: nat :: i < |out| ==>
      ShiftedRow(out[i], f, Segment(logits, cu, i), Segment(target, cu, i), width)
  }

  ghost predicate ShiftedRow<A>(row: seq<real>, f: (A, int) -> real, logits: seq<A>, target: seq<int>, width: nat) {
    && |logits| == |target| && |row| == width - 1
    && forall j: nat :: j < width - 1 ==> row[j] == if j + 1 < |target| then f(logits[j], target[j + 1]) else 0.0
  }

  /** The whole pipeline over all ranks: each has its shares of the packed logits. */
  method PackedSequenceLogprobs<A>(f: (A, int) -> real, mine: seq<seq<A>>, target: seq<int>, cu: seq<nat>, width: nat,
                                   cp: nat, chunkSize: Option<nat>, ghost logits: seq<A>)
    returns (out: seq<seq<real>>)
    requires chunkSize != Some(0)
    requires |logits| == |target| && Packed(cu, |target|, cp) && width > 0 && |mine| == cp
    requires forall r: nat :: r < cp ==>
      |mine[r]| == |target| / cp && Laid(mine[r], Locals(cu, cp), OnRankEach(Segments(logits, cu), r, cp))
    ensures ShiftedRows(out, f, logits, target, cu, width)
  {
    ghost var full := FullProbs(f, logits, target, cu);
    hide Laid, OnRankEach;
    var probs: seq<seq<real>> := [];
    for r := 0 to cp
      invariant |probs| == r
      invariant forall s: nat :: s < r ==>
        |probs[s]| == |target| / cp && Laid(probs[s], Locals(cu, cp), OnRankEach(full, s, cp))
    {
      var mineProbs := RankProbs(f, mine[r], target, cu, cp, r, chunkSize, logits);
      probs := probs + [mineProbs];
    }
    var all := GatherSequences(probs, cu, |target|, cp, full);
    LaidSegments(all, cu, full);
    out := Unpack(all, cu, width);
    hide RowOf, ShiftedRow;
    forall i: nat | i < |out|
      ensures ShiftedRow(out[i], f, Segment(logits, cu, i), Segment(target, cu, i), width)
    {
      RowIsShifted(f, out[i], Segment(logits, cu, i), Segment(target, cu, i), width);
    }
  }

  lemma RowIsShifted<A>(f: (A, int) -> real, row: seq<real>, logits: seq<A>, target: seq<int>, width: nat)
    requires |logits| == |target| && width > 0 && RowOf(row, Zip(f, logits, Roll(target)), width)
    ensures ShiftedRow(row, f, logits, target, width)
  {
  }

  lemma LaidSegments<T>(xs: seq<T>, cu: seq<nat>, parts: seq<seq<T>>)
    requires Laid(xs, cu, parts)
    ensures Offsets(cu, |xs|) && |parts| == |cu| - 1
    ensures forall i: nat :: i < |parts| ==> Segment(xs, cu, i) == parts[i]
  {
  }

  /** End to end: entry j of row i is the full log-probability of token j + 1 of sequence i at its position j. */
  lemma PackedEntryIsFull(out: seq<seq<real>>, logits: seq<seq<seq<real>>>, target: seq<int>, cu: seq<nat>, width: nat,
                          v: nat, tp: nat, exp: real -> real, log: real -> real, i: nat, j: nat)
    requires |logits| == |target| && Offsets(cu, |target|)
    requires ShiftedRows(out, Entry(v, exp, log), logits, target, cu, width)
    requires forall p :: 0 <= p < |logits| ==> Split(logits[p], v) && |logits[p]| == tp
    requires forall p :: 0 <= p < |target| ==> 0 <= target[p] < At(tp, v)
    requires i < |out| && j + 1 < width
    ensures |out[i]| == width - 1 && cu[i + 1] <= |target|
    ensures j + 1 >= cu[i + 1] - cu[i] ==> out[i][j] == 0.0
    ensures j + 1 < cu[i + 1] - cu[i] ==>
      var (full, next) := (Flatten(logits[cu[i] + j]), target[cu[i] + j + 1]);
      0 <= next < |full| && out[i][j] == LogSoftmax(full, exp, log)[next]
  {
    assert cu[i + 1] <= cu[|cu| - 1];
    assert ShiftedRow(out[i], Entry(v, exp, log), Segment(logits, cu, i), Segment(target, cu, i), width);
    if j + 1 < cu[i + 1] - cu[i] {
      TokenLogprobIsFull(logits[cu[i] + j], v, target[cu[i] + j + 1], exp, log);
    }
  }

  // ------------------------------------------------------------ unpacked rows

  /** One unpacked row: shifted, padded with zeros to the logits' length, sharded, gathered, and cut again. */
  method RowLogprobs<A>(f: (A, int) -> real, mine: seq<seq<A>>, target: seq<int>, cp: nat, chunkSize: Option<nat>,
                        ghost logits: seq<A>) returns (out: seq<real>)
    requires chunkSize != Some(0)
    requires cp > 0 && |mine| == cp && |target| <= |logits| && (cp > 1 ==> |logits| % (2 * cp) == 0)
    requires forall r: nat :: r < cp ==> mine[r] == OnRank(logits, r, cp)
    ensures |out| == if target == [] then 0 else |target| - 1
    ensures forall j :: 0 <= j < |out| ==> out[j] == f(logits[j], target[j + 1])
  {
    SizesMultiply(mine, cp, logits);
    var padded := Roll(target) + seq(At(|mine[0]|, cp) - |target|, _ => 0);
    var probs := EachRank(f, mine, padded, cp, chunkSize, logits);
    hide OnRank, At;
    ghost var full := Zip(f, logits, padded);
    var gathered: seq<real>;
    if cp > 1 {
      gathered := GatherOne(probs, full);
    } else {
      OnlyRank(full);
      gathered := probs[0];
    }
    out := gathered[..|target|];
    if out != [] { out := out[..|target| - 1]; }
  }

  method EachRank<A>(f: (A, int) -> real, mine: seq<seq<A>>, padded: seq<int>, cp: nat, chunkSize: Option<nat>,
                     ghost logits: seq<A>) returns (probs: seq<seq<real>>)
    requires chunkSize != Some(0)
    requires |mine| == cp && |logits| == |padded| && forall r: nat :: r < cp ==> mine[r] == OnRank(logits, r, cp)
    ensures probs == Parts(Zip(f, logits, padded), cp)
  {
    hide OnRank;
    probs := [];
    for r := 0 to cp
      invariant |probs| == r && forall s: nat :: s < r ==> probs[s] == OnRank(Zip(f, logits, padded), s, cp)
    {
      OnRankZip(f, logits, padded, r, cp);
      var entries := Entries(f, mine[r], OnRank(padded, r, cp), chunkSize);
      probs := probs + [entries];
    }
  }

  lemma OnlyRank<T>(xs: seq<T>)
    ensures OnRank(xs, 0, 1) == xs
  {
  }

  lemma SizesMultiply<A>(mine: seq<seq<A>>, cp: nat, logits: seq<A>)
    requires cp > 0 && |mine| == cp && (cp > 1 ==> |logits| % (2 * cp) == 0)
    requires forall r: nat :: r < cp ==> mine[r] == OnRank(logits, r, cp)
    ensures At(|mine[0]|, cp) == |logits|
  {
    assert mine[0] == OnRank(logits, 0, cp);
    if cp > 1 {
      Quotients(|logits|, 2 * cp);
      assert At(2 * HalfSize(|logits|, cp), cp) == At(2 * cp, HalfSize(|logits|, cp));
    }
  }
}
