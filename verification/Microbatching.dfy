/** The greedy microbatch loop of dynamic batching (nemo_rl/distributed/batched_data_dict.py): positions of
    padded length lens[0], lens[1], ... are cut into intervals whose size times longest length fits a budget. */
module Microbatching {
  import opened Sequences

  datatype Interval = Interval(start: nat, end: nat)

  /** The interval's tokens fit: its size times any of its lengths, hence times the longest. */
  predicate Fits(lens: seq<nat>, lo: nat, hi: nat, budget: nat)
    requires hi <= |lens|
  {
    forall j :: lo <= j < hi ==> (hi - lo) * lens[j] <= budget
  }

  /** The intervals cover 0, ..., n-1 in order, without gap or overlap. */
  predicate Tiles(t: seq<Interval>, n: nat) {
    && (forall i :: 0 <= i < |t| ==> t[i].start <= t[i].end <= n)
    && (forall i :: 0 <= i < |t| - 1 ==> t[i].end == t[i + 1].start)
    && (if t == [] then n == 0 else t[0].start == 0 && t[|t| - 1].end == n)
  }

  predicate AllFit(t: seq<Interval>, lens: seq<nat>, budget: nat) {
    forall i :: 0 <= i < |t| ==> t[i].start <= t[i].end <= |lens| && Fits(lens, t[i].start, t[i].end, budget)
  }

  /** No interval but the last could take the next position, and none is empty. */
  predicate Maximal(t: seq<Interval>, lens: seq<nat>, budget: nat) {
    && (forall i :: 0 <= i < |t| ==> t[i].start < t[i].end)
    && forall i :: 0 <= i < |t| - 1 ==> t[i].end < |lens| && !Fits(lens, t[i].start, t[i].end + 1, budget)
  }

  /** `m` is the longest of the lengths from lo to hi, 0 if there are none. */
  predicate IsLongest(m: nat, lens: seq<nat>, lo: nat, hi: nat)
    requires hi <= |lens|
  {
    && (forall j :: lo <= j < hi ==> lens[j] <= m)
    && (if lo < hi then exists j :: lo <= j < hi && lens[j] == m else m == 0)
  }

  datatype Packing = TooLong | Packed(intervals: seq<Interval>, lengths: seq<nat>)

  /** The tokens of a padded microbatch. */
  function Tokens(size: nat, longest: nat): nat {
    size * longest
  }

  lemma LongestFits(m: nat, lens: seq<nat>, lo: nat, hi: nat, budget: nat)
    requires lo < hi <= |lens| && IsLongest(m, lens, lo, hi)
    ensures (hi - lo) * m <= budget <==> Fits(lens, lo, hi, budget)
  {
    if (hi - lo) * m <= budget {
      forall j | lo <= j < hi ensures (hi - lo) * lens[j] <= budget { Scale(hi - lo, lens[j], m); }
    }
  }

  lemma Scale(n: nat, x: nat, y: nat)
    requires x <= y
    ensures n * x <= n * y
  {
  }

  /** What the loop has after `i` positions. */
  ghost predicate CutSoFar(t: seq<Interval>, lengths: seq<nat>, lens: seq<nat>, i: nat, budget: nat) {
    && i <= |lens| && |t| == |lengths| > 0
    && Tiles(t, i) && AllFit(t, lens, budget)
    && (if i > 0 then Maximal(t, lens, budget) else t == [Interval(0, 0)])
    && forall k :: 0 <= k < |t| ==> IsLongest(lengths[k], lens, t[k].start, t[k].end)
  }

  /** Intervals that fit the budget hold no position over it. */
  lemma CutFits(t: seq<Interval>, lengths: seq<nat>, lens: seq<nat>, budget: nat)
    requires CutSoFar(t, lengths, lens, |lens|, budget)
    ensures forall j :: 0 <= j < |lens| ==> lens[j] <= budget
  {
    forall j | 0 <= j < |lens| ensures lens[j] <= budget {
      var k := 0;
      while t[k].end <= j
        invariant k < |t| && t[k].start <= j
        decreases |t| - k
      {
        k := k + 1;
      }
      assert Fits(lens, t[k].start, t[k].end, budget);
      AtLeastOnce(t[k].end - t[k].start, lens[j]);
    }
  }

  lemma AtLeastOnce(n: nat, x: nat)
    requires n >= 1
    ensures x <= n * x
  {
  }

  /** The loop over one chunk. A position longer than the budget stops it with an assertion error. */
  method PackPositions(lens: seq<nat>, maxTokens: nat) returns (p: Packing)
    ensures p.TooLong? <==> exists j :: 0 <= j < |lens| && lens[j] > maxTokens
    ensures p.Packed? ==> CutSoFar(p.intervals, p.lengths, lens, |lens|, maxTokens)
  {
    var intervals := [Interval(0, 0)];
    var lengths: seq<nat> := [0];
    var maxThis: nat := 0;
    for i := 0 to |lens|
      invariant forall j :: 0 <= j < i ==> lens[j] <= maxTokens
      invariant |intervals| == |lengths| > 0 && maxThis == lengths[|lengths| - 1]
      invariant CutSoFar(intervals, lengths, lens, i, maxTokens)
    {
      if lens[i] > maxTokens { return TooLong; }
      TurnTest(intervals, lengths, lens, i, maxTokens);
      hide CutSoFar, Fits, IsLongest, Tokens;
      var last := |intervals| - 1;
      maxThis := Max(maxThis, lens[i]);
      var size := intervals[last].end - intervals[last].start + 1;
      if Tokens(size, maxThis) <= maxTokens {
        Grow(intervals, lengths, lens, i, maxTokens, maxThis);
        intervals := intervals[last := Interval(intervals[last].start, intervals[last].end + 1)];
        lengths := lengths[last := maxThis];
      } else {
        Open(intervals, lengths, lens, i, maxTokens);
        intervals := intervals + [Interval(i, i + 1)];
        maxThis := lens[i];
        lengths := lengths + [maxThis];
      }
    }
    return Packed(intervals, lengths);
  }

  /** The test of one turn: the grown interval fits if its size times the new longest length does. */
  lemma TurnTest(t: seq<Interval>, lengths: seq<nat>, lens: seq<nat>, i: nat, budget: nat)
    requires CutSoFar(t, lengths, lens, i, budget) && i < |lens|
    ensures var (start, longest) := (t[|t| - 1].start, Max(lengths[|t| - 1], lens[i]));
            && t[|t| - 1].end == i && start <= i
            && IsLongest(longest, lens, start, i + 1)
            && (Tokens(i - start + 1, longest) <= budget <==> Fits(lens, start, i + 1, budget))
  {
    var start := t[|t| - 1].start;
    LongestSnoc(lengths[|t| - 1], lens, start, i);
    LongestFits(Max(lengths[|t| - 1], lens[i]), lens, start, i + 1, budget);
  }

  /** The last interval takes position `i`. */
  lemma Grow(t: seq<Interval>, lengths: seq<nat>, lens: seq<nat>, i: nat, budget: nat, longest: nat)
    requires CutSoFar(t, lengths, lens, i, budget) && i < |lens|
    requires Fits(lens, t[|t| - 1].start, i + 1, budget) && IsLongest(longest, lens, t[|t| - 1].start, i + 1)
    ensures CutSoFar(t[|t| - 1 := Interval(t[|t| - 1].start, i + 1)], lengths[|t| - 1 := longest], lens, i + 1, budget)
  {
    hide Fits, IsLongest;
  }

  /** A new interval begins with position `i`, which the last one could not take. */
  lemma Open(t: seq<Interval>, lengths: seq<nat>, lens: seq<nat>, i: nat, budget: nat)
    requires CutSoFar(t, lengths, lens, i, budget) && i < |lens| && lens[i] <= budget
    requires !Fits(lens, t[|t| - 1].start, i + 1, budget)
    ensures CutSoFar(t + [Interval(i, i + 1)], lengths + [lens[i]], lens, i + 1, budget)
  {
    OnePosition(lens, i, budget);
    hide Fits, IsLongest;
  }

  lemma OnePosition(lens: seq<nat>, i: nat, budget: nat)
    requires i < |lens| && lens[i] <= budget
    ensures Fits(lens, i, i + 1, budget) && IsLongest(lens[i], lens, i, i + 1)
  {
  }

  lemma LongestSnoc(m: nat, lens: seq<nat>, lo: nat, hi: nat)
    requires lo <= hi < |lens| && IsLongest(m, lens, lo, hi)
    ensures IsLongest(Max(m, lens[hi]), lens, lo, hi + 1)
  {
  }

  // ------------------------------------------------------------ optimality

  lemma FitsPart(lens: seq<nat>, lo: nat, hi: nat, lo': nat, hi': nat, budget: nat)
    requires lo <= lo' <= hi' <= hi <= |lens| && Fits(lens, lo, hi, budget)
    ensures Fits(lens, lo', hi', budget)
  {
    forall j | lo' <= j < hi' ensures (hi' - lo') * lens[j] <= budget {
      Scale(lens[j], hi' - lo', hi - lo);
    }
  }

  /** The greedy cut stays ahead of any other. */
  lemma {:induction false} StaysAhead(g: seq<Interval>, t: seq<Interval>, lens: seq<nat>, budget: nat, i: nat)
    requires Tiles(g, |lens|) && Maximal(g, lens, budget)
    requires Tiles(t, |lens|) && AllFit(t, lens, budget)
    requires i < |g| && i < |t|
    ensures t[i].end <= g[i].end
  {
    if i == 0 {
    } else {
      StaysAhead(g, t, lens, budget, i - 1);
    }
    if i < |g| - 1 && g[i].end < t[i].end {
      assert t[i].start <= g[i].start;
      FitsPart(lens, t[i].start, t[i].end, g[i].start, g[i].end + 1, budget);
    }
  }

  /** No cut into fitting intervals has fewer of them. */
  lemma FewestIntervals(g: seq<Interval>, t: seq<Interval>, lens: seq<nat>, budget: nat)
    requires Tiles(g, |lens|) && Maximal(g, lens, budget)
    requires Tiles(t, |lens|) && AllFit(t, lens, budget)
    ensures |g| <= |t|
  {
    if |t| < |g| && t != [] {
      StaysAhead(g, t, lens, budget, |t| - 1);
    }
  }

  // ------------------------------------------------------------ any partition at all

  /** A position put into a bin. */
  datatype Item = Item(len: nat, bin: nat)

  function SizeOf(items: seq<Item>, b: nat): nat {
    if items == [] then 0 else (if items[0].bin == b then 1 else 0) + SizeOf(items[1..], b)
  }

  function Without(items: seq<Item>, b: nat): seq<Item> {
    if items == [] then []
    else (if items[0].bin == b then [] else [items[0]]) + Without(items[1..], b)
  }

  function Lens(items: seq<Item>): (r: seq<nat>)
    ensures |r| == |items| && forall i :: 0 <= i < |items| ==> r[i] == items[i].len
  {
    seq(|items|, i requires 0 <= i < |items| => items[i].len)
  }

  predicate Sorted(items: seq<Item>) {
    forall i, j :: 0 <= i <= j < |items| ==> items[i].len <= items[j].len
  }

  /** Every bin fits: its size times any length in it. */
  predicate BinsFit(items: seq<Item>, budget: nat) {
    forall i :: 0 <= i < |items| ==> SizeOf(items, items[i].bin) * items[i].len <= budget
  }

  lemma {:induction false} WithoutMembers(items: seq<Item>, b: nat)
    ensures |Without(items, b)| + SizeOf(items, b) == |items|
    ensures forall x :: x in Without(items, b) ==> x in items && x.bin != b
    ensures forall b' :: b' != b ==> SizeOf(Without(items, b), b') == SizeOf(items, b')
  {
    if items == [] {
    } else {
      WithoutMembers(items[1..], b);
      var rest := Without(items[1..], b);
      assert Without(items, b) == if items[0].bin == b then rest else [items[0]] + rest;
      forall b' | b' != b ensures SizeOf(Without(items, b), b') == SizeOf(items, b') {
        assert ([items[0]] + rest)[1..] == rest;
      }
    }
  }

  /** Dropping a bin from sorted positions leaves sorted lengths, each at least the one it now stands at. */
  lemma {:induction false} WithoutSorted(items: seq<Item>, b: nat)
    requires Sorted(items)
    ensures Sorted(Without(items, b)) && |Without(items, b)| <= |items|
    ensures forall i :: 0 <= i < |Without(items, b)| ==> items[i].len <= Without(items, b)[i].len
  {
    if items == [] {
    } else {
      var rest := Without(items[1..], b);
      WithoutSorted(items[1..], b);
      WithoutMembers(items[1..], b);
      assert Without(items, b) == (if items[0].bin == b then [] else [items[0]]) + rest;
      forall i | 0 <= i < |rest| ensures items[i + 1].len <= rest[i].len && items[0].len <= rest[i].len {
        assert items[1..][i] == items[i + 1];
      }
    }
  }

  lemma {:induction false} SizePositive(items: seq<Item>, i: nat)
    requires i < |items|
    ensures SizeOf(items, items[i].bin) > 0
  {
    if i == 0 {
    } else {
      assert items[1..][i - 1] == items[i];
      SizePositive(items[1..], i - 1);
    }
  }

  /** Exchange argument: sorted positions in any k fitting bins can be cut into at most k fitting intervals. The
      bin of the longest position becomes the last interval; the others move down, where lengths are smaller. */
  lemma {:induction false} CutFromBins(items: seq<Item>, bins: set<nat>, budget: nat) returns (t: seq<Interval>)
    requires Sorted(items) && BinsFit(items, budget)
    requires forall i :: 0 <= i < |items| ==> items[i].bin in bins
    ensures Tiles(t, |items|) && AllFit(t, Lens(items), budget) && |t| <= |bins|
    decreases |items|
  {
    if items == [] {
      t := [];
    } else {
      var n := |items|;
      var b := items[n - 1].bin;
      var rest := Without(items, b);
      WithoutMembers(items, b);
      WithoutSorted(items, b);
      SizePositive(items, n - 1);
      RestFits(items, rest, bins, b, budget);
      var front := CutFromBins(rest, bins - {b}, budget);
      LastBinFits(items, |rest|, budget);
      t := Joined(items, rest, front, budget);
    }
  }

  lemma RestFits(items: seq<Item>, rest: seq<Item>, bins: set<nat>, b: nat, budget: nat)
    requires BinsFit(items, budget) && rest == Without(items, b)
    requires forall i :: 0 <= i < |items| ==> items[i].bin in bins
    ensures BinsFit(rest, budget) && forall i :: 0 <= i < |rest| ==> rest[i].bin in bins - {b}
  {
    WithoutMembers(items, b);
    hide Without, SizeOf;
    forall i | 0 <= i < |rest|
      ensures rest[i].bin in bins - {b} && SizeOf(rest, rest[i].bin) * rest[i].len <= budget
    {
      assert rest[i] in items;
    }
  }

  /** The cut of the shorter list, moved down, and one interval for the bin taken out. */
  lemma Joined(items: seq<Item>, rest: seq<Item>, front: seq<Interval>, budget: nat) returns (t: seq<Interval>)
    requires |rest| < |items| && forall i :: 0 <= i < |rest| ==> items[i].len <= rest[i].len
    requires Tiles(front, |rest|) && AllFit(front, Lens(rest), budget)
    requires Fits(Lens(items), |rest|, |items|, budget)
    ensures Tiles(t, |items|) && AllFit(t, Lens(items), budget) && |t| == |front| + 1
  {
    t := front + [Interval(|rest|, |items|)];
    forall i | 0 <= i < |front| ensures Fits(Lens(items), front[i].start, front[i].end, budget) {
      ShorterFits(Lens(rest), Lens(items), front[i].start, front[i].end, budget);
    }
  }

  lemma LastBinFits(items: seq<Item>, from: nat, budget: nat)
    requires items != [] && Sorted(items) && BinsFit(items, budget)
    requires from <= |items| && |items| - from == SizeOf(items, items[|items| - 1].bin)
    ensures Fits(Lens(items), from, |items|, budget)
  {
    var n := |items|;
    forall j | from <= j < n ensures (n - from) * items[j].len <= budget {
      Scale(n - from, items[j].len, items[n - 1].len);
    }
  }

  lemma ShorterFits(longer: seq<nat>, lens: seq<nat>, lo: nat, hi: nat, budget: nat)
    requires lo <= hi <= |longer| <= |lens| && Fits(longer, lo, hi, budget)
    requires forall j :: 0 <= j < |longer| ==> lens[j] <= longer[j]
    ensures Fits(lens, lo, hi, budget)
  {
    forall j | lo <= j < hi ensures (hi - lo) * lens[j] <= budget { Scale(hi - lo, lens[j], longer[j]); }
  }

  /** Over sorted lengths the greedy loop uses the fewest microbatches of any partition of the positions whose
      parts fit, contiguous or not. */
  lemma FewestOfAnyPartition(g: seq<Interval>, items: seq<Item>, bins: set<nat>, budget: nat)
    requires Tiles(g, |items|) && Maximal(g, Lens(items), budget)
    requires Sorted(items) && BinsFit(items, budget)
    requires forall i :: 0 <= i < |items| ==> items[i].bin in bins
    ensures |g| <= |bins|
  {
    var t := CutFromBins(items, bins, budget);
    FewestIntervals(g, t, Lens(items), budget);
  }
}
