/** The simple bin packers, concatenation and first fit, and the adjustment of the number of bins
    (nemo_rl/data/packing/algorithms.py). */
module Packers {
  import opened Dealing
  import opened SequencePacking
  import opened Sequences

  datatype PackResult = Failed | Packed(bins: seq<seq<int>>)

  function Load(lens: seq<nat>, bin: seq<int>): nat
    requires InRange(bin, |lens|)
  {
    if bin == [] then 0 else Load(lens, bin[..|bin| - 1]) + lens[bin[|bin| - 1]]
  }

  lemma LoadSnoc(lens: seq<nat>, bin: seq<int>, i: int)
    requires InRange(bin, |lens|) && 0 <= i < |lens|
    ensures InRange(bin + [i], |lens|) && Load(lens, bin + [i]) == Load(lens, bin) + lens[i]
  {
    assert (bin + [i])[..|bin|] == bin;
  }

  /** Nonempty bins within the capacity. */
  ghost predicate Fit(bins: seq<seq<int>>, lens: seq<nat>, capacity: nat) {
    AllInRange(bins, |lens|) && forall b :: 0 <= b < |bins| ==> bins[b] != [] && Load(lens, bins[b]) <= capacity
  }

  ghost predicate SomeTooLong(lens: seq<nat>, capacity: nat) {
    exists i :: 0 <= i < |lens| && lens[i] > capacity
  }

  // ------------------------------------------------------------ first fit

  /** What first fit has after some items: the remaining capacities are right, and any two bins together exceed the
      capacity, because the later one was only opened when its first item did not fit the earlier one. */
  ghost predicate FirstFitSoFar(bins: seq<seq<int>>, remaining: seq<nat>, lens: seq<nat>, capacity: nat) {
    && Fit(bins, lens, capacity) && |remaining| == |bins|
    && (forall b :: 0 <= b < |bins| ==> remaining[b] == capacity - Load(lens, bins[b]))
    && forall b, b' :: 0 <= b < b' < |bins| ==> remaining[b] + remaining[b'] < capacity
  }

  /** The search for the first bin with room. */
  method FirstWithRoom(remaining: seq<nat>, length: nat) returns (b: nat)
    ensures b <= |remaining| && (b < |remaining| ==> remaining[b] >= length)
    ensures forall j :: 0 <= j < b ==> remaining[j] < length
  {
    b := 0;
    while b < |remaining| && remaining[b] < length
      invariant b <= |remaining| && forall j :: 0 <= j < b ==> remaining[j] < length
    {
      b := b + 1;
    }
  }

  /** No two bins could be merged. */
  ghost predicate PairsOverflow(bins: seq<seq<int>>, lens: seq<nat>, capacity: nat)
    requires AllInRange(bins, |lens|)
  {
    forall b, b' :: 0 <= b < b' < |bins| ==> Load(lens, bins[b]) + Load(lens, bins[b']) > capacity
  }

  /** The tokens that those of a bin's items have which are among `seen`. */
  function LoadAmong(lens: seq<nat>, bin: seq<int>, seen: seq<int>): nat
    requires InRange(bin, |lens|)
  {
    if bin == [] then 0
    else LoadAmong(lens, bin[..|bin| - 1], seen) + if bin[|bin| - 1] in seen then lens[bin[|bin| - 1]] else 0
  }

  lemma AmongSnoc(lens: seq<nat>, bin: seq<int>, i: int, seen: seq<int>)
    requires InRange(bin, |lens|) && 0 <= i < |lens|
    ensures InRange(bin + [i], |lens|)
    ensures LoadAmong(lens, bin + [i], seen) == LoadAmong(lens, bin, seen) + if i in seen then lens[i] else 0
  {
    assert (bin + [i])[..|bin|] == bin;
  }

  lemma {:induction false} AmongAll(lens: seq<nat>, bin: seq<int>, seen: seq<int>)
    requires InRange(bin, |lens|) && forall k :: 0 <= k < |bin| ==> bin[k] in seen
    ensures LoadAmong(lens, bin, seen) == Load(lens, bin)
    decreases |bin|
  {
    if bin == [] {
    } else {
      AmongAll(lens, bin[..|bin| - 1], seen);
    }
  }

  /** First fit itself: when one of the first `n` items was put into its bin, the earlier bins, with what they held of
      the items before it, had no room for it. */
  ghost predicate Earliest(bins: seq<seq<int>>, lens: seq<nat>, items: seq<int>, n: nat, capacity: nat)
    requires AllInRange(bins, |lens|) && InRange(items, |lens|) && n <= |items|
  {
    forall j, b, b' :: 0 <= j < n && 0 <= b' < b < |bins| && items[j] in bins[b] ==>
      LoadAmong(lens, bins[b'], items[..j]) + lens[items[j]] > capacity
  }

  lemma {:induction false} InFlatten(bins: seq<seq<int>>, b: nat, k: nat)
    requires b < |bins| && k < |bins[b]|
    ensures bins[b][k] in Flatten(bins)
  {
    if b == 0 {
    } else {
      InFlatten(bins[1..], b - 1, k);
    }
  }

  /** All items in the bins are among the first `n`. */
  ghost predicate AllSeen(bins: seq<seq<int>>, items: seq<int>, n: nat)
    requires n <= |items|
  {
    forall b, k :: 0 <= b < |bins| && 0 <= k < |bins[b]| ==> bins[b][k] in items[..n]
  }

  lemma SeenByCount(bins: seq<seq<int>>, items: seq<int>, n: nat)
    requires n <= |items| && multiset(Flatten(bins)) == multiset(items[..n])
    ensures AllSeen(bins, items, n)
  {
    forall b, k | 0 <= b < |bins| && 0 <= k < |bins[b]| ensures bins[b][k] in items[..n] {
      InFlatten(bins, b, k);
      assert bins[b][k] in multiset(items[..n]);
    }
  }

  lemma NotYet(items: seq<int>, n: nat)
    requires n < |items| && Distinct(items)
    ensures forall j :: 0 <= j <= n ==> items[n] !in items[..j]
    ensures forall j :: 0 <= j < n ==> items[j] != items[n]
  {
  }

  /** One more item: at the end of bin `b`, or in a new bin. */
  function Added(bins: seq<seq<int>>, b: nat, item: int): (r: seq<seq<int>>)
    requires b <= |bins|
    ensures |r| == if b < |bins| then |bins| else |bins| + 1
    ensures forall c :: 0 <= c < |r| ==>
      r[c] == if c == b then (if b < |bins| then bins[b] else []) + [item] else bins[c]
  {
    if b < |bins| then bins[b := bins[b] + [item]] else bins + [[item]]
  }

  lemma AddedInRange(bins: seq<seq<int>>, lens: seq<nat>, b: nat, item: int)
    requires AllInRange(bins, |lens|) && b <= |bins| && 0 <= item < |lens|
    ensures AllInRange(Added(bins, b, item), |lens|)
  {
  }

  /** What was seen before an earlier item is not changed by a later one. */
  lemma EarlierItem(bins: seq<seq<int>>, lens: seq<nat>, b: nat, item: int, seen: seq<int>, x: int, c: nat, c': nat)
    requires AllInRange(bins, |lens|) && b <= |bins| && 0 <= item < |lens| && item !in seen && x != item
    requires c' < c < |Added(bins, b, item)| && x in Added(bins, b, item)[c]
    requires InRange(Added(bins, b, item)[c'], |lens|)
    ensures c < |bins| && x in bins[c]
    ensures LoadAmong(lens, Added(bins, b, item)[c'], seen) == LoadAmong(lens, bins[c'], seen)
  {
    hide LoadAmong;
    AmongSnoc(lens, bins[c'], item, seen);
  }

  lemma SeenBin(bins: seq<seq<int>>, items: seq<int>, n: nat, b: nat)
    requires n <= |items| && AllSeen(bins, items, n) && b < |bins|
    ensures forall k :: 0 <= k < |bins[b]| ==> bins[b][k] in items[..n]
  {
  }

  /** The new item is in bin `b` only, and the bins before it are as they were. */
  lemma NewItem(bins: seq<seq<int>>, items: seq<int>, n: nat, b: nat, c: nat)
    requires n < |items| && AllSeen(bins, items, n) && items[n] !in items[..n] && b <= |bins|
    requires c < |Added(bins, b, items[n])| && items[n] in Added(bins, b, items[n])[c]
    ensures c == b
  {
    if c < |bins| { SeenBin(bins, items, n, c); }
  }

  /** The next item goes into bin `b`, the first with room, or opens it. */
  lemma StaysEarliest(bins: seq<seq<int>>, lens: seq<nat>, items: seq<int>, n: nat, b: nat, capacity: nat)
    requires AllInRange(bins, |lens|) && IsPermutation(items, |lens|) && n < |items| && AllSeen(bins, items, n)
    requires Earliest(bins, lens, items, n, capacity)
    requires b <= |bins| && forall b' :: 0 <= b' < b ==> Load(lens, bins[b']) + lens[items[n]] > capacity
    ensures AllInRange(Added(bins, b, items[n]), |lens|)
    ensures Earliest(Added(bins, b, items[n]), lens, items, n + 1, capacity)
  {
    hide Load, LoadAmong, AllSeen, Added;
    NotYet(items, n);
    var after := Added(bins, b, items[n]);
    AddedInRange(bins, lens, b, items[n]);
    forall j, c, c' | 0 <= j <= n && 0 <= c' < c < |after| && items[j] in after[c]
      ensures LoadAmong(lens, after[c'], items[..j]) + lens[items[j]] > capacity
    {
      if j < n {
        EarlierItem(bins, lens, b, items[n], items[..j], items[j], c, c');
      } else {
        NewItem(bins, items, n, b, c);
        SeenBin(bins, items, n, c');
        AmongAll(lens, bins[c'], items[..n]);
      }
    }
  }

  /** First fit over the items in the order `items`: a rearrangement fixed by the variant of the packer. */
  method FirstFit(lens: seq<nat>, items: seq<int>, capacity: nat) returns (r: PackResult)
    requires IsPermutation(items, |lens|)
    ensures r.Failed? <==> SomeTooLong(lens, capacity)
    ensures r.Packed? ==> Fit(r.bins, lens, capacity) && PairsOverflow(r.bins, lens, capacity)
    ensures r.Packed? ==> multiset(Flatten(r.bins)) == multiset(items)
    ensures r.Packed? ==> AllInRange(r.bins, |lens|) && Earliest(r.bins, lens, items, |items|, capacity)
  {
    hide FirstFitSoFar, Flatten, Fit, PairsOverflow, Earliest, AllSeen, AllInRange, Load, IsPermutation;
    PermutationItems(items, |lens|);
    var bins: seq<seq<int>> := [];
    var remaining: seq<nat> := [];
    NoBins(lens, capacity);
    NoneEarliest(lens, items, capacity);
    for i := 0 to |items|
      invariant forall j :: 0 <= j < i ==> lens[items[j]] <= capacity
      invariant |bins| == |remaining| && FirstFitSoFar(bins, remaining, lens, capacity)
      invariant multiset(Flatten(bins)) == multiset(items[..i])
      invariant AllInRange(bins, |lens|) && Earliest(bins, lens, items, i, capacity)
    {
      var (item, length) := (items[i], lens[items[i]]);
      if length > capacity { return Failed; }
      assert items[..i + 1] == items[..i] + [item];
      var b := FirstWithRoom(remaining, length);
      NoRoomBefore(bins, remaining, lens, capacity, b, length);
      SeenByCount(bins, items, i);
      StaysEarliest(bins, lens, items, i, b, capacity);
      if b < |remaining| {
        PutItem(bins, remaining, lens, capacity, item, b);
        FlattenUpdate(bins, b, [item]);
        bins := bins[b := bins[b] + [item]];
        remaining := remaining[b := remaining[b] - length];
      } else {
        OpenBin(bins, remaining, lens, capacity, item);
        FlattenSnoc(bins, [item]);
        bins := bins + [[item]];
        remaining := remaining + [capacity - length];
      }
    }
    assert items[..|items|] == items;
    EveryItemSeen(lens, items, capacity);
    FirstFitDone(bins, remaining, lens, capacity);
    return Packed(bins);
  }

  lemma NoBins(lens: seq<nat>, capacity: nat)
    ensures FirstFitSoFar([], [], lens, capacity) && Flatten<int>([]) == []
  {
  }

  lemma NoneEarliest(lens: seq<nat>, items: seq<int>, capacity: nat)
    requires InRange(items, |lens|)
    ensures AllInRange([], |lens|) && Earliest([], lens, items, 0, capacity)
  {
  }

  lemma PermutationItems(p: seq<int>, n: nat)
    requires IsPermutation(p, n)
    ensures InRange(p, n)
  {
  }

  lemma NoRoomBefore(bins: seq<seq<int>>, remaining: seq<nat>, lens: seq<nat>, capacity: nat, b: nat, length: nat)
    requires FirstFitSoFar(bins, remaining, lens, capacity) && AllInRange(bins, |lens|) && b <= |remaining| == |bins|
    requires forall j :: 0 <= j < b ==> remaining[j] < length
    ensures forall b' :: 0 <= b' < b ==> Load(lens, bins[b']) + length > capacity
  {
    hide Load;
  }

  lemma FirstFitDone(bins: seq<seq<int>>, remaining: seq<nat>, lens: seq<nat>, capacity: nat)
    requires FirstFitSoFar(bins, remaining, lens, capacity)
    ensures Fit(bins, lens, capacity) && PairsOverflow(bins, lens, capacity)
  {
    hide Load;
  }

  lemma PutItem(bins: seq<seq<int>>, remaining: seq<nat>, lens: seq<nat>, capacity: nat, i: int, b: nat)
    requires FirstFitSoFar(bins, remaining, lens, capacity)
    requires 0 <= i < |lens| && b < |remaining| == |bins| && lens[i] <= remaining[b]
    ensures FirstFitSoFar(bins[b := bins[b] + [i]], remaining[b := remaining[b] - lens[i]], lens, capacity)
  {
    LoadSnoc(lens, bins[b], i);
    hide Load;
  }

  lemma OpenBin(bins: seq<seq<int>>, remaining: seq<nat>, lens: seq<nat>, capacity: nat, i: int)
    requires FirstFitSoFar(bins, remaining, lens, capacity)
    requires 0 <= i < |lens| && lens[i] <= capacity && forall b :: 0 <= b < |remaining| ==> remaining[b] < lens[i]
    ensures FirstFitSoFar(bins + [[i]], remaining + [capacity - lens[i]], lens, capacity)
  {
    LoadSnoc(lens, [], i);
    LoadEmpty(lens);
    assert [] + [i] == [i];
    hide Load;
    var (bins', remaining') := (bins + [[i]], remaining + [capacity - lens[i]]);
    assert Fit(bins', lens, capacity);
    forall b, b' | 0 <= b < b' < |bins'| ensures remaining'[b] + remaining'[b'] < capacity {
      if b' < |bins| { assert remaining[b] + remaining[b'] < capacity; }
    }
  }

  lemma EveryItemSeen(lens: seq<nat>, items: seq<int>, capacity: nat)
    requires IsPermutation(items, |lens|) && forall j :: 0 <= j < |items| ==> lens[items[j]] <= capacity
    ensures !SomeTooLong(lens, capacity)
  {
    forall i | 0 <= i < |lens| ensures lens[i] <= capacity {
      SortingInverts(items, i);
      var j := SortedByKey(items)[i];
      assert lens[items[j]] <= capacity;
    }
  }

  // ------------------------------------------------------------ concatenation

  /** Each bin but the last could not take the first item of the next. */
  ghost predicate GreedyBins(bins: seq<seq<int>>, lens: seq<nat>, capacity: nat) {
    && Fit(bins, lens, capacity)
    && forall b :: 0 <= b < |bins| - 1 ==> Load(lens, bins[b]) + lens[bins[b + 1][0]] > capacity
  }

  ghost predicate Overflows(bins: seq<seq<int>>, lens: seq<nat>, capacity: nat, i: int)
    requires AllInRange(bins, |lens|)
  {
    bins != [] ==> 0 <= i < |lens| && Load(lens, bins[|bins| - 1]) + lens[i] > capacity
  }

  /** What concatenation has after `i` items: finished bins and the one being filled. */
  ghost predicate ConcatenatedSoFar(bins: seq<seq<int>>, current: seq<int>, length: nat, lens: seq<nat>, capacity: nat,
                                    i: nat)
  {
    && GreedyBins(bins, lens, capacity) && InRange(current, |lens|)
    && length == Load(lens, current) <= capacity
    && Flatten(bins) + current == Range(0, i) && (i > 0 <==> current != [])
    && (i > 0 ==> Overflows(bins, lens, capacity, current[0])) && (i == 0 ==> bins == [])
  }

  /** Concatenation in order; the limit on sequences per bin is off, as it is by default. */
  method Concatenate(lens: seq<nat>, capacity: nat) returns (r: PackResult)
    ensures r.Failed? <==> SomeTooLong(lens, capacity)
    ensures r.Packed? ==> Flatten(r.bins) == Range(0, |lens|) && GreedyBins(r.bins, lens, capacity)
  {
    hide ConcatenatedSoFar, GreedyBins, Flatten, Load, Overflows;
    for i := 0 to |lens|
      invariant forall j :: 0 <= j < i ==> lens[j] <= capacity
    {
      if lens[i] > capacity { return Failed; }
    }
    var bins: seq<seq<int>> := [];
    var current: seq<int> := [];
    var length: nat := 0;
    NothingConcatenated(lens, capacity);
    for i := 0 to |lens|
      invariant ConcatenatedSoFar(bins, current, length, lens, capacity, i)
    {
      if length + lens[i] > capacity {
        StartBin(bins, current, length, lens, capacity, i);
        if current != [] { bins := bins + [current]; }
        current := [i];
        length := lens[i];
      } else {
        ExtendBin(bins, current, length, lens, capacity, i);
        current := current + [i];
        length := length + lens[i];
      }
    }
    LastBin(bins, current, length, lens, capacity);
    if current != [] { bins := bins + [current]; }
    return Packed(bins);
  }

  lemma NothingConcatenated(lens: seq<nat>, capacity: nat)
    ensures ConcatenatedSoFar([], [], 0, lens, capacity, 0)
  {
  }

  lemma ExtendBin(bins: seq<seq<int>>, current: seq<int>, length: nat, lens: seq<nat>, capacity: nat, i: nat)
    requires ConcatenatedSoFar(bins, current, length, lens, capacity, i) && i < |lens|
    requires length + lens[i] <= capacity
    ensures ConcatenatedSoFar(bins, current + [i], length + lens[i], lens, capacity, i + 1)
  {
    hide GreedyBins, Load, Flatten;
    LoadSnoc(lens, current, i);
    assert Flatten(bins) + (current + [i]) == (Flatten(bins) + current) + [i] == Range(0, i + 1);
    NoBinsFlatten();
  }

  lemma NoBinsFlatten()
    ensures Flatten<int>([]) == []
  {
  }

  lemma StartBin(bins: seq<seq<int>>, current: seq<int>, length: nat, lens: seq<nat>, capacity: nat, i: nat)
    requires ConcatenatedSoFar(bins, current, length, lens, capacity, i) && i < |lens|
    requires length + lens[i] > capacity >= lens[i]
    ensures current != []
    ensures ConcatenatedSoFar(bins + [current], [i], lens[i], lens, capacity, i + 1)
  {
    LoadEmpty(lens);
    LoadSnoc(lens, [], i);
    assert [] + [i] == [i];
    hide Load, Flatten;
    FitSnoc(bins, lens, capacity, current);
    FlattenSnoc(bins, current);
    assert Range(0, i + 1) == Range(0, i) + [i];
  }

  lemma LastBin(bins: seq<seq<int>>, current: seq<int>, length: nat, lens: seq<nat>, capacity: nat)
    requires ConcatenatedSoFar(bins, current, length, lens, capacity, |lens|)
    ensures current == [] ==> bins == [] && Flatten(bins) == Range(0, |lens|)
    ensures current != [] ==> Flatten(bins + [current]) == Range(0, |lens|)
    ensures current != [] ==> GreedyBins(bins + [current], lens, capacity)
    ensures GreedyBins(bins, lens, capacity)
  {
    hide Load, Flatten;
    FitSnoc(bins, lens, capacity, current);
    FlattenSnoc(bins, current);
    NoBinsFlatten();
  }

  lemma LoadEmpty(lens: seq<nat>)
    ensures Load(lens, []) == 0
  {
  }

  lemma LoadSingle(lens: seq<nat>, i: int)
    requires 0 <= i < |lens|
    ensures InRange([i], |lens|) && Load(lens, [i]) == lens[i]
  {
    LoadEmpty(lens);
    LoadSnoc(lens, [], i);
    assert [] + [i] == [i];
  }

  lemma FitSnoc(bins: seq<seq<int>>, lens: seq<nat>, capacity: nat, bin: seq<int>)
    requires Fit(bins, lens, capacity) && InRange(bin, |lens|) && Load(lens, bin) <= capacity
    ensures bin != [] ==> Fit(bins + [bin], lens, capacity)
  {
    hide Load;
  }

  // ------------------------------------------------------------ adjusting the number of bins

  /** The number of bins asked for: at least `least`, and a multiple of `multiple`. */
  function TargetCount(count: nat, least: nat, multiple: nat): (t: nat)
    requires multiple > 0
    ensures t >= count && t >= least && t % multiple == 0
    ensures forall u: nat :: u >= count && u >= least && u % multiple == 0 ==> u >= t
  {
    var t := Max(count, least);
    if t % multiple == 0 then t
    else
      RoundedUp(t, multiple);
      t + (multiple - t % multiple)
  }

  lemma RoundedUp(t: nat, d: nat)
    requires d > 0 && t % d != 0
    ensures (t + (d - t % d)) % d == 0
    ensures forall u: nat :: u >= t && u % d == 0 ==> u >= t + (d - t % d)
  {
    var q := t / d;
    assert t == q * d + t % d;
    assert t + (d - t % d) == (q + 1) * d + 0;
    Quotient((t + (d - t % d)) / d, (t + (d - t % d)) % d, q + 1, 0, d);
    forall u: nat | u >= t && u % d == 0 ensures u >= (q + 1) * d {
      if u / d <= q { Times(u / d, q, d); } else { Times(q + 1, u / d, d); }
    }
  }

  /** Rows that can leave their bin without emptying it. */
  function Spare(bins: seq<seq<int>>): nat {
    if bins == [] then 0 else (if |bins[0]| > 0 then |bins[0]| - 1 else 0) + Spare(bins[1..])
  }

  lemma {:induction false} SparePop(bins: seq<seq<int>>, b: nat)
    requires b < |bins| && |bins[b]| > 1
    ensures Spare(bins[b := bins[b][..|bins[b]| - 1]]) == Spare(bins) - 1
  {
    var bins' := bins[b := bins[b][..|bins[b]| - 1]];
    if b == 0 {
      assert bins'[1..] == bins[1..];
    } else {
      assert bins'[1..] == bins[1..][b - 1 := bins[1..][b - 1][..|bins[1..][b - 1]| - 1]];
      SparePop(bins[1..], b - 1);
    }
  }

  lemma {:induction false} SpareEnough(bins: seq<seq<int>>)
    ensures Spare(bins) >= |Flatten(bins)| - |bins|
  {
    if bins == [] {
    } else {
      SpareEnough(bins[1..]);
    }
  }

  lemma {:induction false} NoSpare(bins: seq<seq<int>>)
    requires forall b :: 0 <= b < |bins| ==> |bins[b]| <= 1
    ensures Spare(bins) == 0
  {
    if bins == [] {
    } else {
      NoSpare(bins[1..]);
    }
  }

  /** A bin's last row moved to a new bin. */
  function Moved(bins: seq<seq<int>>, b: nat): (r: seq<seq<int>>)
    requires b < |bins| && |bins[b]| > 1
    ensures |r| == |bins| + 1
  {
    bins[b := bins[b][..|bins[b]| - 1]] + [[bins[b][|bins[b]| - 1]]]
  }

  lemma MovedKeepsRows(bins: seq<seq<int>>, b: nat)
    requires b < |bins| && |bins[b]| > 1
    ensures multiset(Flatten(Moved(bins, b))) == multiset(Flatten(bins))
  {
    var (bin, row) := (bins[b][..|bins[b]| - 1], bins[b][|bins[b]| - 1]);
    var less := bins[b := bin];
    assert bins[b] == bin + [row] && less[b := less[b] + [row]] == bins;
    FlattenUpdate(less, b, [row]);
    FlattenSnoc(less, [row]);
    hide Flatten;
  }

  lemma MovedFits(bins: seq<seq<int>>, b: nat, lens: seq<nat>, capacity: nat)
    requires b < |bins| && |bins[b]| > 1 && Fit(bins, lens, capacity)
    ensures Fit(Moved(bins, b), lens, capacity)
  {
    var (bin, row) := (bins[b][..|bins[b]| - 1], bins[b][|bins[b]| - 1]);
    assert InRange(bins[b], |lens|) && bins[b] == bin + [row];
    assert InRange(bin, |lens|) && InRange([row], |lens|);
    LoadSnoc(lens, [], row);
    LoadEmpty(lens);
    LoadSnoc(lens, bin, row);
    assert [] + [row] == [row];
    hide Load;
  }

  lemma MovedSpares(bins: seq<seq<int>>, b: nat, n: nat)
    requires b < n <= |bins| && |bins[b]| > 1
    ensures Spare(Moved(bins, b)[..n]) == Spare(bins[..n]) - 1
  {
    SparePop(bins[..n], b);
    assert Moved(bins, b)[..n] == bins[..n][b := bins[..n][b][..|bins[..n][b]| - 1]];
  }

  /** Bin `a` has more rows than bin `b`, or as many and comes later. */
  predicate Larger(bins: seq<seq<int>>, a: int, b: int)
    requires 0 <= a < |bins| && 0 <= b < |bins|
  {
    |bins[a]| > |bins[b]| || (|bins[a]| == |bins[b]| && a > b)
  }

  /** Largest bins first: the order in which bins give up rows. */
  function Sources(bins: seq<seq<int>>): (r: seq<int>)
    ensures IsPermutation(r, |bins|)
    ensures forall i, j :: 0 <= i < j < |r| ==> Larger(bins, r[i], r[j])
  {
    Reversed(SortedByKey(seq(|bins|, b requires 0 <= b < |bins| => |bins[b]|)))
  }

  function Reversed(p: seq<int>): (r: seq<int>)
    requires IsPermutation(p, |p|)
    ensures IsPermutation(r, |p|) && forall i :: 0 <= i < |p| ==> r[i] == p[|p| - 1 - i]
  {
    seq(|p|, i requires 0 <= i < |p| => p[|p| - 1 - i])
  }

  lemma AllVisited(sources: seq<int>, n: nat, b: nat)
    requires IsPermutation(sources, n) && b < n
    ensures exists i :: 0 <= i < |sources| && sources[i] == b
  {
    SortingInverts(sources, b);
    assert sources[SortedByKey(sources)[b]] == b;
  }

  /** Every bin keeps a part of its rows from the front, the new bins hold one row each, and a bin gave up rows only
      when all larger ones were down to one. */
  ghost predicate LargestFirst(bins: seq<seq<int>>, r: seq<seq<int>>) {
    && |bins| <= |r|
    && (forall b :: 0 <= b < |bins| ==> r[b] != [] && r[b] <= bins[b])
    && (forall b :: |bins| <= b < |r| ==> |r[b]| == 1)
    && forall a, b :: 0 <= a < |bins| && 0 <= b < |bins| && Larger(bins, a, b) && r[b] != bins[b] ==> |r[a]| == 1
  }

  /** So far, with the bins up to the one at `from` of the order touched. */
  ghost predicate TakenFrom(bins: seq<seq<int>>, r: seq<seq<int>>, sources: seq<int>, from: nat)
    requires InRange(sources, |bins|)
  {
    && |bins| <= |r|
    && (forall b :: 0 <= b < |bins| ==> r[b] != [] && r[b] <= bins[b])
    && (forall b :: |bins| <= b < |r| ==> |r[b]| == 1)
    && forall i :: from < i < |sources| ==> r[sources[i]] == bins[sources[i]]
  }

  lemma NothingTaken(bins: seq<seq<int>>, lens: seq<nat>, capacity: nat, sources: seq<int>)
    requires InRange(sources, |bins|) && Fit(bins, lens, capacity)
    ensures TakenFrom(bins, bins, sources, 0) && LargestFirst(bins, bins)
  {
    hide Load;
  }

  lemma MovedTaken(bins: seq<seq<int>>, r: seq<seq<int>>, sources: seq<int>, start: nat, from: nat)
    requires IsPermutation(sources, |bins|) && start <= from < |sources| && TakenFrom(bins, r, sources, start)
    requires |r[sources[from]]| > 1
    ensures TakenFrom(bins, Moved(r, sources[from]), sources, from)
  {
  }

  lemma TakenLargestFirst(bins: seq<seq<int>>, r: seq<seq<int>>, sources: seq<int>, from: nat)
    requires sources == Sources(bins) && TakenFrom(bins, r, sources, from) && from <= |sources|
    requires forall i :: 0 <= i < from ==> |r[sources[i]]| <= 1
    ensures LargestFirst(bins, r)
  {
    hide Sources;
    forall a, b | 0 <= a < |bins| && 0 <= b < |bins| && Larger(bins, a, b) && r[b] != bins[b] ensures |r[a]| == 1 {
      AllVisited(sources, |bins|, a);
      AllVisited(sources, |bins|, b);
      var i :| 0 <= i < |sources| && sources[i] == a;
      var j :| 0 <= j < |sources| && sources[j] == b;
      assert j <= from && i < j;
    }
  }

  /** Adds bins by moving single rows out of bins that hold several. It fails exactly when there are fewer rows than
      bins wanted; it never runs out of bins to take from. */
  method AdjustBinCount(bins: seq<seq<int>>, least: nat, multiple: nat, lens: seq<nat>, capacity: nat)
    returns (r: PackResult)
    requires multiple > 0 && Fit(bins, lens, capacity)
    ensures var target := TargetCount(|bins|, least, multiple);
            && (r.Failed? <==> target != |bins| && |Flatten(bins)| < target)
            && (r.Packed? ==> |r.bins| == target && Fit(r.bins, lens, capacity)
                              && multiset(Flatten(r.bins)) == multiset(Flatten(bins))
                              && LargestFirst(bins, r.bins))
  {
    hide Fit, TargetCount, Flatten, Spare, Visited, Moved, Sources, LargestFirst, TakenFrom;
    var target := TargetCount(|bins|, least, multiple);
    var sources := Sources(bins);
    NothingTaken(bins, lens, capacity, sources);
    if target == |bins| { return Packed(bins); }
    if |Flatten(bins)| < target { return Failed; }
    var adjusted := bins;
    var from := 0;
    SpareEnough(bins);
    NoneVisited(bins, sources);
    assert adjusted[..|bins|] == bins;
    for count := |bins| to target
      invariant |adjusted| == count && Fit(adjusted, lens, capacity)
      invariant multiset(Flatten(adjusted)) == multiset(Flatten(bins))
      invariant Spare(adjusted[..|bins|]) >= target - count
      invariant from <= |sources| && Visited(adjusted[..|bins|], sources, from)
      invariant TakenFrom(bins, adjusted, sources, from)
    {
      ghost var start := from;
      from := NextSource(adjusted[..|bins|], sources, from);
      var b := sources[from];
      MovedKeepsRows(adjusted, b);
      MovedFits(adjusted, b, lens, capacity);
      MovedSpares(adjusted, b, |bins|);
      MovedVisited(adjusted, b, |bins|, sources, from);
      MovedTaken(bins, adjusted, sources, start, from);
      adjusted := Moved(adjusted, b);
    }
    VisitedAre(adjusted, |bins|, sources, from);
    TakenLargestFirst(bins, adjusted, sources, from);
    return Packed(adjusted);
  }

  /** The sources passed over hold at most one row. */
  ghost predicate Visited(bins: seq<seq<int>>, sources: seq<int>, from: nat)
    requires InRange(sources, |bins|) && from <= |sources|
  {
    forall i :: 0 <= i < from ==> |bins[sources[i]]| <= 1
  }

  lemma NoneVisited(bins: seq<seq<int>>, sources: seq<int>)
    requires InRange(sources, |bins|)
    ensures Visited(bins, sources, 0)
  {
  }

  lemma VisitedAre(bins: seq<seq<int>>, n: nat, sources: seq<int>, from: nat)
    requires n <= |bins| && InRange(sources, n) && from <= |sources| && Visited(bins[..n], sources, from)
    ensures forall i :: 0 <= i < from ==> |bins[sources[i]]| <= 1
  {
  }

  lemma MovedVisited(bins: seq<seq<int>>, b: nat, n: nat, sources: seq<int>, from: nat)
    requires b < n <= |bins| && |bins[b]| > 1 && InRange(sources, n) && from <= |sources|
    requires Visited(bins[..n], sources, from)
    ensures |Moved(bins, b)[..n]| == n && Visited(Moved(bins, b)[..n], sources, from)
  {
  }

  /** The search for the next bin with a row to spare. */
  method NextSource(bins: seq<seq<int>>, sources: seq<int>, start: nat) returns (from: nat)
    requires IsPermutation(sources, |bins|) && start <= |sources| && Visited(bins, sources, start) && Spare(bins) > 0
    ensures start <= from < |sources| && |bins[sources[from]]| > 1 && Visited(bins, sources, from)
  {
    from := start;
    while from < |sources| && |bins[sources[from]]| <= 1
      invariant from <= |sources| && Visited(bins, sources, from)
    {
      from := from + 1;
    }
    if from == |sources| { Exhausted(bins, sources); }
  }

  lemma Exhausted(bins: seq<seq<int>>, sources: seq<int>)
    requires IsPermutation(sources, |bins|) && Visited(bins, sources, |sources|)
    ensures Spare(bins) == 0
  {
    forall b | 0 <= b < |bins| ensures |bins[b]| <= 1 {
      AllVisited(sources, |bins|, b);
    }
    NoSpare(bins);
  }

  // ------------------------------------------------------------ permutations

  lemma PermutationIsRange(p: seq<int>, n: nat)
    requires IsPermutation(p, n)
    ensures multiset(p) == multiset(Range(0, n))
  {
    forall v ensures multiset(p)[v] == multiset(Range(0, n))[v] {
      RangeMember(0, n, v);
      if 0 <= v < n {
        SortingInverts(p, v);
        assert p[SortedByKey(p)[v]] == v;
      }
      DistinctCount(p, v);
    }
  }

  lemma {:induction false} DistinctCount(p: seq<int>, v: int)
    requires Distinct(p)
    ensures multiset(p)[v] == if v in p then 1 else 0
  {
    if p == [] {
    } else {
      assert p == [p[0]] + p[1..];
      DistinctCount(p[1..], v);
    }
  }
}
