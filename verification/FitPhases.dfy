/** The phases of the modified first-fit decreasing packer (nemo_rl/data/packing/algorithms.py) up to the leftovers: one
    bin for every large item, filled up in three passes with what fits. */
module FitPhases {
  import opened Dealing
  import opened Packers
  import opened SequencePacking
  import opened Sequences

  // ------------------------------------------------------------ lists of items

  function Without<T>(xs: seq<T>, i: nat): (r: seq<T>)
    requires i < |xs|
    ensures |r| == |xs| - 1 && multiset(r) + multiset{xs[i]} == multiset(xs)
  {
    assert xs == xs[..i] + [xs[i]] + xs[i + 1..];
    xs[..i] + xs[i + 1..]
  }

  function InsertAt<T>(xs: seq<T>, i: nat, x: T): (r: seq<T>)
    requires i <= |xs|
    ensures |r| == |xs| + 1
    ensures forall k :: 0 <= k < |r| ==> r[k] == if k < i then xs[k] else if k == i then x else xs[k - 1]
  {
    xs[..i] + [x] + xs[i..]
  }

  function KeysOf(items: seq<int>, lens: seq<nat>): (r: seq<int>)
    requires InRange(items, |lens|)
    ensures |r| == |items| && forall k :: 0 <= k < |r| ==> r[k] == lens[items[k]]
  {
    seq(|items|, k requires 0 <= k < |items| => lens[items[k]])
  }

  function NegatedKeys(items: seq<int>, lens: seq<nat>): (r: seq<int>)
    requires InRange(items, |lens|)
    ensures |r| == |items| && forall k :: 0 <= k < |r| ==> r[k] == -(lens[items[k]] as int)
  {
    seq(|items|, k requires 0 <= k < |items| => -(lens[items[k]] as int))
  }

  ghost predicate Ascending(items: seq<int>, lens: seq<nat>) {
    InRange(items, |lens|) && forall i, j :: 0 <= i <= j < |items| ==> lens[items[i]] <= lens[items[j]]
  }

  ghost predicate Descending(items: seq<int>, lens: seq<nat>) {
    InRange(items, |lens|) && forall i, j :: 0 <= i <= j < |items| ==> lens[items[i]] >= lens[items[j]]
  }

  /** A stable sort by length; the descending one keeps equal items in order as well. */
  function SortedUp(items: seq<int>, lens: seq<nat>): (r: seq<int>)
    requires InRange(items, |lens|)
    ensures Ascending(r, lens) && multiset(r) == multiset(items)
  {
    var p := SortedByKey(KeysOf(items, lens));
    SelectPermutes(items, p);
    Select(items, p)
  }

  function SortedDown(items: seq<int>, lens: seq<nat>): (r: seq<int>)
    requires InRange(items, |lens|)
    ensures Descending(r, lens) && multiset(r) == multiset(items)
  {
    var p := SortedByKey(NegatedKeys(items, lens));
    SelectPermutes(items, p);
    Select(items, p)
  }

  lemma SelectPermutes<T>(xs: seq<T>, p: seq<int>)
    requires IsPermutation(p, |xs|)
    ensures multiset(Select(xs, p)) == multiset(xs)
  {
    PermutationIsRange(p, |xs|);
    SelectRange(xs, Range(0, |xs|));
    SameSelection(xs, p, Range(0, |xs|));
  }

  lemma SelectRange<T>(xs: seq<T>, all: seq<int>)
    requires all == Range(0, |xs|)
    ensures Select(xs, all) == xs
  {
  }

  lemma HeadOut(p: seq<int>, q: seq<int>, i: nat)
    requires p != [] && i < |q| && q[i] == p[0] && multiset(p) == multiset(q)
    ensures multiset(p[1..]) == multiset(Without(q, i))
    ensures forall j :: 0 <= j < |Without(q, i)| ==> Without(q, i)[j] in q
  {
    assert p == [p[0]] + p[1..];
    assert multiset(p[1..]) == multiset(p) - multiset{p[0]};
    assert multiset(Without(q, i)) == multiset(q) - multiset{q[i]};
  }

  /** Equal multisets of positions select equal multisets. */
  lemma {:induction false} SameSelection<T>(xs: seq<T>, p: seq<int>, q: seq<int>)
    requires InRange(p, |xs|) && InRange(q, |xs|) && multiset(p) == multiset(q)
    ensures multiset(Select(xs, p)) == multiset(Select(xs, q))
  {
    hide Select, Without;
    if p == [] {
      assert |multiset(q)| == |q| && q == [];
    } else {
      assert p[0] in multiset(q);
      var i :| 0 <= i < |q| && q[i] == p[0];
      HeadOut(p, q, i);
      SameSelection(xs, p[1..], Without(q, i));
      SelectHead(xs, p);
      SelectWithout(xs, q, i);
    }
  }

  lemma SelectHead<T>(xs: seq<T>, p: seq<int>)
    requires InRange(p, |xs|) && p != []
    ensures multiset(Select(xs, p)) == multiset(Select(xs, p[1..])) + multiset{xs[p[0]]}
  {
    assert Select(xs, p) == [xs[p[0]]] + Select(xs, p[1..]);
  }

  lemma SelectWithout<T>(xs: seq<T>, q: seq<int>, i: nat)
    requires InRange(q, |xs|) && i < |q|
    ensures InRange(Without(q, i), |xs|)
    ensures multiset(Select(xs, q)) == multiset(Select(xs, Without(q, i))) + multiset{xs[q[i]]}
  {
    assert Select(xs, Without(q, i)) == Without(Select(xs, q), i);
  }

  // ------------------------------------------------------------ bins and what is left

  /** Bins that began with a large item: more than half full. */
  ghost predicate Heavy(bins: seq<seq<int>>, lens: seq<nat>, capacity: nat) {
    Fit(bins, lens, capacity) && forall b :: 0 <= b < |bins| ==> 2 * Load(lens, bins[b]) > capacity
  }

  /** What the bins and the lists hold together. */
  function Together(bins: seq<seq<int>>, rest: seq<int>): multiset<int> {
    multiset(Flatten(bins)) + multiset(rest)
  }

  function Put(bins: seq<seq<int>>, b: nat, item: int): (r: seq<seq<int>>)
    requires b < |bins|
    ensures |r| == |bins|
  {
    bins[b := bins[b] + [item]]
  }

  /** An item that fits moves from the list into a bin. */
  lemma PutKeeps(bins: seq<seq<int>>, rest: seq<int>, b: nat, i: nat, lens: seq<nat>, capacity: nat)
    requires Heavy(bins, lens, capacity) && InRange(rest, |lens|) && b < |bins| && i < |rest|
    requires Load(lens, bins[b]) + lens[rest[i]] <= capacity
    ensures Heavy(Put(bins, b, rest[i]), lens, capacity) && InRange(Without(rest, i), |lens|)
    ensures Together(Put(bins, b, rest[i]), Without(rest, i)) == Together(bins, rest)
    ensures Load(lens, Put(bins, b, rest[i])[b]) == Load(lens, bins[b]) + lens[rest[i]]
  {
    hide Load, Flatten;
    LoadSnoc(lens, bins[b], rest[i]);
    FlattenUpdate(bins, b, [rest[i]]);
  }

  /** The first item of a list that fits into the room. */
  method FirstFitting(items: seq<int>, lens: seq<nat>, room: nat) returns (i: nat)
    requires InRange(items, |lens|)
    ensures i <= |items| && (i < |items| ==> lens[items[i]] <= room)
    ensures forall j :: 0 <= j < i ==> lens[items[j]] > room
  {
    i := 0;
    while i < |items| && lens[items[i]] > room
      invariant i <= |items| && forall j :: 0 <= j < i ==> lens[items[j]] > room
    {
      i := i + 1;
    }
  }

  /** The last item that fits, where the first one does. */
  method LastFitting(items: seq<int>, lens: seq<nat>, room: nat) returns (i: nat)
    requires InRange(items, |lens|) && items != [] && lens[items[0]] <= room
    ensures i < |items| && lens[items[i]] <= room
    ensures forall j :: i < j < |items| ==> lens[items[j]] > room
  {
    i := |items| - 1;
    while lens[items[i]] > room
      invariant i < |items| && forall j :: i < j < |items| ==> lens[items[j]] > room
      decreases i
    {
      i := i - 1;
    }
  }

  // ------------------------------------------------------------ the phases

  datatype Size = Large | Medium | Small | Tiny

  /** The class of a length: over a half, a third or a sixth of the capacity, or less. */
  function SizeOf(length: nat, capacity: nat): Size {
    if 2 * length > capacity then Large
    else if 3 * length > capacity then Medium
    else if 6 * length > capacity then Small
    else Tiny
  }

  /** What the classes are for: two large items never share a bin and two others always could; the same for three items
      over and up to a third, and six items over and up to a sixth. */
  lemma ClassesShareBins(lengths: seq<nat>, capacity: nat)
    requires |lengths| == 6
    ensures var (big, small) := (forall i :: 0 <= i < 2 ==> SizeOf(lengths[i], capacity).Large?,
                                 forall i :: 0 <= i < 2 ==> !SizeOf(lengths[i], capacity).Large?);
            (big ==> lengths[0] + lengths[1] > capacity) && (small ==> lengths[0] + lengths[1] <= capacity)
    ensures var third := lengths[0] + lengths[1] + lengths[2];
            && ((forall i :: 0 <= i < 3 ==> OverThird(SizeOf(lengths[i], capacity))) ==> third > capacity)
            && ((forall i :: 0 <= i < 3 ==> !OverThird(SizeOf(lengths[i], capacity))) ==> third <= capacity)
    ensures var sixth := lengths[0] + lengths[1] + lengths[2] + lengths[3] + lengths[4] + lengths[5];
            && ((forall i :: 0 <= i < 6 ==> !SizeOf(lengths[i], capacity).Tiny?) ==> sixth > capacity)
            && ((forall i :: 0 <= i < 6 ==> SizeOf(lengths[i], capacity).Tiny?) ==> sixth <= capacity)
  {
    forall i | 0 <= i < 6
      ensures SizeOf(lengths[i], capacity).Large? <==> 2 * lengths[i] > capacity
      ensures OverThird(SizeOf(lengths[i], capacity)) <==> 3 * lengths[i] > capacity
      ensures SizeOf(lengths[i], capacity).Tiny? <==> 6 * lengths[i] <= capacity
    {
    }
    hide SizeOf, OverThird;
  }

  predicate OverThird(size: Size) {
    size.Large? || size.Medium?
  }

  ghost predicate OfSize(items: seq<int>, size: Size, lens: seq<nat>, capacity: nat) {
    InRange(items, |lens|) && forall i :: 0 <= i < |items| ==> SizeOf(lens[items[i]], capacity) == size
  }

  datatype Classes = Classes(large: seq<int>, medium: seq<int>, small: seq<int>, tiny: seq<int>)

  /** The classes partition the first `n` items by their lengths. */
  ghost predicate Classified(k: Classes, n: nat, lens: seq<nat>, capacity: nat) {
    && OfSize(k.large, Large, lens, capacity) && OfSize(k.medium, Medium, lens, capacity)
    && OfSize(k.small, Small, lens, capacity) && OfSize(k.tiny, Tiny, lens, capacity)
    && multiset(k.large) + multiset(k.medium) + multiset(k.small) + multiset(k.tiny) == multiset(Range(0, n))
  }

  method Classify(lens: seq<nat>, capacity: nat) returns (k: Classes)
    ensures Classified(k, |lens|, lens, capacity)
  {
    k := Classes([], [], [], []);
    NoneClassified(lens, capacity);
    hide OfSize, SizeOf, Range;
    for i := 0 to |lens|
      invariant Classified(k, i, lens, capacity)
    {
      RangeNext(i);
      var size := SizeOf(lens[i], capacity);
      match size
      case Large =>
        OneMoreOf(k.large, size, i, lens, capacity);
        k := k.(large := k.large + [i]);
      case Medium =>
        OneMoreOf(k.medium, size, i, lens, capacity);
        k := k.(medium := k.medium + [i]);
      case Small =>
        OneMoreOf(k.small, size, i, lens, capacity);
        k := k.(small := k.small + [i]);
      case Tiny =>
        OneMoreOf(k.tiny, size, i, lens, capacity);
        k := k.(tiny := k.tiny + [i]);
    }
  }

  lemma NoneClassified(lens: seq<nat>, capacity: nat)
    ensures Classified(Classes([], [], [], []), 0, lens, capacity)
  {
  }

  lemma OneMoreOf(items: seq<int>, size: Size, i: nat, lens: seq<nat>, capacity: nat)
    requires OfSize(items, size, lens, capacity) && i < |lens| && SizeOf(lens[i], capacity) == size
    ensures OfSize(items + [i], size, lens, capacity)
  {
  }

  lemma RangeNext(n: nat)
    ensures multiset(Range(0, n + 1)) == multiset(Range(0, n)) + multiset{n}
  {
    assert Range(0, n + 1) == Range(0, n) + [n];
  }

  /** One bin for every large item. */
  method OpenBins(large: seq<int>, lens: seq<nat>, capacity: nat) returns (bins: seq<seq<int>>)
    requires InRange(large, |lens|)
    requires forall i :: 0 <= i < |large| ==> lens[large[i]] <= capacity < 2 * lens[large[i]]
    ensures Heavy(bins, lens, capacity) && Flatten(bins) == large
    ensures |bins| == |large| && forall b :: 0 <= b < |bins| ==> bins[b] == [large[b]]
  {
    hide Heavy, Load, Flatten;
    bins := [];
    NothingOpened(lens, capacity);
    for i := 0 to |large|
      invariant Heavy(bins, lens, capacity) && Flatten(bins) == large[..i]
      invariant |bins| == i && forall b :: 0 <= b < i ==> bins[b] == [large[b]]
    {
      FlattenSnoc(bins, [large[i]]);
      OneOpened(bins, large[i], lens, capacity);
      assert large[..i + 1] == large[..i] + [large[i]];
      bins := bins + [[large[i]]];
    }
    assert large[..|large|] == large;
  }

  lemma NothingOpened(lens: seq<nat>, capacity: nat)
    ensures Heavy([], lens, capacity) && Flatten<int>([]) == []
  {
  }

  lemma OneOpened(bins: seq<seq<int>>, item: int, lens: seq<nat>, capacity: nat)
    requires Heavy(bins, lens, capacity) && 0 <= item < |lens| && lens[item] <= capacity < 2 * lens[item]
    ensures Heavy(bins + [[item]], lens, capacity)
  {
    hide Load;
    LoadSingle(lens, item);
    var after := bins + [[item]];
    forall b | 0 <= b < |after|
      ensures InRange(after[b], |lens|) && after[b] != []
      ensures capacity < 2 * Load(lens, after[b]) && Load(lens, after[b]) <= capacity
    {
      if b < |bins| { assert after[b] == bins[b]; }
    }
  }

  /** A bin gets the longest item that fits, or nothing if none does; `rest` are those that are left. */
  ghost predicate MediumStep(before: seq<int>, bin: seq<int>, rest: seq<int>, lens: seq<nat>, capacity: nat)
    requires InRange(before, |lens|) && InRange(bin, |lens|) && InRange(rest, |lens|)
  {
    if bin == before then forall k :: 0 <= k < |rest| ==> Load(lens, before) + lens[rest[k]] > capacity
    else
      && |bin| == |before| + 1 && bin[..|before|] == before
      && forall k :: 0 <= k < |rest| && Load(lens, before) + lens[rest[k]] <= capacity ==>
           lens[rest[k]] <= lens[bin[|before|]]
  }

  ghost predicate MediumPass(bins0: seq<seq<int>>, bins: seq<seq<int>>, n: nat, rest: seq<int>, lens: seq<nat>,
                             capacity: nat)
    requires AllInRange(bins0, |lens|) && AllInRange(bins, |lens|) && InRange(rest, |lens|)
  {
    && n <= |bins| == |bins0| && (forall b :: n <= b < |bins| ==> bins[b] == bins0[b])
    && forall b :: 0 <= b < n ==> MediumStep(bins0[b], bins[b], rest, lens, capacity)
  }

  /** Forward: to every bin the largest medium item that fits. */
  method AddMedium(bins0: seq<seq<int>>, medium0: seq<int>, lens: seq<nat>, capacity: nat)
    returns (bins: seq<seq<int>>, medium: seq<int>)
    requires Heavy(bins0, lens, capacity) && Descending(medium0, lens)
    ensures Heavy(bins, lens, capacity) && InRange(medium, |lens|)
    ensures Together(bins, medium) == Together(bins0, medium0)
    ensures MediumPass(bins0, bins, |bins0|, medium, lens, capacity)
  {
    hide Load, Together, Put, MediumStep, Without;
    bins, medium := bins0, medium0;
    for b := 0 to |bins0|
      invariant |bins| == |bins0| && Heavy(bins, lens, capacity) && Descending(medium, lens)
      invariant Together(bins, medium) == Together(bins0, medium0)
      invariant MediumPass(bins0, bins, b, medium, lens, capacity)
    {
      var i := FirstFitting(medium, lens, capacity - Load(lens, bins[b]));
      if i < |medium| {
        PutKeeps(bins, medium, b, i, lens, capacity);
        WithoutAscends(medium, lens, i);
        PassMedium(bins0, bins, b, medium, i, lens, capacity);
        bins, medium := Put(bins, b, medium[i]), Without(medium, i);
      } else {
        NoMedium(bins0, bins, b, medium, lens, capacity);
      }
    }
  }

  lemma NoMedium(bins0: seq<seq<int>>, bins: seq<seq<int>>, b: nat, rest: seq<int>, lens: seq<nat>, capacity: nat)
    requires AllInRange(bins0, |lens|) && AllInRange(bins, |lens|) && InRange(rest, |lens|) && b < |bins|
    requires MediumPass(bins0, bins, b, rest, lens, capacity)
    requires forall k :: 0 <= k < |rest| ==> Load(lens, bins[b]) + lens[rest[k]] > capacity
    ensures MediumPass(bins0, bins, b + 1, rest, lens, capacity)
  {
    hide Load;
  }

  lemma PassMedium(bins0: seq<seq<int>>, bins: seq<seq<int>>, b: nat, rest: seq<int>, i: nat, lens: seq<nat>,
                   capacity: nat)
    requires AllInRange(bins0, |lens|) && AllInRange(bins, |lens|) && Descending(rest, lens)
    requires b < |bins| && i < |rest| && MediumPass(bins0, bins, b, rest, lens, capacity)
    requires forall k :: 0 <= k < i ==> Load(lens, bins[b]) + lens[rest[k]] > capacity
    requires AllInRange(Put(bins, b, rest[i]), |lens|)
    ensures InRange(Without(rest, i), |lens|)
    ensures MediumPass(bins0, Put(bins, b, rest[i]), b + 1, Without(rest, i), lens, capacity)
  {
    hide Load, MediumStep, Without;
    WithoutAscends(rest, lens, i);
    MediumTaken(bins[b], rest, i, lens, capacity);
    forall c | 0 <= c < b ensures MediumStep(bins0[c], bins[c], Without(rest, i), lens, capacity) {
      MediumStays(bins0[c], bins[c], rest, i, lens, capacity);
    }
  }

  lemma MediumTaken(bin: seq<int>, rest: seq<int>, i: nat, lens: seq<nat>, capacity: nat)
    requires InRange(bin, |lens|) && Descending(rest, lens) && i < |rest|
    requires forall k :: 0 <= k < i ==> Load(lens, bin) + lens[rest[k]] > capacity
    ensures InRange(bin + [rest[i]], |lens|) && InRange(Without(rest, i), |lens|)
    ensures MediumStep(bin, bin + [rest[i]], Without(rest, i), lens, capacity)
  {
    hide Load;
  }

  lemma MediumStays(before: seq<int>, bin: seq<int>, rest: seq<int>, i: nat, lens: seq<nat>, capacity: nat)
    requires InRange(before, |lens|) && InRange(bin, |lens|) && InRange(rest, |lens|) && i < |rest|
    requires MediumStep(before, bin, rest, lens, capacity)
    ensures InRange(Without(rest, i), |lens|) && MediumStep(before, bin, Without(rest, i), lens, capacity)
  {
    hide Load;
  }

  predicate HasMedium(bin: seq<int>, lens: seq<nat>, capacity: nat)
    requires InRange(bin, |lens|)
  {
    exists i :: 0 <= i < |bin| && SizeOf(lens[bin[i]], capacity) == Medium
  }

  lemma WithoutAscends(items: seq<int>, lens: seq<nat>, i: nat)
    requires i < |items|
    ensures Ascending(items, lens) ==> Ascending(Without(items, i), lens)
    ensures Descending(items, lens) ==> Descending(Without(items, i), lens)
  {
  }

  /** A bin without a medium item gets the shortest item and the longest that fits beside it, or nothing if no two
      items fit; `rest` are those that are left. */
  ghost predicate PairStep(before: seq<int>, bin: seq<int>, rest: seq<int>, lens: seq<nat>, capacity: nat)
    requires InRange(before, |lens|) && InRange(bin, |lens|) && InRange(rest, |lens|)
  {
    if HasMedium(before, lens, capacity) then bin == before
    else if bin == before then
      forall i, j :: 0 <= i < j < |rest| ==> Load(lens, before) + lens[rest[i]] + lens[rest[j]] > capacity
    else
      && |bin| == |before| + 2 && bin[..|before|] == before
      && BestPair(Load(lens, before), lens[bin[|before|]], lens[bin[|before| + 1]], rest, lens, capacity)
  }

  ghost predicate BestPair(load: nat, first: nat, second: nat, rest: seq<int>, lens: seq<nat>, capacity: nat)
    requires InRange(rest, |lens|)
  {
    forall k :: 0 <= k < |rest| ==>
      && first <= lens[rest[k]]
      && (load + first + lens[rest[k]] <= capacity ==> lens[rest[k]] <= second)
  }

  ghost predicate PairPass(bins0: seq<seq<int>>, bins: seq<seq<int>>, n: nat, rest: seq<int>, lens: seq<nat>,
                           capacity: nat)
    requires AllInRange(bins0, |lens|) && AllInRange(bins, |lens|) && InRange(rest, |lens|)
  {
    && n <= |bins| == |bins0| && (forall b :: 0 <= b < n ==> bins[b] == bins0[b])
    && forall b :: n <= b < |bins| ==> PairStep(bins0[b], bins[b], rest, lens, capacity)
  }

  /** Backward: to every bin without a medium item the smallest small item and the largest one that fits beside it. The
      smallest is taken off the list first; it is not lost, because the second smallest fits beside it. */
  method AddPairs(bins0: seq<seq<int>>, small0: seq<int>, lens: seq<nat>, capacity: nat)
    returns (bins: seq<seq<int>>, small: seq<int>)
    requires Heavy(bins0, lens, capacity) && Ascending(small0, lens)
    ensures Heavy(bins, lens, capacity) && InRange(small, |lens|)
    ensures Together(bins, small) == Together(bins0, small0)
    ensures PairPass(bins0, bins, 0, small, lens, capacity)
  {
    hide Load, Together, Put, HasMedium, Without, PairStep, BestPair;
    bins, small := bins0, small0;
    for b := |bins0| downto 0
      invariant |bins| == |bins0| && Heavy(bins, lens, capacity) && Ascending(small, lens)
      invariant Together(bins, small) == Together(bins0, small0)
      invariant PairPass(bins0, bins, b, small, lens, capacity)
    {
      var room := capacity - Load(lens, bins[b]);
      ghost var (were, list) := (bins, small);
      if !HasMedium(bins[b], lens, capacity) && |small| >= 2 && lens[small[0]] + lens[small[1]] <= room {
        var first := small[0];
        WithoutFirst(small);
        WithoutAscends(small, lens, 0);
        PutKeeps(bins, small, b, 0, lens, capacity);
        bins, small := Put(bins, b, first), Without(small, 0);
        var j := LastFitting(small, lens, room - lens[first]);
        WithoutAscends(small, lens, j);
        PutKeeps(bins, small, b, j, lens, capacity);
        PassPair(bins0, were, b, list, j, lens, capacity);
        bins, small := Put(bins, b, small[j]), Without(small, j);
      } else {
        NoPair(bins0, bins, b, small, lens, capacity);
      }
    }
  }

  lemma NoPair(bins0: seq<seq<int>>, bins: seq<seq<int>>, b: nat, rest: seq<int>, lens: seq<nat>, capacity: nat)
    requires AllInRange(bins0, |lens|) && AllInRange(bins, |lens|) && Ascending(rest, lens) && b < |bins|
    requires PairPass(bins0, bins, b + 1, rest, lens, capacity)
    requires HasMedium(bins[b], lens, capacity) || |rest| < 2
          || Load(lens, bins[b]) + lens[rest[0]] + lens[rest[1]] > capacity
    ensures PairPass(bins0, bins, b, rest, lens, capacity)
  {
    hide Load, HasMedium, PairStep;
    NoPairTaken(bins[b], rest, lens, capacity);
  }

  lemma NoPairTaken(bin: seq<int>, rest: seq<int>, lens: seq<nat>, capacity: nat)
    requires InRange(bin, |lens|) && Ascending(rest, lens)
    requires HasMedium(bin, lens, capacity) || |rest| < 2
          || Load(lens, bin) + lens[rest[0]] + lens[rest[1]] > capacity
    ensures PairStep(bin, bin, rest, lens, capacity)
  {
    hide Load, HasMedium;
  }

  lemma PassGrows(bins0: seq<seq<int>>, bins: seq<seq<int>>, b: nat, bin: seq<int>, rest: seq<int>, lens: seq<nat>,
                  capacity: nat)
    requires AllInRange(bins0, |lens|) && AllInRange(bins, |lens|) && InRange(rest, |lens|) && InRange(bin, |lens|)
    requires b < |bins| == |bins0| && forall c :: 0 <= c <= b ==> bins[c] == bins0[c]
    requires PairStep(bins[b], bin, rest, lens, capacity)
    requires forall c :: b < c < |bins| ==> PairStep(bins0[c], bins[c], rest, lens, capacity)
    ensures AllInRange(bins[b := bin], |lens|) && PairPass(bins0, bins[b := bin], b, rest, lens, capacity)
  {
    hide PairStep;
  }

  /** The first item and item `j` of the others go into bin `b`. */
  lemma PassPair(bins0: seq<seq<int>>, bins: seq<seq<int>>, b: nat, rest: seq<int>, j: nat, lens: seq<nat>,
                 capacity: nat)
    requires AllInRange(bins0, |lens|) && AllInRange(bins, |lens|) && Ascending(rest, lens) && b < |bins|
    requires |rest| >= 2 && j < |Without(rest, 0)| && InRange(Without(rest, 0), |lens|)
    requires PairPass(bins0, bins, b + 1, rest, lens, capacity) && !HasMedium(bins[b], lens, capacity)
    requires forall k :: j < k < |Without(rest, 0)| ==>
      Load(lens, bins[b]) + lens[rest[0]] + lens[Without(rest, 0)[k]] > capacity
    ensures var (after, left) := (Put(Put(bins, b, rest[0]), b, Without(rest, 0)[j]), Without(Without(rest, 0), j));
            && AllInRange(after, |lens|) && InRange(left, |lens|)
            && PairPass(bins0, after, b, left, lens, capacity)
  {
    hide Load, HasMedium, PairStep, Without;
    var others := Without(rest, 0);
    PairTaken(bins[b], rest, j, lens, capacity);
    forall c | b < c < |bins| ensures PairStep(bins0[c], bins[c], Without(others, j), lens, capacity) {
      PairStays(bins0[c], bins[c], rest, 0, lens, capacity);
      PairStays(bins0[c], bins[c], others, j, lens, capacity);
    }
    PutTwice(bins, b, rest[0], others[j]);
    PassGrows(bins0, bins, b, bins[b] + [rest[0]] + [others[j]], Without(others, j), lens, capacity);
  }

  lemma PutTwice(bins: seq<seq<int>>, b: nat, x: int, y: int)
    requires b < |bins|
    ensures Put(Put(bins, b, x), b, y) == bins[b := bins[b] + [x] + [y]]
  {
  }

  lemma PairTaken(bin: seq<int>, rest: seq<int>, j: nat, lens: seq<nat>, capacity: nat)
    requires InRange(bin, |lens|) && Ascending(rest, lens) && rest != [] && j < |Without(rest, 0)|
    requires !HasMedium(bin, lens, capacity)
    requires InRange(Without(rest, 0), |lens|) && forall k :: j < k < |Without(rest, 0)| ==>
      Load(lens, bin) + lens[rest[0]] + lens[Without(rest, 0)[k]] > capacity
    ensures && InRange(bin + [rest[0]] + [Without(rest, 0)[j]], |lens|) && InRange(Without(Without(rest, 0), j), |lens|)
            && PairStep(bin, bin + [rest[0]] + [Without(rest, 0)[j]], Without(Without(rest, 0), j), lens, capacity)
  {
    hide Load, HasMedium;
    WithoutAscends(rest, lens, 0);
    WithoutAscends(Without(rest, 0), lens, j);
  }

  lemma PairStays(before: seq<int>, bin: seq<int>, rest: seq<int>, i: nat, lens: seq<nat>, capacity: nat)
    requires InRange(before, |lens|) && InRange(bin, |lens|) && InRange(rest, |lens|) && i < |rest|
    requires PairStep(before, bin, rest, lens, capacity)
    ensures InRange(Without(rest, i), |lens|) && PairStep(before, bin, Without(rest, i), lens, capacity)
  {
    hide Load, HasMedium;
  }

  lemma WithoutFirst(xs: seq<int>)
    requires xs != []
    ensures Without(xs, 0) == xs[1..]
  {
  }

  /** No item that is left fits into any of the first `n` bins. */
  ghost predicate Closed(bins: seq<seq<int>>, n: nat, rest: seq<int>, lens: seq<nat>, capacity: nat)
    requires AllInRange(bins, |lens|) && InRange(rest, |lens|) && n <= |bins|
  {
    forall b, k :: 0 <= b < n && 0 <= k < |rest| ==> Load(lens, bins[b]) + lens[rest[k]] > capacity
  }

  /** A bin is filled up from the front: each item added was, when it was added, at least as long as any of `rest` that
      would have fit. */
  ghost predicate GreedyStep(before: seq<int>, bin: seq<int>, rest: seq<int>, lens: seq<nat>, capacity: nat)
    requires InRange(bin, |lens|) && InRange(rest, |lens|)
  {
    && before <= bin
    && forall p: nat, k :: |before| <= p < |bin| && 0 <= k < |rest| && Fits(lens, bin, p, rest[k], capacity) ==>
         lens[rest[k]] <= lens[bin[p]]
  }

  /** The item fits beside the first `p` of a bin. */
  predicate Fits(lens: seq<nat>, bin: seq<int>, p: nat, item: int, capacity: nat)
    requires InRange(bin, |lens|) && p <= |bin| && 0 <= item < |lens|
  {
    Load(lens, bin[..p]) + lens[item] <= capacity
  }

  ghost predicate GreedyPass(bins0: seq<seq<int>>, bins: seq<seq<int>>, rest: seq<int>, lens: seq<nat>, capacity: nat)
    requires AllInRange(bins, |lens|) && InRange(rest, |lens|)
  {
    |bins| == |bins0| && forall b :: 0 <= b < |bins| ==> GreedyStep(bins0[b], bins[b], rest, lens, capacity)
  }

  lemma NothingFilled(bins: seq<seq<int>>, rest: seq<int>, lens: seq<nat>, capacity: nat)
    requires AllInRange(bins, |lens|) && InRange(rest, |lens|)
    ensures GreedyPass(bins, bins, rest, lens, capacity)
  {
  }

  lemma GreedyStays(before: seq<int>, bin: seq<int>, rest: seq<int>, i: nat, lens: seq<nat>, capacity: nat)
    requires InRange(bin, |lens|) && InRange(rest, |lens|) && i < |rest|
    requires GreedyStep(before, bin, rest, lens, capacity)
    ensures InRange(Without(rest, i), |lens|) && GreedyStep(before, bin, Without(rest, i), lens, capacity)
  {
    hide Fits;
  }

  lemma GreedyTakes(before: seq<int>, bin: seq<int>, rest: seq<int>, i: nat, lens: seq<nat>, capacity: nat)
    requires InRange(bin, |lens|) && Descending(rest, lens) && i < |rest|
    requires GreedyStep(before, bin, rest, lens, capacity)
    requires forall k :: 0 <= k < i ==> Load(lens, bin) + lens[rest[k]] > capacity
    ensures InRange(bin + [rest[i]], |lens|) && InRange(Without(rest, i), |lens|)
    ensures GreedyStep(before, bin + [rest[i]], Without(rest, i), lens, capacity)
  {
    hide Load;
    GreedyStays(before, bin, rest, i, lens, capacity);
    var (bin', left) := (bin + [rest[i]], Without(rest, i));
    forall p: nat, k | |before| <= p < |bin'| && 0 <= k < |left| && Fits(lens, bin', p, left[k], capacity)
      ensures lens[left[k]] <= lens[bin'[p]]
    {
      assert bin'[..p] == bin[..p];
      if p < |bin| {
        assert Fits(lens, bin, p, left[k], capacity);
      } else {
        assert bin[..p] == bin;
      }
    }
  }

  lemma PassGreedy(bins0: seq<seq<int>>, bins: seq<seq<int>>, b: nat, rest: seq<int>, i: nat, lens: seq<nat>,
                   capacity: nat)
    requires AllInRange(bins, |lens|) && Descending(rest, lens) && b < |bins| && i < |rest|
    requires GreedyPass(bins0, bins, rest, lens, capacity)
    requires forall k :: 0 <= k < i ==> Load(lens, bins[b]) + lens[rest[k]] > capacity
    ensures AllInRange(Put(bins, b, rest[i]), |lens|) && InRange(Without(rest, i), |lens|)
    ensures GreedyPass(bins0, Put(bins, b, rest[i]), Without(rest, i), lens, capacity)
  {
    hide Load, GreedyStep, Without;
    GreedyTakes(bins0[b], bins[b], rest, i, lens, capacity);
    forall c | 0 <= c < |bins| && c != b ensures GreedyStep(bins0[c], bins[c], Without(rest, i), lens, capacity) {
      GreedyStays(bins0[c], bins[c], rest, i, lens, capacity);
    }
  }

  /** Forward again: every bin takes the largest item that fits, as long as the smallest does. */
  method FillGreedily(bins0: seq<seq<int>>, rest0: seq<int>, lens: seq<nat>, capacity: nat)
    returns (bins: seq<seq<int>>, rest: seq<int>)
    requires Heavy(bins0, lens, capacity) && Descending(rest0, lens)
    ensures Heavy(bins, lens, capacity) && InRange(rest, |lens|) && Closed(bins, |bins|, rest, lens, capacity)
    ensures Together(bins, rest) == Together(bins0, rest0) && GreedyPass(bins0, bins, rest, lens, capacity)
  {
    hide Load, Together, Put, Without, Closed, GreedyPass;
    bins, rest := bins0, rest0;
    NoneClosed(bins, rest, lens, capacity);
    NothingFilled(bins, rest, lens, capacity);
    for b := 0 to |bins0|
      invariant |bins| == |bins0| && Heavy(bins, lens, capacity) && Descending(rest, lens)
      invariant Closed(bins, b, rest, lens, capacity) && Together(bins, rest) == Together(bins0, rest0)
      invariant GreedyPass(bins0, bins, rest, lens, capacity)
    {
      while rest != [] && lens[rest[|rest| - 1]] <= capacity - Load(lens, bins[b])
        invariant |bins| == |bins0| && Heavy(bins, lens, capacity) && Descending(rest, lens)
        invariant Closed(bins, b, rest, lens, capacity) && Together(bins, rest) == Together(bins0, rest0)
        invariant GreedyPass(bins0, bins, rest, lens, capacity)
        decreases |rest|
      {
        var i := FirstFitting(rest, lens, capacity - Load(lens, bins[b]));
        WithoutAscends(rest, lens, i);
        PutKeeps(bins, rest, b, i, lens, capacity);
        PassGreedy(bins0, bins, b, rest, i, lens, capacity);
        StaysClosed(bins, b, rest, i, lens, capacity);
        bins, rest := Put(bins, b, rest[i]), Without(rest, i);
      }
      OneMoreClosed(bins, b, rest, lens, capacity);
    }
  }

  lemma NoneClosed(bins: seq<seq<int>>, rest: seq<int>, lens: seq<nat>, capacity: nat)
    requires AllInRange(bins, |lens|) && InRange(rest, |lens|)
    ensures Closed(bins, 0, rest, lens, capacity)
  {
  }

  lemma StaysClosed(bins: seq<seq<int>>, b: nat, rest: seq<int>, i: nat, lens: seq<nat>, capacity: nat)
    requires AllInRange(bins, |lens|) && InRange(rest, |lens|) && b < |bins| && i < |rest|
    requires Closed(bins, b, rest, lens, capacity)
    ensures AllInRange(Put(bins, b, rest[i]), |lens|) && InRange(Without(rest, i), |lens|)
    ensures Closed(Put(bins, b, rest[i]), b, Without(rest, i), lens, capacity)
  {
    hide Load;
  }

  lemma OneMoreClosed(bins: seq<seq<int>>, b: nat, rest: seq<int>, lens: seq<nat>, capacity: nat)
    requires AllInRange(bins, |lens|) && Descending(rest, lens) && b < |bins| && Closed(bins, b, rest, lens, capacity)
    requires rest == [] || lens[rest[|rest| - 1]] + Load(lens, bins[b]) > capacity
    ensures Closed(bins, b + 1, rest, lens, capacity)
  {
    hide Load;
  }
}
