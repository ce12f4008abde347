/** The modified first-fit decreasing packer (nemo_rl/data/packing/algorithms.py): the phases one after the other, and
    the leftovers spread over further bins, always into the emptiest. */
module ModifiedFirstFit {
  import opened FitPhases
  import opened Packers
  import opened SequencePacking
  import opened Sequences

  // ------------------------------------------------------------ the leftovers

  /** Bins in the order of their loads, no two of which could be merged. */
  ghost predicate Spread(bins: seq<seq<int>>, sizes: seq<nat>, lens: seq<nat>, capacity: nat) {
    && Fit(bins, lens, capacity) && |sizes| == |bins|
    && (forall b :: 0 <= b < |bins| ==> sizes[b] == Load(lens, bins[b]))
    && (forall b, b' :: 0 <= b <= b' < |sizes| ==> sizes[b] <= sizes[b'])
    && forall b, b' :: 0 <= b < b' < |sizes| ==> sizes[b] + sizes[b'] > capacity
  }

  /** Where a size goes behind all that are not larger. */
  method Bisect(sizes: seq<nat>, size: nat) returns (i: nat)
    requires forall b, b' :: 0 <= b <= b' < |sizes| ==> sizes[b] <= sizes[b']
    ensures i <= |sizes|
    ensures (forall b :: 0 <= b < i ==> sizes[b] <= size) && forall b :: i <= b < |sizes| ==> size < sizes[b]
  {
    i := 0;
    var hi := |sizes|;
    while i < hi
      invariant i <= hi <= |sizes|
      invariant (forall b :: 0 <= b < i ==> sizes[b] <= size) && forall b :: hi <= b < |sizes| ==> size < sizes[b]
    {
      var mid := (i + hi) / 2;
      if size < sizes[mid] { hi := mid; } else { i := mid + 1; }
    }
  }

  lemma {:induction false} FlattenInsert(bins: seq<seq<int>>, i: nat, bin: seq<int>)
    requires i <= |bins|
    ensures multiset(Flatten(InsertAt(bins, i, bin))) == multiset(Flatten(bins)) + multiset(bin)
  {
    hide Flatten;
    var (front, back) := (bins[..i], bins[i..]);
    FlattenAppend(front + [bin], back);
    FlattenSnoc(front, bin);
    FlattenAppend(front, back);
    assert bins == front + back && InsertAt(bins, i, bin) == front + [bin] + back;
  }

  lemma InsertSpread(bins: seq<seq<int>>, sizes: seq<nat>, i: nat, bin: seq<int>, size: nat, lens: seq<nat>,
                     capacity: nat)
    requires Spread(bins, sizes, lens, capacity) && i <= |sizes|
    requires InRange(bin, |lens|) && bin != [] && size == Load(lens, bin) <= capacity
    requires forall b :: 0 <= b < |sizes| ==> sizes[b] + size > capacity
    requires (forall b :: 0 <= b < i ==> sizes[b] <= size) && forall b :: i <= b < |sizes| ==> size < sizes[b]
    ensures Spread(InsertAt(bins, i, bin), InsertAt(sizes, i, size), lens, capacity)
  {
    hide Load;
  }

  /** Some of a bin's items are among the first `j`. */
  ghost predicate Begun(bin: seq<int>, items: seq<int>, j: nat)
    requires j <= |items|
  {
    exists k :: 0 <= k < |bin| && bin[k] in items[..j]
  }

  /** If item `j` is in bin `x`, then with what was there before it: it joined a bin no fuller than `y`, or it opened
      one because `y` had no room. */
  ghost predicate JoinsEmptiest(x: seq<int>, y: seq<int>, lens: seq<nat>, items: seq<int>, j: nat, capacity: nat)
    requires InRange(x, |lens|) && InRange(y, |lens|) && InRange(items, |lens|) && j < |items|
  {
    items[j] in x && Begun(y, items, j) ==>
      if Begun(x, items, j) then LoadAmong(lens, x, items[..j]) <= LoadAmong(lens, y, items[..j])
      else LoadAmong(lens, y, items[..j]) + lens[items[j]] > capacity
  }

  /** Each of the first `n` items went into the emptiest bin there was, or into a new one if not even that had room. */
  ghost predicate EmptiestFirst(bins: seq<seq<int>>, lens: seq<nat>, items: seq<int>, n: nat, capacity: nat)
    requires AllInRange(bins, |lens|) && InRange(items, |lens|) && n <= |items|
  {
    forall a, b, j :: 0 <= a < |bins| && 0 <= b < |bins| && a != b && 0 <= j < n ==>
      JoinsEmptiest(bins[a], bins[b], lens, items, j, capacity)
  }

  /** A bin that is put among others, if it agrees with each of them. */
  lemma InsertEmptiest(bins: seq<seq<int>>, i: nat, bin: seq<int>, lens: seq<nat>, items: seq<int>, n: nat,
                       capacity: nat)
    requires AllInRange(bins, |lens|) && InRange(bin, |lens|) && InRange(items, |lens|) && n <= |items| && i <= |bins|
    requires EmptiestFirst(bins, lens, items, n, capacity)
    requires forall b, j :: 0 <= b < |bins| && 0 <= j < n ==>
      && JoinsEmptiest(bin, bins[b], lens, items, j, capacity)
      && JoinsEmptiest(bins[b], bin, lens, items, j, capacity)
    ensures AllInRange(InsertAt(bins, i, bin), |lens|)
    ensures EmptiestFirst(InsertAt(bins, i, bin), lens, items, n, capacity)
  {
    hide JoinsEmptiest, InRange;
    var r := InsertAt(bins, i, bin);
    assert AllInRange(r, |lens|);
    forall a, b, j | 0 <= a < |r| && 0 <= b < |r| && a != b && 0 <= j < n
      ensures JoinsEmptiest(r[a], r[b], lens, items, j, capacity)
    {
      var (c, d) := (if a < i then a else a - 1, if b < i then b else b - 1);
      if a != i && b != i { assert JoinsEmptiest(bins[c], bins[d], lens, items, j, capacity); }
    }
  }

  /** The next item is not in a bin of earlier ones. */
  lemma NotThere(bin: seq<int>, items: seq<int>, n: nat)
    requires n < |items| && Distinct(items) && forall k :: 0 <= k < |bin| ==> bin[k] in items[..n]
    ensures items[n] !in bin
  {
    NotYet(items, n);
  }

  /** Bins of earlier items that do not take the next one. */
  lemma NeitherTakes(x: seq<int>, y: seq<int>, lens: seq<nat>, items: seq<int>, n: nat, capacity: nat)
    requires InRange(x, |lens|) && InRange(y, |lens|) && InRange(items, |lens|) && n < |items|
    requires Distinct(items) && forall k :: 0 <= k < |x| ==> x[k] in items[..n]
    ensures JoinsEmptiest(x, y, lens, items, n, capacity)
  {
    NotThere(x, items, n);
  }

  /** A later item changes nothing of what was there before. */
  lemma LaterUnchanged(bin: seq<int>, lens: seq<nat>, items: seq<int>, n: nat, j: nat)
    requires InRange(bin, |lens|) && InRange(items, |lens|) && Distinct(items) && j < n < |items|
    ensures InRange(bin + [items[n]], |lens|)
    ensures Begun(bin + [items[n]], items, j) == Begun(bin, items, j)
    ensures LoadAmong(lens, bin + [items[n]], items[..j]) == LoadAmong(lens, bin, items[..j])
    ensures items[j] in bin + [items[n]] <==> items[j] in bin
  {
    hide LoadAmong;
    NotYet(items, n);
    AmongSnoc(lens, bin, items[n], items[..j]);
    var bin' := bin + [items[n]];
    assert forall k :: 0 <= k < |bin| ==> bin'[k] == bin[k];
  }

  /** With the next item a bin still agrees with another about the items before. */
  lemma TakenAgrees(bin: seq<int>, y: seq<int>, lens: seq<nat>, items: seq<int>, n: nat, j: nat, capacity: nat)
    requires InRange(bin, |lens|) && InRange(y, |lens|) && InRange(items, |lens|) && Distinct(items)
    requires j < n < |items|
    requires JoinsEmptiest(bin, y, lens, items, j, capacity) && JoinsEmptiest(y, bin, lens, items, j, capacity)
    ensures InRange(bin + [items[n]], |lens|)
    ensures JoinsEmptiest(bin + [items[n]], y, lens, items, j, capacity)
    ensures JoinsEmptiest(y, bin + [items[n]], lens, items, j, capacity)
  {
    hide LoadAmong, Begun;
    LaterUnchanged(bin, lens, items, n, j);
  }

  /** The next item joins the emptiest bin, or opens one. */
  lemma NextJoins(bin: seq<int>, y: seq<int>, lens: seq<nat>, items: seq<int>, n: nat, capacity: nat)
    requires InRange(bin, |lens|) && InRange(y, |lens|) && InRange(items, |lens|) && Distinct(items) && n < |items|
    requires forall k :: 0 <= k < |bin| ==> bin[k] in items[..n]
    requires forall k :: 0 <= k < |y| ==> y[k] in items[..n]
    requires if bin == [] then Load(lens, y) + lens[items[n]] > capacity else Load(lens, bin) <= Load(lens, y)
    ensures InRange(bin + [items[n]], |lens|)
    ensures JoinsEmptiest(bin + [items[n]], y, lens, items, n, capacity)
    ensures JoinsEmptiest(y, bin + [items[n]], lens, items, n, capacity)
  {
    hide LoadAmong, Load;
    NotYet(items, n);
    AmongSnoc(lens, bin, items[n], items[..n]);
    AmongAll(lens, bin, items[..n]);
    AmongAll(lens, y, items[..n]);
    NeitherTakes(y, bin + [items[n]], lens, items, n, capacity);
    if bin != [] { assert (bin + [items[n]])[0] == bin[0]; }
  }

  lemma NothingBegun(y: seq<int>, lens: seq<nat>, items: seq<int>, j: nat, capacity: nat)
    requires InRange(y, |lens|) && InRange(items, |lens|) && j < |items|
    ensures JoinsEmptiest([], y, lens, items, j, capacity) && JoinsEmptiest(y, [], lens, items, j, capacity)
  {
  }

  /** Item `n` goes into `bin`, taken out of its place or new, and the bin is put where it belongs. */
  lemma StaysEmptiest(others: seq<seq<int>>, i: nat, bin: seq<int>, lens: seq<nat>, items: seq<int>, n: nat,
                      capacity: nat)
    requires AllInRange(others, |lens|) && InRange(bin, |lens|) && InRange(items, |lens|) && Distinct(items)
    requires n < |items| && i <= |others| && AllSeen(others, items, n)
    requires forall k :: 0 <= k < |bin| ==> bin[k] in items[..n]
    requires EmptiestFirst(others, lens, items, n, capacity)
    requires bin != [] ==> forall b, j :: 0 <= b < |others| && 0 <= j < n ==>
      && JoinsEmptiest(bin, others[b], lens, items, j, capacity)
      && JoinsEmptiest(others[b], bin, lens, items, j, capacity)
    requires forall b :: 0 <= b < |others| ==>
      if bin == [] then Load(lens, others[b]) + lens[items[n]] > capacity else Load(lens, bin) <= Load(lens, others[b])
    ensures AllInRange(InsertAt(others, i, bin + [items[n]]), |lens|)
    ensures EmptiestFirst(InsertAt(others, i, bin + [items[n]]), lens, items, n + 1, capacity)
  {
    hide JoinsEmptiest, Load, AllSeen, InsertAt;
    var taken := bin + [items[n]];
    forall a, b, j | 0 <= a < |others| && 0 <= b < |others| && a != b && 0 <= j <= n
      ensures JoinsEmptiest(others[a], others[b], lens, items, j, capacity)
    {
      if j == n {
        SeenBin(others, items, n, a);
        NeitherTakes(others[a], others[b], lens, items, n, capacity);
      }
    }
    forall b, j | 0 <= b < |others| && 0 <= j <= n
      ensures JoinsEmptiest(taken, others[b], lens, items, j, capacity)
      ensures JoinsEmptiest(others[b], taken, lens, items, j, capacity)
    {
      if j == n {
        SeenBin(others, items, n, b);
        NextJoins(bin, others[b], lens, items, n, capacity);
      } else {
        if bin == [] { NothingBegun(others[b], lens, items, j, capacity); }
        TakenAgrees(bin, others[b], lens, items, n, j, capacity);
      }
    }
    InsertEmptiest(others, i, taken, lens, items, n + 1, capacity);
  }

  /** What spreading has after some items: at first one empty bin, later no empty one. */
  ghost predicate SpreadSoFar(bins: seq<seq<int>>, sizes: seq<nat>, done: nat, lens: seq<nat>, capacity: nat) {
    if done == 0 then bins == [[]] && sizes == [0] else bins != [] && Spread(bins, sizes, lens, capacity)
  }

  /** Taking the emptiest bin out leaves the others spread; with the item it still overflows with each of them. */
  lemma EmptiestTakes(bins: seq<seq<int>>, sizes: seq<nat>, done: nat, item: int, lens: seq<nat>, capacity: nat)
    requires SpreadSoFar(bins, sizes, done, lens, capacity) && |bins| == |sizes| > 0 && 0 <= item < |lens|
    requires sizes[0] + lens[item] <= capacity
    ensures var (bin, total) := (bins[0] + [item], sizes[0] + lens[item]);
            && Spread(bins[1..], sizes[1..], lens, capacity)
            && InRange(bin, |lens|) && total == Load(lens, bin)
            && forall b :: 0 <= b < |sizes[1..]| ==> sizes[1..][b] + total > capacity
    ensures multiset(Flatten(bins[1..])) + multiset(bins[0] + [item]) == multiset(Flatten(bins)) + multiset{item}
  {
    assert bins == [bins[0]] + bins[1..];
    LoadEmpty(lens);
    hide Load;
    LoadSnoc(lens, bins[0], item);
  }

  /** If the emptiest bin has no room, no bin has. */
  lemma NoneTakes(bins: seq<seq<int>>, sizes: seq<nat>, done: nat, item: int, lens: seq<nat>, capacity: nat)
    requires SpreadSoFar(bins, sizes, done, lens, capacity) && |bins| == |sizes| > 0 && 0 <= item < |lens|
    requires lens[item] <= capacity < sizes[0] + lens[item]
    ensures Spread(bins, sizes, lens, capacity) && Load(lens, [item]) == lens[item]
    ensures forall b :: 0 <= b < |sizes| ==> sizes[b] + lens[item] > capacity
  {
    LoadEmpty(lens);
    LoadSnoc(lens, [], item);
    assert [] + [item] == [item];
    hide Load;
  }

  /** One more item, into the emptiest bin if it fits there, else into a new one. */
  method SpreadItem(bins0: seq<seq<int>>, sizes0: seq<nat>, items: seq<int>, n: nat, lens: seq<nat>, capacity: nat)
    returns (bins: seq<seq<int>>, sizes: seq<nat>)
    requires SpreadSoFar(bins0, sizes0, n, lens, capacity) && |bins0| == |sizes0| > 0
    requires InRange(items, |lens|) && Distinct(items) && n < |items| && lens[items[n]] <= capacity
    requires AllInRange(bins0, |lens|) && AllSeen(bins0, items, n) && EmptiestFirst(bins0, lens, items, n, capacity)
    ensures |bins| == |sizes| > 0 && SpreadSoFar(bins, sizes, n + 1, lens, capacity)
    ensures multiset(Flatten(bins)) == multiset(Flatten(bins0)) + multiset{items[n]}
    ensures AllInRange(bins, |lens|) && EmptiestFirst(bins, lens, items, n + 1, capacity)
  {
    hide Spread, Flatten, Load, Fit, InsertAt, EmptiestFirst, AllSeen, Distinct;
    var (item, size) := (items[n], lens[items[n]]);
    if size <= capacity - sizes0[0] {
      EmptiestTakes(bins0, sizes0, n, item, lens, capacity);
      var (bin, total) := (bins0[0] + [item], sizes0[0] + size);
      SpreadAscends(bins0[1..], sizes0[1..], lens, capacity);
      var b := Bisect(sizes0[1..], total);
      InsertSpread(bins0[1..], sizes0[1..], b, bin, total, lens, capacity);
      FlattenInsert(bins0[1..], b, bin);
      JoinedEmptiest(bins0, sizes0, b, items, n, lens, capacity);
      return InsertAt(bins0[1..], b, bin), InsertAt<nat>(sizes0[1..], b, total);
    } else {
      NoneTakes(bins0, sizes0, n, item, lens, capacity);
      SpreadAscends(bins0, sizes0, lens, capacity);
      var b := Bisect(sizes0, size);
      InsertSpread(bins0, sizes0, b, [item], size, lens, capacity);
      FlattenInsert(bins0, b, [item]);
      OpenedLast(bins0, sizes0, b, items, n, lens, capacity);
      return InsertAt(bins0, b, [item]), InsertAt<nat>(sizes0, b, size);
    }
  }

  lemma JoinedEmptiest(bins: seq<seq<int>>, sizes: seq<nat>, i: nat, items: seq<int>, n: nat, lens: seq<nat>,
                       capacity: nat)
    requires SpreadSoFar(bins, sizes, n, lens, capacity) && |bins| == |sizes| > 0 && i <= |bins[1..]|
    requires InRange(items, |lens|) && Distinct(items) && n < |items|
    requires AllInRange(bins, |lens|) && AllSeen(bins, items, n) && EmptiestFirst(bins, lens, items, n, capacity)
    ensures AllInRange(InsertAt(bins[1..], i, bins[0] + [items[n]]), |lens|)
    ensures EmptiestFirst(InsertAt(bins[1..], i, bins[0] + [items[n]]), lens, items, n + 1, capacity)
  {
    hide Load, JoinsEmptiest, InsertAt;
    assert forall b :: 0 <= b < |bins[1..]| ==> bins[1..][b] == bins[b + 1];
    EmptiestIsLeast(bins, sizes, n, lens, capacity);
    StaysEmptiest(bins[1..], i, bins[0], lens, items, n, capacity);
  }

  lemma EmptiestIsLeast(bins: seq<seq<int>>, sizes: seq<nat>, n: nat, lens: seq<nat>, capacity: nat)
    requires SpreadSoFar(bins, sizes, n, lens, capacity) && |bins| == |sizes| > 0 && AllInRange(bins, |lens|)
    ensures |bins| > 1 ==> bins[0] != []
    ensures forall b :: 1 <= b < |bins| ==> Load(lens, bins[0]) <= Load(lens, bins[b])
  {
    hide Load;
  }

  lemma OpenedLast(bins: seq<seq<int>>, sizes: seq<nat>, i: nat, items: seq<int>, n: nat, lens: seq<nat>,
                   capacity: nat)
    requires |bins| == |sizes| && i <= |bins| && Spread(bins, sizes, lens, capacity)
    requires InRange(items, |lens|) && Distinct(items) && n < |items|
    requires AllInRange(bins, |lens|) && AllSeen(bins, items, n) && EmptiestFirst(bins, lens, items, n, capacity)
    requires forall b :: 0 <= b < |sizes| ==> sizes[b] + lens[items[n]] > capacity
    ensures AllInRange(InsertAt(bins, i, [items[n]]), |lens|)
    ensures EmptiestFirst(InsertAt(bins, i, [items[n]]), lens, items, n + 1, capacity)
  {
    hide Load, JoinsEmptiest, InsertAt, EmptiestFirst;
    assert [] + [items[n]] == [items[n]];
    StaysEmptiest(bins, i, [], lens, items, n, capacity);
  }

  lemma SpreadAscends(bins: seq<seq<int>>, sizes: seq<nat>, lens: seq<nat>, capacity: nat)
    requires Spread(bins, sizes, lens, capacity)
    ensures |bins| == |sizes| && forall b, b' :: 0 <= b <= b' < |sizes| ==> sizes[b] <= sizes[b']
  {
  }

  /** Leftovers, longest first, always into the emptiest bin if they fit there, else into a new one. */
  method SpreadLeftovers(rest: seq<int>, lens: seq<nat>, capacity: nat) returns (bins: seq<seq<int>>)
    requires InRange(rest, |lens|) && Distinct(rest) && forall k :: 0 <= k < |rest| ==> lens[rest[k]] <= capacity
    ensures multiset(Flatten(bins)) == multiset(rest)
    ensures AllInRange(bins, |lens|)
    ensures EmptiestFirst(bins, lens, SortedDown(rest, lens), |SortedDown(rest, lens)|, capacity)
    ensures if rest == [] then bins == [[]] else Fit(bins, lens, capacity) && PairsOverflow(bins, lens, capacity)
  {
    var items := SortedDown(rest, lens);
    AllFit(items, rest, lens, capacity);
    bins := [[]];
    var sizes: seq<nat> := [0];
    OneEmptyBin();
    StillDistinct(items, rest);
    hide SpreadSoFar, Flatten, Load, Fit, PairsOverflow, SortedDown, EmptiestFirst, Distinct, AllSeen;
    OneBinAlone(bins, lens, items, capacity);
    for i := 0 to |items|
      invariant |bins| == |sizes| > 0 && SpreadSoFar(bins, sizes, i, lens, capacity)
      invariant multiset(Flatten(bins)) == multiset(items[..i])
      invariant AllInRange(bins, |lens|) && EmptiestFirst(bins, lens, items, i, capacity)
    {
      assert items[..i + 1] == items[..i] + [items[i]];
      SeenByCount(bins, items, i);
      bins, sizes := SpreadItem(bins, sizes, items, i, lens, capacity);
    }
    assert items[..|items|] == items;
    SpreadDone(bins, sizes, |items|, lens, capacity);
    assert |multiset(items)| == |items| && |multiset(rest)| == |rest|;
  }

  lemma AllFit(items: seq<int>, rest: seq<int>, lens: seq<nat>, capacity: nat)
    requires multiset(items) == multiset(rest) && InRange(rest, |lens|) && InRange(items, |lens|)
    requires forall k :: 0 <= k < |rest| ==> lens[rest[k]] <= capacity
    ensures forall k :: 0 <= k < |items| ==> lens[items[k]] <= capacity
  {
    forall k | 0 <= k < |items| ensures lens[items[k]] <= capacity {
      assert items[k] in multiset(rest);
    }
  }

  lemma StillDistinct(items: seq<int>, rest: seq<int>)
    requires multiset(items) == multiset(rest) && Distinct(rest)
    ensures Distinct(items)
  {
    forall i, j | 0 <= i < j < |items| ensures items[i] != items[j] {
      if items[i] == items[j] { CountedTwice(items, i, j); }
      DistinctCount(rest, items[i]);
    }
  }

  lemma OneBinAlone(bins: seq<seq<int>>, lens: seq<nat>, items: seq<int>, capacity: nat)
    requires bins == [[]] && InRange(items, |lens|)
    ensures AllInRange(bins, |lens|) && EmptiestFirst(bins, lens, items, 0, capacity)
  {
  }

  lemma OneEmptyBin()
    ensures Flatten<int>([[]]) == []
  {
  }

  lemma SpreadDone(bins: seq<seq<int>>, sizes: seq<nat>, done: nat, lens: seq<nat>, capacity: nat)
    requires SpreadSoFar(bins, sizes, done, lens, capacity)
    ensures if done == 0 then bins == [[]] else Fit(bins, lens, capacity) && PairsOverflow(bins, lens, capacity)
  {
    hide Load;
  }

  // ------------------------------------------------------------ the packer

  ghost predicate SomeEmpty(lens: seq<nat>) {
    exists i :: 0 <= i < |lens| && lens[i] == 0
  }

  method Check(lens: seq<nat>, capacity: nat) returns (ok: bool)
    ensures ok <==> capacity > 0 && !SomeEmpty(lens) && !SomeTooLong(lens, capacity)
  {
    if capacity == 0 { return false; }
    for i := 0 to |lens|
      invariant forall j :: 0 <= j < i ==> 0 < lens[j] <= capacity
    {
      if lens[i] == 0 || lens[i] > capacity { return false; }
    }
    return true;
  }

  /** What the phases leave behind: the classes, the bins opened, the bins after the medium items and the medium items
      left, the same for the small ones, and the bins filled up with the items that are left in the end. */
  datatype Course = Course(classes: Classes, singles: seq<seq<int>>, joined: seq<seq<int>>, medium: seq<int>,
                           paired: seq<seq<int>>, small: seq<int>, filled: seq<seq<int>>, rest: seq<int>)

  ghost predicate CourseInRange(c: Course, n: nat) {
    && AllInRange(c.singles, n) && AllInRange(c.joined, n) && AllInRange(c.paired, n) && AllInRange(c.filled, n)
    && InRange(c.classes.large, n) && InRange(c.medium, n) && InRange(c.small, n) && InRange(c.rest, n)
  }

  /** Each phase follows on the one before and does what it should. */
  ghost predicate Phased(c: Course, lens: seq<nat>, capacity: nat) {
    && CourseInRange(c, |lens|) && Classified(c.classes, |lens|, lens, capacity)
    && OneEach(c.singles, SortedDown(c.classes.large, lens))
    && MediumPass(c.singles, c.joined, |c.singles|, c.medium, lens, capacity)
    && Together(c.joined, c.medium) == Together(c.singles, c.classes.medium)
    && PairPass(c.joined, c.paired, 0, c.small, lens, capacity)
    && Together(c.paired, c.small) == Together(c.joined, c.classes.small)
    && GreedyPass(c.paired, c.filled, c.rest, lens, capacity)
    && Closed(c.filled, |c.filled|, c.rest, lens, capacity)
    && Together(c.filled, c.rest) == Together(c.paired, c.medium + c.small + c.classes.tiny)
  }

  ghost predicate OneEach(bins: seq<seq<int>>, items: seq<int>) {
    |bins| == |items| && forall b :: 0 <= b < |bins| ==> bins[b] == [items[b]]
  }

  /** The bins filled up, and after them those that the leftovers were spread over, longest first. */
  ghost predicate Finished(c: Course, bins: seq<seq<int>>, lens: seq<nat>, capacity: nat)
    requires InRange(c.rest, |lens|)
  {
    && c.filled <= bins && AllInRange(bins[|c.filled|..], |lens|)
    && (c.rest == [] ==> bins == c.filled)
    && EmptiestFirst(bins[|c.filled|..], lens, SortedDown(c.rest, lens), |SortedDown(c.rest, lens)|, capacity)
  }

  /** All phases. */
  method Pack(lens: seq<nat>, capacity: nat) returns (r: PackResult, ghost course: Course)
    ensures r.Failed? <==> capacity == 0 || SomeEmpty(lens) || SomeTooLong(lens, capacity)
    ensures r.Packed? ==> Fit(r.bins, lens, capacity) && PairsOverflow(r.bins, lens, capacity)
    ensures r.Packed? ==> multiset(Flatten(r.bins)) == multiset(Range(0, |lens|))
    ensures r.Packed? ==> Phased(course, lens, capacity) && Finished(course, r.bins, lens, capacity)
  {
    course := Course(Classes([], [], [], []), [], [], [], [], [], [], []);
    var ok := Check(lens, capacity);
    if !ok { return Failed, course; }
    LengthsFit(lens, capacity);
    var bins, rest;
    bins, rest, course := Phases(lens, capacity);
    RestDistinct(bins, rest, |lens|);
    var more := SpreadLeftovers(rest, lens, capacity);
    hide *;
    if rest == [] {
      NothingMore(bins, rest, lens, capacity);
      FinishedWithout(course, lens, capacity);
      return Packed(bins), course;
    }
    BothParts(bins, rest, more, lens, capacity);
    FinishedWith(course, more, lens, capacity);
    return Packed(bins + more), course;
  }

  lemma RestDistinct(bins: seq<seq<int>>, rest: seq<int>, n: nat)
    requires Together(bins, rest) == multiset(Range(0, n))
    ensures Distinct(rest)
  {
    forall i, j | 0 <= i < j < |rest| ensures rest[i] != rest[j] {
      if rest[i] == rest[j] { CountedTwice(rest, i, j); }
      RangeMember(0, n, rest[i]);
      assert multiset(rest)[rest[i]] <= Together(bins, rest)[rest[i]];
    }
  }

  lemma FinishedWithout(c: Course, lens: seq<nat>, capacity: nat)
    requires InRange(c.rest, |lens|) && c.rest == []
    ensures Finished(c, c.filled, lens, capacity)
  {
  }

  lemma FinishedWith(c: Course, more: seq<seq<int>>, lens: seq<nat>, capacity: nat)
    requires InRange(c.rest, |lens|) && c.rest != [] && AllInRange(more, |lens|)
    requires EmptiestFirst(more, lens, SortedDown(c.rest, lens), |SortedDown(c.rest, lens)|, capacity)
    ensures Finished(c, c.filled + more, lens, capacity)
  {
    assert (c.filled + more)[|c.filled|..] == more;
  }

  /** The phases before the leftovers. */
  method Phases(lens: seq<nat>, capacity: nat) returns (bins: seq<seq<int>>, rest: seq<int>, ghost course: Course)
    requires forall i :: 0 <= i < |lens| ==> lens[i] <= capacity
    ensures Heavy(bins, lens, capacity) && InRange(rest, |lens|) && Closed(bins, |bins|, rest, lens, capacity)
    ensures Together(bins, rest) == multiset(Range(0, |lens|))
    ensures course.filled == bins && course.rest == rest && Phased(course, lens, capacity)
  {
    hide Heavy, Closed, Together, Flatten, SortedDown, SortedUp, Range, Classified, OfSize, SizeOf, Load, Fit,
         MediumPass, PairPass, GreedyPass, Phased, CourseInRange, AllInRange;
    var k := Classify(lens, capacity);
    ClassesInRange(k, lens, capacity);
    var large, mediums := SortedDown(k.large, lens), SortedDown(k.medium, lens);
    var smalls, tinies := SortedUp(k.small, lens), SortedUp(k.tiny, lens);
    AllLarge(large, k.large, lens, capacity);
    var bins1 := OpenBins(large, lens, capacity);
    var bins2, medium := AddMedium(bins1, mediums, lens, capacity);
    var bins3, small := AddPairs(bins2, smalls, lens, capacity);
    InRangeTogether(medium, small, tinies, |lens|);
    var rest0 := SortedDown(medium + small + tinies, lens);
    bins, rest := FillGreedily(bins3, rest0, lens, capacity);
    Totals(k, bins1, mediums, bins2, medium, smalls, bins3, small, tinies, rest0);
    course := Course(k, bins1, bins2, medium, bins3, small, bins, rest);
    CourseIsInRange(course, lens, capacity);
    AllPhased(course, mediums, smalls, tinies, rest0, lens, capacity);
  }

  lemma CourseIsInRange(c: Course, lens: seq<nat>, capacity: nat)
    requires Heavy(c.singles, lens, capacity) && Heavy(c.joined, lens, capacity)
    requires Heavy(c.paired, lens, capacity) && Heavy(c.filled, lens, capacity)
    requires InRange(c.classes.large, |lens|) && InRange(c.medium, |lens|)
    requires InRange(c.small, |lens|) && InRange(c.rest, |lens|)
    ensures CourseInRange(c, |lens|)
  {
  }

  lemma AllPhased(c: Course, mediums: seq<int>, smalls: seq<int>, tinies: seq<int>, rest0: seq<int>, lens: seq<nat>,
                  capacity: nat)
    requires CourseInRange(c, |lens|) && Classified(c.classes, |lens|, lens, capacity)
    requires InRange(c.classes.large, |lens|) && OneEach(c.singles, SortedDown(c.classes.large, lens))
    requires multiset(mediums) == multiset(c.classes.medium) && multiset(smalls) == multiset(c.classes.small)
    requires multiset(tinies) == multiset(c.classes.tiny) && multiset(rest0) == multiset(c.medium + c.small + tinies)
    requires MediumPass(c.singles, c.joined, |c.singles|, c.medium, lens, capacity)
    requires Together(c.joined, c.medium) == Together(c.singles, mediums)
    requires PairPass(c.joined, c.paired, 0, c.small, lens, capacity)
    requires Together(c.paired, c.small) == Together(c.joined, smalls)
    requires GreedyPass(c.paired, c.filled, c.rest, lens, capacity)
    requires Closed(c.filled, |c.filled|, c.rest, lens, capacity)
    requires Together(c.filled, c.rest) == Together(c.paired, rest0)
    ensures Phased(c, lens, capacity)
  {
    hide Flatten, MediumPass, PairPass, GreedyPass, Closed, Classified, SortedDown, OneEach, InRange, AllInRange;
    assert multiset(c.medium + c.small + tinies) == multiset(c.medium) + multiset(c.small) + multiset(tinies);
    assert multiset(c.medium + c.small + c.classes.tiny)
        == multiset(c.medium) + multiset(c.small) + multiset(c.classes.tiny);
  }

  lemma ClassesInRange(k: Classes, lens: seq<nat>, capacity: nat)
    requires Classified(k, |lens|, lens, capacity)
    ensures InRange(k.large, |lens|) && InRange(k.medium, |lens|) && InRange(k.small, |lens|) && InRange(k.tiny, |lens|)
    ensures forall i :: 0 <= i < |k.large| ==> 0 <= k.large[i] < |lens| && capacity < 2 * lens[k.large[i]]
    ensures multiset(k.large) + multiset(k.medium) + multiset(k.small) + multiset(k.tiny) == multiset(Range(0, |lens|))
  {
  }

  lemma InRangeTogether(a: seq<int>, b: seq<int>, d: seq<int>, n: nat)
    requires InRange(a, n) && InRange(b, n) && InRange(d, n)
    ensures InRange(a + b + d, n)
  {
  }

  /** Adding up what every phase keeps. */
  lemma Totals(k: Classes, bins1: seq<seq<int>>, mediums: seq<int>, bins2: seq<seq<int>>, medium: seq<int>,
               smalls: seq<int>, bins3: seq<seq<int>>, small: seq<int>, tinies: seq<int>, rest: seq<int>)
    requires multiset(Flatten(bins1)) == multiset(k.large) && multiset(mediums) == multiset(k.medium)
    requires multiset(smalls) == multiset(k.small) && multiset(tinies) == multiset(k.tiny)
    requires Together(bins2, medium) == Together(bins1, mediums) && Together(bins3, small) == Together(bins2, smalls)
    requires multiset(rest) == multiset(medium + small + tinies)
    ensures Together(bins3, rest)
         == multiset(k.large) + multiset(k.medium) + multiset(k.small) + multiset(k.tiny)
  {
    hide Flatten;
    var (b1, b2, b3) := (multiset(Flatten(bins1)), multiset(Flatten(bins2)), multiset(Flatten(bins3)));
    assert multiset(rest) == multiset(medium) + multiset(small) + multiset(tinies);
    assert b3 + multiset(rest) == (b3 + multiset(small)) + (multiset(medium) + multiset(tinies));
    assert (b2 + multiset(smalls)) + (multiset(medium) + multiset(tinies))
        == (b2 + multiset(medium)) + (multiset(smalls) + multiset(tinies));
  }

  lemma LengthsFit(lens: seq<nat>, capacity: nat)
    requires !SomeTooLong(lens, capacity)
    ensures forall i :: 0 <= i < |lens| ==> lens[i] <= capacity
  {
  }

  lemma AllLarge(sorted: seq<int>, large: seq<int>, lens: seq<nat>, capacity: nat)
    requires multiset(sorted) == multiset(large) && InRange(large, |lens|) && InRange(sorted, |lens|)
    requires forall i :: 0 <= i < |large| ==> capacity < 2 * lens[large[i]]
    ensures forall i :: 0 <= i < |sorted| ==> capacity < 2 * lens[sorted[i]]
  {
    forall i | 0 <= i < |sorted| ensures capacity < 2 * lens[sorted[i]] {
      assert sorted[i] in multiset(large);
    }
  }

  lemma NothingMore(bins: seq<seq<int>>, rest: seq<int>, lens: seq<nat>, capacity: nat)
    requires Heavy(bins, lens, capacity) && rest == []
    ensures Fit(bins, lens, capacity) && PairsOverflow(bins, lens, capacity)
    ensures multiset(Flatten(bins)) == Together(bins, rest)
  {
    hide Load;
  }

  lemma {:induction false} LoadAtLeast(lens: seq<nat>, bin: seq<int>, k: nat)
    requires InRange(bin, |lens|) && k < |bin|
    ensures Load(lens, bin) >= lens[bin[k]]
    decreases |bin|
  {
    if k == |bin| - 1 {
    } else {
      LoadAtLeast(lens, bin[..|bin| - 1], k);
    }
  }

  /** A bin of leftovers does not go into a bin that no leftover fits into. */
  lemma BothParts(bins: seq<seq<int>>, rest: seq<int>, more: seq<seq<int>>, lens: seq<nat>, capacity: nat)
    requires Heavy(bins, lens, capacity) && InRange(rest, |lens|) && Closed(bins, |bins|, rest, lens, capacity)
    requires Fit(more, lens, capacity) && PairsOverflow(more, lens, capacity)
    requires multiset(Flatten(more)) == multiset(rest)
    ensures Fit(bins + more, lens, capacity) && PairsOverflow(bins + more, lens, capacity)
    ensures multiset(Flatten(bins + more)) == Together(bins, rest)
  {
    hide Load, Flatten;
    FlattenAppend(bins, more);
    forall b, b' | 0 <= b < |bins| && 0 <= b' < |more|
      ensures Load(lens, bins[b]) + Load(lens, more[b']) > capacity
    {
      InFlatten(more, b', 0);
      assert more[b'][0] in multiset(rest);
      LoadAtLeast(lens, more[b'], 0);
    }
  }
}
