/** Dynamic sampling (nemo_rl/algorithms/grpo.py): rows without spread are dropped, the others collected over batches
    until there are enough for a training step. */
module DynamicSampling {
  import opened Advantages
  import opened Baselines
  import opened GroupStatistics
  import opened Sequences

  /** A row of a batch with the spread of its group; `V` is everything else. */
  datatype Row<V> = Row(data: V, spread: Spread)

  /** The rows with spread, in order. */
  function KeptRows<V>(rows: seq<Row<V>>): (r: seq<Row<V>>)
    ensures forall i :: 0 <= i < |r| ==> r[i].spread != NO_SPREAD
  {
    if rows == [] then [] else (if rows[0].spread != NO_SPREAD then [rows[0]] else []) + KeptRows(rows[1..])
  }

  /** The cache between calls; None until a batch kept a row. */
  datatype Cache<V> = Empty | Cached(rows: seq<Row<V>>)

  function RowsOf<V>(cache: Cache<V>): seq<Row<V>> {
    if cache.Empty? then [] else cache.rows
  }

  datatype Sampled<V> =
    | BadLimit
    | Exhausted
    | Incomplete(cache: Cache<V>)
    | Complete(rows: seq<Row<V>>, cache: Cache<V>)

  /** The selection of the rows with spread. */
  method Filter<V>(rows: seq<Row<V>>) returns (filtered: seq<Row<V>>)
    ensures filtered == KeptRows(rows)
  {
    filtered := [];
    for i := 0 to |rows|
      invariant KeptRows(rows) == filtered + KeptRows(rows[i..])
    {
      KeptStep(rows, i);
      if rows[i].spread != NO_SPREAD { filtered := filtered + [rows[i]]; }
    }
    assert KeptRows(rows[|rows|..]) == [];
  }

  lemma KeptStep<V>(rows: seq<Row<V>>, i: nat)
    requires i < |rows|
    ensures KeptRows(rows[i..]) == (if rows[i].spread != NO_SPREAD then [rows[i]] else []) + KeptRows(rows[i + 1..])
  {
    assert rows[i..][0] == rows[i] && rows[i..][1..] == rows[i + 1..];
  }

  /** What a call counts: the cache and the kept rows, but nothing when no row was kept, since the size taken is then
      that of the empty filtered batch. */
  function Counted<V>(rows: seq<Row<V>>, cache: Cache<V>): seq<Row<V>> {
    if KeptRows(rows) == [] then [] else RowsOf(cache) + KeptRows(rows)
  }

  /** What a call decides; the new cache holds the old one and the kept rows in any case. */
  ghost predicate Decides<V>(r: Sampled<V>, rows: seq<Row<V>>, needed: nat, batches: nat, limit: int, cache: Cache<V>) {
    var (counted, all) := (Counted(rows, cache), RowsOf(cache) + KeptRows(rows));
    if |counted| >= needed then r.Complete? && r.rows == counted[..needed] && RowsOf(r.cache) == all
    else if limit <= 0 then r == BadLimit
    else if batches > limit then r == Exhausted
    else r.Incomplete? && RowsOf(r.cache) == all
  }

  /** One call: filter, add to the cache, and decide. */
  method Sample<V>(rows: seq<Row<V>>, needed: nat, batches: nat, limit: int, cache: Cache<V>) returns (r: Sampled<V>)
    ensures Decides(r, rows, needed, batches, limit, cache)
  {
    var filtered := Filter(rows);
    var cache' := cache;
    if |filtered| > 0 {
      cache' := if cache.Empty? then Cached(filtered) else Cached(cache.rows + filtered);
      filtered := cache'.rows;
    }
    if |filtered| < needed {
      if limit <= 0 { return BadLimit; }
      if batches <= limit { return Incomplete(cache'); }
      return Exhausted;
    }
    return Complete(filtered[..needed], cache');
  }

  // ------------------------------------------------------------ one training step

  /** The rows kept from the first `n` batches of the step. */
  function Collected<V>(batches: seq<seq<Row<V>>>, n: nat): seq<Row<V>>
    requires n <= |batches|
  {
    if n == 0 then [] else Collected(batches, n - 1) + KeptRows(batches[n - 1])
  }

  lemma {:induction false} CollectedGrows<V>(batches: seq<seq<Row<V>>>, i: nat, j: nat)
    requires i <= j <= |batches|
    ensures Collected(batches, i) <= Collected(batches, j)
    decreases j
  {
    if i >= j {
    } else {
      CollectedGrows(batches, i, j - 1);
    }
  }

  /** While the cache is too small, what a call counts reaches the need exactly when cache and kept rows do. */
  lemma CountedIsAll<V>(rows: seq<Row<V>>, needed: nat, cache: Cache<V>)
    requires |RowsOf(cache)| < needed
    ensures var (counted, all) := (Counted(rows, cache), RowsOf(cache) + KeptRows(rows));
            (|counted| >= needed <==> |all| >= needed) && (|all| >= needed ==> counted == all)
  {
  }

  datatype Step<V> =
    | Wanting(cache: Cache<V>)                      // the data ended first
    | Failed(used: nat, exhausted: bool)            // an error after `used` batches
    | Ready(used: nat, rows: seq<Row<V>>)           // trained on after `used` batches

  /** The batches of one step, from an empty cache and a counter of zero, until one call completes or fails. */
  method CollectStep<V>(batches: seq<seq<Row<V>>>, needed: nat, limit: int) returns (r: Step<V>)
    requires needed > 0
    ensures r.Ready? ==> 0 < r.used <= |batches| && IsReady(batches, needed, limit, r.used)
                         && r.rows == Collected(batches, r.used)[..needed]
    ensures r.Failed? ==> 0 < r.used <= |batches| && IsFailure(batches, needed, limit, r.used)
                          && (r.exhausted <==> limit > 0)
    ensures r.Wanting? ==> RowsOf(r.cache) == Collected(batches, |batches|) && |RowsOf(r.cache)| < needed
                           && (batches != [] ==> |batches| <= limit)
  {
    var cache: Cache<V> := Empty;
    var count := 0;
    for i := 0 to |batches|
      invariant count == i && RowsOf(cache) == Collected(batches, i) && |RowsOf(cache)| < needed
      invariant i > 0 ==> i <= limit
    {
      count := count + 1;
      var s := Sample(batches[i], needed, count, limit, cache);
      CountedIsAll(batches[i], needed, cache);
      assert Collected(batches, i + 1) == Collected(batches, i) + KeptRows(batches[i]);
      match s
      case BadLimit => return Failed(count, false);
      case Exhausted => return Failed(count, true);
      case Complete(rows, _) => return Ready(count, rows);
      case Incomplete(cache') => cache := cache';
    }
    return Wanting(cache);
  }

  /** The first `n` batches are the first to keep enough rows, and no more batches than the limit allows and one. */
  predicate IsReady<V>(batches: seq<seq<Row<V>>>, needed: nat, limit: int, n: nat)
    requires 0 < n <= |batches|
  {
    |Collected(batches, n)| >= needed > |Collected(batches, n - 1)| && (n > 1 ==> n - 1 <= limit)
  }

  /** After `n` batches there are too few rows and the limit is passed: it is not positive and this is the first batch,
      or this is the batch after the limit. */
  predicate IsFailure<V>(batches: seq<seq<Row<V>>>, needed: nat, limit: int, n: nat)
    requires 0 < n <= |batches|
  {
    |Collected(batches, n)| < needed && n == 1 + Max(limit, 0)
  }

  /** For every supply of batches exactly one thing happens, and within limit + 1 batches: the step is ready after n
      batches if and only if those are the first to keep enough rows and at most limit + 1. */
  lemma StepOutcome<V>(batches: seq<seq<Row<V>>>, needed: nat, limit: int, n: nat, m: nat)
    requires needed > 0 && 0 < n <= |batches| && 0 < m <= |batches|
    ensures IsReady(batches, needed, limit, n) && IsReady(batches, needed, limit, m) ==> n == m
    ensures !(IsReady(batches, needed, limit, n) && IsFailure(batches, needed, limit, m))
    ensures IsReady(batches, needed, limit, n) ==> n <= Max(limit, 0) + 1
  {
    CollectedGrows(batches, n, if n <= m then m else n);
    CollectedGrows(batches, m, if m <= n then n else m);
    if n < m { CollectedGrows(batches, n, m - 1); }
    if m < n { CollectedGrows(batches, m, n - 1); }
  }

  /** With limit + 1 batches or more at hand the step is decided by then. */
  lemma {:induction false} StepDecided<V>(batches: seq<seq<Row<V>>>, needed: nat, limit: int, n: nat) returns (k: nat)
    requires needed > 0 && 0 < n <= |batches| && n == Max(limit, 0) + 1
    ensures 0 < k <= n && (IsReady(batches, needed, limit, k) || (k == n && IsFailure(batches, needed, limit, k)))
  {
    k := 1;
    while k < n && |Collected(batches, k)| < needed
      invariant 1 <= k <= n && |Collected(batches, k - 1)| < needed
    {
      k := k + 1;
    }
  }

  // ------------------------------------------------------------ whole groups

  /** A prompt's samples as rows of a batch, with the spread that the mean baseline gives them. */
  function GroupRows<V>(reward: V -> real, group: seq<V>): (r: seq<Row<V>>)
    ensures |r| == |group|
    ensures forall k :: 0 <= k < |r| ==>
      r[k] == Row(group[k], SampleStat(Map(reward, group), Ones(|group|), k, false).spread)
  {
    seq(|group|, k requires 0 <= k < |group| =>
      Row(group[k], SampleStat(Map(reward, group), Ones(|group|), k, false).spread))
  }

  /** A batch: each prompt's samples side by side. */
  function BatchRows<V>(reward: V -> real, groups: seq<seq<V>>): seq<Row<V>> {
    Flatten(Map(group => GroupRows(reward, group), groups))
  }

  function EachBatch<V>(reward: V -> real, batches: seq<seq<seq<V>>>): (r: seq<seq<Row<V>>>)
    ensures |r| == |batches| && forall b :: 0 <= b < |r| ==> r[b] == BatchRows(reward, batches[b])
  {
    Map(groups => BatchRows(reward, groups), batches)
  }

  /** The prompts whose samples did not all get the same reward. */
  function Varied<V>(reward: V -> real, groups: seq<seq<V>>): seq<seq<V>> {
    if groups == [] then []
    else (if AllEqual(Map(reward, groups[0])) then [] else [groups[0]]) + Varied(reward, groups[1..])
  }

  lemma {:induction false} KeptAppend<V>(a: seq<Row<V>>, b: seq<Row<V>>)
    ensures KeptRows(a + b) == KeptRows(a) + KeptRows(b)
  {
    if a == [] {
      assert a + b == b;
    } else {
      assert (a + b)[0] == a[0] && (a + b)[1..] == a[1..] + b;
      KeptAppend(a[1..], b);
    }
  }

  lemma {:induction false} KeptAllOrNone<V>(rows: seq<Row<V>>, all: bool)
    requires forall k :: 0 <= k < |rows| ==> (rows[k].spread != NO_SPREAD <==> all)
    ensures KeptRows(rows) == if all then rows else []
  {
    if rows == [] {
    } else {
      KeptAllOrNone(rows[1..], all);
    }
  }

  /** The filter keeps or drops a prompt's samples together. */
  lemma KeptGroup<V>(reward: V -> real, group: seq<V>)
    ensures KeptRows(GroupRows(reward, group)) == if AllEqual(Map(reward, group)) then [] else GroupRows(reward, group)
  {
    hide SampleStat, AllEqual;
    var xs := Map(reward, group);
    MeanFilterKeepsGroups(xs);
    forall k | 0 <= k < |group| ensures GroupRows(reward, group)[k].spread != NO_SPREAD <==> !AllEqual(xs) {
      assert Kept(xs, k, false) <==> !AllEqual(xs);
    }
    KeptAllOrNone(GroupRows(reward, group), !AllEqual(Map(reward, group)));
  }

  lemma BatchRowsAppend<V>(reward: V -> real, a: seq<seq<V>>, b: seq<seq<V>>)
    ensures BatchRows(reward, a + b) == BatchRows(reward, a) + BatchRows(reward, b)
  {
    var f := group => GroupRows(reward, group);
    assert Map(f, a + b) == Map(f, a) + Map(f, b);
    FlattenAppend(Map(f, a), Map(f, b));
  }

  lemma BatchRowsCons<V>(reward: V -> real, groups: seq<seq<V>>)
    requires groups != []
    ensures BatchRows(reward, groups) == GroupRows(reward, groups[0]) + BatchRows(reward, groups[1..])
  {
    var f := group => GroupRows(reward, group);
    assert Map(f, groups)[1..] == Map(f, groups[1..]);
  }

  /** Filtering rows filters prompts. */
  lemma {:induction false} KeptIsVaried<V>(reward: V -> real, groups: seq<seq<V>>)
    ensures KeptRows(BatchRows(reward, groups)) == BatchRows(reward, Varied(reward, groups))
  {
    hide GroupRows, AllEqual, BatchRows;
    if groups == [] {
      NoGroups(reward);
    } else {
      BatchRowsCons(reward, groups);
      KeptAppend(GroupRows(reward, groups[0]), BatchRows(reward, groups[1..]));
      KeptGroup(reward, groups[0]);
      KeptIsVaried(reward, groups[1..]);
      if !AllEqual(Map(reward, groups[0])) {
        BatchRowsCons(reward, Varied(reward, groups));
        assert Varied(reward, groups)[1..] == Varied(reward, groups[1..]);
      } else {
        assert Varied(reward, groups) == Varied(reward, groups[1..]);
      }
    }
  }

  lemma NoGroups<V>(reward: V -> real)
    ensures BatchRows(reward, []) == [] && Varied(reward, []) == []
  {
  }

  lemma {:induction false} VariedAppend<V>(reward: V -> real, a: seq<seq<V>>, b: seq<seq<V>>)
    ensures Varied(reward, a + b) == Varied(reward, a) + Varied(reward, b)
  {
    hide AllEqual;
    if a == [] {
      assert a + b == b;
    } else {
      assert (a + b)[0] == a[0] && (a + b)[1..] == a[1..] + b;
      VariedAppend(reward, a[1..], b);
    }
  }

  lemma {:induction false} CollectedIsVaried<V>(reward: V -> real, batches: seq<seq<seq<V>>>, n: nat)
    requires n <= |batches|
    ensures Collected(EachBatch(reward, batches), n) == BatchRows(reward, Varied(reward, Flatten(batches[..n])))
  {
    hide BatchRows, Varied;
    if n == 0 {
      NoGroups(reward);
      assert batches[..0] == [];
    } else {
      CollectedIsVaried(reward, batches, n - 1);
      KeptIsVaried(reward, batches[n - 1]);
      assert batches[..n] == batches[..n - 1] + [batches[n - 1]];
      FlattenSnoc(batches[..n - 1], batches[n - 1]);
      VariedAppend(reward, Flatten(batches[..n - 1]), batches[n - 1]);
      BatchRowsAppend(reward, Varied(reward, Flatten(batches[..n - 1])), Varied(reward, batches[n - 1]));
    }
  }

  /** Every prompt has `g` samples. */
  ghost predicate OfSize<V>(groups: seq<seq<V>>, g: nat) {
    forall k :: 0 <= k < |groups| ==> |groups[k]| == g
  }

  lemma {:induction false} VariedSize<V>(reward: V -> real, groups: seq<seq<V>>, g: nat)
    requires OfSize(groups, g)
    ensures OfSize(Varied(reward, groups), g)
  {
    hide AllEqual;
    if groups == [] {
    } else {
      VariedSize(reward, groups[1..], g);
    }
  }

  lemma BatchRowsSize<V>(reward: V -> real, groups: seq<seq<V>>, g: nat)
    requires OfSize(groups, g)
    ensures |BatchRows(reward, groups)| == At(|groups|, g)
  {
    FlattenEqualSize(Map(group => GroupRows(reward, group), groups), g);
  }

  /** With the mean baseline, `n` batches have enough rows for `prompts` prompts of `g` samples exactly when that many
      of their prompts have unequal rewards, and the step then trains on exactly the first `prompts` of these, whole. */
  lemma StepTrainsOnGroups<V>(reward: V -> real, batches: seq<seq<seq<V>>>, n: nat, g: nat, prompts: nat)
    requires n <= |batches| && g > 0 && OfSize(Flatten(batches[..n]), g)
    ensures var (rows, varied) := (Collected(EachBatch(reward, batches), n), Varied(reward, Flatten(batches[..n])));
            && (|rows| >= At(prompts, g) <==> |varied| >= prompts)
            && (|varied| >= prompts ==> |rows| >= At(prompts, g)
                                        && rows[..At(prompts, g)] == BatchRows(reward, varied[..prompts]))
  {
    hide BatchRows, Varied, At;
    CollectedIsVaried(reward, batches, n);
    VariedSize(reward, Flatten(batches[..n]), g);
    var varied := Varied(reward, Flatten(batches[..n]));
    BatchRowsSize(reward, varied, g);
    if |varied| < prompts {
      Place(|varied|, prompts, g);
    } else {
      assert varied == varied[..prompts] + varied[prompts..];
      BatchRowsAppend(reward, varied[..prompts], varied[prompts..]);
      BatchRowsSize(reward, varied[..prompts], g);
    }
  }

  // ------------------------------------------------------------ the rows of a batch

  /** Every prompt repeated `g` times. */
  function Repeated<P>(names: seq<P>, g: nat): (r: seq<P>)
    requires g > 0
    ensures |r| == At(|names|, g)
  {
    seq(At(|names|, g), i requires 0 <= i < At(|names|, g) =>
      InsideBlock(i, |names|, g);
      names[i / g])
  }

  lemma InsideBlock(i: nat, n: nat, g: nat)
    requires g > 0 && i < At(n, g)
    ensures i / g < n && At(i / g, g) <= i < At(i / g, g) + g && i - At(i / g, g) == i % g
  {
    if i / g >= n { Times(n, i / g, g); }
  }

  lemma BlockOf(i: nat, c: nat, g: nat)
    requires g > 0
    ensures i / g == c <==> At(c, g) <= i < At(c, g) + g
  {
    if i / g < c { Times(i / g + 1, c, g); }
    if i / g > c { Times(c + 1, i / g, g); }
  }

  /** A prompt's samples are its block of the batch. */
  lemma GroupIsBlock<P>(names: seq<P>, g: nat, c: nat)
    requires g > 0 && Distinct(names) && c < |names|
    ensures Group(Repeated(names, g), names[c]) == Range(At(c, g), At(c, g) + g)
  {
    hide At;
    Place(c, |names|, g);
    var (prompts, block) := (Repeated(names, g), Range(At(c, g), At(c, g) + g));
    forall i | 0 <= i < |prompts| ensures prompts[i] == names[c] <==> At(c, g) <= i < At(c, g) + g {
      InsideBlock(i, |names|, g);
      BlockOf(i, c, g);
    }
    var group := Group(prompts, names[c]);
    forall i ensures i in group <==> i in block {
      if At(c, g) <= i < At(c, g) + g { assert block[i - At(c, g)] == i; }
    }
    SameIncreasing(group, block);
  }

  lemma HasFirst(xs: seq<int>)
    requires xs != []
    ensures xs[0] in xs
  {
  }

  /** Increasing sequences with the same members are the same. */
  lemma {:induction false} SameIncreasing(a: seq<int>, b: seq<int>)
    requires forall i, j :: 0 <= i < j < |a| ==> a[i] < a[j]
    requires forall i, j :: 0 <= i < j < |b| ==> b[i] < b[j]
    requires forall x :: x in a <==> x in b
    ensures a == b
  {
    if a == [] {
      if b != [] { HasFirst(b); }
    } else {
      assert a[0] in b && b[0] in a;
      forall x ensures x in a[1..] <==> x in b[1..] {
        assert x in a[1..] <==> x in a && x != a[0];
        assert x in b[1..] <==> x in b && x != b[0];
      }
      SameIncreasing(a[1..], b[1..]);
    }
  }

  /** The rows of a batch as the loop has them: its samples beside the spreads written for them. */
  function PairedRows<V>(data: seq<V>, spread: seq<Spread>): (r: seq<Row<V>>)
    requires |spread| == |data|
    ensures |r| == |data| && forall i :: 0 <= i < |r| ==> r[i] == Row(data[i], spread[i])
  {
    seq(|data|, i requires 0 <= i < |data| => Row(data[i], spread[i]))
  }

  /** A batch of `names` with `g` samples each, by prompt. */
  function ByPrompt<V>(data: seq<V>, n: nat, g: nat): (r: seq<seq<V>>)
    requires |data| == At(n, g)
    ensures |r| == n && OfSize(r, g)
    ensures forall c: nat, k: nat :: c < n && k < g ==> At(c, g) + k < |data| && r[c][k] == data[At(c, g) + k]
  {
    hide At;
    forall c: nat | c < n ensures At(c, g) + g <= |data| { Place(c, n, g); }
    seq(n, c requires 0 <= c < n => Block(data, c, g))
  }

  /** The spreads written for a batch of distinct prompts, each repeated, are those of `BatchRows`. */
  lemma WrittenRows<P, V>(names: seq<P>, g: nat, reward: V -> real, data: seq<V>, baseline: seq<real>,
                          spread: seq<Spread>)
    requires g > 0 && Distinct(names) && |data| == |baseline| == |spread| == At(|names|, g)
    requires forall c :: 0 <= c < |names| ==>
      GroupWritten(Repeated(names, g), Map(reward, data), Ones(|data|), false, names[c], baseline, spread)
    ensures PairedRows(data, spread) == BatchRows(reward, ByPrompt(data, |names|, g))
  {
    hide At, SampleStat, GroupWritten, Repeated, BatchRows, GroupRows, ByPrompt;
    var groups := ByPrompt(data, |names|, g);
    BatchRowsSize(reward, groups, g);
    forall i | 0 <= i < |data| ensures PairedRows(data, spread)[i] == BatchRows(reward, groups)[i] {
      InsideBlock(i, |names|, g);
      BatchRowAt(reward, groups, g, i / g, i - At(i / g, g));
      WrittenBlock(names, g, reward, data, baseline, spread, i / g, i - At(i / g, g));
    }
  }

  lemma BatchRowAt<V>(reward: V -> real, groups: seq<seq<V>>, g: nat, c: nat, k: nat)
    requires OfSize(groups, g) && c < |groups| && k < g
    ensures At(c, g) + k < |BatchRows(reward, groups)|
    ensures BatchRows(reward, groups)[At(c, g) + k] == GroupRows(reward, groups[c])[k]
  {
    hide At, GroupRows;
    FlattenEqual(Map(group => GroupRows(reward, group), groups), g, c, k);
  }

  lemma WrittenBlock<P, V>(names: seq<P>, g: nat, reward: V -> real, data: seq<V>, baseline: seq<real>,
                           spread: seq<Spread>, c: nat, k: nat)
    requires g > 0 && Distinct(names) && |data| == |baseline| == |spread| == At(|names|, g)
    requires c < |names| && k < g && At(c, g) + k < |data|
    requires GroupWritten(Repeated(names, g), Map(reward, data), Ones(|data|), false, names[c], baseline, spread)
    ensures Row(data[At(c, g) + k], spread[At(c, g) + k]) == GroupRows(reward, ByPrompt(data, |names|, g)[c])[k]
  {
    hide At, SampleStat, Repeated;
    var (idx, group) := (Range(At(c, g), At(c, g) + g), ByPrompt(data, |names|, g)[c]);
    GroupIsBlock(names, g, c);
    Place(c, |names|, g);
    assert Select(Map(reward, data), idx) == Map(reward, group);
    assert Select(Ones(|data|), idx) == Ones(|group|);
    assert Stat(baseline[idx[k]], spread[idx[k]]) == SampleStat(Map(reward, group), Ones(|group|), k, false);
  }
}
