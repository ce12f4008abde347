/** Sharding with sequence packing (nemo_rl/distributed/batched_data_dict.py): each chunk's rows are packed into bins,
    the bins are dealt to the shards round-robin, and every bin becomes one microbatch. */
module SequencePacking {
  import opened BatchedDataDict
  import opened Dealing
  import opened Microbatching
  import opened Sequences

  /** The padded tokens of a bin of row indices. */
  function BinTokens(lens: seq<nat>, bin: seq<int>, multiple: nat): nat
    requires multiple > 0 && InRange(bin, |lens|)
  {
    if bin == [] then 0
    else BinTokens(lens, bin[..|bin| - 1], multiple) + RoundUp(lens[bin[|bin| - 1]], multiple)
  }

  ghost predicate AllInRange(bins: seq<seq<int>>, n: int) {
    forall b :: 0 <= b < |bins| ==> InRange(bins[b], n)
  }

  /** What the packer promises for one chunk: its bins partition the chunk's indices, their number is a positive
      multiple of the shards, and none exceeds the capacity. */
  ghost predicate PackerContract(bins: seq<seq<int>>, lens: seq<nat>, multiple: nat, shards: nat, capacity: nat) {
    && multiple > 0 && shards > 0
    && multiset(Flatten(bins)) == multiset(Range(0, |lens|)) && AllInRange(bins, |lens|)
    && |bins| > 0 && |bins| % shards == 0
    && forall b :: 0 <= b < |bins| ==> BinTokens(lens, bins[b], multiple) <= capacity
  }

  function ShiftAll(bins: seq<seq<int>>, start: int): (r: seq<seq<int>>)
    ensures |r| == |bins| && forall b :: 0 <= b < |bins| ==> r[b] == Shift(bins[b], start)
  {
    seq(|bins|, b requires 0 <= b < |bins| => Shift(bins[b], start))
  }

  /** The row intervals of bins laid end to end. */
  function Intervals<T>(bins: seq<seq<T>>): (r: seq<Interval>)
    ensures |r| == |bins|
    ensures forall k :: 0 <= k < |bins| ==> r[k] == Interval(|Flatten(bins[..k])|, |Flatten(bins[..k + 1])|)
  {
    seq(|bins|, k requires 0 <= k < |bins| => Interval(|Flatten(bins[..k])|, |Flatten(bins[..k + 1])|))
  }

  function TokensOf(lens: seq<nat>, bins: seq<seq<int>>, multiple: nat): (r: seq<nat>)
    requires multiple > 0 && AllInRange(bins, |lens|)
    ensures |r| == |bins| && forall k :: 0 <= k < |bins| ==> r[k] == BinTokens(lens, bins[k], multiple)
  {
    seq<nat>(|bins|, k requires 0 <= k < |bins| => BinTokens(lens, bins[k], multiple))
  }

  // ------------------------------------------------------------ one shard

  /** A shard being filled: its rows and their indices, the finished chunks, and the current chunk. */
  datatype Filling<T> = Filling(rows: seq<T>, indices: seq<int>, micros: seq<Micro>, counts: seq<nat>,
                                chunkIndices: seq<Interval>, chunkLengths: seq<nat>)

  /** The shard after the bins `dealt` of the current chunk. */
  ghost predicate Filled<T>(f: Filling<T>, before: Filling<T>, xs: seq<T>, lens: seq<nat>, multiple: nat,
                            dealt: seq<seq<int>>)
    requires multiple > 0 && |lens| == |xs|
  {
    && AllInRange(dealt, |xs|) && InRange(Flatten(dealt), |xs|)
    && f.rows == before.rows + Select(xs, Flatten(dealt))
    && f.indices == before.indices + Flatten(dealt)
    && f.micros == before.micros && f.counts == before.counts
    && f.chunkIndices == Intervals(dealt) && f.chunkLengths == TokensOf(lens, dealt, multiple)
  }

  /** One more bin for the shard. */
  method PutBin<T>(f: Filling<T>, xs: seq<T>, lens: seq<nat>, multiple: nat, bin: seq<int>,
                   ghost before: Filling<T>, ghost dealt: seq<seq<int>>) returns (r: Filling<T>)
    requires multiple > 0 && |lens| == |xs| && InRange(bin, |xs|) && Filled(f, before, xs, lens, multiple, dealt)
    ensures Filled(r, before, xs, lens, multiple, dealt + [bin])
  {
    var tokens := SumTokens(lens, multiple, bin);
    var start := if f.chunkIndices == [] then 0 else f.chunkIndices[|f.chunkIndices| - 1].end;
    r := Filling(f.rows + Select(xs, bin), f.indices + bin, f.micros, f.counts,
      f.chunkIndices + [Interval(start, start + |bin|)], f.chunkLengths + [tokens]);
    BinAppended(f, before, xs, lens, multiple, dealt, bin, start);
  }

  method SumTokens(lens: seq<nat>, multiple: nat, bin: seq<int>) returns (tokens: nat)
    requires multiple > 0 && InRange(bin, |lens|)
    ensures tokens == BinTokens(lens, bin, multiple)
  {
    tokens := 0;
    for i := 0 to |bin|
      invariant tokens == BinTokens(lens, bin[..i], multiple)
    {
      assert bin[..i + 1][..i] == bin[..i];
      tokens := tokens + RoundUp(lens[bin[i]], multiple);
    }
    assert bin[..|bin|] == bin;
  }

  lemma BinAppended<T>(f: Filling<T>, before: Filling<T>, xs: seq<T>, lens: seq<nat>, multiple: nat,
                       dealt: seq<seq<int>>, bin: seq<int>, start: nat)
    requires multiple > 0 && |lens| == |xs| && InRange(bin, |xs|) && Filled(f, before, xs, lens, multiple, dealt)
    requires start == if f.chunkIndices == [] then 0 else f.chunkIndices[|f.chunkIndices| - 1].end
    ensures Filled(Filling(f.rows + Select(xs, bin), f.indices + bin, f.micros, f.counts,
                           f.chunkIndices + [Interval(start, start + |bin|)],
                           f.chunkLengths + [BinTokens(lens, bin, multiple)]),
                   before, xs, lens, multiple, dealt + [bin])
  {
    hide BinTokens, Flatten, TokensOf, Intervals, InRange, Select;
    FlattenSnoc(dealt, bin);
    SelectAppend(xs, Flatten(dealt), bin);
    IntervalsSnoc(dealt, bin);
    TokensSnoc(lens, dealt, multiple, bin);
  }

  lemma SelectAppend<T>(xs: seq<T>, a: seq<int>, b: seq<int>)
    requires InRange(a, |xs|) && InRange(b, |xs|)
    ensures InRange(a + b, |xs|) && Select(xs, a + b) == Select(xs, a) + Select(xs, b)
  {
  }

  lemma TokensSnoc(lens: seq<nat>, dealt: seq<seq<int>>, multiple: nat, bin: seq<int>)
    requires multiple > 0 && AllInRange(dealt, |lens|) && InRange(bin, |lens|)
    ensures AllInRange(dealt + [bin], |lens|)
    ensures TokensOf(lens, dealt + [bin], multiple)
         == TokensOf(lens, dealt, multiple) + [BinTokens(lens, bin, multiple)]
  {
    hide BinTokens;
  }

  lemma IntervalsSnoc<T>(dealt: seq<seq<T>>, bin: seq<T>)
    ensures var start := if dealt == [] then 0 else Intervals(dealt)[|dealt| - 1].end;
            Intervals(dealt + [bin]) == Intervals(dealt) + [Interval(start, start + |bin|)]
  {
    FlattenSnoc(dealt, bin);
    assert dealt[..|dealt|] == dealt;
    forall k | 0 <= k <= |dealt| ensures (dealt + [bin])[..k] == dealt[..k] {}
    assert (dealt + [bin])[..|dealt| + 1] == dealt + [bin];
  }

  // ------------------------------------------------------------ chunk after chunk

  /** The rows of all chunks' bins, laid end to end. */
  function AllOf<T>(groups: seq<seq<seq<T>>>): seq<T> {
    if groups == [] then [] else AllOf(groups[..|groups| - 1]) + Flatten(groups[|groups| - 1])
  }

  /** A shard after whole chunks whose bins were `groups`. */
  ghost predicate Holds<T>(f: Filling<T>, xs: seq<T>, lens: seq<nat>, multiple: nat, groups: seq<seq<seq<int>>>)
    requires multiple > 0 && |lens| == |xs|
  {
    && InRange(f.indices, |xs|) && f.indices == AllOf(groups) && f.rows == Select(xs, f.indices)
    && |f.micros| == |f.counts| == |groups| && f.chunkIndices == [] && f.chunkLengths == []
    && forall c :: 0 <= c < |groups| ==> ChunkHeld(f.micros[c], f.counts[c], lens, multiple, groups[c])
  }

  ghost predicate ChunkHeld(micro: Micro, count: nat, lens: seq<nat>, multiple: nat, group: seq<seq<int>>)
    requires multiple > 0
  {
    && AllInRange(group, |lens|) && count == |Flatten(group)|
    && micro.indices == Intervals(group) && micro.lengths == TokensOf(lens, group, multiple)
  }

  /** The loop that deals the bins of one chunk. */
  method DealChunk<T>(before: seq<Filling<T>>, xs: seq<T>, lens: seq<nat>, multiple: nat, bins: seq<seq<int>>)
    returns (r: seq<Filling<T>>)
    requires multiple > 0 && |lens| == |xs| && |before| > 0 && AllInRange(bins, |xs|)
    requires forall s :: 0 <= s < |before| ==> before[s].chunkIndices == [] && before[s].chunkLengths == []
    ensures |r| == |before|
    ensures forall s :: 0 <= s < |before| ==> Filled(r[s], before[s], xs, lens, multiple, Deal(bins, s, |before|))
  {
    hide Filled, Deal;
    ghost var shards := |before|;
    r := before;
    forall s | 0 <= s < |before| ensures Filled(r[s], before[s], xs, lens, multiple, Deal(bins[..0], s, shards)) {
      NothingDealt(before[s], xs, lens, multiple, bins[..0], s, shards);
    }
    for b := 0 to |bins|
      invariant |r| == shards
      invariant forall s :: 0 <= s < shards ==>
        Filled(r[s], before[s], xs, lens, multiple, Deal(bins[..b], s, shards))
    {
      var s := b % |before|;
      assert bins[..b + 1] == bins[..b] + [bins[b]];
      forall s' | 0 <= s' < shards
        ensures Deal(bins[..b + 1], s', shards)
             == if s' == s then Deal(bins[..b], s', shards) + [bins[b]] else Deal(bins[..b], s', shards)
      {
        DealSnoc(bins[..b], bins[b], s', shards);
      }
      var f := PutBin(r[s], xs, lens, multiple, bins[b], before[s], Deal(bins[..b], s, shards));
      r := r[s := f];
    }
    assert bins[..|bins|] == bins;
  }

  lemma NothingDealt<T>(f: Filling<T>, xs: seq<T>, lens: seq<nat>, multiple: nat, bins: seq<seq<int>>, s: int,
                        shards: nat)
    requires multiple > 0 && |lens| == |xs| && f.chunkIndices == [] && f.chunkLengths == []
    requires bins == [] && shards > 0
    ensures Filled(f, f, xs, lens, multiple, Deal(bins, s, shards))
  {
    assert Deal(bins, s, shards) == [];
  }

  /** The end of a chunk: its intervals, lengths and row count are appended. */
  method CloseChunk<T>(f: Filling<T>, xs: seq<T>, lens: seq<nat>, multiple: nat,
                       ghost before: Filling<T>, ghost groups: seq<seq<seq<int>>>, ghost dealt: seq<seq<int>>)
    returns (r: Filling<T>)
    requires multiple > 0 && |lens| == |xs| && dealt != []
    requires Holds(before, xs, lens, multiple, groups) && Filled(f, before, xs, lens, multiple, dealt)
    ensures Holds(r, xs, lens, multiple, groups + [dealt])
  {
    var count := f.chunkIndices[|f.chunkIndices| - 1].end;
    assert dealt[..|dealt|] == dealt;
    r := Filling(f.rows, f.indices, f.micros + [Micro(f.chunkIndices, f.chunkLengths)], f.counts + [count], [], []);
    assert ChunkHeld(r.micros[|groups|], r.counts[|groups|], lens, multiple, dealt);
    AllOfSnoc(groups, dealt);
    hide ChunkHeld, TokensOf, Intervals;
    SelectAppend(xs, before.indices, Flatten(dealt));
  }

  lemma AllOfSnoc<T>(groups: seq<seq<seq<T>>>, g: seq<seq<T>>)
    ensures AllOf(groups + [g]) == AllOf(groups) + Flatten(g)
  {
    assert (groups + [g])[..|groups|] == groups;
  }
}
