/** What every packer promises to sequence packing (nemo_rl/distributed/batched_data_dict.py,
    nemo_rl/data/packing/algorithms.py). */
module ChunkPacker {
  import ModifiedFirstFit
  import opened Packers
  import opened SequencePacking
  import opened Sequences

  /** `items` is the order in which first fit takes the rows: by length, or shuffled. */
  datatype Algorithm = Concatenative | FirstFitIn(items: seq<int>) | Modified

  function PaddedLens(lens: seq<nat>, multiple: nat): (r: seq<nat>)
    requires multiple > 0
    ensures |r| == |lens| && forall i :: 0 <= i < |lens| ==> r[i] == RoundUp(lens[i], multiple)
  {
    seq<nat>(|lens|, i requires 0 <= i < |lens| => RoundUp(lens[i], multiple))
  }

  lemma {:induction false} TokensAreLoad(lens: seq<nat>, bin: seq<int>, multiple: nat)
    requires multiple > 0 && InRange(bin, |lens|)
    ensures BinTokens(lens, bin, multiple) == Load(PaddedLens(lens, multiple), bin)
    decreases |bin|
  {
    if bin == [] {
    } else {
      TokensAreLoad(lens, bin[..|bin| - 1], multiple);
    }
  }

  /** The tokens recorded for a bin are a multiple of `multiple`: what its rows really have, and less than `multiple`
      more for each row. */
  ghost predicate PadsRows(lens: seq<nat>, bin: seq<int>, multiple: nat)
    requires multiple > 0 && InRange(bin, |lens|)
  {
    && BinTokens(lens, bin, multiple) % multiple == 0
    && Load(lens, bin) <= BinTokens(lens, bin, multiple) <= Load(lens, bin) + At(|bin|, multiple - 1)
  }

  lemma TokensArePadded(lens: seq<nat>, bin: seq<int>, multiple: nat)
    requires multiple > 0 && InRange(bin, |lens|)
    ensures PadsRows(lens, bin, multiple)
  {
    var q := PadEachRow(lens, bin, multiple);
    MultipleHasNoRest(q, multiple);
  }

  lemma TogetherAt(a: nat, b: nat, n: nat)
    ensures At(a + b, n) == At(a, n) + At(b, n)
  {
  }

  lemma {:induction false} PadEachRow(lens: seq<nat>, bin: seq<int>, multiple: nat) returns (q: nat)
    requires multiple > 0 && InRange(bin, |lens|)
    ensures BinTokens(lens, bin, multiple) == At(q, multiple)
    ensures Load(lens, bin) <= BinTokens(lens, bin, multiple) <= Load(lens, bin) + At(|bin|, multiple - 1)
    decreases |bin|
  {
    hide RoundUp, At;
    if bin == [] {
      q := 0;
      Place(0, 1, multiple);
      Place(0, 1, multiple - 1);
    } else {
      var (last, x) := (|bin| - 1, lens[bin[|bin| - 1]]);
      var rest := PadEachRow(lens, bin[..last], multiple);
      RoundUpIs(x, multiple);
      q := rest + (x + multiple - 1) / multiple;
      TogetherAt(rest, (x + multiple - 1) / multiple, multiple);
      Place(last, |bin|, multiple - 1);
    }
  }

  lemma {:induction false} NonemptyBins(bins: seq<seq<int>>)
    requires forall b :: 0 <= b < |bins| ==> bins[b] != []
    ensures |bins| <= |Flatten(bins)|
  {
    if bins == [] {
    } else {
      NonemptyBins(bins[1..]);
    }
  }

  /** A row longer than the capacity, or one without tokens for the packer that wants positive lengths. */
  ghost predicate Unpackable(a: Algorithm, padded: seq<nat>, capacity: nat) {
    SomeTooLong(padded, capacity) || (a.Modified? && ModifiedFirstFit.SomeEmpty(padded))
  }

  method RunPacker(a: Algorithm, lens: seq<nat>, capacity: nat) returns (r: PackResult)
    requires |lens| > 0 && (a.FirstFitIn? ==> IsPermutation(a.items, |lens|))
    ensures r.Failed? <==> Unpackable(a, lens, capacity)
    ensures r.Packed? ==> Fit(r.bins, lens, capacity) && multiset(Flatten(r.bins)) == multiset(Range(0, |lens|))
  {
    match a
    case Concatenative => r := Concatenate(lens, capacity);
    case FirstFitIn(items) =>
      r := FirstFit(lens, items, capacity);
      PermutationIsRange(items, |lens|);
    case Modified =>
      ghost var course;
      r, course := ModifiedFirstFit.Pack(lens, capacity);
      NoCapacity(lens, capacity);
  }

  lemma NoCapacity(lens: seq<nat>, capacity: nat)
    requires |lens| > 0
    ensures capacity == 0 ==> SomeTooLong(lens, capacity) || ModifiedFirstFit.SomeEmpty(lens)
  {
    assert lens[0] == 0 || lens[0] > 0;
  }

  /** A packer, with at least one bin for every shard and as many for each. For a chunk the size assertions admit
      (a positive multiple of the shards) it fails only on a row that cannot be packed, and otherwise keeps the
      promise. */
  method PackChunk(lens: seq<nat>, multiple: nat, a: Algorithm, shards: nat, capacity: nat) returns (r: PackResult)
    requires multiple > 0 && shards > 0 && |lens| > 0 && |lens| % shards == 0
    requires a.FirstFitIn? ==> IsPermutation(a.items, |lens|)
    ensures r.Failed? <==> Unpackable(a, PaddedLens(lens, multiple), capacity)
    ensures r.Packed? ==> PackerContract(r.bins, lens, multiple, shards, capacity)
    ensures r.Packed? ==> forall b :: 0 <= b < |r.bins| ==> PadsRows(lens, r.bins[b], multiple)
  {
    hide PaddedLens, Flatten, Fit, IsPermutation, Unpackable;
    var padded := PaddedLens(lens, multiple);
    assert |padded| == |lens|;
    r := RunPacker(a, padded, capacity);
    if r.Failed? { return; }
    SameRows(r.bins, padded, capacity);
    r := AdjustForShards(r.bins, shards, padded, capacity);
    Promise(r.bins, lens, multiple, shards, capacity);
    forall b | 0 <= b < |r.bins| ensures PadsRows(lens, r.bins[b], multiple) {
      TokensArePadded(lens, r.bins[b], multiple);
    }
  }

  /** With as many rows as a multiple of the shards there are enough to fill all bins wanted. */
  method AdjustForShards(bins: seq<seq<int>>, shards: nat, lens: seq<nat>, capacity: nat) returns (r: PackResult)
    requires shards > 0 && Fit(bins, lens, capacity)
    requires |bins| <= |Flatten(bins)| && |Flatten(bins)| % shards == 0 && |Flatten(bins)| > 0
    ensures r.Packed? && |r.bins| >= shards && |r.bins| % shards == 0
    ensures Fit(r.bins, lens, capacity) && multiset(Flatten(r.bins)) == multiset(Flatten(bins))
  {
    hide Flatten, Fit;
    AtLeastOnce(|Flatten(bins)|, shards);
    r := AdjustBinCount(bins, shards, shards, lens, capacity);
  }

  lemma AtLeastOnce(n: nat, d: nat)
    requires d > 0 && n > 0 && n % d == 0
    ensures n >= d
  {
  }

  lemma SameRows(bins: seq<seq<int>>, lens: seq<nat>, capacity: nat)
    requires Fit(bins, lens, capacity) && multiset(Flatten(bins)) == multiset(Range(0, |lens|))
    ensures |bins| <= |Flatten(bins)| == |lens|
  {
    NonemptyBins(bins);
    assert |multiset(Flatten(bins))| == |Flatten(bins)| && |multiset(Range(0, |lens|))| == |Range(0, |lens|)|;
  }

  lemma Promise(bins: seq<seq<int>>, lens: seq<nat>, multiple: nat, shards: nat, capacity: nat)
    requires multiple > 0 && shards > 0 && |bins| >= shards && |bins| % shards == 0
    requires Fit(bins, PaddedLens(lens, multiple), capacity)
    requires multiset(Flatten(bins)) == multiset(Range(0, |lens|))
    ensures PackerContract(bins, lens, multiple, shards, capacity)
  {
    hide Flatten;
    forall b | 0 <= b < |bins| ensures BinTokens(lens, bins[b], multiple) <= capacity {
      TokensAreLoad(lens, bins[b], multiple);
    }
  }
}
