/** A batch as a dictionary of columns, its shards, and the microbatch iterators over a shard
    (nemo_rl/distributed/batched_data_dict.py). */
module BatchedDataDict {
  import opened Sequences
  import opened Microbatching

  // ------------------------------------------------------------ reordering

  /** A column read in the order that sorts `order`; `zip` stops at the shorter of the two. */
  function Reordered<V>(column: seq<V>, order: seq<int>): (r: seq<V>)
  {
    var keys := order[..Min(|order|, |column|)];
    Select(column, SortedByKey(keys))
  }

  ghost predicate SameSizes<V>(data: map<string, seq<V>>) {
    data.Keys != {} && forall k, k' :: k in data && k' in data ==> |data[k]| == |data[k']|
  }

  class BatchedDataDict<V> {
    var data: map<string, seq<V>>

    constructor (columns: map<string, seq<V>>)
      ensures data == columns
    {
      data := columns;
    }

    /** Puts every column in the order that sorts `order`, or fails on columns of unequal sizes. */
    method ReorderData(order: seq<int>) returns (ok: bool)
      modifies this
      ensures ok <==> SameSizes(old(data))
      ensures !ok ==> data == old(data)
      ensures ok ==> data.Keys == old(data.Keys)
      ensures ok ==> forall k :: k in data ==> data[k] == Reordered(old(data)[k], order)
    {
      var sizes := set k | k in data.Keys :: |data[k]|;
      OneSize(data, sizes);
      if |sizes| != 1 { return false; }
      var total :| total in sizes;
      var positions := SortedByKey(order[..Min(|order|, total)]);
      var keys := data.Keys;
      while keys != {}
        invariant keys <= data.Keys == old(data.Keys)
        invariant forall k :: k in data ==>
          data[k] == if k in keys then old(data)[k] else Reordered(old(data)[k], order)
        decreases keys
      {
        var k :| k in keys;
        assert |data[k]| in sizes;
        data := data[k := Select(data[k], positions)];
        keys := keys - {k};
      }
      return true;
    }
  }

  lemma OneSize<V>(data: map<string, seq<V>>, sizes: set<nat>)
    requires sizes == set k | k in data.Keys :: |data[k]|
    ensures |sizes| == 1 <==> SameSizes(data)
    ensures |sizes| == 1 ==> forall k, n :: k in data && n in sizes ==> |data[k]| == n
  {
    if data.Keys != {} {
      var k :| k in data;
      var n := |data[k]|;
      assert n in sizes && |sizes - {n}| == |sizes| - 1;
      assert forall m :: m in sizes && m != n ==> m in sizes - {n};
      assert forall k' :: k' in data ==> |data[k']| in sizes;
      assert SameSizes(data) ==> sizes == {n};
    }
  }

  /** Reordering undoes the order it is given, through any row-wise function. */
  lemma ReorderUndoes<A, B>(f: A -> B, rows: seq<A>, order: seq<int>)
    requires IsPermutation(order, |rows|)
    ensures Reordered(Map(f, Select(rows, order)), order) == Map(f, rows)
  {
    assert order[..|order|] == order;
    forall i | 0 <= i < |rows|
      ensures SortedByKey(order)[i] < |rows| && order[SortedByKey(order)[i]] == i
    {
      SortingInverts(order, i);
    }
  }

  // ------------------------------------------------------------ a shard and its microbatches

  /** One chunk's microbatches: row intervals, and a length for each. */
  datatype Micro = Micro(indices: seq<Interval>, lengths: seq<nat>)

  datatype Shard<T> = Shard(rows: seq<T>, micro: Option<seq<Micro>>, elemCounts: Option<seq<nat>>)

  /** Rows start, ..., end-1; None is the assertion error of a slice beyond the tensor. */
  function Slice<T>(rows: seq<T>, start: nat, end: nat): Option<seq<T>> {
    if end > |rows| then None
    else if start <= end then Some(rows[start..end])
    else Some([])
  }

  /** The rows before chunk `i`. */
  function Total(counts: seq<nat>, i: nat): nat
    requires i <= |counts|
  {
    if i == 0 then 0 else Total(counts, i - 1) + counts[i - 1]
  }

  /** The i-th batch of a shard. */
  function BatchAt<T>(shard: Shard<T>, i: nat, batchSize: nat): Option<Shard<T>> {
    match shard.elemCounts
    case Some(counts) =>
      if shard.micro.None? || i >= |counts| || i >= |shard.micro.value| then None
      else
        var rows := Slice(shard.rows, Total(counts, i), Total(counts, i + 1));
        if rows.None? then None else Some(Shard(rows.value, Some([shard.micro.value[i]]), Some([counts[i]])))
    case None =>
      var rows := Slice(shard.rows, At(i, batchSize), At(i + 1, batchSize));
      if rows.None? || (shard.micro.Some? && i >= |shard.micro.value|) then None
      else Some(Shard(rows.value, if shard.micro.Some? then Some([shard.micro.value[i]]) else None, None))
  }

  /** `get_batch`: with element counts, a loop sums them up. */
  method GetBatch<T>(shard: Shard<T>, i: nat, batchSize: nat) returns (r: Option<Shard<T>>)
    ensures r == BatchAt(shard, i, batchSize)
  {
    if shard.elemCounts.Some? {
      var counts := shard.elemCounts.value;
      if shard.micro.None? || i >= |counts| { return None; }
      var cumulated := [0];
      for j := 0 to |counts|
        invariant |cumulated| == j + 1
        invariant forall k :: 0 <= k <= j ==> cumulated[k] == Total(counts, k)
      {
        cumulated := cumulated + [cumulated[j] + counts[j]];
      }
      var rows := Slice(shard.rows, cumulated[i], cumulated[i + 1]);
      if rows.None? || i >= |shard.micro.value| { return None; }
      return Some(Shard(rows.value, Some([shard.micro.value[i]]), Some([counts[i]])));
    }
    var rows := Slice(shard.rows, At(i, batchSize), At(i + 1, batchSize));
    if rows.None? { return None; }
    if shard.micro.None? { return Some(Shard(rows.value, None, None)); }
    if i >= |shard.micro.value| { return None; }
    return Some(Shard(rows.value, Some([shard.micro.value[i]]), None));
  }

  /** Without element counts and microbatches a batch is a slice of `n` rows, or an error when there are not as many. */
  lemma PlainBatch<T>(shard: Shard<T>, i: nat, n: nat)
    requires shard.elemCounts.None? && shard.micro.None?
    ensures BatchAt(shard, i, n).Some? <==> At(i, n) + n <= |shard.rows|
    ensures var r := BatchAt(shard, i, n);
            r.Some? ==> |r.value.rows| == n && forall k :: 0 <= k < n ==> r.value.rows[k] == shard.rows[At(i, n) + k]
  {
    Place(i, i + 1, n);
  }

  /** The first `batches` batches in order are the rows. */
  lemma {:induction false} PlainBatchesAreRows<T>(shard: Shard<T>, batches: seq<seq<T>>, n: nat)
    requires shard.elemCounts.None? && shard.micro.None? && At(|batches|, n) <= |shard.rows|
    requires forall i: nat :: i < |batches| ==>
      BatchAt(shard, i, n).Some? && batches[i] == BatchAt(shard, i, n).value.rows
    ensures Flatten(batches) == shard.rows[..At(|batches|, n)]
    decreases |batches|
  {
    hide At, BatchAt;
    if batches == [] {
      Place(0, 1, n);
    } else {
      var last := |batches| - 1;
      Place(last, |batches|, n);
      PlainBatchesAreRows(shard, batches[..last], n);
      PlainBatch(shard, last, n);
      assert batches == batches[..last] + [batches[last]];
      FlattenSnoc(batches[..last], batches[last]);
      assert shard.rows[..At(|batches|, n)] == shard.rows[..At(last, n)] + batches[last];
    }
  }

  /** A batch of one chunk whose intervals lie in its rows, with a length for each. */
  predicate Iterable<T>(shard: Shard<T>) {
    && shard.micro.Some? && |shard.micro.value| == 1
    && |shard.micro.value[0].lengths| == |shard.micro.value[0].indices|
    && forall t :: t in shard.micro.value[0].indices ==> t.start <= t.end <= |shard.rows|
  }

  /** The iterator over packable sequences. */
  method PackableMicrobatches<T>(shard: Shard<T>) returns (batches: seq<seq<T>>)
    requires Iterable(shard)
    ensures var t := shard.micro.value[0].indices;
            |batches| == |t| && forall k :: 0 <= k < |t| ==> batches[k] == shard.rows[t[k].start..t[k].end]
  {
    var t := shard.micro.value[0].indices;
    batches := [];
    for k := 0 to |t|
      invariant |batches| == k && forall j :: 0 <= j < k ==> batches[j] == shard.rows[t[j].start..t[j].end]
    {
      batches := batches + [shard.rows[t[k].start..t[k].end]];
    }
  }

  /** A row of the batch: what its per-token columns hold at each token, padded to the batch's width beyond the row's
      real length, and what its other columns hold. */
  datatype Row<X, V> = Row(tokens: seq<X>, length: nat, rest: V)

  /** `torch.narrow` of the token dimension; a length beyond the width is an error. */
  function Truncate<X, V>(row: Row<X, V>, length: nat): Row<X, V>
    requires length <= |row.tokens|
  {
    Row(row.tokens[..length], row.length, row.rest)
  }

  /** The iterator with dynamic shapes: each microbatch cut to its length. */
  method DynamicMicrobatches<X, V>(shard: Shard<Row<X, V>>) returns (batches: seq<seq<Row<X, V>>>)
    requires Iterable(shard)
    requires var micro := shard.micro.value[0];
             forall k, i :: 0 <= k < |micro.indices| && micro.indices[k].start <= i < micro.indices[k].end
               ==> micro.lengths[k] <= |shard.rows[i].tokens|
    ensures var micro := shard.micro.value[0];
            |batches| == |micro.indices| && forall k :: 0 <= k < |batches| ==>
              && |batches[k]| == micro.indices[k].end - micro.indices[k].start
              && forall i :: 0 <= i < |batches[k]| ==>
                   batches[k][i] == Truncate(shard.rows[micro.indices[k].start + i], micro.lengths[k])
  {
    var micro := shard.micro.value[0];
    batches := [];
    for k := 0 to |micro.indices|
      invariant |batches| == k
      invariant forall j :: 0 <= j < k ==>
        && |batches[j]| == micro.indices[j].end - micro.indices[j].start
        && forall i :: 0 <= i < |batches[j]| ==>
             batches[j][i] == Truncate(shard.rows[micro.indices[j].start + i], micro.lengths[j])
    {
      var t := micro.indices[k];
      var cut := seq(t.end - t.start, i requires 0 <= i < t.end - t.start =>
        assert t.start <= t.start + i < t.end;
        Truncate(shard.rows[t.start + i], micro.lengths[k]));
      batches := batches + [cut];
    }
  }
}
