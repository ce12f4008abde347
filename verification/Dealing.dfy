/** Dealing items round-robin to shards: `xs[s::shards]`, and bin i to shard i % shards. */
module Dealing {
  import opened Sequences

  /** The items of shard `s`: those at positions s, s + shards, s + 2 * shards, ... */
  function Deal<T>(xs: seq<T>, s: int, shards: nat): seq<T>
    requires shards > 0
  {
    if xs == [] then []
    else
      var n := |xs| - 1;
      if n % shards == s then Deal(xs[..n], s, shards) + [xs[n]] else Deal(xs[..n], s, shards)
  }

  function DealAll<T>(xs: seq<T>, shards: nat): (r: seq<seq<T>>)
    requires shards > 0
    ensures |r| == shards && forall s :: 0 <= s < shards ==> r[s] == Deal(xs, s, shards)
  {
    seq(shards, s => Deal(xs, s, shards))
  }

  lemma DealSnoc<T>(xs: seq<T>, x: T, s: int, shards: nat)
    requires shards > 0
    ensures Deal(xs + [x], s, shards)
         == if |xs| % shards == s then Deal(xs, s, shards) + [x] else Deal(xs, s, shards)
  {
    assert (xs + [x])[..|xs|] == xs;
  }

  lemma RoundOfShards(k: nat, shards: nat, s: nat)
    requires s < shards
    ensures (At(k, shards) + s) % shards == s && (At(k, shards) + s) / shards == k
  {
    Quotient((k * shards + s) / shards, (k * shards + s) % shards, k, s, shards);
  }

  /** Quotient and remainder are unique. */
  lemma Quotient(q: int, r: int, q': int, r': int, d: nat)
    requires q * d + r == q' * d + r' && 0 <= r < d && 0 <= r' < d
    ensures q == q' && r == r'
  {
    if q < q' { Multiple(q' - q, d); }
    if q > q' { Multiple(q - q', d); }
  }

  lemma Multiple(k: int, d: nat)
    requires k > 0
    ensures k * d >= d
  {
  }

  /** A shard holds `rounds` items after `rounds` full rounds, its k-th being item k * shards + s. */
  lemma {:induction false} DealFull<T>(xs: seq<T>, s: nat, shards: nat, rounds: nat)
    requires s < shards && |xs| == At(rounds, shards)
    ensures |Deal(xs, s, shards)| == rounds
    ensures forall k: nat {:trigger Deal(xs, s, shards)[k]} :: k < rounds ==>
      At(k, shards) + s < |xs| && Deal(xs, s, shards)[k] == xs[At(k, shards) + s]
    decreases rounds
  {
    hide At;
    Place(0, 1, shards);
    if rounds == 0 {
    } else {
      Place(rounds - 1, rounds, shards);
      var xs' := xs[..At(rounds - 1, shards)];
      DealFull(xs', s, shards, rounds - 1);
      DealRound(xs, s, shards, rounds - 1, shards);
      assert xs[..|xs|] == xs;
      forall k: nat | k < rounds
        ensures At(k, shards) + s < |xs| && Deal(xs, s, shards)[k] == xs[At(k, shards) + s]
      {
        Place(k, rounds, shards);
        if k < rounds - 1 {
          Place(k, rounds - 1, shards);
          assert Deal(xs', s, shards)[k] == xs'[At(k, shards) + s];
        }
      }
    }
  }

  /** Dealing the first `m` items of a round. */
  lemma {:induction false} DealRound<T>(xs: seq<T>, s: nat, shards: nat, k: nat, m: nat)
    requires s < shards && m <= shards && At(k, shards) + m <= |xs|
    ensures Deal(xs[..At(k, shards) + m], s, shards)
         == var was := Deal(xs[..At(k, shards)], s, shards);
            if s < m then was + [xs[At(k, shards) + s]] else was
    decreases m
  {
    if m == 0 {
    } else {
      DealRound(xs, s, shards, k, m - 1);
      var n := At(k, shards) + (m - 1);
      RoundOfShards(k, shards, m - 1);
      assert xs[..n + 1] == xs[..n] + [xs[n]];
      DealSnoc(xs[..n], xs[n], s, shards);
    }
  }

  // ------------------------------------------------------------ nothing lost

  lemma {:induction false} FlattenUpdate<T>(ss: seq<seq<T>>, i: nat, ys: seq<T>)
    requires i < |ss|
    ensures multiset(Flatten(ss[i := ss[i] + ys])) == multiset(Flatten(ss)) + multiset(ys)
  {
    var ss' := ss[i := ss[i] + ys];
    if i == 0 {
      assert ss'[1..] == ss[1..];
    } else {
      assert ss'[1..] == ss[1..][i - 1 := ss[1..][i - 1] + ys];
      FlattenUpdate(ss[1..], i - 1, ys);
    }
  }

  lemma {:induction false} FlattenEmpty<T>(ss: seq<seq<T>>)
    requires forall i :: 0 <= i < |ss| ==> ss[i] == []
    ensures Flatten(ss) == []
  {
    if ss == [] {
    } else {
      FlattenEmpty(ss[1..]);
    }
  }

  /** The shards together hold the contents of all bins. */
  lemma {:induction false} DealKeepsAll<T>(bins: seq<seq<T>>, shards: nat)
    requires shards > 0
    ensures multiset(Flatten(Contents(DealAll(bins, shards)))) == multiset(Flatten(bins))
  {
    if bins == [] {
      FlattenEmpty(Contents(DealAll(bins, shards)));
    } else {
      var n := |bins| - 1;
      assert bins == bins[..n] + [bins[n]];
      DealKeepsAll(bins[..n], shards);
      ContentsSnoc(bins[..n], bins[n], shards);
      FlattenUpdate(Contents(DealAll(bins[..n], shards)), n % shards, bins[n]);
      FlattenSnoc(bins[..n], bins[n]);
    }
  }

  lemma ContentsSnoc<T>(bins: seq<seq<T>>, last: seq<T>, shards: nat)
    requires shards > 0
    ensures var (was, s) := (Contents(DealAll(bins, shards)), |bins| % shards);
            Contents(DealAll(bins + [last], shards)) == was[s := was[s] + last]
  {
    forall s | 0 <= s < shards
      ensures Contents(DealAll(bins + [last], shards))[s]
           == var was := Flatten(Deal(bins, s, shards)); if s == |bins| % shards then was + last else was
    {
      DealSnoc(bins, last, s, shards);
      FlattenSnoc(Deal(bins, s, shards), last);
    }
  }

  function Contents<T>(dealt: seq<seq<seq<T>>>): (r: seq<seq<T>>)
    ensures |r| == |dealt| && forall s :: 0 <= s < |dealt| ==> r[s] == Flatten(dealt[s])
  {
    seq(|dealt|, s requires 0 <= s < |dealt| => Flatten(dealt[s]))
  }

  /** Single items are bins of one. */
  function Singletons<T>(xs: seq<T>): (r: seq<seq<T>>)
    ensures |r| == |xs| && forall i :: 0 <= i < |xs| ==> r[i] == [xs[i]]
  {
    seq(|xs|, i requires 0 <= i < |xs| => [xs[i]])
  }

  lemma {:induction false} FlattenSingletons<T>(xs: seq<T>)
    ensures Flatten(Singletons(xs)) == xs
  {
    if xs == [] {
    } else {
      assert Singletons(xs)[1..] == Singletons(xs[1..]);
      FlattenSingletons(xs[1..]);
    }
  }

  lemma {:induction false} DealSingletons<T>(xs: seq<T>, s: int, shards: nat)
    requires shards > 0
    ensures Flatten(Deal(Singletons(xs), s, shards)) == Deal(xs, s, shards)
  {
    if xs == [] {
    } else {
      var n := |xs| - 1;
      assert Singletons(xs)[..n] == Singletons(xs[..n]);
      DealSingletons(xs[..n], s, shards);
      DealSnoc(xs[..n], xs[n], s, shards);
      DealSnoc(Singletons(xs[..n]), [xs[n]], s, shards);
      assert xs == xs[..n] + [xs[n]] && Singletons(xs) == Singletons(xs[..n]) + [[xs[n]]];
      FlattenSnoc(Deal(Singletons(xs[..n]), s, shards), [xs[n]]);
    }
  }

  lemma DealItemsKeepsAll<T>(xs: seq<T>, shards: nat)
    requires shards > 0
    ensures multiset(Flatten(DealAll(xs, shards))) == multiset(xs)
  {
    DealKeepsAll(Singletons(xs), shards);
    FlattenSingletons(xs);
    forall s | 0 <= s < shards ensures Contents(DealAll(Singletons(xs), shards))[s] == DealAll(xs, shards)[s] {
      DealSingletons(xs, s, shards);
    }
    assert Contents(DealAll(Singletons(xs), shards)) == DealAll(xs, shards);
  }

  // ------------------------------------------------------------ shard by shard, chunk after chunk

  /** Appending one chunk's share to every shard. */
  function AppendEach<T>(xs: seq<seq<T>>, ys: seq<seq<T>>): (r: seq<seq<T>>)
    requires |xs| == |ys|
    ensures |r| == |xs| && forall s :: 0 <= s < |xs| ==> r[s] == xs[s] + ys[s]
  {
    seq(|xs|, s requires 0 <= s < |xs| => xs[s] + ys[s])
  }

  lemma {:induction false} AppendEachKeepsAll<T>(xs: seq<seq<T>>, ys: seq<seq<T>>)
    requires |xs| == |ys|
    ensures multiset(Flatten(AppendEach(xs, ys))) == multiset(Flatten(xs)) + multiset(Flatten(ys))
  {
    if xs == [] {
    } else {
      assert AppendEach(xs, ys)[1..] == AppendEach(xs[1..], ys[1..]);
      AppendEachKeepsAll(xs[1..], ys[1..]);
    }
  }

  function Shift(xs: seq<int>, offset: int): (r: seq<int>)
    ensures |r| == |xs| && forall i :: 0 <= i < |xs| ==> r[i] == xs[i] + offset
  {
    seq(|xs|, i requires 0 <= i < |xs| => xs[i] + offset)
  }

  lemma CountHead<T>(xs: seq<T>, v: T)
    requires xs != []
    ensures multiset(xs)[v] == multiset(xs[1..])[v] + if v == xs[0] then 1 else 0
  {
    assert xs == [xs[0]] + xs[1..];
  }

  lemma ShiftTail(xs: seq<int>, offset: int)
    requires xs != []
    ensures Shift(xs, offset)[0] == xs[0] + offset && Shift(xs, offset)[1..] == Shift(xs[1..], offset)
  {
  }

  lemma NoCount<T>(xs: seq<T>, v: T)
    requires xs == []
    ensures multiset(xs)[v] == 0
  {
  }

  /** Shifting indices of a chunk to indices of the batch. */
  lemma {:induction false} ShiftMultiset(xs: seq<int>, offset: int, v: int)
    ensures multiset(Shift(xs, offset))[v] == multiset(xs)[v - offset]
  {
    hide *;
    if xs == [] {
      NoCount(xs, v - offset);
      NoCount(Shift(xs, offset), v);
    } else {
      ShiftMultiset(xs[1..], offset, v);
      ShiftTail(xs, offset);
      CountHead(xs, v - offset);
      CountHead(Shift(xs, offset), v);
    }
  }

  /** A chunk's rearranged indices, shifted to its place. */
  lemma ShiftedChunk(xs: seq<int>, start: int, n: nat)
    requires multiset(xs) == multiset(Range(0, n))
    ensures multiset(Shift(xs, start)) == multiset(Range(start, start + n))
  {
    forall v ensures multiset(Shift(xs, start))[v] == multiset(Range(start, start + n))[v] {
      ShiftMultiset(xs, start, v);
      RangeMember(0, n, v - start);
      RangeMember(start, start + n, v);
    }
  }

  lemma RangeSplit(lo: int, mid: int, hi: int)
    requires lo <= mid <= hi
    ensures Range(lo, hi) == Range(lo, mid) + Range(mid, hi)
  {
  }
}
