/** Top-k over a vocabulary split over ranks (nemo_rl/distributed/model_utils.py): every rank selects locally, the
    candidates are gathered, and a second selection picks among them. */
module DistributedTopK {
  import opened Sequences

  /** `pos` are the positions of k largest values, largest first; ties may go either way. */
  ghost predicate IsTopK(xs: seq<real>, pos: seq<int>, k: nat) {
    && |pos| == k && InRange(pos, |xs|) && Distinct(pos)
    && (forall a, b :: 0 <= a < b < |pos| ==> xs[pos[a]] >= xs[pos[b]])
    && forall i, a :: 0 <= i < |xs| && i !in pos && 0 <= a < |pos| ==> xs[i] <= xs[pos[a]]
  }

  /** A selection that is right whenever there are enough values. */
  ghost predicate Selects(topk: (seq<real>, nat) -> seq<int>) {
    forall xs, k: nat :: k <= |xs| ==> IsTopK(xs, topk(xs, k), k)
  }

  /** Every rank holds `v` logits. */
  ghost predicate EqualParts(parts: seq<seq<real>>, v: nat) {
    forall t :: 0 <= t < |parts| ==> |parts[t]| == v
  }

  /** Each rank's local selection. */
  ghost predicate LocalTopK(parts: seq<seq<real>>, locals: seq<seq<int>>, k: nat) {
    |locals| == |parts| && forall t :: 0 <= t < |parts| ==> IsTopK(parts[t], locals[t], k)
  }

  /** The gathered values, rank after rank. */
  function Values(parts: seq<seq<real>>, locals: seq<seq<int>>, k: nat): (r: seq<seq<real>>)
    requires LocalTopK(parts, locals, k)
    ensures |r| == |parts| && forall t :: 0 <= t < |parts| ==> r[t] == Select(parts[t], locals[t]) && |r[t]| == k
  {
    seq(|parts|, t requires 0 <= t < |parts| => Select(parts[t], locals[t]))
  }

  /** The gathered global ids: a rank's local ids moved up by where its part begins. */
  function Ids(locals: seq<seq<int>>, v: nat): (r: seq<seq<int>>)
    ensures |r| == |locals|
    ensures forall t: nat :: t < |locals| ==>
      |r[t]| == |locals[t]| && forall a :: 0 <= a < |locals[t]| ==> r[t][a] == locals[t][a] + At(t, v)
  {
    seq(|locals|, t requires 0 <= t < |locals| =>
      seq(|locals[t]|, a requires 0 <= a < |locals[t]| => locals[t][a] + At(t, v)))
  }

  // ------------------------------------------------------------ candidates

  /** Candidate c is entry c % k of rank c / k, and its value is the logit of its id. */
  lemma Candidate(parts: seq<seq<real>>, locals: seq<seq<int>>, v: nat, k: nat, t: nat, a: nat)
    requires EqualParts(parts, v) && LocalTopK(parts, locals, k) && t < |parts| && a < k
    ensures |Flatten(Values(parts, locals, k))| == At(|parts|, k) == |Flatten(Ids(locals, v))|
    ensures At(t, k) + a < At(|parts|, k) && 0 <= locals[t][a] < v
    ensures |Flatten(parts)| == At(|parts|, v) && At(t, v) + locals[t][a] < At(|parts|, v)
    ensures Flatten(Ids(locals, v))[At(t, k) + a] == At(t, v) + locals[t][a]
    ensures Flatten(Values(parts, locals, k))[At(t, k) + a] == parts[t][locals[t][a]]
         == Flatten(parts)[At(t, v) + locals[t][a]]
  {
    hide At;
    FlattenEqual(Values(parts, locals, k), k, t, a);
    FlattenEqual(Ids(locals, v), k, t, a);
    FlattenEqual(parts, v, t, locals[t][a]);
  }

  /** Every candidate has a rank and a local place. */
  lemma Placed(c: nat, k: nat, ranks: nat) returns (t: nat, a: nat)
    requires c < At(ranks, k)
    ensures t < ranks && a < k && c == At(t, k) + a
  {
    t, a := c / k, c % k;
    if c / k >= ranks { Times(ranks, c / k, k); }
  }

  lemma CandidateAt(parts: seq<seq<real>>, locals: seq<seq<int>>, v: nat, k: nat, c: nat)
    requires EqualParts(parts, v) && LocalTopK(parts, locals, k) && c < At(|parts|, k)
    ensures |Flatten(Values(parts, locals, k))| == At(|parts|, k) == |Flatten(Ids(locals, v))|
    ensures 0 <= Flatten(Ids(locals, v))[c] < |Flatten(parts)|
    ensures Flatten(Values(parts, locals, k))[c] == Flatten(parts)[Flatten(Ids(locals, v))[c]]
  {
    hide *;
    var t, a := Placed(c, k, |parts|);
    Candidate(parts, locals, v, k, t, a);
  }

  /** Different candidates have different ids. */
  lemma IdsDistinct(parts: seq<seq<real>>, locals: seq<seq<int>>, v: nat, k: nat, c: nat, c': nat)
    requires EqualParts(parts, v) && LocalTopK(parts, locals, k) && c < c' < At(|parts|, k)
    ensures |Flatten(Ids(locals, v))| == At(|parts|, k)
    ensures Flatten(Ids(locals, v))[c] != Flatten(Ids(locals, v))[c']
  {
    hide *;
    var t, a := Placed(c, k, |parts|);
    var t', a' := Placed(c', k, |parts|);
    Candidate(parts, locals, v, k, t, a);
    Candidate(parts, locals, v, k, t', a');
    OtherPlace(parts, locals, v, k, t, a, t', a');
  }

  lemma OtherPlace(parts: seq<seq<real>>, locals: seq<seq<int>>, v: nat, k: nat, t: nat, a: nat, t': nat, a': nat)
    requires EqualParts(parts, v) && LocalTopK(parts, locals, k) && t < |parts| && t' < |parts| && a < k && a' < k
    requires t != t' || a != a'
    ensures |locals| == |parts| && |locals[t]| == k == |locals[t']|
    ensures At(t, v) + locals[t][a] != At(t', v) + locals[t'][a']
  {
    hide At;
    DifferentPlace(t, locals[t][a], t', locals[t'][a'], v);
    if t == t' { DifferentLocal(parts[t], locals[t], k, a, a'); }
  }

  lemma DifferentPlace(t: nat, x: nat, t': nat, x': nat, v: nat)
    requires x < v && x' < v
    ensures t != t' || x != x' ==> At(t, v) + x != At(t', v) + x'
  {
    if t < t' { Place(t, t', v); }
    if t' < t { Place(t', t, v); }
  }

  lemma DifferentLocal(xs: seq<real>, pos: seq<int>, k: nat, a: nat, b: nat)
    requires IsTopK(xs, pos, k) && a < k && b < k && a != b
    ensures pos[a] != pos[b]
  {
  }

  // ------------------------------------------------------------ the pigeonhole argument

  function Elements(xs: seq<int>): set<int> {
    set x | x in xs
  }

  lemma {:induction false} DistinctSize(xs: seq<int>)
    requires Distinct(xs)
    ensures |Elements(xs)| == |xs|
  {
    if xs == [] {
    } else {
      DistinctSize(xs[1..]);
      assert Elements(xs) == Elements(xs[1..]) + {xs[0]};
    }
  }

  /** A selection of at most k positions that holds one outside a block of k misses one of the block. */
  lemma Missed(sel: seq<int>, start: int, k: nat, p: int) returns (c: int)
    requires Distinct(sel) && |sel| <= k && p in sel && !(start <= p < start + k)
    ensures start <= c < start + k && c !in sel
  {
    var (block, chosen) := (Elements(Range(start, start + k)), Elements(sel));
    DistinctSize(Range(start, start + k));
    DistinctSize(sel);
    assert block * chosen <= chosen - {p};
    Subset(block * chosen, chosen - {p});
    assert |block - chosen| == |block| - |block * chosen| > 0;
    c :| c in block - chosen;
  }

  lemma Subset(a: set<int>, b: set<int>)
    requires a <= b
    ensures |a| <= |b|
  {
    assert b == a + (b - a);
  }

  /** A logit its own rank did not select cannot beat a chosen one: the k better ones of that rank are candidates,
      and they are not all chosen unless the chosen one is among them. */
  lemma Dropped(parts: seq<seq<real>>, locals: seq<seq<int>>, v: nat, k: nat, sel: seq<int>, n: nat,
                t: nat, i: nat, a: nat)
    requires EqualParts(parts, v) && LocalTopK(parts, locals, k) && n <= k && a < n
    requires IsTopK(Flatten(Values(parts, locals, k)), sel, n)
    requires t < |parts| && i < v && i !in locals[t]
    ensures parts[t][i] <= Flatten(Values(parts, locals, k))[sel[a]]
  {
    hide *;
    var vals := Flatten(Values(parts, locals, k));
    IsSelection(vals, sel, n);
    LocalSize(parts, locals, k, t);
    PartSize(parts, v, t);
    var c := sel[a];
    if !(At(t, k) <= c < At(t, k) + k) { c := Missed(sel, At(t, k), k, sel[a]); }
    var b := c - At(t, k);
    Candidate(parts, locals, v, k, t, b);
    Unselected(parts[t], locals[t], k, i, b);
    if c != sel[a] { Unselected(vals, sel, n, c, a); }
  }

  lemma IsSelection(xs: seq<real>, pos: seq<int>, k: nat)
    requires IsTopK(xs, pos, k)
    ensures Distinct(pos) && |pos| == k && InRange(pos, |xs|)
  {
  }

  // ------------------------------------------------------------ the whole selection

  /** The global ids chosen. */
  function Chosen(locals: seq<seq<int>>, v: nat, sel: seq<int>): seq<int>
    requires InRange(sel, |Flatten(Ids(locals, v))|)
  {
    Select(Flatten(Ids(locals, v)), sel)
  }

  /** The number of tokens selected in the end: `k`, or all of a smaller vocabulary. */
  function Kept(k: nat, total: nat): nat {
    Min(k, Max(1, total))
  }

  /** For any valid local selections of min(k, v) and any valid final selection, the chosen ids are a valid top-k of
      the whole vector of logits, and come with their logits. */
  lemma DistributedIsTopK(parts: seq<seq<real>>, locals: seq<seq<int>>, v: nat, k: nat, sel: seq<int>)
    requires parts != [] && v > 0 && EqualParts(parts, v) && LocalTopK(parts, locals, Min(k, v))
    requires IsTopK(Flatten(Values(parts, locals, Min(k, v))), sel, Kept(k, At(|parts|, v)))
    ensures InRange(sel, |Flatten(Ids(locals, v))|) && |Flatten(parts)| == At(|parts|, v)
    ensures IsTopK(Flatten(parts), Chosen(locals, v, sel), Min(k, At(|parts|, v)))
    ensures Select(Flatten(parts), Chosen(locals, v, sel)) == Select(Flatten(Values(parts, locals, Min(k, v))), sel)
  {
    FlattenEqualSize(parts, v);
    Times(1, |parts|, v);
    var (m, n) := (Min(k, v), Kept(k, At(|parts|, v)));
    CandidatesCount(parts, locals, v, m);
    ChosenDistinct(parts, locals, v, m, sel, n);
    ChosenValues(parts, locals, v, m, sel, n);
    ChosenBest(parts, locals, v, k, sel, n);
    hide At, IsTopK, Values, Ids;
    SelectionFrom(Flatten(parts), Flatten(Values(parts, locals, m)), Chosen(locals, v, sel), sel, n);
  }

  lemma CandidatesCount(parts: seq<seq<real>>, locals: seq<seq<int>>, v: nat, k: nat)
    requires EqualParts(parts, v) && LocalTopK(parts, locals, k)
    ensures |Flatten(Values(parts, locals, k))| == At(|parts|, k) == |Flatten(Ids(locals, v))|
  {
    FlattenEqualSize(Values(parts, locals, k), k);
    FlattenEqualSize(Ids(locals, v), k);
  }

  lemma ChosenDistinct(parts: seq<seq<real>>, locals: seq<seq<int>>, v: nat, k: nat, sel: seq<int>, n: nat)
    requires EqualParts(parts, v) && LocalTopK(parts, locals, k)
    requires InRange(sel, At(|parts|, k)) && At(|parts|, k) == |Flatten(Ids(locals, v))|
    requires IsTopK(Flatten(Values(parts, locals, k)), sel, n)
    ensures Distinct(Chosen(locals, v, sel)) && InRange(Chosen(locals, v, sel), |Flatten(parts)|)
  {
    hide At;
    forall a | 0 <= a < |sel| ensures 0 <= Chosen(locals, v, sel)[a] < |Flatten(parts)| {
      CandidateAt(parts, locals, v, k, sel[a]);
    }
    forall a, b | 0 <= a < b < |sel| ensures Chosen(locals, v, sel)[a] != Chosen(locals, v, sel)[b] {
      assert sel[a] != sel[b];
      IdsDistinct(parts, locals, v, k, if sel[a] < sel[b] then sel[a] else sel[b],
        if sel[a] < sel[b] then sel[b] else sel[a]);
    }
  }

  lemma ChosenValues(parts: seq<seq<real>>, locals: seq<seq<int>>, v: nat, k: nat, sel: seq<int>, n: nat)
    requires EqualParts(parts, v) && LocalTopK(parts, locals, k)
    requires InRange(sel, At(|parts|, k)) && At(|parts|, k) == |Flatten(Ids(locals, v))|
    requires |Flatten(Values(parts, locals, k))| == At(|parts|, k)
    requires InRange(Chosen(locals, v, sel), |Flatten(parts)|)
    ensures Select(Flatten(parts), Chosen(locals, v, sel)) == Select(Flatten(Values(parts, locals, k)), sel)
  {
    hide At;
    forall a | 0 <= a < |sel|
      ensures Flatten(parts)[Chosen(locals, v, sel)[a]] == Flatten(Values(parts, locals, k))[sel[a]]
    {
      CandidateAt(parts, locals, v, k, sel[a]);
    }
  }

  /** No logit left out beats a chosen one. */
  lemma ChosenBest(parts: seq<seq<real>>, locals: seq<seq<int>>, v: nat, k: nat, sel: seq<int>, n: nat)
    requires v > 0 && EqualParts(parts, v) && LocalTopK(parts, locals, Min(k, v)) && n <= k
    requires InRange(sel, At(|parts|, Min(k, v))) && At(|parts|, Min(k, v)) == |Flatten(Ids(locals, v))|
    requires |Flatten(parts)| == At(|parts|, v)
    requires IsTopK(Flatten(Values(parts, locals, Min(k, v))), sel, n)
    ensures forall g, a :: 0 <= g < |Flatten(parts)| && g !in Chosen(locals, v, sel) && 0 <= a < n ==>
      Flatten(parts)[g] <= Flatten(Values(parts, locals, Min(k, v)))[sel[a]]
  {
    forall g, a | 0 <= g < |Flatten(parts)| && g !in Chosen(locals, v, sel) && 0 <= a < n
      ensures Flatten(parts)[g] <= Flatten(Values(parts, locals, Min(k, v)))[sel[a]]
    {
      LeftOut(parts, locals, v, k, sel, n, g, a);
    }
  }

  lemma LeftOut(parts: seq<seq<real>>, locals: seq<seq<int>>, v: nat, k: nat, sel: seq<int>, n: nat, g: nat, a: nat)
    requires v > 0 && EqualParts(parts, v) && LocalTopK(parts, locals, Min(k, v)) && n <= k && a < n
    requires InRange(sel, At(|parts|, Min(k, v))) && At(|parts|, Min(k, v)) == |Flatten(Ids(locals, v))|
    requires g < |Flatten(parts)| == At(|parts|, v) && g !in Chosen(locals, v, sel)
    requires IsTopK(Flatten(Values(parts, locals, Min(k, v))), sel, n)
    ensures Flatten(parts)[g] <= Flatten(Values(parts, locals, Min(k, v)))[sel[a]]
  {
    hide *;
    var t, i := Placed(g, v, |parts|);
    var m := Min(k, v);
    Sizes(parts, locals, v, k);
    FlattenEqual(parts, v, t, i);
    if i in locals[t] {
      CandidateLeftOut(parts, locals, v, m, sel, n, t, i, a);
    } else {
      LocalsFull(parts, locals, v, k, t, i);
      Dropped(parts, locals, v, m, sel, n, t, i, a);
    }
  }

  lemma Sizes(parts: seq<seq<real>>, locals: seq<seq<int>>, v: nat, k: nat)
    requires EqualParts(parts, v) && LocalTopK(parts, locals, Min(k, v))
    ensures |locals| == |parts| && forall t :: 0 <= t < |parts| ==> |parts[t]| == v
    ensures Min(k, v) <= k && (k < v ==> Min(k, v) == k)
  {
  }

  /** A candidate not chosen does not beat the chosen. */
  lemma CandidateLeftOut(parts: seq<seq<real>>, locals: seq<seq<int>>, v: nat, k: nat, sel: seq<int>, n: nat,
                         t: nat, i: nat, a: nat)
    requires EqualParts(parts, v) && LocalTopK(parts, locals, k) && a < n && t < |parts| == |locals| && i < v
    requires InRange(sel, |Flatten(Ids(locals, v))|) && At(t, v) + i !in Chosen(locals, v, sel)
    requires IsTopK(Flatten(Values(parts, locals, k)), sel, n) && i in locals[t] && |parts[t]| == v
    ensures parts[t][i] <= Flatten(Values(parts, locals, k))[sel[a]]
  {
    hide *;
    var b :| 0 <= b < |locals[t]| && locals[t][b] == i;
    LocalSize(parts, locals, k, t);
    Candidate(parts, locals, v, k, t, b);
    ChosenIs(locals, v, sel);
    NotSelected(Flatten(Ids(locals, v)), sel, At(t, k) + b, At(t, v) + i);
    Unselected(Flatten(Values(parts, locals, k)), sel, n, At(t, k) + b, a);
  }

  lemma PartSize(parts: seq<seq<real>>, v: nat, t: nat)
    requires EqualParts(parts, v) && t < |parts|
    ensures |parts[t]| == v
  {
  }

  lemma LocalSize(parts: seq<seq<real>>, locals: seq<seq<int>>, k: nat, t: nat)
    requires LocalTopK(parts, locals, k) && t < |parts|
    ensures |locals| == |parts| && |locals[t]| == k && IsTopK(parts[t], locals[t], k)
  {
  }

  lemma ChosenIs(locals: seq<seq<int>>, v: nat, sel: seq<int>)
    requires InRange(sel, |Flatten(Ids(locals, v))|)
    ensures Chosen(locals, v, sel) == Select(Flatten(Ids(locals, v)), sel)
  {
  }

  lemma Unselected(vals: seq<real>, sel: seq<int>, n: nat, c: nat, a: nat)
    requires IsTopK(vals, sel, n) && c < |vals| && c !in sel && a < n
    ensures vals[c] <= vals[sel[a]]
  {
  }

  lemma NotSelected(ids: seq<int>, sel: seq<int>, c: nat, g: int)
    requires InRange(sel, |ids|) && c < |ids| && ids[c] == g && g !in Select(ids, sel)
    ensures c !in sel
  {
    forall a | 0 <= a < |sel| ensures sel[a] != c {
      assert Select(ids, sel)[a] == ids[sel[a]];
      assert Select(ids, sel)[a] != g;
    }
  }

  /** A rank that leaves a logit out has selected k. */
  lemma LocalsFull(parts: seq<seq<real>>, locals: seq<seq<int>>, v: nat, k: nat, t: nat, i: nat)
    requires EqualParts(parts, v) && LocalTopK(parts, locals, Min(k, v)) && t < |parts| == |locals|
    requires i < v && i !in locals[t]
    ensures k < v
  {
    var all := Elements(locals[t]);
    DistinctSize(locals[t]);
    DistinctSize(Range(0, v));
    forall x | x in locals[t] ensures x in Range(0, v) {
      var b :| 0 <= b < |locals[t]| && locals[t][b] == x;
      assert Range(0, v)[x] == x;
    }
    assert all <= Elements(Range(0, v)) - {i};
    Subset(all, Elements(Range(0, v)) - {i});
    assert Range(0, v)[i] == i;
  }

  lemma SelectionFrom(full: seq<real>, vals: seq<real>, ids: seq<int>, sel: seq<int>, n: nat)
    requires IsTopK(vals, sel, n) && InRange(ids, |full|) && Distinct(ids) && |ids| == |sel|
    requires InRange(sel, |vals|) && Select(full, ids) == Select(vals, sel)
    requires forall g, a :: 0 <= g < |full| && g !in ids && 0 <= a < n ==> full[g] <= vals[sel[a]]
    ensures IsTopK(full, ids, n)
  {
    forall a | 0 <= a < n ensures full[ids[a]] == vals[sel[a]] {
      assert Select(full, ids)[a] == Select(vals, sel)[a];
    }
  }

  // ------------------------------------------------------------ chunks of positions

  datatype TopK = TopK(ids: seq<int>, values: seq<real>)

  ghost predicate IsGlobalTopK(r: TopK, parts: seq<seq<real>>, k: nat) {
    && InRange(r.ids, |Flatten(parts)|)
    && IsTopK(Flatten(parts), r.ids, Min(k, |Flatten(parts)|))
    && r.values == Select(Flatten(parts), r.ids)
  }

  /** One position: local selections, gather, final selection. */
  method SelectAt(parts: seq<seq<real>>, v: nat, k: nat, topk: (seq<real>, nat) -> seq<int>) returns (r: TopK)
    requires parts != [] && v > 0 && EqualParts(parts, v) && Selects(topk)
    ensures IsGlobalTopK(r, parts, k)
  {
    var m := Min(k, v);
    var locals := seq(|parts|, t requires 0 <= t < |parts| => topk(parts[t], m));
    forall t | 0 <= t < |parts| ensures IsTopK(parts[t], locals[t], m) { Selected(topk, parts[t], m); }
    CandidatesCount(parts, locals, v, m);
    FlattenEqualSize(parts, v);
    var (vals, n) := (Flatten(Values(parts, locals, m)), Kept(k, |parts| * v));
    EnoughCandidates(k, v, |parts|);
    var sel := topk(vals, n);
    Selected(topk, vals, n);
    DistributedIsTopK(parts, locals, v, k, sel);
    hide *;
    r := TopK(Chosen(locals, v, sel), Select(vals, sel));
    assert Select(vals, sel) == Select(Flatten(parts), Chosen(locals, v, sel));
    Bundle(r, parts, k);
  }

  lemma Bundle(r: TopK, parts: seq<seq<real>>, k: nat)
    requires IsTopK(Flatten(parts), r.ids, Min(k, |Flatten(parts)|)) && InRange(r.ids, |Flatten(parts)|)
    requires r.values == Select(Flatten(parts), r.ids)
    ensures IsGlobalTopK(r, parts, k)
  {
  }

  lemma Selected(topk: (seq<real>, nat) -> seq<int>, xs: seq<real>, k: nat)
    requires Selects(topk) && k <= |xs|
    ensures IsTopK(xs, topk(xs, k), k)
  {
  }

  /** The candidates suffice for the final selection. */
  lemma EnoughCandidates(k: nat, v: nat, ranks: nat)
    requires ranks > 0 && v > 0
    ensures Kept(k, ranks * v) <= At(ranks, Min(k, v)) && At(ranks, v) == ranks * v
  {
    Times(1, ranks, Min(k, v));
  }

  /** The loop over chunks of positions; without a chunk size one chunk holds them all. No position is an error. */
  method DistributedVocabTopK(ps: seq<seq<seq<real>>>, v: nat, k: nat, chunkSize: nat,
                              topk: (seq<real>, nat) -> seq<int>) returns (r: seq<TopK>)
    requires v > 0 && chunkSize > 0 && Selects(topk) && ps != []
    requires forall p :: 0 <= p < |ps| ==> ps[p] != [] && EqualParts(ps[p], v)
    ensures |r| == |ps| && forall p :: 0 <= p < |ps| ==> IsGlobalTopK(r[p], ps[p], k)
  {
    hide Selects, IsGlobalTopK, EqualParts;
    r := [];
    var s0 := 0;
    while s0 < |ps|
      invariant |r| == Min(s0, |ps|)
      invariant forall p :: 0 <= p < |r| ==> IsGlobalTopK(r[p], ps[p], k)
    {
      var s1 := Min(|ps|, s0 + chunkSize);
      var chunk: seq<TopK> := [];
      for p := s0 to s1
        invariant |chunk| == p - s0
        invariant forall q :: 0 <= q < |chunk| ==> IsGlobalTopK(chunk[q], ps[s0 + q], k)
      {
        var one := SelectAt(ps[p], v, k, topk);
        chunk := chunk + [one];
      }
      r := r + chunk;
      s0 := s0 + chunkSize;
    }
  }

  // ------------------------------------------------------------ reading logits back

  /** Rank `t`'s contribution to the logit of a global id: the id is clamped into the rank's part, and masked out if it
      was not in it. */
  function LocalLogit(parts: seq<seq<real>>, t: nat, v: nat, id: int): real
    requires v > 0 && EqualParts(parts, v) && t < |parts|
  {
    var inRange := At(t, v) <= id < At(t + 1, v);
    var local := Max(0, Min(id - At(t, v), v - 1));
    Product(parts[t][local], if inRange then 1.0 else 0.0)
  }

  /** The sum over the first `k` ranks. */
  function GatherLogit(parts: seq<seq<real>>, k: nat, v: nat, id: int): real
    requires v > 0 && EqualParts(parts, v) && k <= |parts|
  {
    if k == 0 then 0.0 else GatherLogit(parts, k - 1, v, id) + LocalLogit(parts, k - 1, v, id)
  }

  lemma LocalLogitIs(parts: seq<seq<real>>, t: nat, v: nat, id: int)
    requires v > 0 && EqualParts(parts, v) && t < |parts|
    ensures At(t, v) <= At(t + 1, v) <= At(|parts|, v) == |Flatten(parts)|
    ensures LocalLogit(parts, t, v, id) == if At(t, v) <= id < At(t + 1, v) then Flatten(parts)[id] else 0.0
  {
    FlattenEqualSize(parts, v);
    Place(t, |parts|, v);
    if At(t, v) <= id < At(t + 1, v) { FlattenEqual(parts, v, t, id - At(t, v)); }
  }

  lemma {:induction false} GatherSoFar(parts: seq<seq<real>>, k: nat, v: nat, id: int)
    requires v > 0 && EqualParts(parts, v) && 0 < k <= |parts|
    ensures At(k, v) <= |Flatten(parts)|
    ensures GatherLogit(parts, k, v, id) == if 0 <= id < At(k, v) then Flatten(parts)[id] else 0.0
    decreases k
  {
    hide At, LocalLogit, Flatten, EqualParts;
    Place(0, 1, v);
    Place(k - 1, k, v);
    LocalLogitIs(parts, k - 1, v, id);
    if k > 1 {
      GatherSoFar(parts, k - 1, v, id);
    } else {
      assert GatherLogit(parts, 0, v, id) == 0.0;
    }
  }

  /** Reading the logits at the ids a top-k selection returned gives the values it returned. */
  lemma GatherReturnsTopK(parts: seq<seq<real>>, v: nat, k: nat, r: TopK, a: nat)
    requires v > 0 && parts != [] && EqualParts(parts, v) && IsGlobalTopK(r, parts, k) && a < |r.ids|
    ensures |r.values| == |r.ids| && GatherLogit(parts, |parts|, v, r.ids[a]) == r.values[a]
  {
    GatherSoFar(parts, |parts|, v, r.ids[a]);
    FlattenEqualSize(parts, v);
  }
}
