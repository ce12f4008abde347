/** Facts about sequences shared by the models: concatenation, sums, and Python's stable `sorted`. */
module Sequences {

  datatype Option<T> = None | Some(value: T)

  function Max(a: int, b: int): int {
    if a >= b then a else b
  }

  function Min(a: int, b: int): int {
    if a <= b then a else b
  }

  /** The integers lo, lo+1, ..., hi-1: Python's `range(lo, hi)`. */
  function Range(lo: int, hi: int): (r: seq<int>)
    ensures |r| == if lo <= hi then hi - lo else 0
    ensures forall i :: 0 <= i < |r| ==> r[i] == lo + i
  {
    seq(if lo <= hi then hi - lo else 0, i => lo + i)
  }

  // ------------------------------------------------------------ blocks of equal size

  /** Where block `c` begins among blocks of `n`. */
  function At(c: nat, n: nat): nat {
    c * n
  }

  /** Block `c` ends where the next begins, within the blocks there are. */
  lemma Place(c: nat, chunks: nat, n: nat)
    requires c < chunks
    ensures At(0, n) == 0 && At(c, n) + n == At(c + 1, n) <= At(chunks, n)
  {
    Times(c + 1, chunks, n);
  }

  lemma Times(a: nat, b: nat, n: nat)
    requires a <= b
    ensures a * n <= b * n
  {
  }

  /** Block `b` of `h` entries. */
  function Block<T>(xs: seq<T>, b: nat, h: nat): (r: seq<T>)
    requires At(b, h) + h <= |xs|
    ensures |r| == h && forall i :: 0 <= i < h ==> r[i] == xs[At(b, h) + i]
  {
    xs[At(b, h)..At(b, h) + h]
  }

  lemma QuotientGrows(a: nat, b: nat, d: nat)
    requires a <= b && d > 0
    ensures a / d <= b / d
  {
    if a / d > b / d { Times(b / d + 1, a / d, d); }
  }

  /** The least multiple of `multiple` that is not below `x`. */
  function RoundUp(x: nat, multiple: nat): nat
    requires multiple > 0
  {
    (x + multiple - 1) / multiple * multiple
  }

  lemma RoundUpIs(x: nat, multiple: nat)
    requires multiple > 0
    ensures RoundUp(x, multiple) == At((x + multiple - 1) / multiple, multiple)
    ensures RoundUp(x, multiple) % multiple == 0 && x <= RoundUp(x, multiple) < x + multiple
    ensures forall k: nat :: x <= At(k, multiple) ==> RoundUp(x, multiple) <= At(k, multiple)
  {
    var q := (x + multiple - 1) / multiple;
    assert At(q, multiple) + (x + multiple - 1) % multiple == x + multiple - 1;
    MultipleHasNoRest(q, multiple);
    forall k: nat | x <= At(k, multiple) ensures At(q, multiple) <= At(k, multiple) {
      if k < q { Times(k + 1, q, multiple); }
    }
  }

  lemma MultipleHasNoRest(q: nat, d: nat)
    requires d > 0
    ensures At(q, d) % d == 0
  {
    var (q', r) := (At(q, d) / d, At(q, d) % d);
    assert q * d == q' * d + r;
    if q' < q { Times(q' + 1, q, d); }
    if q < q' { Times(q + 1, q', d); }
  }

  // ------------------------------------------------------------ concatenation and sums

  function Flatten<T>(ss: seq<seq<T>>): seq<T> {
    if ss == [] then [] else ss[0] + Flatten(ss[1..])
  }

  lemma {:induction false} FlattenAppend<T>(xs: seq<seq<T>>, ys: seq<seq<T>>)
    ensures Flatten(xs + ys) == Flatten(xs) + Flatten(ys)
  {
    if xs == [] {
      assert xs + ys == ys;
    } else {
      assert (xs + ys)[0] == xs[0] && (xs + ys)[1..] == xs[1..] + ys;
      FlattenAppend(xs[1..], ys);
    }
  }

  lemma FlattenSnoc<T>(xs: seq<seq<T>>, y: seq<T>)
    ensures Flatten(xs + [y]) == Flatten(xs) + y
  {
    FlattenAppend(xs, [y]);
    assert Flatten([y]) == y + Flatten([y][1..]) == y;
  }

  /** Blocks of equal length laid end to end. */
  lemma {:induction false} FlattenEqual<T>(xss: seq<seq<T>>, m: nat, s: nat, i: nat)
    requires forall j :: 0 <= j < |xss| ==> |xss[j]| == m
    requires s < |xss| && i < m
    ensures |Flatten(xss)| == At(|xss|, m) && At(s, m) + i < At(|xss|, m) && Flatten(xss)[At(s, m) + i] == xss[s][i]
  {
    FlattenEqualSize(xss, m);
    hide At;
    Place(s, |xss|, m);
    if s == 0 {
    } else {
      Place(s - 1, |xss|, m);
      FlattenEqual(xss[1..], m, s - 1, i);
    }
  }

  lemma {:induction false} FlattenEqualSize<T>(xss: seq<seq<T>>, m: nat)
    requires forall j :: 0 <= j < |xss| ==> |xss[j]| == m
    ensures |Flatten(xss)| == At(|xss|, m)
  {
    if xss == [] {
    } else {
      hide At;
      Place(|xss| - 1, |xss|, m);
      FlattenEqualSize(xss[1..], m);
    }
  }

  function Sum(xs: seq<int>): int {
    if xs == [] then 0 else xs[0] + Sum(xs[1..])
  }

  lemma {:induction false} SumAppend(xs: seq<int>, ys: seq<int>)
    ensures Sum(xs + ys) == Sum(xs) + Sum(ys)
  {
    if xs == [] {
      assert xs + ys == ys;
    } else {
      assert (xs + ys)[0] == xs[0] && (xs + ys)[1..] == xs[1..] + ys;
      SumAppend(xs[1..], ys);
    }
  }

  /** Multiplication of reals under a name, so that proofs can treat it as a whole. */
  function Product(a: real, b: real): real {
    a * b
  }

  function RealSum(xs: seq<real>): real {
    if xs == [] then 0.0 else xs[0] + RealSum(xs[1..])
  }

  lemma {:induction false} RealSumAppend(xs: seq<real>, ys: seq<real>)
    ensures RealSum(xs + ys) == RealSum(xs) + RealSum(ys)
  {
    if xs == [] {
      assert xs + ys == ys;
    } else {
      assert (xs + ys)[0] == xs[0] && (xs + ys)[1..] == xs[1..] + ys;
      RealSumAppend(xs[1..], ys);
    }
  }

  /** The sum of the elementwise product. */
  function Dot(xs: seq<real>, ys: seq<real>): real
    requires |xs| == |ys|
  {
    if xs == [] then 0.0 else Product(xs[0], ys[0]) + Dot(xs[1..], ys[1..])
  }

  lemma {:induction false} DotAppend(xs: seq<real>, ys: seq<real>, xs': seq<real>, ys': seq<real>)
    requires |xs| == |ys| && |xs'| == |ys'|
    ensures Dot(xs + xs', ys + ys') == Dot(xs, ys) + Dot(xs', ys')
  {
    if xs == [] {
      assert xs + xs' == xs' && ys + ys' == ys';
    } else {
      assert (xs + xs')[0] == xs[0] && (xs + xs')[1..] == xs[1..] + xs';
      assert (ys + ys')[0] == ys[0] && (ys + ys')[1..] == ys[1..] + ys';
      DotAppend(xs[1..], ys[1..], xs', ys');
    }
  }

  function Scaled(xs: seq<real>, c: real): (r: seq<real>)
    ensures |r| == |xs| && forall k :: 0 <= k < |xs| ==> r[k] == Product(c, xs[k])
  {
    seq(|xs|, k requires 0 <= k < |xs| => Product(c, xs[k]))
  }

  lemma {:induction false} ScaledSum(xs: seq<real>, c: real)
    ensures RealSum(Scaled(xs, c)) == Product(c, RealSum(xs))
  {
    if xs == [] {
    } else {
      assert Scaled(xs, c)[1..] == Scaled(xs[1..], c);
      ScaledSum(xs[1..], c);
    }
  }

  function Map<A, B>(f: A -> B, xs: seq<A>): (r: seq<B>)
    ensures |r| == |xs| && forall i :: 0 <= i < |xs| ==> r[i] == f(xs[i])
  {
    seq(|xs|, i requires 0 <= i < |xs| => f(xs[i]))
  }

  /** The rows of `xs` at the positions `idx`, in that order: tensor indexing by a list. */
  function Select<T>(xs: seq<T>, idx: seq<int>): (r: seq<T>)
    requires InRange(idx, |xs|)
    ensures |r| == |idx| && forall i :: 0 <= i < |idx| ==> r[i] == xs[idx[i]]
  {
    seq(|idx|, i requires 0 <= i < |idx| => xs[idx[i]])
  }

  ghost predicate InRange(idx: seq<int>, n: int) {
    forall i :: 0 <= i < |idx| ==> 0 <= idx[i] < n
  }

  ghost predicate Distinct<T>(xs: seq<T>) {
    forall i, j :: 0 <= i < j < |xs| ==> xs[i] != xs[j]
  }

  /** A rearrangement of 0, ..., n-1. */
  ghost predicate IsPermutation(p: seq<int>, n: nat) {
    |p| == n && InRange(p, n) && Distinct(p)
  }

  lemma RangeMember(lo: int, hi: int, x: int)
    ensures multiset(Range(lo, hi))[x] == if lo <= x < hi then 1 else 0
    decreases hi - lo
  {
    if lo < hi {
      RangeMember(lo, hi - 1, x);
      assert Range(lo, hi) == Range(lo, hi - 1) + [hi - 1];
    } else {
      assert Range(lo, hi) == [];
    }
  }

  /** Indices that form the multiset 0, ..., n-1 form a permutation. */
  lemma PermutationFromMultiset(p: seq<int>, n: nat)
    requires multiset(p) == multiset(Range(0, n))
    ensures IsPermutation(p, n)
  {
    assert |p| == |multiset(p)| == |multiset(Range(0, n))| == n;
    forall i | 0 <= i < |p| ensures 0 <= p[i] < n {
      assert p[i] in multiset(p);
      RangeMember(0, n, p[i]);
    }
    forall i, j | 0 <= i < j < |p| ensures p[i] != p[j] {
      if p[i] == p[j] { CountedTwice(p, i, j); }
      RangeMember(0, n, p[i]);
    }
  }

  lemma CountedTwice<T>(xs: seq<T>, i: nat, j: nat)
    requires i < j < |xs| && xs[i] == xs[j]
    ensures multiset(xs)[xs[i]] >= 2
  {
    assert xs == xs[..i] + [xs[i]] + xs[i + 1..j] + [xs[j]] + xs[j + 1..];
  }

  // ------------------------------------------------------------ stable sorting

  /** (key, position) order: what a stable sort of positions by key produces. */
  predicate Before(keys: seq<int>, i: int, j: int)
    requires 0 <= i < |keys| && 0 <= j < |keys|
  {
    keys[i] < keys[j] || (keys[i] == keys[j] && i < j)
  }

  ghost predicate SortedPositions(keys: seq<int>, p: seq<int>) {
    InRange(p, |keys|) && forall i, j :: 0 <= i < j < |p| ==> Before(keys, p[i], p[j])
  }

  lemma ConsSorted(keys: seq<int>, y: int, rest: seq<int>)
    requires SortedPositions(keys, rest) && 0 <= y < |keys|
    requires forall i :: 0 <= i < |rest| ==> Before(keys, y, rest[i])
    ensures SortedPositions(keys, [y] + rest)
  {
    var r := [y] + rest;
    forall i, j | 0 <= i < j < |r| ensures Before(keys, r[i], r[j]) {
      if i > 0 { assert r[i] == rest[i - 1]; }
      assert r[j] == rest[j - 1];
    }
  }

  function Insert(keys: seq<int>, p: seq<int>, x: int): (r: seq<int>)
    requires SortedPositions(keys, p) && 0 <= x < |keys| && x !in p
    ensures multiset(r) == multiset(p) + multiset{x}
    ensures SortedPositions(keys, r)
  {
    if p == [] then [x]
    else if Before(keys, x, p[0]) then
      ConsSorted(keys, x, p);
      [x] + p
    else
      var rest := Insert(keys, p[1..], x);
      assert p == [p[0]] + p[1..];
      InsertedAfter(keys, p, x, rest);
      ConsSorted(keys, p[0], rest);
      [p[0]] + rest
  }

  lemma InsertedAfter(keys: seq<int>, p: seq<int>, x: int, rest: seq<int>)
    requires SortedPositions(keys, p) && 0 <= x < |keys| && x !in p && p != []
    requires !Before(keys, x, p[0])
    requires multiset(rest) == multiset(p[1..]) + multiset{x} && InRange(rest, |keys|)
    ensures forall i :: 0 <= i < |rest| ==> Before(keys, p[0], rest[i])
  {
    forall i | 0 <= i < |rest| ensures Before(keys, p[0], rest[i]) {
      assert rest[i] in multiset(rest);
      if rest[i] in p[1..] {
        var k :| 0 <= k < |p[1..]| && p[1..][k] == rest[i];
        assert p[k + 1] == rest[i];
      } else {
        assert rest[i] == x && x != p[0];
      }
    }
  }

  function SortFirst(keys: seq<int>, n: nat): (p: seq<int>)
    requires n <= |keys|
    ensures multiset(p) == multiset(Range(0, n))
    ensures SortedPositions(keys, p)
  {
    if n == 0 then []
    else
      var p := SortFirst(keys, n - 1);
      PermutationFromMultiset(p, n - 1);
      assert Range(0, n) == Range(0, n - 1) + [n - 1];
      Insert(keys, p, n - 1)
  }

  /** Python's `sorted(range(len(keys)), key=lambda i: keys[i])`. */
  function SortedByKey(keys: seq<int>): (p: seq<int>)
    ensures IsPermutation(p, |keys|)
    ensures SortedPositions(keys, p)
    ensures forall i, j :: 0 <= i <= j < |p| ==> keys[p[i]] <= keys[p[j]]
  {
    var p := SortFirst(keys, |keys|);
    PermutationFromMultiset(p, |keys|);
    p
  }

  lemma {:induction false} StrictlyIncreasingIsIdentity(xs: seq<int>, i: nat)
    requires i < |xs| && InRange(xs, |xs|)
    requires forall a, b :: 0 <= a < b < |xs| ==> xs[a] < xs[b]
    ensures xs[i] == i
  {
    AtLeast(xs, i);
    AtMost(xs, |xs| - 1 - i);
  }

  lemma {:induction false} AtLeast(xs: seq<int>, k: nat)
    requires k < |xs| && InRange(xs, |xs|)
    requires forall a, b :: 0 <= a < b < |xs| ==> xs[a] < xs[b]
    ensures xs[k] >= k
  {
    if k == 0 {
    } else {
      AtLeast(xs, k - 1);
    }
  }

  lemma {:induction false} AtMost(xs: seq<int>, k: nat)
    requires k < |xs| && InRange(xs, |xs|)
    requires forall a, b :: 0 <= a < b < |xs| ==> xs[a] < xs[b]
    ensures xs[|xs| - 1 - k] <= |xs| - 1 - k
  {
    if k == 0 {
    } else {
      AtMost(xs, k - 1);
    }
  }

  /** Sorting the positions of a permutation by its values gives its inverse. */
  lemma SortingInverts(p: seq<int>, i: nat)
    requires IsPermutation(p, |p|) && i < |p|
    ensures p[SortedByKey(p)[i]] == i
  {
    var q := SortedByKey(p);
    var xs := Select(p, q);
    forall a, b | 0 <= a < b < |xs| ensures xs[a] < xs[b] {
      assert q[a] != q[b];
    }
    StrictlyIncreasingIsIdentity(xs, i);
  }

  /** And the other way round. */
  lemma SortingFinds(p: seq<int>, j: nat)
    requires IsPermutation(p, |p|) && j < |p|
    ensures 0 <= p[j] < |SortedByKey(p)| && SortedByKey(p)[p[j]] == j
  {
    SortingInverts(p, p[j]);
  }
}
