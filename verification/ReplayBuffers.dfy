/** The replay buffer of nemo_rl/algorithms/async_utils.py: three parallel lists, and the sequence of
    entries they stand for. */
module ReplayBuffers {
  import opened Sequences

  /** One per-prompt group: the weights that generated it and the training step it is meant for. */
  datatype Entry<T> = Entry(trajectory: T, version: int, target: int)

  datatype PushStatus = Success | Full

  /** What `sample` gives: data, "wait", or one of its two exceptions. */
  datatype SampleResult<T> =
    | Sampled(trajectories: seq<T>, avgAge: real)
    | NotReady
    | TooOld(count: nat)       // ValueError: entries older than the age window
    | NoGroupsRequested        // ZeroDivisionError: the average age of no groups

  // ------------------------------------------------------------ specification on entries

  function MinValid(current: int, maxAge: int): int {
    Max(0, current - maxAge)
  }

  predicate Wanted<T>(e: Entry<T>, current: int, minValid: int) {
    minValid <= e.version <= current && e.target == current
  }

  /** The first `n` wanted entries, in push order. */
  function Taken<T>(es: seq<Entry<T>>, n: nat, current: int, minValid: int): seq<Entry<T>> {
    if es == [] || n == 0 then []
    else if Wanted(es[0], current, minValid) then [es[0]] + Taken(es[1..], n - 1, current, minValid)
    else Taken(es[1..], n, current, minValid)
  }

  /** Everything else, in push order. */
  function Left<T>(es: seq<Entry<T>>, n: nat, current: int, minValid: int): seq<Entry<T>> {
    if es == [] || n == 0 then es
    else if Wanted(es[0], current, minValid) then Left(es[1..], n - 1, current, minValid)
    else [es[0]] + Left(es[1..], n, current, minValid)
  }

  function CountOld<T>(es: seq<Entry<T>>, minValid: int): nat {
    if es == [] then 0 else (if es[0].version < minValid then 1 else 0) + CountOld(es[1..], minValid)
  }

  function CountValid<T>(es: seq<Entry<T>>, current: int, minValid: int): nat {
    if es == [] then 0
    else (if minValid <= es[0].version <= current then 1 else 0) + CountValid(es[1..], current, minValid)
  }

  function CountWanted<T>(es: seq<Entry<T>>, current: int, minValid: int): nat {
    if es == [] then 0
    else (if Wanted(es[0], current, minValid) then 1 else 0) + CountWanted(es[1..], current, minValid)
  }

  function Trajectories<T>(es: seq<Entry<T>>): (r: seq<T>)
    ensures |r| == |es| && forall i :: 0 <= i < |es| ==> r[i] == es[i].trajectory
  {
    seq(|es|, i requires 0 <= i < |es| => es[i].trajectory)
  }

  function Versions<T>(es: seq<Entry<T>>): (r: seq<int>)
    ensures |r| == |es| && forall i :: 0 <= i < |es| ==> r[i] == es[i].version
  {
    seq(|es|, i requires 0 <= i < |es| => es[i].version)
  }

  /** The result of `sample` on a buffer holding `es`. */
  function Outcome<T>(es: seq<Entry<T>>, n: nat, current: int, maxAge: int): SampleResult<T> {
    var low := MinValid(current, maxAge);
    if es == [] then NotReady
    else if CountOld(es, low) > 0 then TooOld(CountOld(es, low))
    else if CountValid(es, current, low) == 0 || CountWanted(es, current, low) < n then NotReady
    else if n == 0 then NoGroupsRequested
    else
      var taken := Taken(es, n, current, low);
      TakenLength(es, n, current, low);
      Sampled(Trajectories(taken), current as real - Sum(Versions(taken)) as real / |taken| as real)
  }

  /** The buffer after `sample`. */
  function AfterSample<T>(es: seq<Entry<T>>, n: nat, current: int, maxAge: int): seq<Entry<T>> {
    if Outcome(es, n, current, maxAge).Sampled? then Left(es, n, current, MinValid(current, maxAge)) else es
  }

  lemma {:induction false} TakenLength<T>(es: seq<Entry<T>>, n: nat, current: int, minValid: int)
    ensures |Taken(es, n, current, minValid)| == Min(n, CountWanted(es, current, minValid))
  {
    if es == [] || n == 0 {
    } else {
      TakenLength(es[1..], if Wanted(es[0], current, minValid) then n - 1 else n, current, minValid);
    }
  }

  /** Sampling splits the buffer: what is taken and what is left are the buffer, nothing lost or copied. */
  lemma {:induction false} SampleConserves<T>(es: seq<Entry<T>>, n: nat, current: int, minValid: int)
    ensures multiset(Taken(es, n, current, minValid)) + multiset(Left(es, n, current, minValid)) == multiset(es)
    ensures forall e :: e in Taken(es, n, current, minValid) ==> Wanted(e, current, minValid)
    ensures forall e :: e in Left(es, n, current, minValid) ==> e in es
    ensures |Left(es, n, current, minValid)| <= |es|
  {
    if es == [] || n == 0 {
    } else {
      assert es == [es[0]] + es[1..];
      SampleConserves(es[1..], if Wanted(es[0], current, minValid) then n - 1 else n, current, minValid);
    }
  }

  lemma {:induction false} NoOldEntry<T>(es: seq<Entry<T>>, minValid: int)
    ensures CountOld(es, minValid) == 0 <==> forall i :: 0 <= i < |es| ==> es[i].version >= minValid
  {
    if es == [] {
    } else {
      NoOldEntry(es[1..], minValid);
      assert forall i :: 1 <= i < |es| ==> es[i] == es[1..][i - 1];
    }
  }

  lemma {:induction false} SumBounds(xs: seq<int>, lo: int, hi: int)
    requires forall i :: 0 <= i < |xs| ==> lo <= xs[i] <= hi
    ensures |xs| * lo <= Sum(xs) <= |xs| * hi
  {
    if xs == [] {
    } else {
      SumBounds(xs[1..], lo, hi);
    }
  }

  lemma MeanBounds(sum: int, n: nat, lo: int, hi: int)
    requires n > 0 && n * lo <= sum <= n * hi
    ensures lo as real <= sum as real / n as real <= hi as real
  {
    var m := sum as real / n as real;
    assert m * n as real == sum as real;
    assert (n * lo) as real == n as real * lo as real && (n * hi) as real == n as real * hi as real;
    Cancel(lo as real, m, n as real);
    Cancel(m, hi as real, n as real);
  }

  lemma Cancel(a: real, b: real, n: real)
    requires n > 0.0 && a * n <= b * n
    ensures a <= b
  {
    assert b - a == ((b - a) * n) / n;
  }

  /** How many versions old each entry is. */
  function Ages<T>(es: seq<Entry<T>>, current: int): (r: seq<int>)
    ensures |r| == |es| && forall i :: 0 <= i < |es| ==> r[i] == current - es[i].version
  {
    seq(|es|, i requires 0 <= i < |es| => current - es[i].version)
  }

  lemma {:induction false} SumAges<T>(es: seq<Entry<T>>, current: int)
    ensures Sum(Ages(es, current)) == |es| * current - Sum(Versions(es))
  {
    if es == [] {
    } else {
      SumAges(es[1..], current);
      assert Ages(es, current)[1..] == Ages(es[1..], current) && Versions(es)[1..] == Versions(es[1..]);
    }
  }

  lemma MeanAge(ages: int, versions: int, n: nat, current: int)
    requires n > 0 && ages == n * current - versions
    ensures current as real - versions as real / n as real == ages as real / n as real
  {
    assert ages as real == n as real * current as real - versions as real;
  }

  /** What a sample is good for: exactly the groups asked for, every one generated for this step by weights that are at
      most `maxAge` versions old, as is their average. An entry that is older is an error, whatever else is there. */
  lemma SampleIsFresh<T>(es: seq<Entry<T>>, n: nat, current: int, maxAge: int)
    requires current >= 0 && maxAge >= 0
    ensures Outcome(es, n, current, maxAge).TooOld?
      <==> exists i :: 0 <= i < |es| && (es[i].version < current - maxAge || es[i].version < 0)
    ensures var (r, taken) := (Outcome(es, n, current, maxAge), Taken(es, n, current, MinValid(current, maxAge)));
            r.Sampled? ==>
              && |r.trajectories| == |taken| == n > 0
              && 0.0 <= r.avgAge == Sum(Ages(taken, current)) as real / n as real <= maxAge as real
              && forall i :: 0 <= i < n ==>
                   && r.trajectories[i] == taken[i].trajectory && taken[i] in es
                   && taken[i].target == current && current - maxAge <= taken[i].version <= current
  {
    var low := MinValid(current, maxAge);
    NoOldEntry(es, low);
    if Outcome(es, n, current, maxAge).Sampled? {
      var taken := Taken(es, n, current, low);
      TakenLength(es, n, current, low);
      SampleConserves(es, n, current, low);
      forall i | 0 <= i < |taken| ensures taken[i] in es && Wanted(taken[i], current, low) {
        assert taken[i] in multiset(taken) + multiset(Left(es, n, current, low));
      }
      SumBounds(Versions(taken), current - maxAge, current);
      MeanBounds(Sum(Versions(taken)), |taken|, current - maxAge, current);
      SumAges(taken, current);
      MeanAge(Sum(Ages(taken, current)), Sum(Versions(taken)), n, current);
    }
  }

  lemma {:induction false} CountsAppend<T>(xs: seq<Entry<T>>, ys: seq<Entry<T>>, current: int, minValid: int)
    ensures CountOld(xs + ys, minValid) == CountOld(xs, minValid) + CountOld(ys, minValid)
    ensures CountValid(xs + ys, current, minValid)
         == CountValid(xs, current, minValid) + CountValid(ys, current, minValid)
    ensures CountWanted(xs + ys, current, minValid)
         == CountWanted(xs, current, minValid) + CountWanted(ys, current, minValid)
  {
    if xs == [] {
      assert xs + ys == ys;
    } else {
      assert (xs + ys)[0] == xs[0] && (xs + ys)[1..] == xs[1..] + ys;
      CountsAppend(xs[1..], ys, current, minValid);
    }
  }

  // ------------------------------------------------------------ the class

  /** The entries that three parallel lists stand for. */
  function Zip<T>(ts: seq<T>, vs: seq<int>, gs: seq<int>): (r: seq<Entry<T>>)
    requires |ts| == |vs| == |gs|
    ensures |r| == |ts| && forall i :: 0 <= i < |ts| ==> r[i] == Entry(ts[i], vs[i], gs[i])
  {
    seq(|ts|, i requires 0 <= i < |ts| => Entry(ts[i], vs[i], gs[i]))
  }

  function RemoveAt<T>(xs: seq<T>, i: nat): seq<T>
    requires i < |xs|
  {
    xs[..i] + xs[i + 1..]
  }

  /** The j-th of the positions `idx`, `end` after the last and -1 before the first. */
  function PositionAt(idx: seq<int>, j: int, end: int): int {
    if j < 0 then -1 else if j < |idx| then idx[j] else end
  }

  /** The positions of the wanted entries of es[..k]. */
  function Positions<T>(es: seq<Entry<T>>, k: nat, current: int, minValid: int): (idx: seq<int>)
    requires k <= |es|
    ensures forall a :: 0 <= a < |idx| ==> 0 <= idx[a] < k
  {
    if k == 0 then []
    else Positions(es, k - 1, current, minValid) + if Wanted(es[k - 1], current, minValid) then [k - 1] else []
  }

  /** Skipping a stretch without wanted entries. */
  lemma {:induction false} SkipUnwanted<T>(es: seq<Entry<T>>, m: nat, n: nat, current: int, minValid: int)
    requires m <= |es| && forall i :: 0 <= i < m ==> !Wanted(es[i], current, minValid)
    ensures Taken(es, n, current, minValid) == Taken(es[m..], n, current, minValid)
    ensures Left(es, n, current, minValid) == es[..m] + Left(es[m..], n, current, minValid)
  {
    if m == 0 {
      assert es[0..] == es;
    } else if n == 0 {
      assert es == es[..m] + es[m..];
    } else {
      assert es[1..][m - 1..] == es[m..] && es[..m] == [es[0]] + es[1..][..m - 1];
      SkipUnwanted(es[1..], m - 1, n, current, minValid);
    }
  }

  /** `es` from its j-th wanted position on: that entry goes first, the next wanted position is idx[j+1]. */
  lemma SplitAtWanted<T>(idx: seq<int>, es: seq<Entry<T>>, j: nat, n: nat, current: int, minValid: int)
    requires idx == Positions(es, |es|, current, minValid) && j < |idx| && n > 0
    ensures var next := PositionAt(idx, j + 1, |es|);
            && idx[j] < next <= |es|
            && Taken(es[idx[j]..], n, current, minValid) == [es[idx[j]]] + Taken(es[next..], n - 1, current, minValid)
            && Left(es[idx[j]..], n, current, minValid)
            == es[idx[j] + 1..next] + Left(es[next..], n - 1, current, minValid)
  {
    NothingBetween(es, |es|, j, current, minValid);
    hide Positions;
    SplitFrom(es, idx[j], PositionAt(idx, j + 1, |es|), n, current, minValid);
  }

  lemma SplitFrom<T>(es: seq<Entry<T>>, at: nat, next: nat, n: nat, current: int, minValid: int)
    requires at < next <= |es| && n > 0 && Wanted(es[at], current, minValid)
    requires forall i :: at < i < next ==> !Wanted(es[i], current, minValid)
    ensures Taken(es[at..], n, current, minValid) == [es[at]] + Taken(es[next..], n - 1, current, minValid)
    ensures Left(es[at..], n, current, minValid) == es[at + 1..next] + Left(es[next..], n - 1, current, minValid)
  {
    hide Wanted;
    var rest := es[at + 1..];
    var gap := next - at - 1;
    assert forall i :: 0 <= i < gap ==> rest[i] == es[at + 1 + i];
    SkipUnwanted(rest, gap, n - 1, current, minValid);
    assert es[at..][1..] == rest && rest[gap..] == es[next..] && rest[..gap] == es[at + 1..next];
  }

  /** Nothing wanted lies between the j-th of the positions `idx` and the next one. */
  ghost predicate Gap<T>(es: seq<Entry<T>>, idx: seq<int>, k: nat, j: int, current: int, minValid: int)
    requires k <= |es|
  {
    && -1 <= j < |idx|
    && PositionAt(idx, j, k) < PositionAt(idx, j + 1, k) <= k
    && forall i :: 0 <= i < k && PositionAt(idx, j, k) < i < PositionAt(idx, j + 1, k) ==>
         !Wanted(es[i], current, minValid)
  }

  lemma {:induction false} NothingBetween<T>(es: seq<Entry<T>>, k: nat, j: int, current: int, minValid: int)
    requires k <= |es| && -1 <= j < |Positions(es, k, current, minValid)|
    ensures Gap(es, Positions(es, k, current, minValid), k, j, current, minValid)
    ensures j >= 0 ==> Wanted(es[Positions(es, k, current, minValid)[j]], current, minValid)
  {
    if k == 0 {
    } else {
      var prev := Positions(es, k - 1, current, minValid);
      if j < |prev| { NothingBetween(es, k - 1, j, current, minValid); }
      GapStep(es, prev, k, j, current, minValid);
    }
  }

  lemma GapStep<T>(es: seq<Entry<T>>, prev: seq<int>, k: nat, j: int, current: int, minValid: int)
    requires 0 < k <= |es| && forall a :: 0 <= a < |prev| ==> 0 <= prev[a] < k - 1
    requires -1 <= j < |prev| ==> Gap(es, prev, k - 1, j, current, minValid)
    ensures var idx := prev + if Wanted(es[k - 1], current, minValid) then [k - 1] else [];
            -1 <= j < |idx| ==> Gap(es, idx, k, j, current, minValid)
  {
  }

  /** The buffer once the wanted positions idx[j], ..., idx[n-1] have been popped. */
  ghost function Popped<T>(idx: seq<int>, es: seq<Entry<T>>, j: nat, n: nat, current: int, minValid: int): seq<Entry<T>>
    requires idx == Positions(es, |es|, current, minValid) && j <= n
  {
    var from := PositionAt(idx, j, |es|);
    es[..from] + Left(es[from..], n - j, current, minValid)
  }

  lemma PoppedNone<T>(idx: seq<int>, es: seq<Entry<T>>, n: nat, current: int, minValid: int)
    requires idx == Positions(es, |es|, current, minValid)
    ensures Popped(idx, es, n, n, current, minValid) == es
  {
  }

  lemma PoppedAll<T>(idx: seq<int>, es: seq<Entry<T>>, n: nat, current: int, minValid: int)
    requires idx == Positions(es, |es|, current, minValid)
    ensures Popped(idx, es, 0, n, current, minValid) == Left(es, n, current, minValid)
  {
    SkipToFirst(idx, es, n, current, minValid);
  }

  /** One pop of the reverse loop: removing the j-th wanted position. */
  lemma PopStep<T>(idx: seq<int>, es: seq<Entry<T>>, j: nat, n: nat, current: int, minValid: int)
    requires idx == Positions(es, |es|, current, minValid) && j < |idx| && j < n
    ensures 0 <= idx[j] < |Popped(idx, es, j + 1, n, current, minValid)|
    ensures RemoveAt(Popped(idx, es, j + 1, n, current, minValid), idx[j]) == Popped(idx, es, j, n, current, minValid)
  {
    SplitAtWanted(idx, es, j, n - j, current, minValid);
    var next := PositionAt(idx, j + 1, |es|);
    var tail := Left(es[next..], n - j - 1, current, minValid);
    assert RemoveAt(es[..next] + tail, idx[j]) == es[..idx[j]] + (es[idx[j] + 1..next] + tail);
  }

  lemma ZipRemove<T>(ts: seq<T>, vs: seq<int>, gs: seq<int>, i: nat)
    requires |ts| == |vs| == |gs| && i < |ts|
    ensures Zip(RemoveAt(ts, i), RemoveAt(vs, i), RemoveAt(gs, i)) == RemoveAt(Zip(ts, vs, gs), i)
  {
  }

  /** One turn of the scan. */
  lemma ScanStep<T>(es: seq<Entry<T>>, i: nat, current: int, minValid: int)
    requires i < |es|
    ensures CountOld(es[..i + 1], minValid) == CountOld(es[..i], minValid) + if es[i].version < minValid then 1 else 0
    ensures CountValid(es[..i + 1], current, minValid)
         == CountValid(es[..i], current, minValid) + if minValid <= es[i].version <= current then 1 else 0
    ensures CountWanted(es[..i + 1], current, minValid)
         == CountWanted(es[..i], current, minValid) + if Wanted(es[i], current, minValid) then 1 else 0
  {
    assert es[..i + 1] == es[..i] + [es[i]];
    CountsAppend(es[..i], [es[i]], current, minValid);
  }

  class ReplayBuffer<T> {
    const maxSize: int
    var trajectories: seq<T>
    var trajectoryVersions: seq<int>
    var targetWeightVersions: seq<int>
    var lastTargetWeightAlreadyGenerated: int

    ghost predicate Valid()
      reads this
    {
      |trajectories| == |trajectoryVersions| == |targetWeightVersions| <= maxSize && maxSize > 0
    }

    ghost function Entries(): seq<Entry<T>>
      reads this
      requires Valid()
    {
      Zip(trajectories, trajectoryVersions, targetWeightVersions)
    }

    /** A non-positive size raises ValueError, so it is excluded here. */
    constructor (maxSize: int)
      requires maxSize > 0
      ensures Valid() && Entries() == [] && this.maxSize == maxSize
      ensures lastTargetWeightAlreadyGenerated == -1
    {
      this.maxSize := maxSize;
      trajectories, trajectoryVersions, targetWeightVersions := [], [], [];
      lastTargetWeightAlreadyGenerated := -1;
    }

    method PushWithWaitSignal(trajectory: T, weightVersion: int, targetWeightVersion: int) returns (status: PushStatus)
      requires Valid()
      modifies this
      ensures Valid()
      ensures status == Full <==> |old(Entries())| >= maxSize
      ensures Entries() == if status == Full then old(Entries())
                           else old(Entries()) + [Entry(trajectory, weightVersion, targetWeightVersion)]
      ensures lastTargetWeightAlreadyGenerated ==
              if status == Full then old(lastTargetWeightAlreadyGenerated)
              else Max(old(lastTargetWeightAlreadyGenerated), targetWeightVersion)
    {
      if |trajectories| >= maxSize { return Full; }
      trajectories := trajectories + [trajectory];
      trajectoryVersions := trajectoryVersions + [weightVersion];
      targetWeightVersions := targetWeightVersions + [targetWeightVersion];
      lastTargetWeightAlreadyGenerated := Max(lastTargetWeightAlreadyGenerated, targetWeightVersion);
      return Success;
    }

    /** `sample` is the filter of the specification: it takes the first `numPromptGroups` valid entries meant
        for this step, in push order, and leaves exactly the others; a refusal changes nothing. */
    method Sample(numPromptGroups: nat, currentWeightVersion: int, maxAgeSteps: int) returns (r: SampleResult<T>)
      requires Valid()
      modifies this
      ensures Valid()
      ensures r == Outcome(old(Entries()), numPromptGroups, currentWeightVersion, maxAgeSteps)
      ensures Entries() == AfterSample(old(Entries()), numPromptGroups, currentWeightVersion, maxAgeSteps)
      ensures lastTargetWeightAlreadyGenerated == old(lastTargetWeightAlreadyGenerated)
    {
      ghost var es := Entries();
      if trajectories == [] { return NotReady; }
      var minValid := MinValid(currentWeightVersion, maxAgeSteps);
      var old_, valid, intended := Scan(currentWeightVersion, minValid);
      if old_ > 0 { return TooOld(old_); }
      if valid == 0 || valid < numPromptGroups || |intended| < numPromptGroups {
        CountWantedLeValid(es, currentWeightVersion, minValid);
        return NotReady;
      }
      if numPromptGroups == 0 { return NoGroupsRequested; }
      var selected := intended[..numPromptGroups];
      TakenIsSelected(es, intended, 0, numPromptGroups, currentWeightVersion, minValid);
      var items := Select(trajectories, selected);
      var ages := Select(trajectoryVersions, selected);
      ghost var taken := Taken(es, numPromptGroups, currentWeightVersion, minValid);
      assert items == Trajectories(taken);
      assert ages == Versions(taken);
      var avg := currentWeightVersion as real - Sum(ages) as real / |ages| as real;
      PopSelected(intended, numPromptGroups, currentWeightVersion, minValid);
      return Sampled(items, avg);
    }

    /** The list comprehensions of `sample`: how many entries are too old, how many are valid, and the
        positions of those meant for this step. */
    method Scan(current: int, minValid: int) returns (tooOld: nat, valid: nat, intended: seq<int>)
      requires Valid()
      ensures tooOld == CountOld(Entries(), minValid) && valid == CountValid(Entries(), current, minValid)
      ensures intended == Positions(Entries(), |Entries()|, current, minValid)
      ensures |intended| == CountWanted(Entries(), current, minValid)
    {
      ghost var es := Entries();
      tooOld, valid, intended := 0, 0, [];
      for i := 0 to |trajectories|
        invariant tooOld == CountOld(es[..i], minValid) && valid == CountValid(es[..i], current, minValid)
        invariant intended == Positions(es, i, current, minValid)
        invariant |intended| == CountWanted(es[..i], current, minValid)
      {
        ScanStep(es, i, current, minValid);
        if trajectoryVersions[i] < minValid { tooOld := tooOld + 1; }
        if minValid <= trajectoryVersions[i] <= current {
          valid := valid + 1;
          if targetWeightVersions[i] == current { intended := intended + [i]; }
        }
      }
      assert es[..|es|] == es;
    }

    method PopAt(idx: nat)
      requires Valid() && idx < |Entries()|
      modifies this`trajectories, this`trajectoryVersions, this`targetWeightVersions
      ensures Valid() && Entries() == RemoveAt(old(Entries()), idx)
    {
      ZipRemove(trajectories, trajectoryVersions, targetWeightVersions, idx);
      trajectoryVersions := RemoveAt(trajectoryVersions, idx);
      targetWeightVersions := RemoveAt(targetWeightVersions, idx);
      trajectories := RemoveAt(trajectories, idx);
    }

    /** Popping the selected positions from the three lists, last position first. */
    method PopSelected(intended: seq<int>, n: nat, current: int, minValid: int)
      requires Valid() && n <= |intended|
      requires intended == Positions(Entries(), |Entries()|, current, minValid)
      modifies this`trajectories, this`trajectoryVersions, this`targetWeightVersions
      ensures Valid() && Entries() == Left(old(Entries()), n, current, minValid)
    {
      ghost var es := Entries();
      var j := n;
      PoppedNone(intended, es, n, current, minValid);
      PoppedAll(intended, es, n, current, minValid);
      hide Popped, Positions, Left, RemoveAt;
      while j > 0
        invariant 0 <= j <= n && Valid()
        invariant Entries() == Popped(intended, es, j, n, current, minValid)
      {
        j := j - 1;
        PopStep(intended, es, j, n, current, minValid);
        PopAt(intended[j]);
      }
    }

    method Clear()
      requires Valid()
      modifies this
      ensures Valid() && Entries() == []
      ensures lastTargetWeightAlreadyGenerated == old(lastTargetWeightAlreadyGenerated)
    {
      trajectories, trajectoryVersions, targetWeightVersions := [], [], [];
    }
  }

  lemma SkipToFirst<T>(idx: seq<int>, es: seq<Entry<T>>, n: nat, current: int, minValid: int)
    requires idx == Positions(es, |es|, current, minValid)
    ensures var from := PositionAt(idx, 0, |es|);
            && es[..from] + Left(es[from..], n, current, minValid) == Left(es, n, current, minValid)
            && Taken(es[from..], n, current, minValid) == Taken(es, n, current, minValid)
  {
    var from := PositionAt(idx, 0, |es|);
    NothingBetween(es, |es|, -1, current, minValid);
    SkipUnwanted(es, from, n, current, minValid);
  }

  lemma {:induction false} CountWantedLeValid<T>(es: seq<Entry<T>>, current: int, minValid: int)
    ensures CountWanted(es, current, minValid) <= CountValid(es, current, minValid)
  {
    if es == [] {
    } else {
      CountWantedLeValid(es[1..], current, minValid);
    }
  }

  lemma SelectCons<T>(xs: seq<T>, idx: seq<int>, rest: seq<int>)
    requires |idx| > 0 && rest == idx[1..] && InRange(idx, |xs|)
    ensures InRange(rest, |xs|) && Select(xs, idx) == [xs[idx[0]]] + Select(xs, rest)
  {
  }

  /** The entries at the first wanted positions are the entries taken. */
  lemma {:induction false} TakenFrom<T>(es: seq<Entry<T>>, idx: seq<int>, j: nat, n: nat, current: int, minValid: int)
    requires idx == Positions(es, |es|, current, minValid) && j + n <= |idx|
    ensures var from := PositionAt(idx, j, |es|);
            Taken(es[from..], n, current, minValid) == Select(es, idx[j..j + n])
    decreases n
  {
    hide Left, Positions;
    if n == 0 {
      assert idx[j..j + n] == [];
    } else {
      hide Taken;
      SplitAtWanted(idx, es, j, n, current, minValid);
      TakenFrom(es, idx, j + 1, n - 1, current, minValid);
      var part := idx[j..j + n];
      assert part[0] == idx[j] && part[1..] == idx[j + 1..j + n];
      SelectCons(es, part, idx[j + 1..j + n]);
    }
  }

  lemma TakenIsSelected<T>(es: seq<Entry<T>>, idx: seq<int>, j: nat, n: nat, current: int, minValid: int)
    requires idx == Positions(es, |es|, current, minValid) && n <= |idx|
    ensures Taken(es, n, current, minValid) == Select(es, idx[..n])
  {
    TakenFrom(es, idx, 0, n, current, minValid);
    SkipToFirst(idx, es, n, current, minValid);
  }

  // ------------------------------------------------------------ whole runs

  datatype Op<T> = PushOp(e: Entry<T>) | SampleOp(n: nat, current: int, maxAge: int) | ClearOp

  /** A buffer history: what it holds now and what went in and out. */
  datatype History<T(==)> = History(held: seq<Entry<T>>, pushed: multiset<Entry<T>>, sampled: multiset<Entry<T>>,
                                cleared: multiset<Entry<T>>)

  function Do<T(==)>(h: History<T>, op: Op<T>, maxSize: int): History<T> {
    match op
    case PushOp(e) =>
      if |h.held| >= maxSize then h else h.(held := h.held + [e], pushed := h.pushed + multiset{e})
    case SampleOp(n, current, maxAge) =>
      if Outcome(h.held, n, current, maxAge).Sampled? then
        h.(held := AfterSample(h.held, n, current, maxAge),
           sampled := h.sampled + multiset(Taken(h.held, n, current, MinValid(current, maxAge))))
      else h
    case ClearOp => h.(held := [], cleared := h.cleared + multiset(h.held))
  }

  function DoAll<T(==)>(ops: seq<Op<T>>, maxSize: int): History<T> {
    if ops == [] then History([], multiset{}, multiset{}, multiset{})
    else Do(DoAll(ops[..|ops| - 1], maxSize), ops[|ops| - 1], maxSize)
  }

  /** Over any run of operations nothing is lost or duplicated, and the buffer stays within its size. */
  lemma {:induction false} BufferConserves<T>(ops: seq<Op<T>>, maxSize: int)
    requires maxSize > 0
    ensures var h := DoAll(ops, maxSize);
            h.pushed == h.sampled + multiset(h.held) + h.cleared && |h.held| <= maxSize
  {
    if ops == [] {
    } else {
      BufferConserves(ops[..|ops| - 1], maxSize);
      var h := DoAll(ops[..|ops| - 1], maxSize);
      match ops[|ops| - 1]
      case PushOp(e) =>
      case SampleOp(n, current, maxAge) => SampleConserves(h.held, n, current, MinValid(current, maxAge));
      case ClearOp =>
    }
  }
}
