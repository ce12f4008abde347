/** Safety over whole runs of the asynchronous loop. */
module AsyncSafety {
  import opened ReplayBuffers
  import opened Sequences
  import opened AsyncProtocol
  import opened AsyncInvariant

  /** The safety of one state: age window, capacity, no exceptions. */
  predicate Safe(c: Config, s: State) {
    && (forall i :: 0 <= i < |Outstanding(s)| ==>
         var g := Outstanding(s)[i];
         g.target - c.maxAge <= g.version <= g.target && g.version <= s.version <= g.target)
    && |Outstanding(s)| <= c.BufferSize()
    && (forall i :: 0 <= i < |s.workers| && !s.workers[i].phase.Pushed? ==> |s.buffer| < c.BufferSize())
    && !s.trainer.Crashed?
    && !SampleOutcome(c, s).TooOld?
  }

  lemma InvIsSafe(c: Config, s: State)
    requires Inv(c, s)
    ensures Safe(c, s)
  {
    Capacity(c, s);
    OutstandingInWindow(c, s);
    Rooms(c, s);
    NeverTooOld(c, s);
    hide Inv, Outstanding, Undelivered, Floor, SampleOutcome;
    assert forall i :: 0 <= i < |Outstanding(s)| ==> Outstanding(s)[i] in Outstanding(s);
  }

  lemma Rooms(c: Config, s: State)
    requires Inv(c, s)
    ensures forall i :: 0 <= i < |s.workers| && !s.workers[i].phase.Pushed? ==> |s.buffer| < c.BufferSize()
  {
    hide Inv;
    forall i | 0 <= i < |s.workers| && !s.workers[i].phase.Pushed? ensures |s.buffer| < c.BufferSize() {
      PushFits(c, s, i);
    }
  }

  lemma NeverTooOld(c: Config, s: State)
    requires Inv(c, s)
    ensures !s.trainer.Crashed? && !SampleOutcome(c, s).TooOld?
  {
    NoneOld(s.buffer, MinValid(s.version, c.maxAge));
  }

  lemma OutstandingInWindow(c: Config, s: State)
    requires Inv(c, s)
    ensures forall g :: g in Outstanding(s) ==> InWindow(c, s.version, Floor(s), g)
  {
    forall g | g in Outstanding(s) ensures InWindow(c, s.version, Floor(s), g) {
      if g !in s.buffer { UndeliveredMember(s.workers, g); }
    }
  }

  /** In every state a run of current reservations reaches: each buffered or in-flight group is within its age
      window and its step is not over; the outstanding groups fit the buffer, so no push is refused; and `sample`
      never raises. */
  lemma AgeAndCapacity(c: Config, es: seq<Event>)
    requires c.Valid() && CurrentRun(c, Init(c), es)
    ensures Runs(c, Init(c), es) && Safe(c, Final(c, Init(c), es))
  {
    InitInv(c);
    RunKeepsInv(c, Init(c), es);
    InvIsSafe(c, Final(c, Init(c), es));
  }

  /** Targets are reserved in strictly increasing order, so none is generated twice; every group of a reserved
      target is in exactly one place, or was dropped after the data ended; the steps behind the trainer have consumed
      each of their prompts once. */
  lemma OnceEach(c: Config, es: seq<Event>)
    requires c.Valid() && CurrentRun(c, Init(c), es)
    ensures Runs(c, Init(c), es)
    ensures var s := Final(c, Init(c), es);
            && (forall i, j :: 0 <= i < j < |s.reservations| ==> s.reservations[i].target < s.reservations[j].target)
            && (forall t :: Reserved(s.reservations, t) ==>
                 Accounted(c, s.collector, s.workers, s.buffer, s.consumed, s.dropped, AllOf(t)) == c.prompts)
            && (s.dropped != [] ==> s.collector.Ended?)
            && (forall t, p: nat :: c.start <= t < s.version && p < c.prompts ==> Tally(s.consumed, One(t, p)) == 1)
            && (forall t :: t >= Floor(s) ==> Tally(s.consumed, AllOf(t)) == 0)
  {
    InitInv(c);
    RunKeepsInv(c, Init(c), es);
    var s := Final(c, Init(c), es);
    forall t, p: nat | c.start <= t < s.version && p < c.prompts ensures Tally(s.consumed, One(t, p)) == 1 {
      ConsumedOnce(c, s, t, p);
    }
    forall t | t >= Floor(s) ensures Tally(s.consumed, AllOf(t)) == 0 { TallyZero(s.consumed, AllOf(t)); }
  }

  /** A finished step consumed each prompt of its batch exactly once. */
  lemma ConsumedOnce(c: Config, s: State, t: int, p: nat)
    requires Inv(c, s) && c.start <= t < Floor(s) && p < c.prompts
    ensures Tally(s.consumed, One(t, p)) == 1
  {
    assert Accounted(c, s.collector, s.workers, s.buffer, s.consumed, s.dropped, AllOf(t)) > 0;
    assert Accounted(c, s.collector, s.workers, s.buffer, s.consumed, s.dropped, One(t, p)) == 1;
    DoneTarget(c, s, t);
    TallyZero(s.buffer, One(t, p));
    TallyZero(Undelivered(s.workers), One(t, p));
    NotDropped(c, s, t, p);
    forall g | g in Undelivered(s.workers) ensures g.target != t { UndeliveredMember(s.workers, g); }
  }

  /** A step that consumed its data dropped none of it. */
  lemma NotDropped(c: Config, s: State, t: int, p: nat)
    requires Inv(c, s) && Tally(s.consumed, AllOf(t)) == c.prompts
    ensures Tally(s.dropped, One(t, p)) == 0
  {
    assert Accounted(c, s.collector, s.workers, s.buffer, s.consumed, s.dropped, AllOf(t)) <= c.prompts;
    TallyZero(s.dropped, AllOf(t));
    TallyZero(s.dropped, One(t, p));
  }

  /** The exact race: reading the last generated target outside the critical section makes a duplicate
      reservation exactly when the chosen target has arrived meanwhile, that is, when checking it again against
      the current value under the lock would refuse it. */
  lemma DuplicateIffArrived(c: Config, s: State)
    requires Inv(c, s) && s.collector.LastRead?
    requires Pick(c, s, s.collector.gen, s.collector.seen).Some?
    ensures var t := Pick(c, s, s.collector.gen, s.collector.seen).value;
            (Reserved(s.reservations, t) <==> t <= s.last) && (Current(c, s, Reserve) <==> t > s.last)
  {
    var (g, seen) := (s.collector.gen, s.collector.seen);
    var t := Pick(c, s, g, seen).value;
    PickSpec(c, s, g, seen);
    PickSpec(c, s, g, s.last);
    if t > s.last {
      FreshTarget(c, s, g, t);
    } else {
      assert FirstTarget(c, Latest(s).gen) <= FirstTarget(c, g) <= t;
    }
  }

  /** No target was reserved twice. */
  ghost predicate NoDuplicates(rs: seq<Reservation>) {
    forall i, j :: 0 <= i < j < |rs| ==> rs[i].target != rs[j].target
  }

  lemma StepReservations(c: Config, s: State, e: Event)
    requires Enabled(c, s, e)
    ensures s.reservations <= Apply(c, s, e).reservations
  {
  }

  lemma {:induction false} RunKeepsReservations(c: Config, s: State, es: seq<Event>)
    requires Runs(c, s, es)
    ensures s.reservations <= Final(c, s, es).reservations
    decreases |es|
  {
    hide Enabled, Apply;
    if es == [] {
    } else {
      StepReservations(c, s, es[0]);
      RunKeepsReservations(c, Apply(c, s, es[0]), es[1..]);
    }
  }

  /** A reservation that is not current reserves something, and that for the second time. */
  lemma StaleReserveRepeats(c: Config, s: State, e: Event)
    requires Inv(c, s) && Enabled(c, s, e) && !Current(c, s, e)
    ensures !NoDuplicates(Apply(c, s, e).reservations)
  {
    hide Inv, Pick;
    var (g, seen) := (s.collector.gen, s.collector.seen);
    PickSpec(c, s, g, seen);
    PickSpec(c, s, g, s.last);
    SeenIsPast(c, s);
    DuplicateIffArrived(c, s);
    var t := Pick(c, s, g, seen).value;
    var i :| 0 <= i < |s.reservations| && s.reservations[i].target == t;
    var rs := Apply(c, s, e).reservations;
    assert rs[i].target == rs[|s.reservations|].target;
  }

  lemma SeenIsPast(c: Config, s: State)
    requires Inv(c, s) && s.collector.LastRead?
    ensures s.collector.seen <= s.last
  {
  }

  lemma InvHasNoDuplicates(c: Config, s: State)
    requires Inv(c, s)
    ensures NoDuplicates(s.reservations)
  {
  }

  lemma {:induction false} RunIsCurrentIff(c: Config, s: State, es: seq<Event>)
    requires Inv(c, s) && Runs(c, s, es)
    ensures CurrentRun(c, s, es) <==> NoDuplicates(Final(c, s, es).reservations)
    decreases |es|
  {
    hide Inv, Enabled, Current, Apply, NoDuplicates;
    if es == [] {
      InvHasNoDuplicates(c, s);
    } else if Current(c, s, es[0]) {
      StepKeepsInv(c, s, es[0]);
      RunIsCurrentIff(c, Apply(c, s, es[0]), es[1..]);
    } else {
      StaleReserveRepeats(c, s, es[0]);
      RunKeepsReservations(c, Apply(c, s, es[0]), es[1..]);
      PrefixDuplicates(Apply(c, s, es[0]).reservations, Final(c, s, es).reservations);
    }
  }

  lemma PrefixDuplicates(a: seq<Reservation>, b: seq<Reservation>)
    requires a <= b && !NoDuplicates(a)
    ensures !NoDuplicates(b)
  {
    var i, j :| 0 <= i < j < |a| && a[i].target == a[j].target;
    assert b[i] == a[i] && b[j] == a[j];
  }

  /** Over whole runs: the reservations of a run are all current if and only if no target is reserved twice. */
  lemma DuplicatesIffStale(c: Config, es: seq<Event>)
    requires c.Valid() && Runs(c, Init(c), es)
    ensures CurrentRun(c, Init(c), es) <==> NoDuplicates(Final(c, Init(c), es).reservations)
  {
    InitInv(c);
    RunIsCurrentIff(c, Init(c), es);
  }

  // ------------------------------------------------------------ the wait before a refit

  /** While weights are refitted at most one worker runs, one that the thread was about to spawn when the pause came;
      with in-flight updates any number may. */
  predicate Quiet(c: Config, s: State) {
    s.trainer.Refitting? && !c.inFlight ==>
      |s.workers| + (if s.collector.Spawning? || s.collector.Woken? then 1 else 0) <= 1
  }

  lemma RefitIsPaused(c: Config, s: State)
    requires Inv(c, s) && s.trainer.Refitting?
    ensures s.paused && s.mailbox == []
  {
    hide ConservationOk, ConsumedOk, BufferOk, WorkersOk, ReservationsOk, GeneratingOk, CollectorOk, LimitOk;
  }

  lemma PausedKeepsQuiet(c: Config, s: State, e: Event)
    requires s.trainer.Refitting? ==> s.paused && s.mailbox == []
    requires Quiet(c, s) && Enabled(c, s, e)
    ensures Quiet(c, Apply(c, s, e))
  {
    hide SampleOutcome, ApplySample, Pick;
    if e.TrySample? { SampleDoesNotRefit(c, s); }
  }

  lemma SampleDoesNotRefit(c: Config, s: State)
    requires s.trainer.Sampling?
    ensures !ApplySample(c, s).trainer.Refitting?
  {
    hide SampleOutcome;
  }

  lemma StepKeepsQuiet(c: Config, s: State, e: Event)
    requires Inv(c, s) && Quiet(c, s) && Enabled(c, s, e)
    ensures Quiet(c, Apply(c, s, e))
  {
    hide Inv, Quiet, Enabled, Apply;
    if s.trainer.Refitting? { RefitIsPaused(c, s); }
    PausedKeepsQuiet(c, s, e);
  }

  lemma {:induction false} RunKeepsQuiet(c: Config, s: State, es: seq<Event>)
    requires Inv(c, s) && Quiet(c, s) && CurrentRun(c, s, es) && Runs(c, s, es)
    ensures Quiet(c, Final(c, s, es))
    decreases |es|
  {
    hide Inv, Quiet, Enabled, Apply, Current;
    if es == [] {
    } else {
      StepKeepsQuiet(c, s, es[0]);
      StepKeepsInv(c, s, es[0]);
      RunKeepsQuiet(c, Apply(c, s, es[0]), es[1..]);
    }
  }

  /** In every state of every current run a refit is quiet. */
  lemma RefitIsQuiet(c: Config, es: seq<Event>)
    requires c.Valid() && CurrentRun(c, Init(c), es)
    ensures Runs(c, Init(c), es) && Quiet(c, Final(c, Init(c), es))
  {
    CurrentRunRuns(c, Init(c), es);
    InitInv(c);
    RunKeepsQuiet(c, Init(c), es);
  }

  /** Between the pause and the refit there was a moment without any worker: whichever ran when the pause was handled
      had finished. */
  lemma {:induction false} RefitWaits(c: Config, s: State, es: seq<Event>) returns (k: nat)
    requires !c.inFlight && s.trainer.AwaitingDrain? && Runs(c, s, es) && Final(c, s, es).trainer.Refitting?
    ensures k <= |es| && Runs(c, s, es[..k]) && Final(c, s, es[..k]).workers == []
    decreases |es|
  {
    hide Apply, Enabled;
    k := 0;
    if s.workers == [] {
    } else {
      DrainingStep(c, s, es[0]);
      var j := RefitWaits(c, Apply(c, s, es[0]), es[1..]);
      k := j + 1;
      assert es[..k][0] == es[0] && es[..k][1..] == es[1..][..j];
    }
  }

  lemma DrainingStep(c: Config, s: State, e: Event)
    requires !c.inFlight && s.trainer.AwaitingDrain? && Enabled(c, s, e)
    ensures Apply(c, s, e).trainer.AwaitingDrain? || s.workers == []
  {
  }

  // ------------------------------------------------------------ the data

  /** The thread has taken a batch and not reserved a target for it yet. */
  predicate Holding(collector: Collector) {
    !(collector.LoopTop? || collector.Ended? || collector.AtPrompt? || collector.WaitingRefit? || collector.Woken?
      || collector.Spawning?)
  }

  /** The thread ends only when all batches were taken, and every reservation took a batch of its own. */
  predicate DataOk(c: Config, s: State) {
    && (s.collector.Ended? ==> s.data == 0)
    && |s.reservations| + (if Holding(s.collector) then 1 else 0) + s.data <= c.batches
  }

  lemma StepKeepsData(c: Config, s: State, e: Event)
    requires DataOk(c, s) && Enabled(c, s, e)
    ensures DataOk(c, Apply(c, s, e))
  {
    hide SampleOutcome, Pick;
  }

  lemma {:induction false} RunKeepsData(c: Config, s: State, es: seq<Event>)
    requires DataOk(c, s) && Runs(c, s, es)
    ensures DataOk(c, Final(c, s, es))
    decreases |es|
  {
    hide DataOk, Enabled, Apply;
    if es == [] {
    } else {
      StepKeepsData(c, s, es[0]);
      RunKeepsData(c, Apply(c, s, es[0]), es[1..]);
    }
  }

  /** In every state of every run, current or not, no more targets are reserved than batches were taken, and the thread
      has ended only if all were. */
  lemma BatchesBoundReservations(c: Config, es: seq<Event>)
    requires Runs(c, Init(c), es)
    ensures DataOk(c, Final(c, Init(c), es))
  {
    RunKeepsData(c, Init(c), es);
  }

  /** Each step keeps the workers within the semaphore's slots. */
  lemma StepKeepsSlots(c: Config, s: State, e: Event)
    requires |s.workers| <= c.Slots() && Enabled(c, s, e)
    ensures |Apply(c, s, e).workers| <= c.Slots()
  {
    hide SampleOutcome, Pick;
  }

  /** In every state of every run at most num_prompts_per_step * max_trajectory_age_steps workers are alive. */
  lemma {:induction false} WorkersFitSlots(c: Config, s: State, es: seq<Event>)
    requires |s.workers| <= c.Slots() && Runs(c, s, es)
    ensures |Final(c, s, es).workers| <= c.prompts * c.maxAge
    decreases |es|
  {
    hide Enabled, Apply;
    if es == [] {
    } else {
      StepKeepsSlots(c, s, es[0]);
      WorkersFitSlots(c, Apply(c, s, es[0]), es[1..]);
    }
  }

  /** What a step asks of the replay buffer, if anything. */
  function BufferOp(c: Config, s: State, e: Event): Option<Op<nat>>
    requires Enabled(c, s, e)
  {
    match e
    case Push(w) => Some(PushOp(s.workers[w].group))
    case TrySample => Some(SampleOp(c.prompts, s.version, c.maxAge))
    case _ => None
  }

  /** Every step changes the buffer as the replay buffer's own operation does, refusals at its size included. */
  lemma StepUsesBuffer(c: Config, s: State, e: Event, h: History<nat>)
    requires Enabled(c, s, e) && h.held == s.buffer
    ensures var op := BufferOp(c, s, e);
            Apply(c, s, e).buffer == if op.Some? then Do(h, op.value, c.BufferSize()).held else s.buffer
  {
    hide Pick, Outcome;
  }

  /** Only these give up a reservation: the first prompt's worker once it has delivered, a worker that finishes after
      its own delivery, and one that drops its group after the end of the data. */
  lemma GivenUpBy(c: Config, s: State, e: Event, t: int)
    requires Enabled(c, s, e) && t in s.generating && t !in Apply(c, s, e).generating
    ensures e.Release? || e.Finish? || e.Abandon?
    ensures e.w < |s.workers| && s.workers[e.w].group.target == t
    ensures var (phase, prompt) := (s.workers[e.w].phase, s.workers[e.w].group.trajectory);
            if phase.Pushed? then e.Finish? || prompt == 0 else e.Abandon? && phase.Rolling? && s.collector.Ended?
  {
    hide SampleOutcome, Pick;
  }

  // ------------------------------------------------------------ the start, and the stamp after a refit

  /** Past the warm-up a whole step's groups have arrived: they are buffered or consumed. */
  predicate Started(c: Config, s: State) {
    s.trainer.Warmup? || |s.buffer| + |s.consumed| >= c.prompts
  }

  lemma StepKeepsStarted(c: Config, s: State, e: Event)
    requires Started(c, s) && Enabled(c, s, e)
    ensures Started(c, Apply(c, s, e))
  {
    hide SampleOutcome, Pick, ApplySample;
    if e.TrySample? { SampleKeepsCount(c, s); }
  }

  lemma SampleKeepsCount(c: Config, s: State)
    requires s.trainer.Sampling?
    ensures |ApplySample(c, s).buffer| + |ApplySample(c, s).consumed| == |s.buffer| + |s.consumed|
    ensures !ApplySample(c, s).trainer.Warmup?
  {
    var low := MinValid(s.version, c.maxAge);
    SampleConserves(s.buffer, c.prompts, s.version, low);
    var (taken, left) := (Taken(s.buffer, c.prompts, s.version, low), Left(s.buffer, c.prompts, s.version, low));
    assert |multiset(taken) + multiset(left)| == |taken| + |left| && |multiset(s.buffer)| == |s.buffer|;
    hide SampleOutcome, Taken, Left;
  }

  lemma {:induction false} RunKeepsStarted(c: Config, s: State, es: seq<Event>)
    requires Started(c, s) && Runs(c, s, es)
    ensures Started(c, Final(c, s, es))
    decreases |es|
  {
    hide Started, Enabled, Apply;
    if es == [] {
    } else {
      StepKeepsStarted(c, s, es[0]);
      RunKeepsStarted(c, Apply(c, s, es[0]), es[1..]);
    }
  }

  /** In every run the first sample is asked for only after a whole step's groups have arrived. */
  lemma StartsWithWholeStep(c: Config, es: seq<Event>)
    requires Runs(c, Init(c), es)
    ensures Started(c, Final(c, Init(c), es))
  {
    RunKeepsStarted(c, Init(c), es);
  }

  /** The thread waits for a refit, or is about to spawn a group stamped `version` or later. */
  predicate Restamps(s: State, version: int) {
    version <= s.cur
    && (s.collector.WaitingRefit? || s.collector.Woken? || (s.collector.Spawning? && s.collector.gen >= version))
  }

  lemma NextVersion(c: Config, s: State)
    requires Inv(c, s) && s.mailbox != [] && s.mailbox[0].SetVersion?
    ensures s.cur <= s.mailbox[0].version
  {
    hide ConservationOk, ConsumedOk, BufferOk, WorkersOk, ReservationsOk, GeneratingOk, CollectorOk, LimitOk;
  }

  lemma VersionGrows(c: Config, s: State, e: Event)
    requires Inv(c, s) && Enabled(c, s, e)
    ensures s.cur <= Apply(c, s, e).cur
  {
    hide Inv, SampleOutcome, Pick;
    if e.Deliver? && s.mailbox[0].SetVersion? { NextVersion(c, s); }
  }

  lemma StepKeepsRestamp(c: Config, s: State, e: Event, version: int)
    requires Restamps(s, version) && Enabled(c, s, e) && !e.Spawn? && s.cur <= Apply(c, s, e).cur
    ensures Restamps(Apply(c, s, e), version)
  {
    hide SampleOutcome, Pick;
  }

  /** A thread that has waited for a refit spawns its next group with the version of the time it waited, or a later
      one: what was generated for before the refit is not stamped on what is generated after it. */
  lemma {:induction false} StampedAfterRefit(c: Config, s: State, es: seq<Event>, version: int)
    requires Inv(c, s) && CurrentRun(c, s, es) && Restamps(s, version) && Spawn !in es
    ensures Runs(c, s, es) && Restamps(Final(c, s, es), version)
    decreases |es|
  {
    hide Inv, Restamps, Enabled, Apply, Current;
    if es == [] {
    } else {
      VersionGrows(c, s, es[0]);
      StepKeepsRestamp(c, s, es[0], version);
      StepKeepsInv(c, s, es[0]);
      StampedAfterRefit(c, Apply(c, s, es[0]), es[1..], version);
    }
  }
}
