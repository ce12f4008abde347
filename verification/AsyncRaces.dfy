/** Five runs of the loop as written, with one prompt per step and an age limit of one: one spawns a worker while
    weights are refitted, one reserves a target twice and ends in the age error, and three starve the trainer: by a
    refit before the next reservation, by a wake-up lost at the generation limit, and by the end of the data. */
module AsyncRaces {
  import opened Sequences
  import opened ReplayBuffers
  import opened AsyncProtocol
  import opened AsyncInvariant
  import opened AsyncProgress

  /** With a dataloader of `n` batches. */
  function Small(n: nat): Config {
    Config(1, 1, 0, false, n)
  }

  // ------------------------------------------------------------ stretches of runs

  /** `s` can be reached from the start by `es`; in the second case by current reservations only. */
  ghost predicate Leads(n: nat, es: seq<Event>, s: State) {
    Runs(Small(n), Init(Small(n)), es) && s == Final(Small(n), Init(Small(n)), es)
  }

  ghost predicate LeadsCurrently(n: nat, es: seq<Event>, s: State) {
    Leads(n, es, s) && CurrentRun(Small(n), Init(Small(n)), es)
  }

  lemma Begin(n: nat)
    ensures LeadsCurrently(n, [], Init(Small(n)))
  {
  }

  lemma Forget(n: nat, es: seq<Event>, s: State)
    requires LeadsCurrently(n, es, s)
    ensures Leads(n, es, s)
  {
  }

  lemma Go(n: nat, es: seq<Event>, e: Event, s: State) returns (es': seq<Event>, s': State)
    requires Leads(n, es, s) && Enabled(Small(n), s, e)
    ensures Leads(n, es', s') && s' == Apply(Small(n), s, e)
    ensures LeadsCurrently(n, es, s) && Current(Small(n), s, e) ==> LeadsCurrently(n, es', s')
  {
    RunAppend(Small(n), Init(Small(n)), es, e);
    es', s' := es + [e], Apply(Small(n), s, e);
  }

  /** The initial version is delivered. */
  lemma Start(n: nat) returns (es: seq<Event>, s: State)
    ensures Leads(n, es, s) && LeadsCurrently(n, es, s) && s == Init(Small(n)).(mailbox := [])
  {
    Begin(n);
    Forget(n, [], Init(Small(n)));
    hide Leads, LeadsCurrently;
    es, s := [], Init(Small(n));
    es, s := Go(n, es, Deliver, s);
    es, s := Go(n, es, Deliver, s);
  }

  /** The thread takes a batch, finds a target free, and reads the last generated one. */
  lemma Fetch(n: nat, es0: seq<Event>, s0: State) returns (es: seq<Event>, s: State)
    requires Leads(n, es0, s0) && s0.collector.LoopTop? && s0.data > 0 && !s0.paused
    requires Pick(Small(n), s0, s0.cur, s0.last).Some?
    ensures Leads(n, es, s) && (LeadsCurrently(n, es0, s0) ==> LeadsCurrently(n, es, s))
    ensures s == s0.(collector := LastRead(s0.cur, s0.last), data := s0.data - 1)
  {
    hide Leads, LeadsCurrently;
    es, s := es0, s0;
    es, s := Go(n, es, TakeBatch, s);
    es, s := Go(n, es, PassPause, s);
    es, s := Go(n, es, StartCheck, s);
    es, s := Go(n, es, ReadForCheck, s);
    es, s := Go(n, es, Decide, s);
    es, s := Go(n, es, BeginBatch, s);
    es, s := Go(n, es, ReadLast, s);
  }

  /** The thread reserves the target and spawns its one worker. */
  lemma Launch(n: nat, es0: seq<Event>, s0: State, t: int) returns (es: seq<Event>, s: State)
    requires Leads(n, es0, s0) && s0.collector.LastRead? && !s0.paused && s0.workers == []
    requires Pick(Small(n), s0, s0.collector.gen, s0.collector.seen) == Some(t)
    ensures Leads(n, es, s)
    ensures LeadsCurrently(n, es0, s0) && Current(Small(n), s0, Reserve) ==> LeadsCurrently(n, es, s)
    ensures s == s0.(collector := LoopTop, generating := s0.generating + {t},
                     reservations := s0.reservations + [Reservation(s0.collector.gen, t)],
                     workers := [Worker(Entry(0, s0.collector.gen, t), Rolling)])
  {
    hide Leads, LeadsCurrently;
    es, s := es0, s0;
    es, s := Go(n, es, Reserve, s);
    es, s := Go(n, es, CheckRefit, s);
    es, s := Go(n, es, Spawn, s);
  }

  /** The worker delivers its group and leaves. */
  lemma Land(n: nat, es0: seq<Event>, s0: State, g: Group) returns (es: seq<Event>, s: State)
    requires Leads(n, es0, s0) && s0.workers == [Worker(g, Rolling)] && !s0.collector.Ended? && |s0.buffer| < 2
    ensures Leads(n, es, s) && (LeadsCurrently(n, es0, s0) ==> LeadsCurrently(n, es, s))
    ensures s == s0.(buffer := s0.buffer + [g], last := Max(s0.last, g.target), workers := [],
                     generating := s0.generating - {g.target})
  {
    hide Leads, LeadsCurrently;
    es, s := es0, s0;
    es, s := Go(n, es, StartPush(0), s);
    es, s := Go(n, es, Push(0), s);
    es, s := Go(n, es, Finish(0), s);
  }

  /** The trainer trains, waits for the pause, finds nothing pending, and begins to refit. */
  lemma Pause(n: nat, es0: seq<Event>, s0: State) returns (es: seq<Event>, s: State)
    requires Leads(n, es0, s0) && s0.trainer.Training? && s0.mailbox == [] && s0.workers == []
    ensures Leads(n, es, s) && (LeadsCurrently(n, es0, s0) ==> LeadsCurrently(n, es, s))
    ensures s == s0.(trainer := Refitting, paused := true)
  {
    hide Leads, LeadsCurrently;
    es, s := es0, s0;
    es, s := Go(n, es, Trained, s);
    es, s := Go(n, es, Deliver, s);
    es, s := Go(n, es, Drained, s);
  }

  /** The trainer trains, waits for the pause, and moves on to the next version. */
  lemma Refit(n: nat, es0: seq<Event>, s0: State) returns (es: seq<Event>, s: State)
    requires Leads(n, es0, s0) && s0.trainer.Training? && s0.mailbox == [] && s0.workers == []
    ensures Leads(n, es, s) && (LeadsCurrently(n, es0, s0) ==> LeadsCurrently(n, es, s))
    ensures s == s0.(trainer := Sampling, version := s0.version + 1, paused := true,
                     mailbox := [SetVersion(s0.version + 1), Resume])
  {
    hide Leads, LeadsCurrently;
    es, s := Pause(n, es0, s0);
    es, s := Go(n, es, Bump, s);
  }

  /** The collector learns the version and resumes. */
  lemma Sync(n: nat, es0: seq<Event>, s0: State) returns (es: seq<Event>, s: State)
    requires Leads(n, es0, s0) && s0.mailbox == [SetVersion(s0.version), Resume]
    ensures Leads(n, es, s) && (LeadsCurrently(n, es0, s0) ==> LeadsCurrently(n, es, s))
    ensures s == s0.(cur := s0.version, limitCleared := true, paused := false, mailbox := [])
  {
    hide Leads, LeadsCurrently;
    es, s := es0, s0;
    es, s := Go(n, es, Deliver, s);
    es, s := Go(n, es, Deliver, s);
    es, s := Go(n, es, Deliver, s);
  }

  /** Sampling one group finds it at the front. */
  lemma SampleFirst(rest: seq<Group>, version: nat)
    requires |rest| <= 1 && version <= 1 && forall g :: g in rest ==> g.version == 0
    ensures var es := [Entry(0, 0, version)] + rest;
            && Outcome(es, 1, version, 1).Sampled?
            && Left(es, 1, version, 0) == rest && Taken(es, 1, version, 0) == [Entry(0, 0, version)]
  {
    var es := [Entry(0, 0, version)] + rest;
    assert es[1..] == rest;
    assert MinValid(version, 1) == 0;
    if rest != [] {
      assert rest[0] in rest && rest[1..] == [];
    }
    assert CountOld(rest, 0) == 0 && CountOld(es, 0) == 0;
    assert Wanted(es[0], version, 0);
    CountWantedLeValid(es, version, 0);
  }

  /** The trainer samples the group at the front of the buffer. */
  lemma SampleFront(n: nat, es0: seq<Event>, s0: State, rest: seq<Group>) returns (es: seq<Event>, s: State)
    requires Leads(n, es0, s0) && s0.trainer.Sampling? && 0 <= s0.version <= 1 && |rest| <= 1
    requires s0.buffer == [Entry(0, 0, s0.version)] + rest && forall g :: g in rest ==> g.version == 0
    ensures Leads(n, es, s) && (LeadsCurrently(n, es0, s0) ==> LeadsCurrently(n, es, s))
    ensures s == s0.(buffer := rest, trainer := Training, consumed := s0.consumed + [Entry(0, 0, s0.version)])
  {
    hide Leads, LeadsCurrently;
    SampleFirst(rest, s0.version);
    es, s := Go(n, es0, TrySample, s0);
  }

  /** A batch for target 0 is spawned and delivered. */
  lemma FirstGroup(n: nat) returns (es: seq<Event>, s: State)
    requires n > 0
    ensures Leads(n, es, s) && LeadsCurrently(n, es, s)
    ensures s == Init(Small(n)).(mailbox := [], data := n - 1, buffer := [Entry(0, 0, 0)], last := 0,
                                 reservations := [Reservation(0, 0)])
  {
    hide Leads, LeadsCurrently;
    es, s := Start(n);
    PickSpec(Small(n), s, 0, -1);
    es, s := Fetch(n, es, s);
    PickSpec(Small(n), s, 0, -1);
    es, s := Launch(n, es, s, 0);
    es, s := Land(n, es, s, Entry(0, 0, 0));
    assert s.generating == {};
  }

  // ------------------------------------------------------------ a worker during a refit

  /** The thread finds no pause and is about to spawn; the pause comes and nothing is pending, so the refit begins; and
      then the worker is spawned and generates while the weights change. */
  lemma SpawnDuringRefitIsReachable() returns (es: seq<Event>, s: State)
    ensures LeadsCurrently(2, es, s)
    ensures s.trainer.Refitting? && s.paused && s.workers == [Worker(Entry(0, 0, 1), Rolling)]
  {
    hide Leads, LeadsCurrently;
    es, s := FirstGroup(2);
    es, s := Go(2, es, WarmupDone, s);
    assert s.buffer == [Entry(0, 0, 0)] + [];
    es, s := SampleFront(2, es, s, []);
    PickSpec(Small(2), s, 0, 0);
    es, s := Fetch(2, es, s);
    PickSpec(Small(2), s, 0, 0);
    es, s := SpawnLate(es, s, 1);
  }

  lemma SpawnLate(es0: seq<Event>, s0: State, t: int) returns (es: seq<Event>, s: State)
    requires Leads(2, es0, s0) && s0.collector == LastRead(0, s0.last) && !s0.paused && s0.workers == []
    requires s0.trainer.Training? && s0.mailbox == [] && Pick(Small(2), s0, 0, s0.last) == Some(t)
    ensures Leads(2, es, s) && (LeadsCurrently(2, es0, s0) ==> LeadsCurrently(2, es, s))
    ensures s.trainer.Refitting? && s.paused && s.workers == [Worker(Entry(0, 0, t), Rolling)]
  {
    hide Leads, LeadsCurrently, Pick;
    es, s := es0, s0;
    es, s := Go(2, es, Reserve, s);
    es, s := Go(2, es, CheckRefit, s);
    es, s := Pause(2, es, s);
    es, s := Go(2, es, Spawn, s);
  }

  // ------------------------------------------------------------ starvation

  lemma Stuck(n: nat, es: seq<Event>, s: State)
    requires LeadsCurrently(n, es, s) && s.trainer.Waiting()
    ensures Inv(Small(n), s)
    ensures !s.collector.Ended? && !Reserved(s.reservations, s.version) && !Reservable(Small(n), s)
            ==> !CanSample(Small(n), s)
  {
    InitInv(Small(n));
    RunKeepsInv(Small(n), Init(Small(n)), es);
    hide Inv;
    SamplingPossibleIff(Small(n), s);
  }

  /** The trainer samples, trains, refits and moves on to step 1 before the collection thread has reserved it. From then
      on no run of any length gets data, although batches are left. */
  lemma StarvationIsReachable() returns (es: seq<Event>, s: State)
    ensures LeadsCurrently(2, es, s)
    ensures s.trainer.Sampling? && s.version == 1 && s.data == 1 && !s.collector.Ended? && !CanSample(Small(2), s)
  {
    hide Leads, LeadsCurrently, CanSample;
    es, s := FirstGroup(2);
    es, s := Go(2, es, WarmupDone, s);
    assert s.buffer == [Entry(0, 0, 0)] + [];
    es, s := SampleFront(2, es, s, []);
    es, s := Refit(2, es, s);
    es, s := Sync(2, es, s);
    Stuck(2, es, s);
  }

  /** The thread finds targets 0 and 1 taken; version 1 comes before it clears the event of the generation limit; so it
      clears the event after it was set, and waits for version 2, when it is too late for target 2. */
  lemma LostWakeUpIsReachable() returns (es: seq<Event>, s: State)
    ensures LeadsCurrently(3, es, s)
    ensures s.trainer.Sampling? && s.version == 2 && s.cur == 1 && s.collector.AwaitingLimit?
    ensures !CanSample(Small(3), s)
  {
    hide Leads, LeadsCurrently, CanSample;
    es, s := SecondGroup();
    es, s := AtTheLimit(es, s);
    es, s := Go(3, es, WarmupDone, s);
    assert s.buffer == [Entry(0, 0, 0)] + [Entry(0, 0, 1)];
    es, s := SampleFront(3, es, s, [Entry(0, 0, 1)]);
    es, s := Refit(3, es, s);
    es, s := Sync(3, es, s);
    es, s := Go(3, es, Warn, s);
    es, s := Go(3, es, Clear, s);
    es, s := LastOfTwo(es, s);
    Stuck(3, es, s);
  }

  lemma SecondGroup() returns (es: seq<Event>, s: State)
    ensures Leads(3, es, s) && LeadsCurrently(3, es, s)
    ensures s == Init(Small(3)).(mailbox := [], data := 1, buffer := [Entry(0, 0, 0), Entry(0, 0, 1)], last := 1,
                                 reservations := [Reservation(0, 0), Reservation(0, 1)])
  {
    hide Leads, LeadsCurrently;
    es, s := FirstGroup(3);
    PickSpec(Small(3), s, 0, 0);
    es, s := Fetch(3, es, s);
    PickSpec(Small(3), s, 0, 0);
    es, s := Launch(3, es, s, 1);
    es, s := Land(3, es, s, Entry(0, 0, 1));
    assert s.generating == {};
  }

  lemma AtTheLimit(es0: seq<Event>, s0: State) returns (es: seq<Event>, s: State)
    requires Leads(3, es0, s0) && LeadsCurrently(3, es0, s0) && s0.collector.LoopTop? && s0.data == 1 && !s0.paused
    requires s0.cur == 0 && s0.last == 1
    ensures Leads(3, es, s) && LeadsCurrently(3, es, s) && s == s0.(collector := AtLimit, data := 0)
  {
    hide Leads, LeadsCurrently;
    es, s := es0, s0;
    es, s := Go(3, es, TakeBatch, s);
    es, s := Go(3, es, PassPause, s);
    es, s := Go(3, es, StartCheck, s);
    es, s := Go(3, es, ReadForCheck, s);
    PickSpec(Small(3), s, 0, 1);
    es, s := Go(3, es, Decide, s);
  }

  lemma LastOfTwo(es0: seq<Event>, s0: State) returns (es: seq<Event>, s: State)
    requires Leads(3, es0, s0) && LeadsCurrently(3, es0, s0) && s0.trainer.Sampling? && s0.version == 1
    requires s0.buffer == [Entry(0, 0, 1)] && s0.mailbox == [] && s0.workers == []
    ensures Leads(3, es, s) && LeadsCurrently(3, es, s)
    ensures s == s0.(buffer := [], consumed := s0.consumed + [Entry(0, 0, 1)], version := 2, paused := true,
                     mailbox := [SetVersion(2), Resume])
  {
    hide Leads, LeadsCurrently;
    assert s0.buffer == [Entry(0, 0, 1)] + [];
    es, s := SampleFront(3, es0, s0, []);
    es, s := Refit(3, es, s);
  }

  /** A dataloader of one batch: its target is reserved and its worker runs, but the dataloader is exhausted before the
      worker delivers. It will not deliver any more, although nothing failed. */
  lemma OneBatchStarves() returns (es: seq<Event>, s: State)
    ensures LeadsCurrently(1, es, s)
    ensures s.trainer.Waiting() && Reserved(s.reservations, s.version) && s.workers != []
    ensures !CanSample(Small(1), s)
  {
    hide Leads, LeadsCurrently, CanSample;
    es, s := Start(1);
    PickSpec(Small(1), s, 0, -1);
    es, s := Fetch(1, es, s);
    PickSpec(Small(1), s, 0, -1);
    es, s := Launch(1, es, s, 0);
    es, s := Go(1, es, DataEnds, s);
    assert s.reservations[0].target == 0;
    OneInPush(s.workers[0], AllOf(0));
    Stuck(1, es, s);
    SamplingPossibleIff(Small(1), s);
  }

  // ------------------------------------------------------------ a target twice

  /** The thread reads the last generated target, then the only group of target 0 arrives and gives up its
      reservation, and the thread reserves 0 again. One of the two groups of step 0 stays behind; two versions
      later `sample` finds it too old and raises, although no worker failed. */
  lemma DuplicateReservationIsReachable() returns (es: seq<Event>, s: State)
    ensures Leads(3, es, s)
    ensures s.reservations == [Reservation(0, 0), Reservation(0, 0), Reservation(0, 1)]
    ensures s.trainer.Crashed? && s.buffer == [Entry(0, 0, 0)] && s.version == 2
  {
    hide Leads, LeadsCurrently;
    es, s := SecondCopy();
    PickSpec(Small(3), s, 0, 0);
    es, s := Fetch(3, es, s);
    es, s := Go(3, es, WarmupDone, s);
    assert s.buffer == [Entry(0, 0, 0)] + [Entry(0, 0, 0)];
    es, s := SampleFront(3, es, s, [Entry(0, 0, 0)]);
    PickSpec(Small(3), s, 0, 0);
    es, s := Launch(3, es, s, 1);
    es, s := Land(3, es, s, Entry(0, 0, 1));
    es, s := Refit(3, es, s);
    es, s := Sync(3, es, s);
    es, s := LeftBehind(es, s);
  }

  lemma SecondCopy() returns (es: seq<Event>, s: State)
    ensures Leads(3, es, s)
    ensures s == Init(Small(3)).(mailbox := [], data := 1, buffer := [Entry(0, 0, 0), Entry(0, 0, 0)], last := 0,
                                 reservations := [Reservation(0, 0), Reservation(0, 0)])
  {
    hide Leads, LeadsCurrently;
    es, s := Start(3);
    PickSpec(Small(3), s, 0, -1);
    es, s := Fetch(3, es, s);
    PickSpec(Small(3), s, 0, -1);
    es, s := Launch(3, es, s, 0);
    assert 1 !in s.generating;
    PickSpec(Small(3), s, 0, -1);
    es, s := Fetch(3, es, s);
    es, s := Land(3, es, s, Entry(0, 0, 0));
    PickSpec(Small(3), s, 0, -1);
    es, s := Launch(3, es, s, 0);
    es, s := Land(3, es, s, Entry(0, 0, 0));
    assert s.generating == {};
  }

  lemma LeftBehind(es0: seq<Event>, s0: State) returns (es: seq<Event>, s: State)
    requires Leads(3, es0, s0) && s0.trainer.Sampling? && s0.version == 1 && s0.mailbox == [] && s0.workers == []
    requires s0.buffer == [Entry(0, 0, 0), Entry(0, 0, 1)]
    ensures Leads(3, es, s) && s.reservations == s0.reservations
    ensures s.trainer.Crashed? && s.buffer == [Entry(0, 0, 0)] && s.version == 2
  {
    hide Leads, LeadsCurrently;
    SampleSecond();
    es, s := Go(3, es0, TrySample, s0);
    es, s := Refit(3, es, s);
    assert SampleOutcome(Small(3), s).TooOld?;
    es, s := Go(3, es, TrySample, s);
  }

  /** At version 1 the group of target 0 is passed over. */
  lemma SampleSecond()
    ensures var es: seq<Group> := [Entry(0, 0, 0), Entry(0, 0, 1)];
            Outcome(es, 1, 1, 1).Sampled? && Left(es, 1, 1, 0) == [Entry(0, 0, 0)]
  {
    var es: seq<Group> := [Entry(0, 0, 0), Entry(0, 0, 1)];
    assert es[1..] == [Entry(0, 0, 1)] + [];
    SampleFirst([], 1);
    assert MinValid(1, 1) == 0;
  }
}
