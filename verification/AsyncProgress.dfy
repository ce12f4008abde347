/** When the asynchronous loop can go on: sampling for the current step is possible exactly when its target is
    reserved or can still be reserved or, once the data has ended, when enough of its groups got through; otherwise the
    trainer waits forever. */
module AsyncProgress {
  import opened Sequences
  import opened ReplayBuffers
  import opened AsyncProtocol
  import opened AsyncInvariant

  // ------------------------------------------------------------ work

  function PromptsLeft(c: Config, next: nat): nat {
    if next <= c.prompts then c.prompts - next else 0
  }

  /** What one batch of the dataloader can cost. */
  function BatchCost(c: Config): nat {
    8 * c.prompts + 14
  }

  /** What the thread's place still costs until it takes the next batch, with the workers it spawns. */
  function ThreadWork(c: Config, collector: Collector): nat {
    match collector
    case LoopTop => 1
    case HasBatch => 8 * c.prompts + 14
    case PastPause => 8 * c.prompts + 13
    case CheckingLimit(_) => 8 * c.prompts + 12
    case LimitRead(_, _) => 8 * c.prompts + 11
    case AtLimit => 8 * c.prompts + 10
    case Clearing => 8 * c.prompts + 9
    case AwaitingLimit => 8 * c.prompts + 8
    case PastLimit => 8 * c.prompts + 7
    case Began(_) => 8 * c.prompts + 6
    case LastRead(_, _) => 8 * c.prompts + 5
    case AtPrompt(_, _, i) => 8 * PromptsLeft(c, i) + 3
    case WaitingRefit(_, _, i) => 8 * PromptsLeft(c, i) + 2
    case Woken(_, _, i) => 8 * PromptsLeft(c, i) + 1
    case Spawning(_, _, i) => 8 * PromptsLeft(c, i)
    case Ended => 0
  }

  function PhaseWork(phase: Phase): nat {
    match phase case Rolling => 3 case Pushing => 2 case Pushed => 1
  }

  function WorkersWork(ws: seq<Worker>): nat {
    if ws == [] then 0 else PhaseWork(ws[0].phase) + WorkersWork(ws[1..])
  }

  function MailWork(mailbox: seq<Message>): nat {
    if mailbox == [] then 0 else (if mailbox[0].SetVersion? then 2 else 1) + MailWork(mailbox[1..])
  }

  function TrainerWork(trainer: Trainer): nat {
    match trainer
    case Warmup => 7
    case Sampling => 6
    case Training => 5
    case AwaitingPause => 3
    case AwaitingDrain => 2
    case Refitting => 1
    case Crashed => 0
  }

  /** How many steps can be taken before the next version at most. */
  function Work(c: Config, s: State): nat {
    At(s.data, BatchCost(c)) + ThreadWork(c, s.collector) + WorkersWork(s.workers) + |s.generating|
    + MailWork(s.mailbox) + TrainerWork(s.trainer)
  }

  lemma {:induction false} WorkersWorkAppend(xs: seq<Worker>, ys: seq<Worker>)
    ensures WorkersWork(xs + ys) == WorkersWork(xs) + WorkersWork(ys)
  {
    if xs == [] {
      assert xs + ys == ys;
    } else {
      assert (xs + ys)[0] == xs[0] && (xs + ys)[1..] == xs[1..] + ys;
      WorkersWorkAppend(xs[1..], ys);
    }
  }

  lemma WorkersWorkAt(ws: seq<Worker>, w: nat, mid: Worker)
    requires w < |ws|
    ensures WorkersWork(ws[w := mid]) == WorkersWork(ws) - PhaseWork(ws[w].phase) + PhaseWork(mid.phase)
    ensures WorkersWork(RemoveAt(ws, w)) == WorkersWork(ws) - PhaseWork(ws[w].phase)
  {
    assert ws == ws[..w] + ([ws[w]] + ws[w + 1..]);
    assert ws[w := mid] == ws[..w] + ([mid] + ws[w + 1..]);
    WorkersWorkAppend(ws[..w], ws[w + 1..]);
    WorkersWorkAppend(ws[..w], [ws[w]] + ws[w + 1..]);
    WorkersWorkAppend(ws[..w], [mid] + ws[w + 1..]);
    WorkersWorkAppend([ws[w]], ws[w + 1..]);
    WorkersWorkAppend([mid], ws[w + 1..]);
    assert WorkersWork([ws[w]]) == PhaseWork(ws[w].phase) && WorkersWork([mid]) == PhaseWork(mid.phase);
  }

  lemma {:induction false} MailWorkAppend(xs: seq<Message>, ys: seq<Message>)
    ensures MailWork(xs + ys) == MailWork(xs) + MailWork(ys)
  {
    if xs == [] {
      assert xs + ys == ys;
    } else {
      assert (xs + ys)[0] == xs[0] && (xs + ys)[1..] == xs[1..] + ys;
      MailWorkAppend(xs[1..], ys);
    }
  }

  lemma Fewer(generating: set<int>, t: int)
    ensures |generating - {t}| <= |generating| <= |generating - {t}| + 1
    ensures generating - {t} == generating || |generating - {t}| < |generating|
    ensures |generating + {t}| <= |generating| + 1
  {
    if t in generating {
      assert generating == (generating - {t}) + {t};
    } else {
      assert generating - {t} == generating;
    }
  }

  /** A step that changes anything, other than the one to the next version, leaves less work. */
  lemma StepLowers(c: Config, s: State, e: Event)
    requires Inv(c, s) && Enabled(c, s, e) && e != Bump
    ensures Apply(c, s, e) == s || Work(c, Apply(c, s, e)) < Work(c, s)
  {
    hide Inv, Work, Apply;
    match e
    case Reserve => ReserveLowers(c, s);
    case Spawn => SpawnLowers(c, s);
    case StartPush(w) => WorkerLowers(c, s, w, e);
    case Push(w) => WorkerLowers(c, s, w, e);
    case Release(w) => WorkerLowers(c, s, w, e);
    case Finish(w) => WorkerLowers(c, s, w, e);
    case Abandon(w) => WorkerLowers(c, s, w, e);
    case Deliver => DeliverLowers(c, s);
    case Drained => TrainerLowers(c, s, e);
    case WarmupDone => TrainerLowers(c, s, e);
    case Trained => TrainerLowers(c, s, e);
    case TrySample => TrainerLowers(c, s, e);
    case _ => ThreadLowers(c, s, e);
  }

  lemma ThreadLowers(c: Config, s: State, e: Event)
    requires Enabled(c, s, e)
    requires Approaches(e) || e in {ReadForCheck, Decide, Warn, Clear, PassLimit, CheckRefit, Wake, Restamp}
    ensures Work(c, Apply(c, s, e)) < Work(c, s)
  {
    hide Work, Apply, Enabled;
    if Approaches(e) { ApproachLowers(c, s, e); } else { WaitLowers(c, s, e); }
  }

  lemma WaitLowers(c: Config, s: State, e: Event)
    requires Enabled(c, s, e) && e in {ReadForCheck, Decide, Warn, Clear, PassLimit, CheckRefit, Wake, Restamp}
    ensures Work(c, Apply(c, s, e)) < Work(c, s)
  {
    hide At, Pick, WorkersWork, MailWork, TrainerWork;
  }

  lemma ApproachLowers(c: Config, s: State, e: Event)
    requires Enabled(c, s, e) && Approaches(e)
    ensures Work(c, Apply(c, s, e)) < Work(c, s)
  {
    hide At, Pick, WorkersWork, MailWork, TrainerWork;
    if e == TakeBatch { Place(s.data - 1, s.data, BatchCost(c)); }
  }

  lemma ReserveLowers(c: Config, s: State)
    requires Enabled(c, s, Reserve)
    ensures Work(c, Apply(c, s, Reserve)) < Work(c, s)
  {
    hide At, Pick, WorkersWork, MailWork;
    match Pick(c, s, s.collector.gen, s.collector.seen)
    case None =>
    case Some(t) => Fewer(s.generating, t);
  }

  lemma WorkerLowers(c: Config, s: State, w: nat, e: Event)
    requires Inv(c, s) && Enabled(c, s, e)
    requires e in {StartPush(w), Push(w), Release(w), Finish(w), Abandon(w)}
    ensures Apply(c, s, e) == s || Work(c, Apply(c, s, e)) < Work(c, s)
  {
    hide Inv, At, ThreadWork, MailWork;
    Fewer(s.generating, s.workers[w].group.target);
    if e.Push? { PushFits(c, s, w); }
    WorkersWorkAt(s.workers, w, s.workers[w].(phase := if e.StartPush? then Pushing else Pushed));
  }

  lemma TrainerLowers(c: Config, s: State, e: Event)
    requires Inv(c, s) && Enabled(c, s, e) && e in {Drained, WarmupDone, Trained, TrySample}
    ensures Apply(c, s, e) == s || Work(c, Apply(c, s, e)) < Work(c, s)
  {
    hide Inv, At, ThreadWork, WorkersWork, SampleOutcome;
    if e == Trained { MailWorkAppend(s.mailbox, [Prepare]); }
    if e == TrySample { SampleNeverFails(c, s); }
  }

  lemma SpawnLowers(c: Config, s: State)
    requires Inv(c, s) && Enabled(c, s, Spawn)
    ensures Work(c, Apply(c, s, Spawn)) < Work(c, s)
  {
    hide At, ConservationOk, ConsumedOk, BufferOk, WorkersOk, ReservationsOk, MailboxOk, GeneratingOk;
    var w := Worker(Entry(s.collector.next, s.collector.gen, s.collector.target), Rolling);
    WorkersWorkAppend(s.workers, [w]);
    assert WorkersWork([w]) == 3;
  }

  lemma DeliverLowers(c: Config, s: State)
    requires s.mailbox != []
    ensures Work(c, Apply(c, s, Deliver)) < Work(c, s)
  {
    hide At, ThreadWork, WorkersWork;
    if s.mailbox[0].SetVersion? { assert ([Signal] + s.mailbox[1..])[1..] == s.mailbox[1..]; }
  }

  // ------------------------------------------------------------ one step forward

  /** The groups whose workers try to push them; these get through even when the data has ended. */
  function InPush(ws: seq<Worker>): seq<Group> {
    if ws == [] then []
    else if ws[0].phase.Pushing? then [ws[0].group] + InPush(ws[1..])
    else InPush(ws[1..])
  }

  /** The groups of the current step that arrived or will arrive for certain. */
  function Through(s: State): nat {
    Tally(s.buffer, AllOf(s.version)) + Tally(InPush(s.workers), AllOf(s.version))
  }

  /** The data of the current step is on its way: its target is reserved, and once the data has ended all of its groups
      got through. */
  ghost predicate OnItsWay(c: Config, s: State) {
    if s.collector.Ended? then Through(s) >= c.prompts else Reserved(s.reservations, s.version)
  }

  /** Bringing the first worker to its end. */
  lemma WorkerAdvances(c: Config, s: State) returns (e: Event)
    requires s.workers != []
    ensures Enabled(c, s, e) && Current(c, s, e) && Apply(c, s, e) != s && e != Bump
    ensures var s' := Apply(c, s, e);
            && s' == s.(workers := s'.workers, buffer := s'.buffer, last := s'.last, generating := s'.generating,
                        dropped := s'.dropped)
            && s'.generating <= s.generating && s.last <= s'.last
  {
    var worker := s.workers[0];
    assert |RemoveAt(s.workers, 0)| < |s.workers|;
    match worker.phase
    case Rolling =>
      e := if s.collector.Ended? then Abandon(0) else StartPush(0);
      assert s.workers[0 := worker.(phase := Pushing)][0] != worker;
    case Pushing =>
      e := Push(0);
      assert Apply(c, s, e).workers[0] != worker;
    case Pushed => e := Finish(0);
  }

  /** While the data of the current step is on its way and the trainer waits for it, some message, worker or prompt can
      be dealt with, or the data is complete. */
  lemma WaitingAdvances(c: Config, s: State) returns (e: Event)
    requires Inv(c, s) && s.trainer.Waiting() && OnItsWay(c, s)
    ensures Enabled(c, s, e) && Current(c, s, e) && e != Bump && Apply(c, s, e) != s
    ensures var s' := Apply(c, s, e);
            && s'.version == s.version && s'.reservations == s.reservations
            && (s'.trainer.Training? || (s'.trainer.Waiting() && OnItsWay(c, s')))
  {
    hide ConservationOk, ConsumedOk, BufferOk, WorkersOk, ReservationsOk, GeneratingOk, LimitOk, Undelivered, InPush,
         Reserved, SampleOutcome;
    if s.collector.Ended? {
      e := EndedAdvances(c, s);
    } else if s.mailbox != [] {
      e := Deliver;
      DeliverChanges(s);
      DeliverMailbox(c, s);
    } else if s.workers != [] {
      e := WorkerAdvances(c, s);
    } else if s.collector.InBatch() {
      e := if s.collector.AtPrompt? then CheckRefit else if s.collector.WaitingRefit? then Wake
           else if s.collector.Woken? then Restamp else Spawn;
      SlotsPositive(c);
    } else {
      AllBuffered(c, s);
      e := if s.trainer.Warmup? then WarmupDone else TrySample;
    }
  }

  lemma SlotsPositive(c: Config)
    requires c.Valid()
    ensures c.Slots() > 0
  {
  }

  /** After the end of the data: deliver what is being pushed, then sample. */
  lemma EndedAdvances(c: Config, s: State) returns (e: Event)
    requires Inv(c, s) && s.trainer.Waiting() && s.collector.Ended? && Through(s) >= c.prompts
    ensures Enabled(c, s, e) && Current(c, s, e) && e != Bump && Apply(c, s, e) != s
    ensures var s' := Apply(c, s, e);
            && s'.version == s.version && s'.reservations == s.reservations && s'.collector == s.collector
            && (s'.trainer.Training? || (s'.trainer.Waiting() && Through(s') >= c.prompts))
  {
    hide Inv, SampleOutcome, Tally;
    if w: nat :| w < |s.workers| && s.workers[w].phase.Pushing? {
      e := Push(w);
      PushFits(c, s, w);
      PushThrough(s, w);
    } else {
      NothingInPush(s.workers, AllOf(s.version));
      BufferComplete(c, s);
      e := if s.trainer.Warmup? then WarmupDone else TrySample;
    }
  }

  lemma {:induction false} NothingInPush(ws: seq<Worker>, k: Class)
    requires forall w :: 0 <= w < |ws| ==> !ws[w].phase.Pushing?
    ensures InPush(ws) == [] && Tally(InPush(ws), k) == 0
  {
    if ws == [] {
    } else {
      NothingInPush(ws[1..], k);
    }
  }

  lemma {:induction false} InPushAppend(xs: seq<Worker>, ys: seq<Worker>)
    ensures InPush(xs + ys) == InPush(xs) + InPush(ys)
  {
    if xs == [] {
      assert xs + ys == ys;
    } else {
      assert (xs + ys)[0] == xs[0] && (xs + ys)[1..] == xs[1..] + ys;
      InPushAppend(xs[1..], ys);
    }
  }

  /** What replacing or removing worker `w` does to the groups being pushed. */
  lemma InPushAt(ws: seq<Worker>, w: nat, mid: Worker, k: Class)
    requires w < |ws|
    ensures Tally(InPush(ws[w := mid]), k) - Tally(InPush([mid]), k) == Tally(InPush(ws), k) - Tally(InPush([ws[w]]), k)
    ensures Tally(InPush(RemoveAt(ws, w)), k) == Tally(InPush(ws), k) - Tally(InPush([ws[w]]), k)
  {
    hide Tally;
    assert ws == ws[..w] + [ws[w]] + ws[w + 1..] && ws[w := mid] == ws[..w] + [mid] + ws[w + 1..];
    InPushTally(ws[..w], [ws[w]], ws[w + 1..], k);
    InPushTally(ws[..w], [mid], ws[w + 1..], k);
    InPushTally(ws[..w], [], ws[w + 1..], k);
    assert ws[..w] + [] + ws[w + 1..] == RemoveAt(ws, w);
  }

  lemma InPushTally(a: seq<Worker>, b: seq<Worker>, d: seq<Worker>, k: Class)
    ensures Tally(InPush(a + b + d), k) == Tally(InPush(a), k) + Tally(InPush(b), k) + Tally(InPush(d), k)
    ensures b == [] ==> Tally(InPush(b), k) == 0
  {
    InPushAppend(a + b, d);
    InPushAppend(a, b);
    TallyAppend(InPush(a + b), InPush(d), k);
    TallyAppend(InPush(a), InPush(b), k);
  }

  lemma OneInPush(worker: Worker, k: Class)
    ensures Tally(InPush([worker]), k) == if worker.phase.Pushing? && k.Has(worker.group) then 1 else 0
  {
    assert InPush([worker]) == if worker.phase.Pushing? then [worker.group] else [];
  }

  /** A push takes its group from one count to the other. */
  lemma PushThrough(s: State, w: nat)
    requires w < |s.workers| && s.workers[w].phase.Pushing?
    ensures var (g, k) := (s.workers[w].group, AllOf(s.version));
            Tally(s.buffer + [g], k) + Tally(InPush(s.workers[w := Worker(g, Pushed)]), k) == Through(s)
  {
    var (g, k) := (s.workers[w].group, AllOf(s.version));
    InPushAt(s.workers, w, Worker(g, Pushed), k);
    OneInPush(s.workers[w], k);
    OneInPush(Worker(g, Pushed), k);
    TallyAppend(s.buffer, [g], k);
    assert Tally([g], k) == if k.Has(g) then 1 else 0;
  }

  /** With nothing unspawned, in flight or dropped, conservation puts all groups of the current step in the buffer. */
  lemma AllBuffered(c: Config, s: State)
    requires Inv(c, s) && s.trainer.Waiting() && Reserved(s.reservations, s.version)
    requires s.workers == [] && !s.collector.InBatch() && !s.collector.Ended?
    ensures |s.buffer| >= c.prompts && SampleOutcome(c, s).Sampled?
  {
    hide BufferOk, WorkersOk, MailboxOk, ReservationsOk, CollectorOk, LimitOk, GeneratingOk, SampleOutcome;
    assert Accounted(c, s.collector, s.workers, s.buffer, s.consumed, s.dropped, AllOf(s.version)) == c.prompts;
    TallyZero(s.consumed, AllOf(s.version));
    BufferComplete(c, s);
  }

  /** A whole step's groups in the buffer can be sampled. */
  lemma BufferComplete(c: Config, s: State)
    requires Inv(c, s) && s.trainer.Waiting() && Tally(s.buffer, AllOf(s.version)) >= c.prompts
    ensures |s.buffer| >= c.prompts && SampleOutcome(c, s).Sampled?
  {
    hide ConservationOk, ConsumedOk, WorkersOk, MailboxOk, ReservationsOk, CollectorOk, LimitOk, GeneratingOk;
    var low := MinValid(s.version, c.maxAge);
    WantedIsTally(c, s.buffer, s.last, s.version, low);
    CountWantedLeValid(s.buffer, s.version, low);
    TallyAtMost(s.buffer, AllOf(s.version));
    NoneOld(s.buffer, low);
  }

  lemma {:induction false} TallyAtMost(gs: seq<Group>, k: Class)
    ensures Tally(gs, k) <= |gs|
  {
    if gs == [] {
    } else {
      TallyAtMost(gs[1..], k);
    }
  }

  lemma {:induction false} WantedIsTally(c: Config, buffer: seq<Group>, last: int, version: int, low: int)
    requires BufferOk(c, buffer, last, version, version) && low == MinValid(version, c.maxAge)
    ensures CountWanted(buffer, version, low) == Tally(buffer, AllOf(version))
  {
    if buffer == [] {
    } else {
      assert buffer[0] in buffer;
      WantedIsTally(c, buffer[1..], last, version, low);
    }
  }

  /** After a sample: training, the pause handshake, the wait for pending generations and the refit all get done.
      The wait cannot be held up by a full buffer, although the trainer is not consuming meanwhile. */
  lemma RefitAdvances(c: Config, s: State) returns (e: Event)
    requires Inv(c, s) && !s.trainer.Waiting()
    ensures Enabled(c, s, e) && Current(c, s, e)
    ensures var s' := Apply(c, s, e);
            && s'.reservations == s.reservations
            && (if s'.trainer.Waiting() then s'.version == s.version + 1
                else s'.version == s.version && Work(c, s') < Work(c, s))
  {
    hide ConservationOk, ConsumedOk, BufferOk, WorkersOk, ReservationsOk, Undelivered, MailboxOk, LimitOk, GeneratingOk,
         Work;
    match s.trainer
    case Training =>
      e := Trained;
      StepLowers(c, s, e);
    case AwaitingPause =>
      e := Deliver;
      PauseRequested(c, s);
      DeliverChanges(s);
      DeliverMailbox(c, s);
      StepLowers(c, s, e);
    case AwaitingDrain =>
      if c.inFlight || s.workers == [] {
        e := Drained;
      } else {
        e := WorkerAdvances(c, s);
      }
      StepLowers(c, s, e);
    case Refitting => e := Bump;
  }

  lemma DeliverChanges(s: State)
    requires s.mailbox != []
    ensures ApplyDeliver(s).mailbox != s.mailbox
  {
    if s.mailbox[0].SetVersion? {
      assert ([Signal] + s.mailbox[1..])[0] != s.mailbox[0];
    } else {
      assert |s.mailbox[1..]| < |s.mailbox|;
    }
  }

  lemma PauseRequested(c: Config, s: State)
    requires MailboxOk(c, s.trainer, s.mailbox, s.cur, s.version, s.paused) && s.trainer.AwaitingPause?
    ensures s.mailbox != []
  {
  }

  // ------------------------------------------------------------ runs forward

  /** A run from `s` that ends with this version's data sampled. */
  ghost predicate Samples(c: Config, s: State, es: seq<Event>) {
    CurrentRun(c, s, es) && Runs(c, s, es)
    && Final(c, s, es).trainer.Training? && Final(c, s, es).version == s.version
  }

  ghost predicate CanSample(c: Config, s: State) {
    exists es :: Samples(c, s, es)
  }

  lemma SamplesCons(c: Config, s: State, e: Event, es: seq<Event>)
    requires Enabled(c, s, e) && Current(c, s, e) && Samples(c, Apply(c, s, e), es)
    requires Apply(c, s, e).version == s.version
    ensures CanSample(c, s)
  {
    RunCons(c, s, e, es);
    assert Samples(c, s, [e] + es);
  }

  lemma {:induction false} OnItsWayCanSample(c: Config, s: State)
    requires Inv(c, s) && s.trainer.Waiting() && OnItsWay(c, s)
    ensures CanSample(c, s)
    decreases Work(c, s)
  {
    hide Inv, Apply, Enabled, Current, Work, OnItsWay, Runs, CurrentRun;
    var e := WaitingAdvances(c, s);
    var s' := Apply(c, s, e);
    StepKeepsInv(c, s, e);
    StepLowers(c, s, e);
    var rest: seq<Event> := [];
    if s'.trainer.Training? {
      SampledAlready(c, s');
    } else {
      OnItsWayCanSample(c, s');
      rest :| Samples(c, s', rest);
    }
    SamplesCons(c, s, e, rest);
  }

  lemma SampledAlready(c: Config, s: State)
    requires s.trainer.Training?
    ensures Samples(c, s, [])
  {
  }

  lemma RunCons(c: Config, s: State, e: Event, rest: seq<Event>)
    requires Enabled(c, s, e) && Current(c, s, e) && CurrentRun(c, Apply(c, s, e), rest)
    requires Runs(c, Apply(c, s, e), rest)
    ensures CurrentRun(c, s, [e] + rest) && Runs(c, s, [e] + rest)
    ensures Final(c, s, [e] + rest) == Final(c, Apply(c, s, e), rest)
  {
    var es := [e] + rest;
    assert es[0] == e && es[1..] == rest;
  }

  /** A run from `s` that ends with the trainer waiting for version `version`, nothing reserved on the way. */
  ghost predicate Reaches(c: Config, s: State, es: seq<Event>, version: int) {
    && CurrentRun(c, s, es) && Runs(c, s, es)
    && Final(c, s, es).trainer.Waiting() && Final(c, s, es).version == version
    && Final(c, s, es).reservations == s.reservations
  }

  ghost predicate ReachesNext(c: Config, s: State, es: seq<Event>) {
    Reaches(c, s, es, s.version + 1)
  }

  lemma ReachesCons(c: Config, s: State, e: Event, rest: seq<Event>, version: int)
    requires Enabled(c, s, e) && Current(c, s, e) && Reaches(c, Apply(c, s, e), rest, version)
    requires Apply(c, s, e).reservations == s.reservations
    ensures Reaches(c, s, [e] + rest, version)
  {
    RunCons(c, s, e, rest);
  }

  /** From any state after a sample a run leads to waiting for the next version's data. */
  lemma {:induction false} ReachesNextVersion(c: Config, s: State)
    requires Inv(c, s) && !s.trainer.Waiting()
    ensures exists es :: ReachesNext(c, s, es)
    decreases Work(c, s)
  {
    hide Inv, Apply, Enabled, Current, Work, Runs, CurrentRun, Final;
    var e := RefitAdvances(c, s);
    var s' := Apply(c, s, e);
    StepKeepsInv(c, s, e);
    var rest: seq<Event> := [];
    if s'.trainer.Waiting() {
      NowhereToGo(c, s');
    } else {
      ReachesNextVersion(c, s');
      rest :| ReachesNext(c, s', rest);
    }
    ReachesCons(c, s, e, rest, s.version + 1);
    assert ReachesNext(c, s, [e] + rest);
  }

  lemma NowhereToGo(c: Config, s: State)
    requires s.trainer.Waiting()
    ensures Reaches(c, s, [], s.version)
  {
  }

  // ------------------------------------------------------------ every run

  /** Every step of the run changes something: nobody only polls. */
  predicate Busy(c: Config, s: State, es: seq<Event>)
    decreases |es|
  {
    es == [] || (Enabled(c, s, es[0]) && Apply(c, s, es[0]) != s && Busy(c, Apply(c, s, es[0]), es[1..]))
  }

  lemma StepVersion(c: Config, s: State, e: Event)
    requires Enabled(c, s, e)
    ensures Apply(c, s, e).version == if e == Bump then s.version + 1 else s.version
  {
  }

  lemma {:induction false} VersionGrows(c: Config, s: State, es: seq<Event>)
    requires Runs(c, s, es)
    ensures s.version <= Final(c, s, es).version
    decreases |es|
  {
    hide Enabled, Apply;
    if es == [] {
    } else {
      StepVersion(c, s, es[0]);
      VersionGrows(c, Apply(c, s, es[0]), es[1..]);
    }
  }

  /** Within one version no run of busy steps is longer than the work there is. */
  lemma {:induction false} BusyIsBounded(c: Config, s: State, es: seq<Event>)
    requires Inv(c, s) && CurrentRun(c, s, es) && Runs(c, s, es) && Busy(c, s, es)
    requires Final(c, s, es).version == s.version
    ensures |es| + Work(c, Final(c, s, es)) <= Work(c, s)
    decreases |es|
  {
    hide Inv, Enabled, Apply, Current, Work;
    if es == [] {
    } else {
      var s' := Apply(c, s, es[0]);
      StepVersion(c, s, es[0]);
      VersionGrows(c, s', es[1..]);
      StepLowers(c, s, es[0]);
      StepKeepsInv(c, s, es[0]);
      BusyIsBounded(c, s', es[1..]);
    }
  }

  /** Only idle steps or the end of the data can keep a reserved step from being sampled: as long as it has not been, a
      run without idle steps is no longer than the work there was and, unless the data has ended, can be continued by
      another step that is not idle. */
  lemma OnlyIdlingPostpones(c: Config, s: State, es: seq<Event>) returns (e: Event)
    requires Inv(c, s) && s.trainer.Waiting() && Reserved(s.reservations, s.version)
    requires CurrentRun(c, s, es) && Busy(c, s, es)
    ensures Runs(c, s, es)
    ensures var f := Final(c, s, es);
            f.trainer.Waiting() && f.version == s.version ==>
              && |es| <= Work(c, s)
              && (!f.collector.Ended? ==> Enabled(c, f, e) && Current(c, f, e) && Apply(c, f, e) != f)
  {
    hide Inv, Enabled, Apply, Current, Work, Runs, CurrentRun, Busy;
    RunKeepsInv(c, s, es);
    var f := Final(c, s, es);
    e := TrySample;
    if f.trainer.Waiting() && f.version == s.version {
      BusyIsBounded(c, s, es);
      StillReserved(c, s, es, s.version);
      if !f.collector.Ended? { e := WaitingAdvances(c, f); }
    }
  }

  lemma {:induction false} StillReserved(c: Config, s: State, es: seq<Event>, t: int)
    requires Runs(c, s, es) && Reserved(s.reservations, t)
    ensures Reserved(Final(c, s, es).reservations, t)
    decreases |es|
  {
    hide Enabled, Apply, Reserved;
    if es == [] {
    } else {
      StepKeepsReserved(c, s, es[0], t);
      StillReserved(c, Apply(c, s, es[0]), es[1..], t);
    }
  }

  lemma StepKeepsReserved(c: Config, s: State, e: Event, t: int)
    requires Enabled(c, s, e) && Reserved(s.reservations, t)
    ensures Reserved(Apply(c, s, e).reservations, t)
  {
    if e == Reserve && Pick(c, s, s.collector.gen, s.collector.seen).Some? {
      var (g, u) := (s.collector.gen, Pick(c, s, s.collector.gen, s.collector.seen).value);
      ReservedSnoc(s.reservations, Reservation(g, u), t);
    }
  }

  // ------------------------------------------------------------ starvation

  /** A batch that the thread begins now would have the current target in its list: the collector has not got the
      current version yet, or it is the first. */
  predicate InTime(c: Config, s: State) {
    s.cur < s.version || s.version == c.start
  }

  /** The collection thread can still reserve the current target: it is where its next list will begin at or
      before that target. After the first version that is so only for a thread that took up its generation
      version before the refit, or still will: one that is past the pause and will not be held up at the generation
      limit, where it would wait for the next version. It is not held up there when some target of the list it checks
      is above the last one it read, or when it warned at this version before, since then it does not clear the
      event. */
  predicate Reservable(c: Config, s: State) {
    match s.collector
    case LoopTop => s.version == c.start && s.data > 0
    case HasBatch => s.version == c.start
    case PastPause => InTime(c, s)
    case CheckingLimit(at) => InTime(c, s) && (at + c.maxAge > s.last || s.warned == Some(s.cur))
    case LimitRead(at, seen) => InTime(c, s) && (at + c.maxAge > seen || s.warned == Some(s.cur))
    case AtLimit => InTime(c, s) && s.warned == Some(s.cur)
    case AwaitingLimit => InTime(c, s) && s.limitCleared
    case PastLimit => InTime(c, s)
    case Began(g) => FirstTarget(c, g) <= s.version <= g + c.maxAge
    case LastRead(g, seen) => Pick(c, s, g, seen) == Some(s.version)
    case _ => false
  }

  lemma PickIs(c: Config, s: State, g: int, seen: int, t: int)
    requires FirstTarget(c, g) <= t <= g + c.maxAge && t > seen && t !in s.generating
    requires forall u :: FirstTarget(c, g) <= u < t ==> u <= seen || u in s.generating
    ensures Pick(c, s, g, seen) == Some(t)
  {
    PickSpec(c, s, g, seen);
  }

  /** If the current target is not reserved and lies in a list not before the latest one, it is still ahead of
      everything that arrived. */
  lemma StillAhead(c: Config, s: State, g: int)
    requires Inv(c, s) && s.trainer.Waiting() && !Reserved(s.reservations, s.version)
    requires GenNow(s.collector, s.cur) <= g && FirstTarget(c, g) <= s.version
    ensures s.last < s.version && s.version !in s.generating
  {
    if s.reservations != [] {
      assert FirstTarget(c, Latest(s).gen) <= FirstTarget(c, g);
    }
  }

  /** The data of every earlier step has arrived. */
  lemma EarlierArrived(c: Config, s: State, u: int)
    requires Inv(c, s) && s.trainer.Waiting() && c.start <= u < s.version
    ensures u <= s.last
  {
    assert Tally(s.consumed, AllOf(u)) == c.prompts;
    TallyZero(s.consumed, AllOf(u));
  }

  /** A list read with the current last target yields the current step, if it reaches it. */
  lemma PicksCurrent(c: Config, s: State, g: int)
    requires Inv(c, s) && s.trainer.Waiting() && !Reserved(s.reservations, s.version)
    requires c.start <= GenNow(s.collector, s.cur) <= g && FirstTarget(c, g) <= s.version <= g + c.maxAge
    ensures Pick(c, s, g, s.last) == Some(s.version)
  {
    StillAhead(c, s, g);
    forall u | FirstTarget(c, g) <= u < s.version ensures u <= s.last || u in s.generating {
      EarlierArrived(c, s, u);
    }
    PickIs(c, s, g, s.last, s.version);
  }

  lemma AtStartNothingReserved(c: Config, s: State)
    requires Inv(c, s) && s.version == c.start && !Reserved(s.reservations, s.version)
    ensures s.reservations == [] && s.last == -1 && forall t :: t !in s.generating
  {
    if s.reservations != [] {
      StartIsReserved(c, s.reservations, s.generating, s.last, GenNow(s.collector, s.cur), s.collector.Ended?);
    }
    NothingGenerating(c, s.reservations, s.generating, s.last, GenNow(s.collector, s.cur), s.collector.Ended?);
  }

  lemma NothingGenerating(c: Config, rs: seq<Reservation>, generating: set<int>, last: int, gen: int, ended: bool)
    requires ReservationsOk(c, rs, generating, last, gen, ended) && rs == []
    ensures last == -1 && forall t :: t !in generating
  {
  }

  lemma StartIsReserved(c: Config, rs: seq<Reservation>, generating: set<int>, last: int, gen: int, ended: bool)
    requires ReservationsOk(c, rs, generating, last, gen, ended) && rs != [] && gen <= c.start
    ensures Reserved(rs, c.start)
  {
    assert rs[|rs| - 1].gen == c.start;
  }

  /** A step toward the reservation: it reserves the current target or leaves it reservable. */
  lemma ReservableAdvances(c: Config, s: State) returns (e: Event)
    requires Inv(c, s) && s.trainer.Waiting() && !Reserved(s.reservations, s.version) && Reservable(c, s)
    ensures Enabled(c, s, e) && Current(c, s, e) && e != Bump && Apply(c, s, e) != s
    ensures var s' := Apply(c, s, e);
            && s'.version == s.version && s'.trainer.Waiting() && !s'.collector.Ended?
            && (Reserved(s'.reservations, s'.version) || (s'.reservations == s.reservations && Reservable(c, s')))
  {
    hide Inv, Apply, Enabled, Current;
    match s.collector
    case Began(_) => e := BeganAdvances(c, s);
    case LastRead(_, _) => e := LastReadAdvances(c, s);
    case LimitRead(_, _) => e := LimitAdvances(c, s);
    case HasBatch => e := HeldAdvances(c, s);
    case _ => e := ApproachAdvances(c, s);
  }

  lemma ApproachAdvances(c: Config, s: State) returns (e: Event)
    requires Inv(c, s) && s.trainer.Waiting() && !Reserved(s.reservations, s.version) && Reservable(c, s)
    requires !s.collector.HasGen() && !s.collector.LimitRead? && !s.collector.HasBatch?
    ensures Enabled(c, s, e) && Current(c, s, e) && e != Bump && Apply(c, s, e) != s
    ensures var s' := Apply(c, s, e);
            && s'.version == s.version && s'.trainer.Waiting() && !s'.collector.Ended?
            && s'.reservations == s.reservations && Reservable(c, s')
  {
    hide Inv, Reserved;
    CurLags(c, s);
    if InTime(c, s) { CurrentFree(c, s); }
    match s.collector
    case LoopTop => e := TakeBatch;
    case PastPause => e := StartCheck;
    case CheckingLimit(_) => e := ReadForCheck;
    case AtLimit => e := Warn;
    case AwaitingLimit => e := PassLimit;
    case PastLimit => e := BeginBatch;
  }

  /** With a batch in hand at the first version the thread is not held up by a refit. */
  lemma HeldAdvances(c: Config, s: State) returns (e: Event)
    requires Inv(c, s) && s.trainer.Waiting() && Reservable(c, s) && s.collector.HasBatch?
    ensures Enabled(c, s, e) && Current(c, s, e) && e != Bump && Apply(c, s, e) != s
    ensures var s' := Apply(c, s, e);
            && s'.version == s.version && s'.trainer.Waiting() && !s'.collector.Ended?
            && s'.reservations == s.reservations && Reservable(c, s')
  {
    hide ConservationOk, ConsumedOk, BufferOk, WorkersOk, ReservationsOk, GeneratingOk, LimitOk, MailboxOk;
    if s.mailbox != [] {
      e := Deliver;
      DeliverChanges(s);
      DeliverMailbox(c, s);
    } else {
      e := PassPause;
      NotPaused(c, s);
    }
  }

  lemma BeganAdvances(c: Config, s: State) returns (e: Event)
    requires Inv(c, s) && s.trainer.Waiting() && !Reserved(s.reservations, s.version) && Reservable(c, s)
    requires s.collector.Began?
    ensures Enabled(c, s, e) && Current(c, s, e) && e != Bump && Apply(c, s, e) != s
    ensures var s' := Apply(c, s, e);
            && s'.version == s.version && s'.trainer.Waiting() && !s'.collector.Ended?
            && s'.reservations == s.reservations && Reservable(c, s')
  {
    hide ConservationOk, ConsumedOk, BufferOk, WorkersOk, ReservationsOk, GeneratingOk, MailboxOk, Pick, Reserved;
    e := ReadLast;
    PicksCurrent(c, s, s.collector.gen);
    SamePick(c, s, Apply(c, s, e), s.collector.gen, s.last);
  }

  lemma LastReadAdvances(c: Config, s: State) returns (e: Event)
    requires Inv(c, s) && s.trainer.Waiting() && !Reserved(s.reservations, s.version) && Reservable(c, s)
    requires s.collector.LastRead?
    ensures Enabled(c, s, e) && Current(c, s, e) && e != Bump && Apply(c, s, e) != s
    ensures var s' := Apply(c, s, e);
            && s'.version == s.version && s'.trainer.Waiting() && !s'.collector.Ended?
            && Reserved(s'.reservations, s'.version)
  {
    hide ConservationOk, ConsumedOk, BufferOk, WorkersOk, ReservationsOk, GeneratingOk, MailboxOk, Pick, Reserved;
    var (g, seen) := (s.collector.gen, s.collector.seen);
    e := Reserve;
    PickSpec(c, s, g, seen);
    PicksCurrent(c, s, g);
    ReservedSnoc(s.reservations, Reservation(g, s.version), s.version);
  }

  lemma SamePick(c: Config, s: State, s': State, g: int, seen: int)
    requires s'.generating == s.generating
    ensures Pick(c, s', g, seen) == Pick(c, s, g, seen)
  {
  }

  lemma NotPaused(c: Config, s: State)
    requires MailboxOk(c, s.trainer, s.mailbox, s.cur, s.version, s.paused) && s.trainer.Waiting() && s.mailbox == []
    ensures !s.paused
  {
  }

  /** In time, the current target is in the list of the collector's version and above everything that arrived. */
  lemma CurrentFree(c: Config, s: State)
    requires Inv(c, s) && s.trainer.Waiting() && !Reserved(s.reservations, s.version) && InTime(c, s)
    requires !s.collector.HasGen()
    ensures FirstTarget(c, s.cur) <= s.version <= s.cur + c.maxAge && s.cur + c.maxAge > s.last
  {
    CurLags(c, s);
    hide ConservationOk, ConsumedOk, BufferOk, WorkersOk, MailboxOk;
    StillAhead(c, s, s.cur);
  }

  lemma CurLags(c: Config, s: State)
    requires Inv(c, s)
    ensures c.start <= s.cur <= s.version <= s.cur + 1 && c.maxAge >= 1 && (s.cur < s.version ==> s.paused)
    ensures !s.collector.AwaitingLimit? ==> s.limitCleared
  {
  }

  /** At the decision either a target of the list is free, or a worker still holds it, or the warning was given. */
  lemma LimitAdvances(c: Config, s: State) returns (e: Event)
    requires Inv(c, s) && s.collector.LimitRead? && Reservable(c, s) && !Reserved(s.reservations, s.version)
    ensures Enabled(c, s, e) && Current(c, s, e) && e != Bump && Apply(c, s, e) != s
    ensures var s' := Apply(c, s, e);
            && s'.version == s.version && s'.trainer == s.trainer && s'.reservations == s.reservations
            && Reservable(c, s') && !s'.collector.Ended?
  {
    hide ConservationOk, ConsumedOk, BufferOk, WorkersOk, MailboxOk, ReservationsOk;
    var (at, seen) := (s.collector.at, s.collector.seenAt);
    PickSpec(c, s, at, seen);
    if Pick(c, s, at, seen).Some? || s.warned == Some(s.cur) {
      e := Decide;
    } else {
      assert at + c.maxAge in s.generating;
      assert HasWorker(s.workers, at + c.maxAge);
      e := WorkerAdvances(c, s);
    }
  }

  /** From a reservable state the thread walks to the reservation. */
  lemma {:induction false} ReservableCanSample(c: Config, s: State)
    requires Inv(c, s) && s.trainer.Waiting() && !Reserved(s.reservations, s.version) && Reservable(c, s)
    ensures CanSample(c, s)
    decreases Work(c, s)
  {
    hide Inv, Reserved, Reservable, Samples, Enabled, Apply, Work;
    var e := ReservableAdvances(c, s);
    StepKeepsInv(c, s, e);
    StepLowers(c, s, e);
    var s' := Apply(c, s, e);
    if Reserved(s'.reservations, s'.version) {
      OnItsWayCanSample(c, s');
    } else {
      ReservableCanSample(c, s');
    }
    var es :| Samples(c, s', es);
    SamplesCons(c, s, e, es);
  }

  /** The data of the current step is on its way or can still be. */
  ghost predicate Possible(c: Config, s: State) {
    OnItsWay(c, s) || Reservable(c, s)
  }

  ghost predicate Starved(c: Config, s: State) {
    Inv(c, s) && s.trainer.Waiting() && !Possible(c, s)
  }

  /** No step leads out of starvation. */
  lemma StarvedStays(c: Config, s: State, e: Event)
    requires Starved(c, s) && Enabled(c, s, e) && Current(c, s, e)
    ensures Starved(c, Apply(c, s, e)) && Apply(c, s, e).version == s.version
  {
    hide Inv, Possible;
    StarvedStep(c, s, e);
    StepKeepsInv(c, s, e);
  }

  /** The trainer goes on waiting for the same version, whose data still cannot come. */
  ghost predicate KeepsWaiting(c: Config, s: State, s': State) {
    s'.trainer.Waiting() && s'.version == s.version && !Possible(c, s')
  }

  lemma StarvedStep(c: Config, s: State, e: Event)
    requires Starved(c, s) && Enabled(c, s, e)
    ensures KeepsWaiting(c, s, Apply(c, s, e))
  {
    hide Inv, Possible, KeepsWaiting, Apply;
    if s.collector.Ended? {
      StarvedAfterEnd(c, s, e);
    } else {
      match e
      case Reserve => StarvedReserve(c, s);
      case DataEnds => StarvedEnds(c, s);
      case StartPush(w) => StarvedShrinks(c, s, e);
      case Push(w) => StarvedShrinks(c, s, e);
      case Release(w) => StarvedShrinks(c, s, e);
      case Finish(w) => StarvedShrinks(c, s, e);
      case WarmupDone => StarvedShrinks(c, s, e);
      case Deliver => StarvedDeliver(c, s);
      case TrySample => StarvedSample(c, s);
      case _ => StarvedThread(c, s, e);
    }
  }

  lemma StarvedSample(c: Config, s: State)
    requires Starved(c, s) && s.trainer.Sampling? && !s.collector.Ended?
    ensures KeepsWaiting(c, s, Apply(c, s, TrySample))
  {
    hide ConservationOk, ConsumedOk, BufferOk, WorkersOk, MailboxOk, ReservationsOk, CollectorOk, LimitOk, GeneratingOk,
         SampleOutcome;
    SampleNeverFails(c, s);
    NothingToSample(c, s);
  }

  lemma StarvedThread(c: Config, s: State, e: Event)
    requires Starved(c, s) && Enabled(c, s, e) && !s.collector.Ended?
    requires e in {TakeBatch, PassPause, StartCheck, ReadForCheck, Decide, Warn, Clear, PassLimit, BeginBatch, ReadLast,
                   CheckRefit, Wake, Restamp, Spawn}
    ensures KeepsWaiting(c, s, Apply(c, s, e))
  {
    hide ConservationOk, ConsumedOk, BufferOk, WorkersOk, MailboxOk, ReservationsOk, GeneratingOk, Pick;
    if s.version == c.start { AtStartNothingReserved(c, s); }
    CurLags(c, s);
    match e
    case ReadLast =>
      PickSpec(c, s, s.collector.gen, s.last);
      SamePick(c, s, Apply(c, s, e), s.collector.gen, s.last);
    case Decide => PickSpec(c, s, s.collector.at, s.collector.seenAt);
    case _ =>
  }

  lemma StarvedDeliver(c: Config, s: State)
    requires Starved(c, s) && s.mailbox != [] && !s.collector.Ended?
    ensures KeepsWaiting(c, s, Apply(c, s, Deliver))
  {
    hide ConservationOk, ConsumedOk, BufferOk, WorkersOk, MailboxOk, ReservationsOk, GeneratingOk, CollectorOk, Pick;
    if s.version == c.start { AtStartNothingReserved(c, s); }
    CurLags(c, s);
    DeliverMailbox(c, s);
    DeliverInTime(c, s);
    SamePick(c, s, ApplyDeliver(s), if s.collector.LastRead? then s.collector.gen else 0,
             if s.collector.LastRead? then s.collector.seen else 0);
  }

  /** Only the current version is under way, and the event is set only after it. */
  lemma DeliverInTime(c: Config, s: State)
    requires MailboxOk(c, s.trainer, s.mailbox, s.cur, s.version, s.paused) && s.trainer.Waiting() && s.mailbox != []
    ensures s.mailbox[0].SetVersion? ==> s.mailbox[0].version == s.version
    ensures s.mailbox[0].Signal? ==> s.cur == s.version
  {
  }

  lemma NothingToSample(c: Config, s: State)
    requires Inv(c, s) && s.trainer.Waiting() && !Reserved(s.reservations, s.version)
    ensures !SampleOutcome(c, s).Sampled?
  {
    if SampleOutcome(c, s).Sampled? {
      TakenOnTarget(c, s);
      var g := Taken(s.buffer, c.prompts, s.version, MinValid(s.version, c.maxAge))[0];
      assert g in s.buffer;
      OutstandingReserved(c, s, g);
    }
  }

  lemma StarvedReserve(c: Config, s: State)
    requires Starved(c, s) && s.collector.LastRead?
    ensures KeepsWaiting(c, s, Apply(c, s, Reserve))
  {
    var (g, seen) := (s.collector.gen, s.collector.seen);
    hide ConservationOk, ConsumedOk, BufferOk, WorkersOk, MailboxOk, ReservationsOk, GeneratingOk, Pick, Reserved;
    PickSpec(c, s, g, seen);
    if s.version == c.start {
      AtStartNothingReserved(c, s);
      PickIs(c, s, g, seen, c.start);
    }
    match Pick(c, s, g, seen)
    case None =>
    case Some(t) => ReservedSnoc(s.reservations, Reservation(g, t), s.version);
  }

  /** Groups that arrive and reservations that are given up do not bring the current target back. */
  lemma StarvedShrinks(c: Config, s: State, e: Event)
    requires Starved(c, s) && Enabled(c, s, e) && !s.collector.Ended?
    requires e.StartPush? || e.Push? || e.Release? || e.Finish? || e.WarmupDone?
    ensures KeepsWaiting(c, s, Apply(c, s, e))
  {
    hide Inv, Apply, Enabled, Pick, Reserved;
    Shrinks(c, s, e);
    NotGenerating(c, s, s.version);
    if s.collector.LastRead? { PickShrinks(c, s, Apply(c, s, e), s.collector.gen, s.collector.seen, s.version); }
  }

  lemma Shrinks(c: Config, s: State, e: Event)
    requires Enabled(c, s, e) && (e.StartPush? || e.Push? || e.Release? || e.Finish? || e.WarmupDone?)
    ensures var s' := Apply(c, s, e);
            && s'.generating <= s.generating && s.last <= s'.last && s'.collector == s.collector && s'.cur == s.cur
            && s'.data == s.data && s'.warned == s.warned && s'.limitCleared == s.limitCleared
            && s'.version == s.version && s'.reservations == s.reservations
            && (s.trainer.Waiting() ==> s'.trainer.Waiting())
  {
  }

  lemma PickShrinks(c: Config, s: State, s': State, g: int, seen: int, t: int)
    requires s'.generating <= s.generating && t !in s.generating
    ensures Pick(c, s', g, seen) == Some(t) ==> Pick(c, s, g, seen) == Some(t)
  {
    PickSpec(c, s', g, seen);
    if Pick(c, s', g, seen) == Some(t) {
      forall u | FirstTarget(c, g) <= u < t ensures u <= seen || u in s.generating {
        assert u <= seen || u in s'.generating;
      }
      PickIs(c, s, g, seen, t);
    }
  }

  lemma NotGenerating(c: Config, s: State, t: int)
    requires Inv(c, s) && !Reserved(s.reservations, t)
    ensures t !in s.generating
  {
  }

  /** Data that was not reserved when the dataloader ended does not come any more. */
  lemma StarvedEnds(c: Config, s: State)
    requires Starved(c, s) && Enabled(c, s, DataEnds)
    ensures KeepsWaiting(c, s, Apply(c, s, DataEnds))
  {
    hide BufferOk, WorkersOk, MailboxOk, ReservationsOk, GeneratingOk, CollectorOk, LimitOk, ConsumedOk;
    var k := AllOf(s.version);
    assert Accounted(c, s.collector, s.workers, s.buffer, s.consumed, s.dropped, k) == 0;
    InPushUndelivered(s.workers, k);
  }

  lemma {:induction false} InPushUndelivered(ws: seq<Worker>, k: Class)
    ensures Tally(InPush(ws), k) <= Tally(Undelivered(ws), k)
  {
    if ws == [] {
    } else {
      InPushUndelivered(ws[1..], k);
      TallyAppend([ws[0].group], InPush(ws[1..]), k);
      TallyAppend(if ws[0].phase.Pushed? then [] else [ws[0].group], Undelivered(ws[1..]), k);
    }
  }

  /** After the end nothing can be added to what got through. */
  lemma StarvedAfterEnd(c: Config, s: State, e: Event)
    requires Starved(c, s) && Enabled(c, s, e) && s.collector.Ended?
    ensures KeepsWaiting(c, s, Apply(c, s, e))
  {
    hide ConservationOk, ConsumedOk, BufferOk, WorkersOk, MailboxOk, ReservationsOk, GeneratingOk, CollectorOk, LimitOk,
         Tally, InPush, SampleOutcome;
    match e
    case Push(w) =>
      PushFits(c, s, w);
      PushThrough(s, w);
    case Finish(w) => LeaverNotInPush(s, w);
    case Abandon(w) => LeaverNotInPush(s, w);
    case TrySample =>
      SampleNeverFails(c, s);
      if SampleOutcome(c, s).Sampled? { SampledWasThrough(c, s); }
    case Deliver => DeliverMailbox(c, s);
    case _ =>
  }

  lemma LeaverNotInPush(s: State, w: nat)
    requires w < |s.workers| && !s.workers[w].phase.Pushing?
    ensures Tally(InPush(RemoveAt(s.workers, w)), AllOf(s.version)) == Tally(InPush(s.workers), AllOf(s.version))
  {
    InPushAt(s.workers, w, s.workers[w], AllOf(s.version));
    OneInPush(s.workers[w], AllOf(s.version));
  }

  lemma SampledWasThrough(c: Config, s: State)
    requires Inv(c, s) && s.trainer.Waiting() && SampleOutcome(c, s).Sampled?
    ensures Tally(s.buffer, AllOf(s.version)) >= c.prompts
  {
    hide ConservationOk, ConsumedOk, WorkersOk, MailboxOk, ReservationsOk, GeneratingOk, CollectorOk, LimitOk;
    WantedIsTally(c, s.buffer, s.last, s.version, MinValid(s.version, c.maxAge));
  }

  lemma {:induction false} StarvedForever(c: Config, s: State, es: seq<Event>)
    requires Starved(c, s) && CurrentRun(c, s, es)
    ensures Runs(c, s, es) && Starved(c, Final(c, s, es)) && Final(c, s, es).version == s.version
    decreases |es|
  {
    hide Starved, Enabled, Apply, Current;
    if es == [] {
    } else {
      StarvedStays(c, s, es[0]);
      StarvedForever(c, Apply(c, s, es[0]), es[1..]);
    }
  }

  /** While the trainer waits for data: before the data has ended it can get it if and only if the current target is
      reserved or still reservable; afterwards if and only if all groups of the step are buffered or being pushed.
      Otherwise every run keeps it waiting. */
  lemma SamplingPossibleIff(c: Config, s: State)
    requires Inv(c, s) && s.trainer.Waiting()
    ensures CanSample(c, s) <==>
      if s.collector.Ended? then
        CountWanted(s.buffer, s.version, MinValid(s.version, c.maxAge)) + Tally(InPush(s.workers), AllOf(s.version))
          >= c.prompts
      else Reserved(s.reservations, s.version) || Reservable(c, s)
  {
    WantedInBuffer(c, s);
    hide Inv, Tally, InPush, Reserved;
    if OnItsWay(c, s) {
      OnItsWayCanSample(c, s);
    } else if Reservable(c, s) {
      ReservableCanSample(c, s);
    } else if CanSample(c, s) {
      var es :| Samples(c, s, es);
      StarvedForever(c, s, es);
    }
  }

  lemma WantedInBuffer(c: Config, s: State)
    requires Inv(c, s) && s.trainer.Waiting()
    ensures CountWanted(s.buffer, s.version, MinValid(s.version, c.maxAge)) == Tally(s.buffer, AllOf(s.version))
  {
    WantedIsTally(c, s.buffer, s.last, s.version, MinValid(s.version, c.maxAge));
  }
}
