/** The asynchronous GRPO loop as a transition system: the trainer of nemo_rl/algorithms/grpo.py, the
    collector actor and its collection thread and workers, and the replay buffer, interleaved at the
    granularity of their locks and remote calls. */
module AsyncProtocol {
  import opened Sequences
  import opened ReplayBuffers

  /** prompts: num_prompts_per_step (one dataloader batch); maxAge: max_trajectory_age_steps; start: the step
      training starts from; inFlight: whether a refit may overtake running generations; batches: how many batches the
      dataloader gives in the one pass that the collection thread makes over it. */
  datatype Config = Config(prompts: nat, maxAge: nat, start: nat, inFlight: bool, batches: nat) {
    /** With maxAge == 0 the buffer constructor already fails. */
    predicate Valid() { prompts >= 1 && maxAge >= 1 }
    function BufferSize(): nat { prompts * maxAge * 2 }
    function Slots(): nat { prompts * maxAge }
  }

  /** A per-prompt group, identified by its prompt's place in the batch. */
  type Group = Entry<nat>

  /** A worker generates its group; tries to push it once it has seen the collector running; and has pushed it. */
  datatype Phase = Rolling | Pushing | Pushed
  datatype Worker = Worker(group: Group, phase: Phase)

  /** Where the collection thread is. The check of the generation limit carries the version it is made for and the last
      generated target it read; a batch being spawned carries the generation version it will stamp, its target, and the
      next prompt. `Ended` is `running == False`. */
  datatype Collector =
    | LoopTop
    | HasBatch
    | PastPause
    | CheckingLimit(at: int)
    | LimitRead(at: int, seenAt: int)
    | AtLimit
    | Clearing
    | AwaitingLimit
    | PastLimit
    | Began(gen: int)
    | LastRead(gen: int, seen: int)
    | AtPrompt(gen: int, target: int, next: nat)
    | WaitingRefit(gen: int, target: int, next: nat)
    | Woken(gen: int, target: int, next: nat)
    | Spawning(gen: int, target: int, next: nat)
    | Ended
  {
    predicate InBatch() { AtPrompt? || WaitingRefit? || Woken? || Spawning? }
    predicate HasGen() { Began? || LastRead? || InBatch() }
  }

  /** Remote calls the trainer makes on the collector actor, handled in order. `set_weight_version` first sets the
      version and then, as `Signal`, the event that lifts the generation limit. */
  datatype Message = Prepare | SetVersion(version: int) | Signal | Resume

  datatype Trainer = Warmup | Sampling | Training | AwaitingPause | AwaitingDrain | Refitting | Crashed {
    /** This version's data has not been sampled yet. */
    predicate Waiting() { Warmup? || Sampling? }
  }

  datatype Reservation = Reservation(gen: int, target: int)

  datatype State = State(
    buffer: seq<Group>, last: int,
    data: nat, cur: int, generating: set<int>, paused: bool, limitCleared: bool, warned: Option<int>,
    collector: Collector, workers: seq<Worker>,
    version: int, trainer: Trainer, mailbox: seq<Message>,
    reservations: seq<Reservation>, consumed: seq<Group>, dropped: seq<Group>)   // what happened so far

  datatype Event =
    | TakeBatch | DataEnds | PassPause | StartCheck | ReadForCheck | Decide | Warn | Clear | PassLimit
    | BeginBatch | ReadLast | Reserve | CheckRefit | Wake | Restamp | Spawn
    | StartPush(w: nat) | Push(w: nat) | Release(w: nat) | Finish(w: nat) | Abandon(w: nat)
    | Deliver | Drained
    | WarmupDone | TrySample | Trained | Bump

  function Init(c: Config): State {
    State([], -1, c.batches, c.start, {}, false, true, None, LoopTop, [], c.start, Warmup, [SetVersion(c.start)],
          [], [], [])
  }

  // ------------------------------------------------------------ choosing a target

  /** The first target `_calculate_target_weights` lists for generation version `gen`. */
  function FirstTarget(c: Config, gen: int): int {
    if gen == c.start then gen else gen + 1
  }

  /** The list `_calculate_target_weights` returns. */
  function TargetWeights(c: Config, gen: int): seq<int> {
    Range(FirstTarget(c, gen), gen + c.maxAge + 1)
  }

  /** The first target in the list that is neither generated nor being generated. */
  function NextTarget(targets: seq<int>, last: int, generating: set<int>): Option<int> {
    if targets == [] then None
    else if targets[0] > last && targets[0] !in generating then Some(targets[0])
    else NextTarget(targets[1..], last, generating)
  }

  lemma {:induction false} NextTargetInRange(lo: int, hi: int, last: int, generating: set<int>)
    ensures match NextTarget(Range(lo, hi), last, generating)
            case Some(t) =>
              && lo <= t < hi && t > last && t !in generating
              && forall u :: lo <= u < t ==> u <= last || u in generating
            case None => forall u :: lo <= u < hi ==> u <= last || u in generating
    decreases hi - lo
  {
    if lo >= hi {
    } else {
      assert Range(lo, hi)[1..] == Range(lo + 1, hi);
      NextTargetInRange(lo + 1, hi, last, generating);
    }
  }

  /** What the collection thread reserves when it read `seen` as the last generated target. */
  function Pick(c: Config, s: State, gen: int, seen: int): Option<int> {
    NextTarget(TargetWeights(c, gen), seen, s.generating)
  }

  lemma PickSpec(c: Config, s: State, gen: int, seen: int)
    ensures match Pick(c, s, gen, seen)
            case Some(t) =>
              && FirstTarget(c, gen) <= t <= gen + c.maxAge && t > seen && t !in s.generating
              && forall u :: FirstTarget(c, gen) <= u < t ==> u <= seen || u in s.generating
            case None => forall u :: FirstTarget(c, gen) <= u <= gen + c.maxAge ==> u <= seen || u in s.generating
  {
    NextTargetInRange(FirstTarget(c, gen), gen + c.maxAge + 1, seen, s.generating);
  }

  // ------------------------------------------------------------ steps

  predicate Enabled(c: Config, s: State, e: Event) {
    match e
    case TakeBatch => s.collector.LoopTop? && s.data > 0
    case DataEnds => s.collector.LoopTop? && s.data == 0
    case PassPause => s.collector.HasBatch? && !s.paused
    case StartCheck => s.collector.PastPause?
    case ReadForCheck => s.collector.CheckingLimit?
    case Decide => s.collector.LimitRead?
    case Warn => s.collector.AtLimit?
    case Clear => s.collector.Clearing?
    case PassLimit => s.collector.AwaitingLimit? && s.limitCleared
    case BeginBatch => s.collector.PastLimit?
    case ReadLast => s.collector.Began?
    case Reserve => s.collector.LastRead?
    case CheckRefit => s.collector.AtPrompt?
    case Wake => s.collector.WaitingRefit? && !s.paused
    case Restamp => s.collector.Woken?
    case Spawn => s.collector.Spawning? && |s.workers| < c.Slots()
    case StartPush(w) => w < |s.workers| && s.workers[w].phase.Rolling? && !s.collector.Ended?
    case Push(w) => w < |s.workers| && s.workers[w].phase.Pushing?
    case Release(w) => w < |s.workers| && s.workers[w].phase.Pushed? && s.workers[w].group.trajectory == 0
    case Finish(w) => w < |s.workers| && s.workers[w].phase.Pushed?
    case Abandon(w) => w < |s.workers| && s.workers[w].phase.Rolling? && s.collector.Ended?
    case Deliver => s.mailbox != []
    case Drained => s.trainer.AwaitingDrain? && (c.inFlight || s.workers == [])
    case WarmupDone => s.trainer.Warmup? && |s.buffer| >= c.prompts
    case TrySample => s.trainer.Sampling?
    case Trained => s.trainer.Training?
    case Bump => s.trainer.Refitting?
  }

  function Apply(c: Config, s: State, e: Event): State
    requires Enabled(c, s, e)
  {
    match e
    case TakeBatch => s.(collector := HasBatch, data := s.data - 1)
    case DataEnds => s.(collector := Ended)
    case PassPause => s.(collector := PastPause)
    case StartCheck => s.(collector := CheckingLimit(s.cur))
    case ReadForCheck => s.(collector := LimitRead(s.collector.at, s.last))
    case Decide =>
      s.(collector := if Pick(c, s, s.collector.at, s.collector.seenAt).None? then AtLimit else PastLimit)
    case Warn =>
      if s.warned == Some(s.cur) then s.(collector := AwaitingLimit)      // warned already: the event stays as it is
      else s.(collector := Clearing, warned := Some(s.cur))
    case Clear => s.(collector := AwaitingLimit, limitCleared := false)
    case PassLimit => s.(collector := PastLimit)
    case BeginBatch => s.(collector := Began(s.cur))
    case ReadLast => s.(collector := LastRead(s.collector.gen, s.last))
    case Reserve => ApplyReserve(c, s)
    case CheckRefit =>
      var (g, t, i) := (s.collector.gen, s.collector.target, s.collector.next);
      s.(collector := if s.paused then WaitingRefit(g, t, i) else Spawning(g, t, i))
    case Wake => s.(collector := Woken(s.collector.gen, s.collector.target, s.collector.next))
    case Restamp => s.(collector := Spawning(s.cur, s.collector.target, s.collector.next))
    case Spawn => ApplySpawn(c, s)
    case StartPush(w) => s.(workers := s.workers[w := s.workers[w].(phase := Pushing)])
    case Push(w) => ApplyPush(c, s, w)
    case Release(w) => s.(generating := s.generating - {s.workers[w].group.target})
    case Finish(w) =>
      s.(generating := s.generating - {s.workers[w].group.target}, workers := RemoveAt(s.workers, w))
    case Abandon(w) =>                           // not running any more: the group is not delivered
      s.(generating := s.generating - {s.workers[w].group.target}, workers := RemoveAt(s.workers, w),
         dropped := s.dropped + [s.workers[w].group])
    case Deliver => ApplyDeliver(s)
    case Drained => s.(trainer := Refitting)
    case WarmupDone => s.(trainer := Sampling)
    case TrySample => ApplySample(c, s)
    case Trained => s.(trainer := AwaitingPause, mailbox := s.mailbox + [Prepare])
    case Bump =>
      s.(trainer := Sampling, version := s.version + 1,
         mailbox := s.mailbox + [SetVersion(s.version + 1), Resume])
  }

  function ApplyReserve(c: Config, s: State): State
    requires s.collector.LastRead?
  {
    var g := s.collector.gen;
    match Pick(c, s, g, s.collector.seen)
    case None => s.(collector := LoopTop)
    case Some(t) =>
      s.(collector := AtPrompt(g, t, 0), generating := s.generating + {t},
         reservations := s.reservations + [Reservation(g, t)])
  }

  function ApplySpawn(c: Config, s: State): State
    requires s.collector.Spawning?
  {
    var (g, t, i) := (s.collector.gen, s.collector.target, s.collector.next);
    s.(workers := s.workers + [Worker(Entry(i, g, t), Rolling)],
       collector := if i + 1 < c.prompts then AtPrompt(g, t, i + 1) else LoopTop)
  }

  function ApplyPush(c: Config, s: State, w: nat): State
    requires w < |s.workers|
  {
    var g := s.workers[w].group;
    if |s.buffer| >= c.BufferSize() then s.(workers := s.workers[w := Worker(g, Rolling)])   // "full": back off
    else
      s.(buffer := s.buffer + [g], last := Max(s.last, g.target), workers := s.workers[w := Worker(g, Pushed)])
  }

  function ApplyDeliver(s: State): State
    requires s.mailbox != []
  {
    var s1 := s.(mailbox := s.mailbox[1..]);
    match s.mailbox[0]
    case Prepare => s1.(paused := true, trainer := if s.trainer.AwaitingPause? then AwaitingDrain else s.trainer)
    case SetVersion(v) => s.(cur := v, mailbox := [Signal] + s.mailbox[1..])
    case Signal => s1.(limitCleared := true)
    case Resume => s1.(paused := false)
  }

  function SampleOutcome(c: Config, s: State): SampleResult<nat> {
    Outcome(s.buffer, c.prompts, s.version, c.maxAge)
  }

  function ApplySample(c: Config, s: State): State {
    var low := MinValid(s.version, c.maxAge);
    match SampleOutcome(c, s)
    case Sampled(_, _) =>
      s.(buffer := Left(s.buffer, c.prompts, s.version, low), trainer := Training,
         consumed := s.consumed + Taken(s.buffer, c.prompts, s.version, low))
    case NotReady => s                         // sleep and ask again
    case _ => s.(trainer := Crashed)           // the exception ends the training loop
  }

  // ------------------------------------------------------------ runs

  /** `es` can be taken one after another from `s`. */
  predicate Runs(c: Config, s: State, es: seq<Event>)
    decreases |es|
  {
    es == [] || (Enabled(c, s, es[0]) && Runs(c, Apply(c, s, es[0]), es[1..]))
  }

  function Final(c: Config, s: State, es: seq<Event>): State
    requires Runs(c, s, es)
    decreases |es|
  {
    if es == [] then s else Final(c, Apply(c, s, es[0]), es[1..])
  }

  /** This reservation is the one the thread would make had it read the last generated target inside the
      critical section. Every other step qualifies. */
  predicate Current(c: Config, s: State, e: Event) {
    e == Reserve && s.collector.LastRead? ==>
      Pick(c, s, s.collector.gen, s.collector.seen) == Pick(c, s, s.collector.gen, s.last)
  }

  /** A run all of whose reservations are current. */
  predicate CurrentRun(c: Config, s: State, es: seq<Event>)
    decreases |es|
  {
    es == [] || (Enabled(c, s, es[0]) && Current(c, s, es[0]) && CurrentRun(c, Apply(c, s, es[0]), es[1..]))
  }

  lemma {:induction false} CurrentRunRuns(c: Config, s: State, es: seq<Event>)
    requires CurrentRun(c, s, es)
    ensures Runs(c, s, es)
    decreases |es|
  {
    if es == [] {
    } else {
      CurrentRunRuns(c, Apply(c, s, es[0]), es[1..]);
    }
  }

  lemma {:induction false} RunAppend(c: Config, s: State, es: seq<Event>, e: Event)
    requires Runs(c, s, es) && Enabled(c, Final(c, s, es), e)
    ensures Runs(c, s, es + [e]) && Final(c, s, es + [e]) == Apply(c, Final(c, s, es), e)
    ensures CurrentRun(c, s, es) && Current(c, Final(c, s, es), e) ==> CurrentRun(c, s, es + [e])
    decreases |es|
  {
    if es == [] {
      assert (es + [e])[1..] == [];
    } else {
      assert (es + [e])[0] == es[0] && (es + [e])[1..] == es[1..] + [e];
      RunAppend(c, Apply(c, s, es[0]), es[1..], e);
    }
  }
}
