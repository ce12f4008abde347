/** What every step of the asynchronous loop keeps, for reservations that are current. */
module AsyncInvariant {
  import opened Sequences
  import opened ReplayBuffers
  import opened AsyncProtocol

  // ------------------------------------------------------------ counting groups

  /** A class of groups: all of a target, or one prompt of a target. */
  datatype Class = AllOf(target: int) | One(target: int, prompt: nat) {
    predicate Has(g: Group) { g.target == target && (One? ==> g.trajectory == prompt) }
    /** How many of its groups one batch contributes. */
    function Quota(c: Config): nat { if AllOf? then c.prompts else if prompt < c.prompts then 1 else 0 }
  }

  function Tally(gs: seq<Group>, k: Class): nat {
    if gs == [] then 0 else (if k.Has(gs[0]) then 1 else 0) + Tally(gs[1..], k)
  }

  /** The groups whose worker has not delivered yet. */
  function Undelivered(ws: seq<Worker>): seq<Group> {
    if ws == [] then [] else (if ws[0].phase.Pushed? then [] else [ws[0].group]) + Undelivered(ws[1..])
  }

  /** The groups of the batch being spawned that have no worker yet. */
  function Unspawned(c: Config, col: Collector, k: Class): nat {
    if !col.InBatch() || col.target != k.target || col.next > c.prompts then 0
    else if k.AllOf? then c.prompts - col.next
    else if col.next <= k.prompt < c.prompts then 1
    else 0
  }

  lemma {:induction false} TallyAppend(xs: seq<Group>, ys: seq<Group>, k: Class)
    ensures Tally(xs + ys, k) == Tally(xs, k) + Tally(ys, k)
  {
    if xs == [] {
      assert xs + ys == ys;
    } else {
      assert (xs + ys)[0] == xs[0] && (xs + ys)[1..] == xs[1..] + ys;
      TallyAppend(xs[1..], ys, k);
    }
  }

  lemma {:induction false} TallyZero(gs: seq<Group>, k: Class)
    ensures Tally(gs, k) == 0 <==> forall g :: g in gs ==> !k.Has(g)
  {
    if gs == [] {
    } else {
      TallyZero(gs[1..], k);
    }
  }

  lemma {:induction false} TallyTaken(es: seq<Group>, n: nat, current: int, minValid: int, k: Class)
    ensures Tally(es, k) == Tally(Taken(es, n, current, minValid), k) + Tally(Left(es, n, current, minValid), k)
  {
    if es == [] || n == 0 {
    } else {
      TallyTaken(es[1..], if Wanted(es[0], current, minValid) then n - 1 else n, current, minValid, k);
    }
  }

  lemma {:induction false} TallyIsLength(gs: seq<Group>, t: int)
    requires forall g :: g in gs ==> g.target == t
    ensures Tally(gs, AllOf(t)) == |gs|
  {
    if gs == [] {
    } else {
      assert gs[0] in gs;
      TallyIsLength(gs[1..], t);
    }
  }

  lemma {:induction false} UndeliveredAppend(xs: seq<Worker>, ys: seq<Worker>)
    ensures Undelivered(xs + ys) == Undelivered(xs) + Undelivered(ys)
  {
    if xs == [] {
      assert xs + ys == ys;
    } else {
      assert (xs + ys)[0] == xs[0] && (xs + ys)[1..] == xs[1..] + ys;
      UndeliveredAppend(xs[1..], ys);
    }
  }

  /** The effect on undelivered groups of replacing worker `w` by `mid` (no worker, or the same one pushed). */
  lemma UndeliveredSplit(ws: seq<Worker>, w: nat)
    requires w < |ws|
    ensures ws[w].phase.Pushed? ==> Undelivered(RemoveAt(ws, w)) == Undelivered(ws)
    ensures !ws[w].phase.Pushed? ==>
      && Undelivered(ws) == Undelivered(ws[..w]) + [ws[w].group] + Undelivered(ws[w + 1..])
      && Undelivered(ws[w := Worker(ws[w].group, Pushed)]) == Undelivered(ws[..w]) + Undelivered(ws[w + 1..])
  {
    assert ws == ws[..w] + ([ws[w]] + ws[w + 1..]);
    var mid := Worker(ws[w].group, Pushed);
    assert ws[w := mid] == ws[..w] + ([mid] + ws[w + 1..]);
    UndeliveredAppend(ws[..w], ws[w + 1..]);
    UndeliveredAppend(ws[..w], [ws[w]] + ws[w + 1..]);
    UndeliveredAppend(ws[..w], [mid] + ws[w + 1..]);
    UndeliveredAppend([ws[w]], ws[w + 1..]);
    UndeliveredAppend([mid], ws[w + 1..]);
  }

  /** A worker that has not delivered may change its phase. */
  lemma UndeliveredPhase(ws: seq<Worker>, w: nat, phase: Phase)
    requires w < |ws| && !ws[w].phase.Pushed? && !phase.Pushed?
    ensures Undelivered(ws[w := ws[w].(phase := phase)]) == Undelivered(ws)
  {
    var mid := ws[w].(phase := phase);
    assert ws == ws[..w] + ([ws[w]] + ws[w + 1..]);
    assert ws[w := mid] == ws[..w] + ([mid] + ws[w + 1..]);
    UndeliveredAppend(ws[..w], [ws[w]] + ws[w + 1..]);
    UndeliveredAppend(ws[..w], [mid] + ws[w + 1..]);
    UndeliveredAppend([ws[w]], ws[w + 1..]);
    UndeliveredAppend([mid], ws[w + 1..]);
    assert Undelivered([ws[w]]) == [ws[w].group] == Undelivered([mid]);
  }

  lemma {:induction false} UndeliveredMember(ws: seq<Worker>, g: Group)
    ensures g in Undelivered(ws) <==> exists i :: 0 <= i < |ws| && !ws[i].phase.Pushed? && ws[i].group == g
  {
    if ws == [] {
    } else {
      UndeliveredMember(ws[1..], g);
      if i :| 0 <= i < |ws| && !ws[i].phase.Pushed? && ws[i].group == g {
        if i > 0 { assert ws[1..][i - 1] == ws[i]; }
      }
      if j :| 0 <= j < |ws[1..]| && !ws[1..][j].phase.Pushed? && ws[1..][j].group == g {
        assert ws[j + 1] == ws[1..][j];
      }
    }
  }

  // ------------------------------------------------------------ the invariant

  /** Outstanding groups: buffered, or still with a worker. */
  function Outstanding(s: State): seq<Group> {
    s.buffer + Undelivered(s.workers)
  }

  /** The first training step whose data is still outstanding. */
  function Floor(s: State): int {
    if s.trainer.Waiting() then s.version else s.version + 1
  }

  ghost predicate Reserved(rs: seq<Reservation>, t: int) {
    exists i :: 0 <= i < |rs| && rs[i].target == t
  }

  function Latest(s: State): Reservation
    requires s.reservations != []
  {
    s.reservations[|s.reservations| - 1]
  }

  /** The age window: generated by weights the trainer has had, at most maxAge before its step, and its step is
      not over. */
  predicate InWindow(c: Config, version: int, floor: int, g: Group) {
    g.version <= g.target <= g.version + c.maxAge && c.start <= g.version <= version && floor <= g.target
  }

  /** The mailbox without the pause request the trainer is waiting for. */
  function Pending(trainer: Trainer, mailbox: seq<Message>): seq<Message> {
    if trainer.AwaitingPause? && mailbox != [] then mailbox[..|mailbox| - 1] else mailbox
  }

  /** Messages under way. The collector lags by at most one version, and only while paused; a pause lasts until
      the refit is over and the resume behind it is delivered. */
  predicate MailboxOk(c: Config, trainer: Trainer, mailbox: seq<Message>, cur: int, version: int, paused: bool) {
    var pending := Pending(trainer, mailbox);
    && c.start <= cur <= version
    && (trainer.AwaitingPause? ==> mailbox == pending + [Prepare])
    && (trainer.AwaitingDrain? || trainer.Refitting? ==> mailbox == [])
    && (|| (pending == [] && cur == version && (paused <==> trainer.AwaitingDrain? || trainer.Refitting?))
        || (pending == [Resume] && cur == version && paused)
        || (pending == [Signal, Resume] && cur == version && paused)
        || (pending == [SetVersion(version), Resume] && cur == version - 1 && paused)
        || (pending == [Signal] && cur == version == c.start && !paused)
        || (pending == [SetVersion(version)] && cur == version == c.start && !paused))
  }

  /** The generation version of the batch in hand, or else of the next one. */
  function GenNow(collector: Collector, cur: int): int {
    if collector.HasGen() then collector.gen else cur
  }

  predicate CollectorOk(c: Config, collector: Collector, cur: int, last: int, rs: seq<Reservation>, floor: int) {
    && c.start <= GenNow(collector, cur) <= cur
    && (collector.LastRead? ==> collector.seen <= last)
    && (collector.InBatch() ==>
         && collector.next < c.prompts
         && rs != [] && collector.target == rs[|rs| - 1].target
         && collector.gen <= collector.target <= collector.gen + c.maxAge
         && floor <= collector.target)
  }

  /** The event of the generation limit is clear only while the thread waits for it, and the thread gets to the limit
      only when something is reserved. */
  predicate LimitOk(c: Config, collector: Collector, cur: int, last: int, rs: seq<Reservation>, cleared: bool) {
    && (!cleared ==> collector.AwaitingLimit?)
    && (collector.CheckingLimit? || collector.LimitRead? ==> c.start <= collector.at <= cur)
    && (collector.LimitRead? ==> collector.seenAt <= last)
    && (collector.AtLimit? || collector.Clearing? || collector.AwaitingLimit? ==> rs != [])
  }

  ghost predicate HasWorker(ws: seq<Worker>, t: int) {
    exists i :: 0 <= i < |ws| && ws[i].group.target == t
  }

  /** A target stays reserved only as long as its batch is in hand or a worker is left that will give it up. */
  ghost predicate GeneratingOk(collector: Collector, ws: seq<Worker>, generating: set<int>) {
    forall t :: t in generating ==> (collector.InBatch() && collector.target == t) || HasWorker(ws, t)
  }

  /** Reservations increase; each was in its generation's list; until the data ends each is being generated or has
      arrived; and from the latest one's list on there are no gaps. */
  ghost predicate ReservationsOk(c: Config, rs: seq<Reservation>, generating: set<int>, last: int, gen: int,
                               ended: bool) {
    && (forall i, j :: 0 <= i < j < |rs| ==> rs[i].target < rs[j].target)
    && (forall i :: 0 <= i < |rs| ==>
         && c.start <= rs[i].gen <= gen && FirstTarget(c, rs[i].gen) <= rs[i].target <= rs[i].gen + c.maxAge
         && (rs[i].target in generating || rs[i].target <= last || ended))
    && (forall t :: t in generating ==> Reserved(rs, t))
    && (rs == [] ==> last == -1)
    && (rs != [] ==>
         && last <= rs[|rs| - 1].target
         && forall t :: FirstTarget(c, rs[|rs| - 1].gen) <= t <= rs[|rs| - 1].target ==> Reserved(rs, t))
  }

  /** The number of groups of class `k`, wherever they are. */
  function Accounted(c: Config, collector: Collector, ws: seq<Worker>, buffer: seq<Group>, consumed: seq<Group>,
                     dropped: seq<Group>, k: Class): nat
  {
    Unspawned(c, collector, k) + Tally(Undelivered(ws), k) + Tally(buffer, k) + Tally(consumed, k) + Tally(dropped, k)
  }

  /** Every group of a reserved target is in exactly one place or was dropped, and there are no other groups. */
  ghost predicate ConservationOk(c: Config, collector: Collector, ws: seq<Worker>, buffer: seq<Group>,
                                 consumed: seq<Group>, dropped: seq<Group>, rs: seq<Reservation>)
  {
    forall k: Class ::
      Accounted(c, collector, ws, buffer, consumed, dropped, k) == if Reserved(rs, k.target) then k.Quota(c) else 0
  }

  /** The steps below `floor` have consumed all their groups, the others none. */
  ghost predicate ConsumedOk(c: Config, consumed: seq<Group>, last: int, floor: int) {
    && (forall t :: c.start <= t < floor ==> Tally(consumed, AllOf(t)) == c.prompts)
    && (forall g :: g in consumed ==> g.target < floor && g.target <= last)
  }

  ghost predicate BufferOk(c: Config, buffer: seq<Group>, last: int, version: int, floor: int) {
    forall g :: g in buffer ==> InWindow(c, version, floor, g) && g.target <= last
  }

  predicate WorkersOk(c: Config, ws: seq<Worker>, last: int, version: int, floor: int) {
    && |ws| <= c.Slots()
    && forall i :: 0 <= i < |ws| ==>
         if ws[i].phase.Pushed? then ws[i].group.target <= last else InWindow(c, version, floor, ws[i].group)
  }

  ghost predicate Inv(c: Config, s: State) {
    && c.Valid()
    && !s.trainer.Crashed?
    && (s.trainer.Warmup? ==> s.version == c.start)
    && MailboxOk(c, s.trainer, s.mailbox, s.cur, s.version, s.paused)
    && CollectorOk(c, s.collector, s.cur, s.last, s.reservations, Floor(s))
    && LimitOk(c, s.collector, s.cur, s.last, s.reservations, s.limitCleared)
    && GeneratingOk(s.collector, s.workers, s.generating)
    && (s.dropped != [] ==> s.collector.Ended?)
    && ReservationsOk(c, s.reservations, s.generating, s.last, GenNow(s.collector, s.cur), s.collector.Ended?)
    && ConservationOk(c, s.collector, s.workers, s.buffer, s.consumed, s.dropped, s.reservations)
    && ConsumedOk(c, s.consumed, s.last, Floor(s))
    && BufferOk(c, s.buffer, s.last, s.version, Floor(s))
    && WorkersOk(c, s.workers, s.last, s.version, Floor(s))
  }

  // ------------------------------------------------------------ capacity

  function CountIn(gs: seq<Group>, lo: int, hi: int): nat {
    if gs == [] then 0 else (if lo <= gs[0].target < hi then 1 else 0) + CountIn(gs[1..], lo, hi)
  }

  lemma {:induction false} CountInSplit(gs: seq<Group>, lo: int, hi: int)
    requires lo <= hi
    ensures CountIn(gs, lo, hi + 1) == CountIn(gs, lo, hi) + Tally(gs, AllOf(hi))
    ensures CountIn(gs, lo, lo) == 0
  {
    if gs == [] {
    } else {
      CountInSplit(gs[1..], lo, hi);
    }
  }

  lemma {:induction false} CountInAll(gs: seq<Group>, lo: int, hi: int)
    requires forall g :: g in gs ==> lo <= g.target < hi
    ensures CountIn(gs, lo, hi) == |gs|
  {
    if gs == [] {
    } else {
      assert gs[0] in gs;
      CountInAll(gs[1..], lo, hi);
    }
  }

  lemma {:induction false} CountInBound(gs: seq<Group>, lo: int, m: nat, n: nat)
    requires forall t :: Tally(gs, AllOf(t)) <= n
    ensures CountIn(gs, lo, lo + m) <= n * m
  {
    if m == 0 {
      CountInSplit(gs, lo, lo);
    } else {
      CountInBound(gs, lo, m - 1, n);
      CountInSplit(gs, lo, lo + m - 1);
      assert n * m == n * (m - 1) + n;
    }
  }

  /** At most maxAge + 1 targets are outstanding, so buffered and undelivered groups together fit the buffer. */
  lemma Capacity(c: Config, s: State)
    requires Inv(c, s)
    ensures |s.buffer| + |Undelivered(s.workers)| <= c.prompts * (s.version + c.maxAge + 1 - Floor(s)) <= c.BufferSize()
  {
    hide Inv;
    var gs := Outstanding(s);
    OutstandingTargets(c, s);
    forall t ensures Tally(gs, AllOf(t)) <= c.prompts { AtMostOneBatch(c, s, t); }
    var m := s.version + c.maxAge + 1 - Floor(s);
    ValidConfig(c, s);
    CountInAll(gs, Floor(s), Floor(s) + m);
    CountInBound(gs, Floor(s), m, c.prompts);
    FitsBuffer(c.prompts, c.maxAge, m);
  }

  lemma ValidConfig(c: Config, s: State)
    requires Inv(c, s)
    ensures c.Valid()
  {
  }

  lemma AtMostOneBatch(c: Config, s: State, t: int)
    requires Inv(c, s)
    ensures Tally(Outstanding(s), AllOf(t)) <= c.prompts
  {
    hide BufferOk, WorkersOk, ConsumedOk, MailboxOk, ReservationsOk, CollectorOk, LimitOk, GeneratingOk;
    TallyAppend(s.buffer, Undelivered(s.workers), AllOf(t));
    assert Accounted(c, s.collector, s.workers, s.buffer, s.consumed, s.dropped, AllOf(t)) <= c.prompts;
  }

  lemma FitsBuffer(n: nat, maxAge: nat, m: nat)
    requires m <= maxAge * 2
    ensures n * m <= n * maxAge * 2
  {
    assert n * m <= n * (maxAge * 2);
  }

  lemma OutstandingTargets(c: Config, s: State)
    requires Inv(c, s)
    ensures forall g :: g in Outstanding(s) ==> Floor(s) <= g.target < s.version + c.maxAge + 1
  {
    forall g | g in Outstanding(s) ensures Floor(s) <= g.target < s.version + c.maxAge + 1 {
      if g !in s.buffer { UndeliveredMember(s.workers, g); }
    }
  }

  /** A worker that still has to deliver finds room: `push_with_wait_signal` never answers "full". */
  lemma PushFits(c: Config, s: State, w: nat)
    requires Inv(c, s) && w < |s.workers| && !s.workers[w].phase.Pushed?
    ensures |s.buffer| < c.BufferSize()
  {
    Capacity(c, s);
    UndeliveredMember(s.workers, s.workers[w].group);
  }

  // ------------------------------------------------------------ every step keeps the invariant

  lemma InitInv(c: Config)
    requires c.Valid()
    ensures Inv(c, Init(c))
  {
    assert c.Slots() >= 0;
  }

  /** Moving the collection thread when it neither reserves nor spawns. */
  lemma KeepThread(c: Config, s: State, s': State)
    requires Inv(c, s)
    requires s' == s.(collector := s'.collector, data := s'.data, warned := s'.warned, limitCleared := s'.limitCleared)
    requires forall k: Class :: Unspawned(c, s.collector, k) == Unspawned(c, s'.collector, k)
    requires CollectorOk(c, s'.collector, s.cur, s.last, s.reservations, Floor(s))
    requires LimitOk(c, s'.collector, s.cur, s.last, s.reservations, s'.limitCleared)
    requires GenNow(s.collector, s.cur) <= GenNow(s'.collector, s.cur)
    requires s.collector.InBatch() <==> s'.collector.InBatch()
    requires s.collector.InBatch() ==> s.collector.target == s'.collector.target
    requires s.collector.Ended? ==> s'.collector.Ended?
    ensures Inv(c, s')
  {
    hide ConservationOk, ConsumedOk, BufferOk, WorkersOk, MailboxOk, CollectorOk, LimitOk, Unspawned, ReservationsOk,
         HasWorker;
    SameUnspawned(c, s, s'.collector);
    ReservationsGrow(c, s.reservations, s.generating, s.last, s.last,
                     GenNow(s.collector, s.cur), GenNow(s'.collector, s.cur), s.collector.Ended?, s'.collector.Ended?);
  }

  /** Reservations stay in order when the last arrived target or the generation version grows, or the data ends. */
  lemma ReservationsGrow(c: Config, rs: seq<Reservation>, generating: set<int>, last: int, last': int, gen: int,
                         gen': int, ended: bool, ended': bool)
    requires ReservationsOk(c, rs, generating, last, gen, ended) && last <= last' && gen <= gen' && (ended ==> ended')
    requires last < last' ==> rs != [] && last' <= rs[|rs| - 1].target
    ensures ReservationsOk(c, rs, generating, last', gen', ended')
  {
    hide Reserved, FirstTarget;
  }

  /** A target that has arrived may give up its reservation, and after the end of the data any target. */
  lemma ReservationsRelease(c: Config, rs: seq<Reservation>, generating: set<int>, last: int, gen: int, ended: bool,
                            t: int)
    requires ReservationsOk(c, rs, generating, last, gen, ended) && (t <= last || ended)
    ensures ReservationsOk(c, rs, generating - {t}, last, gen, ended)
  {
    hide Reserved, FirstTarget;
  }

  /** Workers that keep their groups keep the reservations accounted for, and so does one more worker. */
  lemma GeneratingSame(collector: Collector, ws: seq<Worker>, ws': seq<Worker>, generating: set<int>)
    requires GeneratingOk(collector, ws, generating)
    requires |ws| <= |ws'| && forall i :: 0 <= i < |ws| ==> ws'[i].group == ws[i].group
    ensures GeneratingOk(collector, ws', generating)
  {
    forall t | t in generating && HasWorker(ws, t) ensures HasWorker(ws', t) {
      var i :| 0 <= i < |ws| && ws[i].group.target == t;
      assert ws'[i].group.target == t;
    }
  }

  /** A worker that gives up its target may go. */
  lemma GeneratingLess(collector: Collector, ws: seq<Worker>, w: nat, generating: set<int>)
    requires GeneratingOk(collector, ws, generating) && w < |ws|
    ensures GeneratingOk(collector, RemoveAt(ws, w), generating - {ws[w].group.target})
    ensures GeneratingOk(collector, ws, generating - {ws[w].group.target})
  {
    forall t | t in generating && t != ws[w].group.target && HasWorker(ws, t) ensures HasWorker(RemoveAt(ws, w), t) {
      var i :| 0 <= i < |ws| && ws[i].group.target == t;
      assert RemoveAt(ws, w)[if i < w then i else i - 1] == ws[i];
    }
  }

  /** Moving the thread without spawning anything moves no group. */
  lemma SameUnspawned(c: Config, s: State, collector: Collector)
    requires Inv(c, s)
    requires forall k: Class :: Unspawned(c, s.collector, k) == Unspawned(c, collector, k)
    ensures ConservationOk(c, collector, s.workers, s.buffer, s.consumed, s.dropped, s.reservations)
  {
    forall k: Class
      ensures Accounted(c, collector, s.workers, s.buffer, s.consumed, s.dropped, k)
           == if Reserved(s.reservations, k.target) then k.Quota(c) else 0
    {
      assert Accounted(c, collector, s.workers, s.buffer, s.consumed, s.dropped, k)
          == Accounted(c, s.collector, s.workers, s.buffer, s.consumed, s.dropped, k);
    }
  }

  lemma KeepReserve(c: Config, s: State)
    requires Inv(c, s) && Enabled(c, s, Reserve) && Current(c, s, Reserve)
    ensures Inv(c, Apply(c, s, Reserve))
  {
    var g := s.collector.gen;
    match Pick(c, s, g, s.last)
    case None => KeepThread(c, s, Apply(c, s, Reserve));
    case Some(t) => KeepReserved(c, s, g, t);
  }

  lemma KeepReserved(c: Config, s: State, g: int, t: int)
    requires Inv(c, s) && s.collector.LastRead? && s.collector.gen == g && Pick(c, s, g, s.last) == Some(t)
    ensures Inv(c, s.(collector := AtPrompt(g, t, 0), generating := s.generating + {t},
                      reservations := s.reservations + [Reservation(g, t)]))
  {
    hide ConservationOk, ConsumedOk, BufferOk, WorkersOk, MailboxOk, ReservationsOk, CollectorOk, GeneratingOk, LimitOk;
    FreshTarget(c, s, g, t);
    ReserveKeepsOrder(c, s, g, t);
    ReserveAddsBatch(c, s, g, t);
    ReserveInHand(c, s, g, t);
  }

  lemma ReserveInHand(c: Config, s: State, g: int, t: int)
    requires Inv(c, s) && s.collector.LastRead? && s.collector.gen == g && Pick(c, s, g, s.last) == Some(t)
    requires Floor(s) <= t
    ensures var rs := s.reservations + [Reservation(g, t)];
            && CollectorOk(c, AtPrompt(g, t, 0), s.cur, s.last, rs, Floor(s))
            && LimitOk(c, AtPrompt(g, t, 0), s.cur, s.last, rs, s.limitCleared)
            && GeneratingOk(AtPrompt(g, t, 0), s.workers, s.generating + {t})
  {
    hide ConservationOk, ConsumedOk, BufferOk, WorkersOk, MailboxOk, ReservationsOk, HasWorker, Pick;
    PickSpec(c, s, g, s.last);
  }

  lemma ReservedSnoc(rs: seq<Reservation>, r: Reservation, u: int)
    ensures Reserved(rs + [r], u) <==> Reserved(rs, u) || u == r.target
  {
    var rs' := rs + [r];
    assert rs'[|rs|] == r;
    if i :| 0 <= i < |rs| && rs[i].target == u { assert rs'[i].target == u; }
  }

  lemma ReserveKeepsOrder(c: Config, s: State, g: int, t: int)
    requires Inv(c, s) && s.collector.LastRead? && s.collector.gen == g && Pick(c, s, g, s.last) == Some(t)
    requires s.reservations != [] ==> t > Latest(s).target
    ensures ReservationsOk(c, s.reservations + [Reservation(g, t)], s.generating + {t}, s.last, g, false)
  {
    hide ConservationOk, ConsumedOk, BufferOk, WorkersOk, MailboxOk, ReservationsOk;
    PickSpec(c, s, g, s.last);
    AddReservation(c, s.reservations, s.generating, s.last, g, t);
  }

  /** The next free target of a list goes behind all reservations. */
  lemma AddReservation(c: Config, rs: seq<Reservation>, generating: set<int>, last: int, g: int, t: int)
    requires ReservationsOk(c, rs, generating, last, g, false) && c.start <= g
    requires FirstTarget(c, g) <= t <= g + c.maxAge && last < t && (rs != [] ==> t > rs[|rs| - 1].target)
    requires forall u :: FirstTarget(c, g) <= u < t ==> u <= last || u in generating
    ensures ReservationsOk(c, rs + [Reservation(g, t)], generating + {t}, last, g, false)
  {
    var rs' := rs + [Reservation(g, t)];
    forall u | FirstTarget(c, g) <= u <= t ensures Reserved(rs', u) {
      ReservedSnoc(rs, Reservation(g, t), u);
      if u < t && u !in generating { assert FirstTarget(c, rs[|rs| - 1].gen) <= FirstTarget(c, g); }
    }
    forall u | u in generating + {t} ensures Reserved(rs', u) {
      ReservedSnoc(rs, Reservation(g, t), u);
    }
  }

  lemma ReserveAddsBatch(c: Config, s: State, g: int, t: int)
    requires Inv(c, s) && s.collector.LastRead? && !Reserved(s.reservations, t)
    ensures ConservationOk(c, AtPrompt(g, t, 0), s.workers, s.buffer, s.consumed, s.dropped,
                           s.reservations + [Reservation(g, t)])
  {
    hide Reserved, Tally, Undelivered, ReservationsOk, BufferOk, WorkersOk, MailboxOk, ConsumedOk;
    forall k: Class
      ensures Accounted(c, AtPrompt(g, t, 0), s.workers, s.buffer, s.consumed, s.dropped, k)
           == if Reserved(s.reservations + [Reservation(g, t)], k.target) then k.Quota(c) else 0
    {
      ReservedSnoc(s.reservations, Reservation(g, t), k.target);
      assert Accounted(c, s.collector, s.workers, s.buffer, s.consumed, s.dropped, k)
          == if Reserved(s.reservations, k.target) then k.Quota(c) else 0;
    }
  }

  /** A current pick is new, lies above every earlier reservation, and belongs to a step not over. */
  lemma FreshTarget(c: Config, s: State, g: int, t: int)
    requires Inv(c, s) && s.collector.LastRead? && s.collector.gen == g
    requires Pick(c, s, g, s.last) == Some(t)
    ensures !Reserved(s.reservations, t) && Floor(s) <= t && t > s.last
    ensures s.reservations != [] ==> t > Latest(s).target
  {
    PickSpec(c, s, g, s.last);
    if s.reservations != [] {
      assert FirstTarget(c, Latest(s).gen) <= FirstTarget(c, g) <= t;
      assert t <= Latest(s).target ==> Reserved(s.reservations, t);
    }
    assert t < Floor(s) ==> Tally(s.consumed, AllOf(t)) == c.prompts;
    TallyZero(s.consumed, AllOf(t));
  }

  lemma KeepSpawn(c: Config, s: State)
    requires Inv(c, s) && Enabled(c, s, Spawn)
    ensures Inv(c, Apply(c, s, Spawn))
  {
    var s' := Apply(c, s, Spawn);
    SpawnMoves(c, s);
    SpawnGenerates(s, s');
    hide ConservationOk, ConsumedOk, BufferOk, MailboxOk, Unspawned, ReservationsOk, GeneratingOk;
    ReservationsGrow(c, s.reservations, s.generating, s.last, s.last,
                     GenNow(s.collector, s.cur), GenNow(s'.collector, s.cur), false, false);
  }

  lemma SpawnGenerates(s: State, s': State)
    requires s.collector.Spawning? && GeneratingOk(s.collector, s.workers, s.generating)
    requires s'.workers == s.workers + [Worker(Entry(s.collector.next, s.collector.gen, s.collector.target), Rolling)]
    ensures GeneratingOk(s'.collector, s'.workers, s.generating)
  {
    assert s'.workers[|s.workers|].group.target == s.collector.target;
    assert HasWorker(s'.workers, s.collector.target);
    GeneratingSame(s.collector, s.workers, s'.workers, s.generating);
  }

  lemma SpawnMoves(c: Config, s: State)
    requires Inv(c, s) && s.collector.Spawning?
    ensures var s' := ApplySpawn(c, s);
            ConservationOk(c, s'.collector, s'.workers, s.buffer, s.consumed, s.dropped, s.reservations)
  {
    var s' := ApplySpawn(c, s);
    var (g, t, i) := (s.collector.gen, s.collector.target, s.collector.next);
    var w := Worker(Entry(i, g, t), Rolling);
    UndeliveredAppend(s.workers, [w]);
    assert Undelivered([w]) == [w.group];
    forall k: Class
      ensures Accounted(c, s'.collector, s'.workers, s.buffer, s.consumed, s.dropped, k)
           == Accounted(c, s.collector, s.workers, s.buffer, s.consumed, s.dropped, k)
    {
      TallyAppend(Undelivered(s.workers), [w.group], k);
      assert Tally([w.group], k) == if k.Has(w.group) then 1 else 0;
    }
  }

  lemma KeepPush(c: Config, s: State, w: nat)
    requires Inv(c, s) && Enabled(c, s, Push(w))
    ensures Inv(c, Apply(c, s, Push(w)))
  {
    hide ConservationOk, ConsumedOk, BufferOk, WorkersOk, MailboxOk, CollectorOk, ReservationsOk, Undelivered,
         Outstanding, GeneratingOk;
    PushFits(c, s, w);
    GeneratingSame(s.collector, s.workers, Apply(c, s, Push(w)).workers, s.generating);
    var last := Max(s.last, s.workers[w].group.target);
    PushReserved(c, s, w);
    PushMoves(c, s, w);
    PushWindows(c, s, w);
    ReservationsGrow(c, s.reservations, s.generating, s.last, last,
                     GenNow(s.collector, s.cur), GenNow(s.collector, s.cur), s.collector.Ended?, s.collector.Ended?);
    CollectorLater(c, s, last);
  }

  lemma PushReserved(c: Config, s: State, w: nat)
    requires Inv(c, s) && w < |s.workers| && !s.workers[w].phase.Pushed?
    ensures s.reservations != [] && s.workers[w].group.target <= Latest(s).target
  {
    UndeliveredMember(s.workers, s.workers[w].group);
    OutstandingReserved(c, s, s.workers[w].group);
  }

  lemma PushWindows(c: Config, s: State, w: nat)
    requires Inv(c, s) && w < |s.workers| && !s.workers[w].phase.Pushed?
    ensures var g := s.workers[w].group;
            var last := Max(s.last, g.target);
            && BufferOk(c, s.buffer + [g], last, s.version, Floor(s))
            && WorkersOk(c, s.workers[w := Worker(g, Pushed)], last, s.version, Floor(s))
            && ConsumedOk(c, s.consumed, last, Floor(s))
  {
    hide ConservationOk, MailboxOk, CollectorOk, ReservationsOk, InWindow;
  }

  lemma CollectorLater(c: Config, s: State, last: int)
    requires CollectorOk(c, s.collector, s.cur, s.last, s.reservations, Floor(s)) && s.last <= last
    ensures CollectorOk(c, s.collector, s.cur, last, s.reservations, Floor(s))
  {
  }

  lemma PushMoves(c: Config, s: State, w: nat)
    requires Inv(c, s) && w < |s.workers| && !s.workers[w].phase.Pushed?
    ensures var g := s.workers[w].group;
            ConservationOk(c, s.collector, s.workers[w := Worker(g, Pushed)], s.buffer + [g], s.consumed, s.dropped,
                           s.reservations)
  {
    var g := s.workers[w].group;
    UndeliveredSplit(s.workers, w);
    var (before, after) := (Undelivered(s.workers[..w]), Undelivered(s.workers[w + 1..]));
    forall k: Class
      ensures Accounted(c, s.collector, s.workers[w := Worker(g, Pushed)], s.buffer + [g], s.consumed, s.dropped, k)
           == Accounted(c, s.collector, s.workers, s.buffer, s.consumed, s.dropped, k)
    {
      TallyAppend(before + [g], after, k);
      TallyAppend(before, [g], k);
      TallyAppend(before, after, k);
      TallyAppend(s.buffer, [g], k);
    }
  }

  lemma OutstandingReserved(c: Config, s: State, g: Group)
    requires Inv(c, s) && g in Outstanding(s)
    ensures Reserved(s.reservations, g.target) && s.reservations != [] && g.target <= Latest(s).target
  {
    hide BufferOk, WorkersOk, ConsumedOk, MailboxOk, CollectorOk, LimitOk, GeneratingOk, ReservationsOk, Reserved,
         Tally, Undelivered;
    TallyZero(Undelivered(s.workers), AllOf(g.target));
    TallyZero(s.buffer, AllOf(g.target));
    assert Accounted(c, s.collector, s.workers, s.buffer, s.consumed, s.dropped, AllOf(g.target)) > 0;
    NotAboveLatest(s.reservations, g.target, c, s.generating, s.last, GenNow(s.collector, s.cur), s.collector.Ended?);
  }

  lemma NotAboveLatest(rs: seq<Reservation>, t: int, c: Config, generating: set<int>, last: int, gen: int, ended: bool)
    requires ReservationsOk(c, rs, generating, last, gen, ended) && Reserved(rs, t)
    ensures rs != [] && t <= rs[|rs| - 1].target
  {
  }

  lemma KeepStartPush(c: Config, s: State, w: nat)
    requires Inv(c, s) && w < |s.workers| && !s.workers[w].phase.Pushed?
    ensures Inv(c, s.(workers := s.workers[w := s.workers[w].(phase := Pushing)]))
  {
    hide ConservationOk, ReservationsOk, ConsumedOk, BufferOk, MailboxOk, CollectorOk, LimitOk, GeneratingOk,
         Undelivered;
    var ws := s.workers[w := s.workers[w].(phase := Pushing)];
    GeneratingSame(s.collector, s.workers, ws, s.generating);
    UndeliveredPhase(s.workers, w, Pushing);
    SameUndelivered(c, s, ws);
  }

  lemma SameUndelivered(c: Config, s: State, ws: seq<Worker>)
    requires ConservationOk(c, s.collector, s.workers, s.buffer, s.consumed, s.dropped, s.reservations)
    requires Undelivered(ws) == Undelivered(s.workers)
    ensures ConservationOk(c, s.collector, ws, s.buffer, s.consumed, s.dropped, s.reservations)
  {
    forall k: Class
      ensures Accounted(c, s.collector, ws, s.buffer, s.consumed, s.dropped, k)
           == Accounted(c, s.collector, s.workers, s.buffer, s.consumed, s.dropped, k)
    {}
  }

  lemma KeepRelease(c: Config, s: State, w: nat, e: Event)
    requires Inv(c, s) && Enabled(c, s, e) && (e == Release(w) || e == Finish(w))
    ensures Inv(c, Apply(c, s, e))
  {
    hide ConservationOk, ReservationsOk, ConsumedOk, BufferOk, MailboxOk, CollectorOk, LimitOk, GeneratingOk;
    FinishMoves(c, s, w);
    GeneratingLess(s.collector, s.workers, w, s.generating);
    ReservationsRelease(c, s.reservations, s.generating, s.last, GenNow(s.collector, s.cur), s.collector.Ended?,
                        s.workers[w].group.target);
  }

  /** A worker that is not allowed to deliver any more drops its group and gives up its target. */
  lemma KeepAbandon(c: Config, s: State, w: nat)
    requires Inv(c, s) && Enabled(c, s, Abandon(w))
    ensures Inv(c, Apply(c, s, Abandon(w)))
  {
    hide ConservationOk, ReservationsOk, ConsumedOk, BufferOk, MailboxOk, CollectorOk, LimitOk, GeneratingOk;
    AbandonMoves(c, s, w);
    GeneratingLess(s.collector, s.workers, w, s.generating);
    ReservationsRelease(c, s.reservations, s.generating, s.last, GenNow(s.collector, s.cur), true,
                        s.workers[w].group.target);
  }

  lemma AbandonMoves(c: Config, s: State, w: nat)
    requires Inv(c, s) && w < |s.workers| && !s.workers[w].phase.Pushed?
    ensures ConservationOk(c, s.collector, RemoveAt(s.workers, w), s.buffer, s.consumed,
                           s.dropped + [s.workers[w].group], s.reservations)
  {
    var g := s.workers[w].group;
    UndeliveredSplit(s.workers, w);
    UndeliveredAppend(s.workers[..w], s.workers[w + 1..]);
    var (before, after) := (Undelivered(s.workers[..w]), Undelivered(s.workers[w + 1..]));
    forall k: Class
      ensures Accounted(c, s.collector, RemoveAt(s.workers, w), s.buffer, s.consumed, s.dropped + [g], k)
           == Accounted(c, s.collector, s.workers, s.buffer, s.consumed, s.dropped, k)
    {
      TallyAppend(before + [g], after, k);
      TallyAppend(before, [g], k);
      TallyAppend(before, after, k);
      TallyAppend(s.dropped, [g], k);
    }
  }

  lemma FinishMoves(c: Config, s: State, w: nat)
    requires Inv(c, s) && w < |s.workers| && s.workers[w].phase.Pushed?
    ensures ConservationOk(c, s.collector, RemoveAt(s.workers, w), s.buffer, s.consumed, s.dropped, s.reservations)
    ensures s.workers[w].group.target <= s.last
  {
    UndeliveredSplit(s.workers, w);
    forall k: Class
      ensures Accounted(c, s.collector, RemoveAt(s.workers, w), s.buffer, s.consumed, s.dropped, k)
           == Accounted(c, s.collector, s.workers, s.buffer, s.consumed, s.dropped, k)
    {}
  }

  lemma KeepDeliver(c: Config, s: State)
    requires Inv(c, s) && Enabled(c, s, Deliver)
    ensures Inv(c, Apply(c, s, Deliver))
  {
    hide ConservationOk, ReservationsOk, ConsumedOk, BufferOk, WorkersOk, MailboxOk;
    var s' := Apply(c, s, Deliver);
    DeliverMailbox(c, s);
    assert Floor(s') == Floor(s);
    ReservationsGrow(c, s.reservations, s.generating, s.last, s.last,
                     GenNow(s.collector, s.cur), GenNow(s'.collector, s'.cur), s.collector.Ended?, s.collector.Ended?);
  }

  lemma DeliverMailbox(c: Config, s: State)
    requires MailboxOk(c, s.trainer, s.mailbox, s.cur, s.version, s.paused) && s.mailbox != []
    ensures var s' := ApplyDeliver(s);
            && MailboxOk(c, s'.trainer, s'.mailbox, s'.cur, s.version, s'.paused)
            && s.cur <= s'.cur && (s'.trainer == s.trainer || (s.trainer.AwaitingPause? && s'.trainer.AwaitingDrain?))
  {
    var pending := Pending(s.trainer, s.mailbox);
    if pending == [] {
      assert s.mailbox == [Prepare];
    } else {
      PendingTail(s.trainer, s.mailbox);
    }
  }

  lemma PendingTail(trainer: Trainer, mailbox: seq<Message>)
    requires Pending(trainer, mailbox) != []
    ensures var pending := Pending(trainer, mailbox);
            && mailbox != [] && mailbox[0] == pending[0] && Pending(trainer, mailbox[1..]) == pending[1..]
            && Pending(trainer, [Signal] + mailbox[1..]) == [Signal] + pending[1..]
            && (mailbox == pending + [Prepare] ==> mailbox[1..] == pending[1..] + [Prepare])
            && (mailbox == pending + [Prepare] ==> [Signal] + mailbox[1..] == [Signal] + pending[1..] + [Prepare])
  {
  }

  lemma KeepTrainer(c: Config, s: State, e: Event)
    requires Inv(c, s) && Enabled(c, s, e) && e in {Drained, WarmupDone, Trained}
    ensures Inv(c, Apply(c, s, e))
  {
    hide ConservationOk, ConsumedOk, BufferOk, WorkersOk, ReservationsOk, CollectorOk, MailboxOk;
    var s' := Apply(c, s, e);
    assert Floor(s') == Floor(s);
    TrainerMailbox(c, s.trainer, s.mailbox, s.cur, s.version, s.paused);
  }

  /** The trainer's own moves fit the messages under way. */
  lemma TrainerMailbox(c: Config, trainer: Trainer, mailbox: seq<Message>, cur: int, version: int, paused: bool)
    requires MailboxOk(c, trainer, mailbox, cur, version, paused)
    ensures trainer == Training ==> MailboxOk(c, AwaitingPause, mailbox + [Prepare], cur, version, paused)
    ensures trainer == AwaitingDrain ==> MailboxOk(c, Refitting, mailbox, cur, version, paused)
    ensures trainer == Warmup ==> MailboxOk(c, Sampling, mailbox, cur, version, paused)
  {
    if trainer == Training { assert (mailbox + [Prepare])[..|mailbox|] == mailbox; }
  }

  lemma KeepBump(c: Config, s: State)
    requires Inv(c, s) && s.trainer.Refitting?
    ensures Inv(c, Apply(c, s, Bump))
  {
    hide ConservationOk, ConsumedOk, ReservationsOk, CollectorOk;
    var s' := Apply(c, s, Bump);
    assert s'.mailbox == [SetVersion(s'.version), Resume] && Floor(s') == Floor(s);
  }

  /** `sample` never finds data older than the age window, and never fails. */
  lemma SampleNeverFails(c: Config, s: State)
    requires Inv(c, s) && s.trainer.Sampling?
    ensures SampleOutcome(c, s).Sampled? || SampleOutcome(c, s).NotReady?
  {
    NoneOld(s.buffer, MinValid(s.version, c.maxAge));
  }

  lemma {:induction false} NoneOld(es: seq<Group>, minValid: int)
    requires forall g :: g in es ==> minValid <= g.version
    ensures CountOld(es, minValid) == 0
  {
    if es == [] {
    } else {
      assert es[0] in es;
      NoneOld(es[1..], minValid);
    }
  }

  lemma KeepSample(c: Config, s: State)
    requires Inv(c, s) && s.trainer.Sampling?
    ensures Inv(c, Apply(c, s, TrySample))
  {
    hide Inv, SampleOutcome, ConservationOk, ConsumedOk;
    SampleNeverFails(c, s);
    if SampleOutcome(c, s).Sampled? {
      SampleMoves(c, s);
      SampleCloses(c, s);
      KeepSampled(c, s);
    }
  }

  lemma KeepSampled(c: Config, s: State)
    requires Inv(c, s) && s.trainer.Sampling? && SampleOutcome(c, s).Sampled?
    requires var s' := ApplySample(c, s);
             && ConservationOk(c, s.collector, s.workers, s'.buffer, s'.consumed, s.dropped, s.reservations)
             && ConsumedOk(c, s'.consumed, s.last, s.version + 1)
             && Tally(s'.consumed, AllOf(s.version)) == c.prompts
    ensures Inv(c, ApplySample(c, s))
  {
    var s' := ApplySample(c, s);
    hide ConservationOk, ConsumedOk, BufferOk, WorkersOk, MailboxOk, ReservationsOk, CollectorOk, GeneratingOk, LimitOk,
         SampleOutcome, Outcome;
    SampledMailbox(c, s.mailbox, s.cur, s.version, s.paused);
    SampledWindows(c, s);
  }

  lemma SampledMailbox(c: Config, mailbox: seq<Message>, cur: int, version: int, paused: bool)
    requires MailboxOk(c, Sampling, mailbox, cur, version, paused)
    ensures MailboxOk(c, Training, mailbox, cur, version, paused)
  {
  }

  /** With its step consumed, nothing that is left belongs to it. */
  lemma SampledWindows(c: Config, s: State)
    requires Inv(c, s) && s.trainer.Sampling? && SampleOutcome(c, s).Sampled?
    requires var s' := ApplySample(c, s);
             && ConservationOk(c, s.collector, s.workers, s'.buffer, s'.consumed, s.dropped, s.reservations)
             && Tally(s'.consumed, AllOf(s.version)) == c.prompts
    ensures BufferOk(c, ApplySample(c, s).buffer, s.last, s.version, s.version + 1)
    ensures WorkersOk(c, s.workers, s.last, s.version, s.version + 1)
    ensures CollectorOk(c, s.collector, s.cur, s.last, s.reservations, s.version + 1)
  {
    hide ConservationOk, ConsumedOk, MailboxOk, ReservationsOk, GeneratingOk, LimitOk, SampleOutcome;
    SampleConserves(s.buffer, c.prompts, s.version, MinValid(s.version, c.maxAge));
    DoneTarget(c, ApplySample(c, s), s.version);
  }

  lemma SampleMoves(c: Config, s: State)
    requires Inv(c, s) && SampleOutcome(c, s).Sampled?
    ensures var low := MinValid(s.version, c.maxAge);
            ConservationOk(c, s.collector, s.workers, Left(s.buffer, c.prompts, s.version, low),
                           s.consumed + Taken(s.buffer, c.prompts, s.version, low), s.dropped, s.reservations)
  {
    var low := MinValid(s.version, c.maxAge);
    var (taken, left) := (Taken(s.buffer, c.prompts, s.version, low), Left(s.buffer, c.prompts, s.version, low));
    forall k: Class
      ensures Accounted(c, s.collector, s.workers, left, s.consumed + taken, s.dropped, k)
           == Accounted(c, s.collector, s.workers, s.buffer, s.consumed, s.dropped, k)
    {
      TallyTaken(s.buffer, c.prompts, s.version, low, k);
      TallyAppend(s.consumed, taken, k);
    }
  }

  /** A successful sample completes its step and touches no other. */
  lemma SampleCloses(c: Config, s: State)
    requires Inv(c, s) && s.trainer.Sampling? && SampleOutcome(c, s).Sampled?
    ensures var consumed := s.consumed + Taken(s.buffer, c.prompts, s.version, MinValid(s.version, c.maxAge));
            ConsumedOk(c, consumed, s.last, s.version + 1) && Tally(consumed, AllOf(s.version)) == c.prompts
  {
    var taken := Taken(s.buffer, c.prompts, s.version, MinValid(s.version, c.maxAge));
    TakenOnTarget(c, s);
    TallyZero(s.consumed, AllOf(s.version));
    forall t ensures Tally(s.consumed + taken, AllOf(t)) == Tally(s.consumed, AllOf(t)) + Tally(taken, AllOf(t))
                     && (t != s.version ==> Tally(taken, AllOf(t)) == 0)
    {
      TallyAppend(s.consumed, taken, AllOf(t));
      TallyZero(taken, AllOf(t));
    }
  }

  lemma {:induction false} TakenMember(es: seq<Group>, n: nat, current: int, minValid: int, g: Group)
    requires g in Taken(es, n, current, minValid)
    ensures g in es && g.target == current
  {
    if Wanted(es[0], current, minValid) {
      if g != es[0] { TakenMember(es[1..], n - 1, current, minValid, g); }
    } else {
      TakenMember(es[1..], n, current, minValid, g);
    }
  }

  /** What a successful sample takes: one step's worth, all for this step. */
  lemma TakenOnTarget(c: Config, s: State)
    requires SampleOutcome(c, s).Sampled?
    ensures var taken := Taken(s.buffer, c.prompts, s.version, MinValid(s.version, c.maxAge));
            && |taken| == c.prompts == Tally(taken, AllOf(s.version))
            && forall g :: g in taken ==> g.target == s.version && g in s.buffer
  {
    var low := MinValid(s.version, c.maxAge);
    var taken := Taken(s.buffer, c.prompts, s.version, low);
    TakenLength(s.buffer, c.prompts, s.version, low);
    forall g | g in taken ensures g.target == s.version && g in s.buffer {
      TakenMember(s.buffer, c.prompts, s.version, low, g);
    }
    TallyIsLength(taken, s.version);
  }

  /** Once all groups of a target are consumed, none is anywhere else. */
  lemma DoneTarget(c: Config, s: State, t: int)
    requires ConservationOk(c, s.collector, s.workers, s.buffer, s.consumed, s.dropped, s.reservations)
    requires c.Valid() && Tally(s.consumed, AllOf(t)) == c.prompts
    ensures forall g :: g in s.buffer ==> g.target != t
    ensures forall i :: 0 <= i < |s.workers| && !s.workers[i].phase.Pushed? ==> s.workers[i].group.target != t
    ensures s.collector.InBatch() && s.collector.next < c.prompts ==> s.collector.target != t
  {
    assert Accounted(c, s.collector, s.workers, s.buffer, s.consumed, s.dropped, AllOf(t)) <= c.prompts;
    TallyZero(s.buffer, AllOf(t));
    TallyZero(Undelivered(s.workers), AllOf(t));
    forall i | 0 <= i < |s.workers| && !s.workers[i].phase.Pushed? ensures s.workers[i].group.target != t {
      UndeliveredMember(s.workers, s.workers[i].group);
    }
  }

  /** The steps of the collection thread before it has a target. */
  predicate Approaches(e: Event) {
    e in {TakeBatch, DataEnds, PassPause, StartCheck, BeginBatch, ReadLast}
  }

  lemma KeepApproach(c: Config, s: State, e: Event)
    requires Inv(c, s) && Enabled(c, s, e) && Approaches(e)
    ensures Inv(c, Apply(c, s, e))
  {
    hide Inv, Pick, Floor;
    CurWithin(c, s);
    InvThread(c, s);
    KeepThread(c, s, Apply(c, s, e));
  }

  /** The check of the generation limit and the wait for the event that lifts it. */
  lemma KeepLimitCheck(c: Config, s: State, e: Event)
    requires Inv(c, s) && Enabled(c, s, e) && e in {ReadForCheck, Decide, Warn, Clear, PassLimit}
    ensures Inv(c, Apply(c, s, e))
  {
    hide Inv, Pick, Floor;
    if e == Decide { LimitMeansReserved(c, s); }
    CurWithin(c, s);
    InvThread(c, s);
    KeepThread(c, s, Apply(c, s, e));
  }

  /** The wait for a refit between two prompts. */
  lemma KeepRefitWait(c: Config, s: State, e: Event)
    requires Inv(c, s) && Enabled(c, s, e) && e in {CheckRefit, Wake, Restamp}
    ensures Inv(c, Apply(c, s, e))
  {
    hide Inv, Pick, Floor;
    CurWithin(c, s);
    InvThread(c, s);
    KeepThread(c, s, Apply(c, s, e));
  }

  lemma InvThread(c: Config, s: State)
    requires Inv(c, s)
    ensures CollectorOk(c, s.collector, s.cur, s.last, s.reservations, Floor(s))
    ensures LimitOk(c, s.collector, s.cur, s.last, s.reservations, s.limitCleared)
  {
  }

  lemma CurWithin(c: Config, s: State)
    requires Inv(c, s)
    ensures c.start <= s.cur <= s.version <= Floor(s)
  {
  }

  /** When every target of a list is taken, something is reserved. */
  lemma LimitMeansReserved(c: Config, s: State)
    requires Inv(c, s) && s.collector.LimitRead?
    ensures Pick(c, s, s.collector.at, s.collector.seenAt).None? ==> s.reservations != []
  {
    if Pick(c, s, s.collector.at, s.collector.seenAt).None? { TakenMeansReserved(c, s); }
  }

  lemma TakenMeansReserved(c: Config, s: State)
    requires Inv(c, s) && s.collector.LimitRead? && Pick(c, s, s.collector.at, s.collector.seenAt).None?
    ensures s.reservations != []
  {
    var t := s.collector.at + c.maxAge;
    PickSpec(c, s, s.collector.at, s.collector.seenAt);
    assert t <= s.collector.seenAt || t in s.generating;
    ListReserved(c, s.reservations, s.generating, s.last, GenNow(s.collector, s.cur), t);
  }

  lemma ListReserved(c: Config, rs: seq<Reservation>, generating: set<int>, last: int, gen: int, t: int)
    requires ReservationsOk(c, rs, generating, last, gen, false) && (0 <= t <= last || t in generating)
    ensures rs != []
  {
  }

  lemma StepKeepsInv(c: Config, s: State, e: Event)
    requires Inv(c, s) && Enabled(c, s, e) && Current(c, s, e)
    ensures Inv(c, Apply(c, s, e))
  {
    hide ConservationOk, ConsumedOk, BufferOk, WorkersOk, ReservationsOk;
    match e
    case Reserve => KeepReserve(c, s);
    case Spawn => KeepSpawn(c, s);
    case StartPush(w) => KeepStartPush(c, s, w);
    case Push(w) => KeepPush(c, s, w);
    case Release(w) => KeepRelease(c, s, w, e);
    case Finish(w) => KeepRelease(c, s, w, e);
    case Abandon(w) => KeepAbandon(c, s, w);
    case Deliver => KeepDeliver(c, s);
    case TrySample => KeepSample(c, s);
    case Bump => KeepBump(c, s);
    case Drained => KeepTrainer(c, s, e);
    case WarmupDone => KeepTrainer(c, s, e);
    case Trained => KeepTrainer(c, s, e);
    case CheckRefit => KeepRefitWait(c, s, e);
    case Wake => KeepRefitWait(c, s, e);
    case Restamp => KeepRefitWait(c, s, e);
    case _ =>
      if Approaches(e) { KeepApproach(c, s, e); } else { KeepLimitCheck(c, s, e); }
  }

  lemma {:induction false} RunKeepsInv(c: Config, s: State, es: seq<Event>)
    requires Inv(c, s) && CurrentRun(c, s, es)
    ensures Runs(c, s, es) && Inv(c, Final(c, s, es))
    decreases |es|
  {
    if es == [] {
    } else {
      StepKeepsInv(c, s, es[0]);
      RunKeepsInv(c, Apply(c, s, es[0]), es[1..]);
    }
  }
}
