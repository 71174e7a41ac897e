/** A search on a path with a fixed MTU ends: a bound on the events it takes, and when its probe budget suffices
    (src/pmtud.rs). */
module PmtudTermination {
  import opened Wrappers
  import opened PmtudPeer
  import opened PmtudWindow
  import opened PmtudLiveness
  import opened PmtudConvergence
  import opened PmtudHysteresis
  import opened PmtudProbes

  // ---------- number of binary digits ----------

  function Bits(n: nat): nat {
    if n == 0 then 0 else 1 + Bits(n / 2)
  }

  lemma {:induction false} BitsGrow(a: nat, b: nat)
    requires a <= b
    ensures Bits(a) <= Bits(b)
  {
    if a > 0 {
      BitsGrow(a / 2, b / 2);
    }
  }

  lemma BitsOfHalf(a: nat, b: nat)
    requires 2 * a <= b && b > 0
    ensures Bits(a) < Bits(b)
  {
    BitsGrow(a, b / 2);
  }

  lemma NineBits(n: nat)
    requires n < 512
    ensures Bits(n) <= 9
  {
    BitsGrow(n, 511);
    assert Bits(511) == 1 + Bits(255) && Bits(255) == 1 + Bits(127) && Bits(127) == 1 + Bits(63) && Bits(63) == 1 + Bits(31);
    assert Bits(31) == 1 + Bits(15) && Bits(15) == 1 + Bits(7) && Bits(7) == 3;
  }

  // ---------- what is left to do ----------

  /** A Raise or Binary search at work on a path with this ceiling. */
  predicate Hunt(isPrivate: bool, ceiling: nat, p: PeerState, cfg: Tuning) {
    && Brackets(isPrivate, ceiling, p)
    && (p.phase.Raise? || p.phase.Binary?)
    && Searchable(p, cfg.resolveEpsilon)
    && (p.inflight.Some? ==> Aimed(p, cfg))
  }

  /** The outstanding probe tests what the search wants to know. */
  predicate Aimed(p: PeerState, cfg: Tuning)
    requires p.inflight.Some?
  {
    && p.inflight.value.probeId != 0
    && 1 <= p.inflight.value.confirmsLeft <= cfg.confirmCount
    && Some(p.inflight.value.size) == if p.phase.Raise? then RaiseTarget(p) else BinaryTarget(p)
  }

  /** At most this many probes remain to be settled: a Raise doubles its step, a Binary search halves its window. */
  function Rounds(p: PeerState): nat {
    if p.phase.Raise? then 20 - Min(Bits(p.step), 10) else Bits(Max(p.firstBad - p.lastGood - 1, 0))
  }

  /** How often the outstanding probe was sent. */
  function Copies(p: PeerState, cfg: Tuning): int {
    if p.inflight.Some? then cfg.confirmCount + 1 - p.inflight.value.confirmsLeft else 0
  }

  function Times(a: nat, b: nat): nat {
    a * b
  }

  /** A bound on the events until the search ends. */
  function Effort(p: PeerState, cfg: Tuning): int {
    Times(Rounds(p), cfg.confirmCount + 1) - Copies(p, cfg)
  }

  /** A bound on the probes that the search will have sent when it ends. */
  function Spend(p: PeerState, cfg: Tuning): int {
    p.probesUsed + Times(Rounds(p), cfg.confirmCount) - Copies(p, cfg)
  }

  lemma OneRoundLess(a: nat, b: nat, c: nat)
    requires a < b
    ensures Times(a, c) <= Times(b, c) - c
  {
    assert (b - 1 - a) * c >= 0;
  }

  /** The event gets on with the search: it answers the outstanding probe, or it is a tick that finds the probe overdue, or
      that has a slot for the next one. */
  predicate Works(p: PeerState, e: Event) {
    match e
    case Tick(now, _, _, _, _, tryIssue, _) => now >= DueAt(p) && (Idle(p) ==> tryIssue)
    case Ack(_, _, size, id, gen) => MatchesInflight(p, ClampSize(size), id, gen)
    case HardFail(_, _, id) => HardFailHits(p, id)
    case _ => false
  }

  /** The ids that a tick uses come from the counter before that wraps around to 0. */
  predicate IdsAreDrawn(isPrivate: bool, p: PeerState, e: Event) {
    NumberedTick(isPrivate, p, e, 0xFFFF_FFFF)
  }

  predicate Found(ceiling: nat, p: PeerState, cfg: Tuning) {
    p.phase.Plateau? && ceiling - p.lastGood < cfg.resolveEpsilon
  }

  /** One working event ends the search or brings the end closer. */
  predicate Onward(isPrivate: bool, ceiling: nat, p: PeerState, q: PeerState, cfg: Tuning) {
    || Found(ceiling, q, cfg)
    || (q.phase.Frozen? && Spend(p, cfg) >= cfg.maxProbes)
    || (Hunt(isPrivate, ceiling, q, cfg) && Effort(q, cfg) < Effort(p, cfg) && Spend(q, cfg) <= Spend(p, cfg))
  }

  lemma RoundsAreLeft(isPrivate: bool, ceiling: nat, p: PeerState, cfg: Tuning)
    requires Hunt(isPrivate, ceiling, p, cfg) && cfg.resolveEpsilon >= 1
    ensures Rounds(p) >= 1
  {
  }

  // ---------- the stages ----------

  lemma IssueHunts(isPrivate: bool, ceiling: nat, p: PeerState, now: nat, cfg: Tuning, id: u32)
    requires Hunt(isPrivate, ceiling, p, cfg) && Idle(p) && ClampedTuning(cfg) && (IssueSize(p, cfg).Some? ==> id != 0)
    ensures var q := IssueStep(p, now, cfg, id);
            && WantsProbe(p)
            && if p.probesUsed >= cfg.maxProbes then q.phase.Frozen?
               else && Hunt(isPrivate, ceiling, q, cfg) && Rounds(q) == Rounds(p)
                    && Copies(q, cfg) == 1 && q.probesUsed == p.probesUsed + 1
  {
    hide TimeoutFor, Bits;
    SearchingPeerIssues(isPrivate, p, now, cfg, id);
  }

  lemma ResendHunts(isPrivate: bool, ceiling: nat, p: PeerState, now: nat, cfg: Tuning, id: u32)
    requires Hunt(isPrivate, ceiling, p, cfg) && p.inflight.Some? && ClampedTuning(cfg) && (Resends(p, now, cfg) ==> id != 0)
    requires TimeoutDue(p, now) && p.inflight.value.confirmsLeft > 1
    ensures var q := TimeoutStep(isPrivate, p, now, cfg, id);
            if p.probesUsed + 1 >= cfg.maxProbes then q.phase.Frozen? && Idle(q) && q.nextRaiseAt > now
            else && Hunt(isPrivate, ceiling, q, cfg) && q.inflight.Some? && Rounds(q) == Rounds(p)
                 && Copies(q, cfg) == Copies(p, cfg) + 1 && q.probesUsed == p.probesUsed + 1
  {
    hide TimeoutFor, Bits;
  }

  /** What a settled probe leaves behind, apart from the ends of the search. */
  predicate Narrower(isPrivate: bool, ceiling: nat, p: PeerState, q: PeerState, cfg: Tuning) {
    Hunt(isPrivate, ceiling, q, cfg) && Idle(q) && Rounds(q) < Rounds(p) && q.probesUsed == p.probesUsed
  }

  /** Settling the outstanding probe, either way, leaves fewer rounds. */
  lemma FailedRounds(isPrivate: bool, ceiling: nat, p: PeerState, q: PeerState, cfg: Tuning)
    requires Hunt(isPrivate, ceiling, p, cfg) && p.inflight.Some?
    requires q.phase.Binary? && q.lastGood == p.lastGood && q.firstBad == p.inflight.value.size
    ensures Rounds(q) < Rounds(p)
  {
    hide Bits;
    var left := q.firstBad - q.lastGood - 1;
    if p.phase.Raise? {
      NineBits(left);
    } else {
      BitsOfHalf(left, p.firstBad - p.lastGood - 1);
    }
  }

  lemma AckedRounds(isPrivate: bool, ceiling: nat, p: PeerState, q: PeerState, cfg: Tuning)
    requires Hunt(isPrivate, ceiling, p, cfg) && p.inflight.Some? && q.phase == p.phase
    requires q.lastGood == p.inflight.value.size && q.firstBad == p.firstBad
    requires p.phase.Raise? ==> q.step >= 2 * p.step && RaiseTarget(q).Some?
    ensures Rounds(q) < Rounds(p)
  {
    hide Bits;
    if p.phase.Raise? {
      NineBits(p.step);
      BitsOfHalf(p.step, q.step);
    } else {
      BitsOfHalf(q.firstBad - q.lastGood - 1, p.firstBad - p.lastGood - 1);
    }
  }

  predicate Outcome(isPrivate: bool, ceiling: nat, p: PeerState, q: PeerState, now: nat, cfg: Tuning) {
    && Idle(q)
    && (|| (Found(ceiling, q, cfg) && q.nextRaiseAt > now)
        || (q.phase.Frozen? && q.nextRaiseAt > now && p.probesUsed >= cfg.maxProbes)
        || Narrower(isPrivate, ceiling, p, q, cfg))
  }

  lemma PlateauEnds(p: PeerState, now: nat, cfg: Tuning)
    ensures var q := EnterPlateau(p, now, cfg); q.phase.Plateau? && Idle(q) && q.nextRaiseAt == now + cfg.raisePeriod
  {
  }

  lemma FailHunts(isPrivate: bool, ceiling: nat, p: PeerState, r: PeerState, now: nat, cfg: Tuning)
    requires Hunt(isPrivate, ceiling, p, cfg) && p.inflight.Some? && p.inflight.value.size > ceiling && ClampedTuning(cfg)
    requires r == p || r == p.(inflight := None)
    ensures Outcome(isPrivate, ceiling, p, ConfirmedFail(isPrivate, r, p.inflight.value.size, now, cfg), now, cfg)
  {
    hide RaiseTarget, BinaryTarget, Bits, Rounds, EnterPlateau, FinishDownSearch;
    var size := p.inflight.value.size;
    var q := ConfirmedFail(isPrivate, r, size, now, cfg);
    FailNarrows(isPrivate, ceiling, p.(inflight := None), size, now, cfg);
    ConfirmedFailKeepsSearchable(isPrivate, r, size, now, cfg);
    forall r: PeerState {
      PlateauEnds(r, now, cfg);
    }
    if q.phase.Binary? {
      FailedRounds(isPrivate, ceiling, p, q, cfg);
    }
  }

  lemma AckHunts(isPrivate: bool, ceiling: nat, p: PeerState, id: u32, gen: u32, now: nat, cfg: Tuning)
    requires Hunt(isPrivate, ceiling, p, cfg) && p.inflight.Some? && p.inflight.value.size <= ceiling <= MAX_MTU && ClampedTuning(cfg)
    requires MatchesInflight(p, p.inflight.value.size, id, gen)
    ensures Outcome(isPrivate, ceiling, p, AckStep(p, p.inflight.value.size, id, gen, now, cfg), now, cfg)
  {
    hide BinaryTarget, Bits, Rounds, EnterPlateau, FinishDownSearch;
    var size := p.inflight.value.size;
    var q := AckStep(p, size, id, gen, now, cfg);
    AckNarrows(isPrivate, ceiling, p, size, id, gen, now, cfg);
    AckKeepsSearchable(p, size, id, gen, now, cfg);
    forall r: PeerState {
      PlateauEnds(r, now, cfg);
    }
    if !q.phase.Plateau? {
      AckedRounds(isPrivate, ceiling, p, q, cfg);
    }
  }

  // ---------- one event ----------

  lemma SettledIsOnward(isPrivate: bool, ceiling: nat, p: PeerState, q: PeerState, now: nat, cfg: Tuning)
    requires Hunt(isPrivate, ceiling, p, cfg) && p.inflight.Some? && ClampedTuning(cfg) && Outcome(isPrivate, ceiling, p, q, now, cfg)
    ensures Onward(isPrivate, ceiling, p, q, cfg)
    ensures Narrower(isPrivate, ceiling, p, q, cfg) ==> Effort(q, cfg) < Effort(p, cfg) && Spend(q, cfg) <= Spend(p, cfg)
  {
    hide Brackets, Searchable, RaiseTarget, BinaryTarget, Rounds, Times;
    RoundsAreLeft(isPrivate, ceiling, p, cfg);
    OneRoundLess(0, Rounds(p), cfg.confirmCount);
    if Narrower(isPrivate, ceiling, p, q, cfg) {
      OneRoundLess(Rounds(q), Rounds(p), cfg.confirmCount);
      OneRoundLess(Rounds(q), Rounds(p), cfg.confirmCount + 1);
    }
  }

  lemma IssueIsOnward(isPrivate: bool, ceiling: nat, p: PeerState, now: nat, cfg: Tuning, id: u32)
    requires Hunt(isPrivate, ceiling, p, cfg) && Idle(p) && ClampedTuning(cfg) && (IssueSize(p, cfg).Some? ==> id != 0)
    ensures WantsProbe(p) && Onward(isPrivate, ceiling, p, IssueStep(p, now, cfg, id), cfg)
  {
    hide Brackets, Searchable, RaiseTarget, BinaryTarget, Rounds, IssueStep, IssueSize, Hunt, WantsProbe;
    IssueHunts(isPrivate, ceiling, p, now, cfg, id);
  }

  lemma ResendIsOnward(isPrivate: bool, ceiling: nat, p: PeerState, now: nat, cfg: Tuning, id: u32)
    requires Hunt(isPrivate, ceiling, p, cfg) && p.inflight.Some? && ClampedTuning(cfg) && (Resends(p, now, cfg) ==> id != 0)
    requires TimeoutDue(p, now) && p.inflight.value.confirmsLeft > 1
    ensures Onward(isPrivate, ceiling, p, TimeoutStep(isPrivate, p, now, cfg, id), cfg)
  {
    hide Brackets, Searchable, RaiseTarget, BinaryTarget, Rounds, TimeoutStep, Times, Resends;
    ResendHunts(isPrivate, ceiling, p, now, cfg, id);
    RoundsAreLeft(isPrivate, ceiling, p, cfg);
    OneRoundLess(0, Rounds(p), cfg.confirmCount);
  }

  lemma NothingStarts(p: PeerState, now: nat, cfg: Tuning)
    requires p.inflight.Some? || IsSearching(p.phase) || p.nextRaiseAt > now
    ensures StartStep(p, now, cfg) == p
    ensures p.inflight.Some? || !IsSearching(p.phase) ==> !WantsProbe(p)
  {
  }

  lemma TickIsOnward(isPrivate: bool, ceiling: nat, p: PeerState, e: Event)
    requires Hunt(isPrivate, ceiling, p, e.cfg) && ClampedTuning(e.cfg)
    requires e.Tick? && Respects(isPrivate, ceiling, p, e) && Works(p, e) && IdsAreDrawn(isPrivate, p, e)
    ensures Onward(isPrivate, ceiling, p, TickStep(isPrivate, p, e), e.cfg)
  {
    hide Brackets, Searchable, RaiseTarget, BinaryTarget, Rounds, TimeoutStep, StartStep, IssueStep, WantsProbe, ConfirmedFail, Times,
         Resends, IssueSize;
    var b, c, d := BeforeTimeout(isPrivate, p, e), BeforeStart(isPrivate, p, e), BeforeIssue(isPrivate, p, e);
    TickNarrows(isPrivate, ceiling, p, e);
    InputHunts(isPrivate, ceiling, p, e);
    if b.inflight.None? {
      NoTimeout(isPrivate, b, e.now, e.cfg, e.resendId);
      NothingStarts(b, e.now, e.cfg);
      HuntIdleWants(isPrivate, ceiling, b, e.cfg);
      IssueIsOnward(isPrivate, ceiling, b, e.now, e.cfg, e.issueId);
    } else if b.inflight.value.confirmsLeft > 1 {
      ResendIsOnward(isPrivate, ceiling, b, e.now, e.cfg, e.resendId);
      ResendHunts(isPrivate, ceiling, b, e.now, e.cfg, e.resendId);
      NothingStarts(c, e.now, e.cfg);
    } else {
      FailHunts(isPrivate, ceiling, b, b.(inflight := None), e.now, e.cfg);
      LostStep(isPrivate, b, e.now, e.cfg, e.resendId);
      SettledIsOnward(isPrivate, ceiling, b, c, e.now, e.cfg);
      NothingStarts(c, e.now, e.cfg);
      if e.tryIssue && WantsProbe(c) {
        IssueIsOnward(isPrivate, ceiling, c, e.now, e.cfg, e.issueId);
      }
    }
  }

  lemma HuntIdleWants(isPrivate: bool, ceiling: nat, p: PeerState, cfg: Tuning)
    requires Hunt(isPrivate, ceiling, p, cfg) && Idle(p) && cfg.resolveEpsilon >= 1
    ensures WantsProbe(p)
  {
  }

  lemma LostStep(isPrivate: bool, p: PeerState, now: nat, cfg: Tuning, id: u32)
    requires TimeoutFails(p, now)
    ensures TimeoutStep(isPrivate, p, now, cfg, id) == ConfirmedFail(isPrivate, p.(inflight := None), p.inflight.value.size, now, cfg)
  {
  }

  lemma InputHunts(isPrivate: bool, ceiling: nat, p: PeerState, e: Event)
    requires e.Tick? && Hunt(isPrivate, ceiling, p, e.cfg)
    ensures var b := InputStep(p, e.rttMs, e.largeAlive);
            && p.grace.None? && Hunt(isPrivate, ceiling, b, e.cfg) && Effort(b, e.cfg) == Effort(p, e.cfg) && Spend(b, e.cfg) == Spend(p, e.cfg)
  {
  }

  lemma StepIsOnward(isPrivate: bool, ceiling: nat, p: PeerState, e: Event)
    requires Hunt(isPrivate, ceiling, p, e.cfg) && ClampedTuning(e.cfg) && ceiling <= MAX_MTU
    requires Respects(isPrivate, ceiling, p, e) && Works(p, e) && IdsAreDrawn(isPrivate, p, e)
    ensures Onward(isPrivate, ceiling, p, Step(isPrivate, p, e), e.cfg)
  {
    hide Brackets, Searchable, RaiseTarget, BinaryTarget, Rounds, TickStep, AckStep, ConfirmedFail, Times, Onward, IdsAreDrawn;
    match e
    case Tick(_, _, _, _, _, _, _) => TickIsOnward(isPrivate, ceiling, p, e);
    case Ack(now, cfg, size, id, gen) =>
      AckHunts(isPrivate, ceiling, p, id, gen, now, cfg);
      SettledIsOnward(isPrivate, ceiling, p, Step(isPrivate, p, e), now, cfg);
    case HardFail(now, cfg, id) =>
      FailHunts(isPrivate, ceiling, p, p, now, cfg);
      SettledIsOnward(isPrivate, ceiling, p, Step(isPrivate, p, e), now, cfg);
  }

  /** Any other event leaves the search as it is: a tick before the deadline or without a slot, an answer to something else,
      a hint or an early wake. */
  lemma RestChangesNothing(isPrivate: bool, ceiling: nat, p: PeerState, e: Event)
    requires Hunt(isPrivate, ceiling, p, e.cfg) && Respects(isPrivate, ceiling, p, e) && !Works(p, e) && !e.Retune?
    ensures var q := Step(isPrivate, p, e); q == if e.Tick? then InputStep(p, e.rttMs, e.largeAlive) else p
  {
    hide Searchable, RaiseTarget, BinaryTarget, TimeoutStep, StartStep, IssueStep, WantsProbe, ConfirmedFail, SoftDown, Aimed;
    if e.Tick? {
      var b := BeforeTimeout(isPrivate, p, e);
      TickNarrows(isPrivate, ceiling, p, e);
      NoTimeout(isPrivate, b, e.now, e.cfg, e.resendId);
      NothingStarts(b, e.now, e.cfg);
    }
  }

  // ---------- a whole search ----------

  predicate Hunting(ph: Phase) {
    ph.Raise? || ph.Binary?
  }

  /** While the search goes on nobody retunes it, and its probes have drawn ids. */
  predicate Undisturbed(isPrivate: bool, start: PeerState, es: seq<Event>, cfg: Tuning) {
    forall i {:trigger es[i]} :: 0 <= i < |es| ==>
      var p := Run(isPrivate, start, es[..i]);
      Hunting(p.phase) ==> es[i].cfg == cfg && !es[i].Retune? && IdsAreDrawn(isPrivate, p, es[i])
  }

  /** How many events of the run get on with the search. */
  function Work(isPrivate: bool, start: PeerState, es: seq<Event>): nat {
    if es == [] then 0
    else
      var init := es[..|es| - 1];
      Work(isPrivate, start, init) + Count(Works(Run(isPrivate, start, init), es[|es| - 1]))
  }

  /** The first `n` events end the search, and not before. */
  predicate EndsAfter(isPrivate: bool, start: PeerState, es: seq<Event>, n: nat) {
    && n <= |es|
    && !Hunting(Run(isPrivate, start, es[..n]).phase)
    && forall i :: 0 <= i < n ==> Hunting(Run(isPrivate, start, es[..i]).phase)
  }

  lemma NoEvents(isPrivate: bool, p: PeerState, es: seq<Event>)
    ensures Run(isPrivate, p, es[..0]) == p && Work(isPrivate, p, es[..0]) == 0
  {
  }

  lemma NextEvent(isPrivate: bool, p: PeerState, es: seq<Event>, n: nat)
    requires 0 < n <= |es|
    ensures var r := Run(isPrivate, p, es[..n - 1]);
            && Run(isPrivate, p, es[..n]) == Step(isPrivate, r, es[n - 1])
            && Work(isPrivate, p, es[..n]) == Work(isPrivate, p, es[..n - 1]) + Count(Works(r, es[n - 1]))
  {
    hide Step, Works;
    assert es[..n][..n - 1] == es[..n - 1] && es[..n][n - 1] == es[n - 1];
  }

  /** After `n` events the search has ended well or, for want of budget, badly, or it has come closer to its end by as many
      steps as there were events that got on with it. */
  lemma {:induction false} SearchGoesOn(isPrivate: bool, ceiling: nat, p: PeerState, es: seq<Event>, cfg: Tuning, n: nat)
    returns (ended: Option<nat>)
    requires Hunt(isPrivate, ceiling, p, cfg) && ClampedTuning(cfg) && ceiling <= MAX_MTU
    requires RunRespects(isPrivate, ceiling, p, es) && Undisturbed(isPrivate, p, es, cfg) && n <= |es|
    ensures ended.None? ==>
              var q := Run(isPrivate, p, es[..n]);
              && Hunt(isPrivate, ceiling, q, cfg) && Spend(q, cfg) <= Spend(p, cfg)
              && Effort(q, cfg) + Work(isPrivate, p, es[..n]) <= Effort(p, cfg)
              && forall i :: 0 <= i <= n ==> Hunting(Run(isPrivate, p, es[..i]).phase)
    ensures ended.Some? ==>
              && ended.value <= n && EndsAfter(isPrivate, p, es, ended.value)
              && Work(isPrivate, p, es[..ended.value]) <= Effort(p, cfg)
              && var q := Run(isPrivate, p, es[..ended.value]);
                 Found(ceiling, q, cfg) || (q.phase.Frozen? && Spend(p, cfg) >= cfg.maxProbes)
    decreases n
  {
    hide Step, Run, Work, Respects, Works, Brackets, Searchable, Aimed, Effort, Spend, ClampedTuning, IdsAreDrawn;
    if n == 0 {
      ended := None;
      NoEvents(isPrivate, p, es);
    } else {
      ended := SearchGoesOn(isPrivate, ceiling, p, es, cfg, n - 1);
      if ended.None? {
        var r := Run(isPrivate, p, es[..n - 1]);
        NextEvent(isPrivate, p, es, n);
        HuntStep(isPrivate, ceiling, r, es[n - 1]);
        var q := Run(isPrivate, p, es[..n]);
        if !(Hunt(isPrivate, ceiling, q, cfg) && Spend(q, cfg) <= Spend(r, cfg) &&
             Effort(q, cfg) + Count(Works(r, es[n - 1])) <= Effort(r, cfg)) {
          EffortIsPositive(isPrivate, ceiling, r, cfg);
          ended := Some(n);
        }
      }
    }
  }

  /** One event, working or not. */
  lemma HuntStep(isPrivate: bool, ceiling: nat, p: PeerState, e: Event)
    requires Hunt(isPrivate, ceiling, p, e.cfg) && ClampedTuning(e.cfg) && ceiling <= MAX_MTU
    requires Respects(isPrivate, ceiling, p, e) && IdsAreDrawn(isPrivate, p, e) && !e.Retune?
    ensures var q := Step(isPrivate, p, e);
            || Found(ceiling, q, e.cfg)
            || (q.phase.Frozen? && Spend(p, e.cfg) >= e.cfg.maxProbes)
            || (Hunt(isPrivate, ceiling, q, e.cfg) && Spend(q, e.cfg) <= Spend(p, e.cfg) &&
                Effort(q, e.cfg) + Count(Works(p, e)) <= Effort(p, e.cfg))
  {
    hide Step, Respects, Works, Effort, Spend, IdsAreDrawn, Hunt;
    if Works(p, e) {
      StepIsOnward(isPrivate, ceiling, p, e);
    } else {
      RestChangesNothing(isPrivate, ceiling, p, e);
      if e.Tick? {
        InputHunts(isPrivate, ceiling, p, e);
      }
    }
  }

  lemma EffortIsPositive(isPrivate: bool, ceiling: nat, p: PeerState, cfg: Tuning)
    requires Hunt(isPrivate, ceiling, p, cfg) && ClampedTuning(cfg)
    ensures Effort(p, cfg) >= 1
  {
    hide Brackets, Searchable, RaiseTarget, BinaryTarget, Rounds, Times;
    RoundsAreLeft(isPrivate, ceiling, p, cfg);
    OneRoundLess(0, Rounds(p), cfg.confirmCount + 1);
  }

  // ---------- the start of a search ----------

  /** The number of probes that a new search has to settle at most: 19 for the smallest step, 14 for the default one. */
  function RoundsOf(cfg: Tuning): nat {
    20 - Min(Bits(cfg.raiseStep), 10)
  }

  lemma NewSearchHunts(isPrivate: bool, ceiling: nat, p: PeerState, now: nat, cfg: Tuning)
    requires Brackets(isPrivate, ceiling, p) && ClampedTuning(cfg) && !Hunting(p.phase)
    requires StartStep(p, now, cfg).phase.Raise?
    ensures var q := StartStep(p, now, cfg);
            && Hunt(isPrivate, ceiling, q, cfg) && Rounds(q) == RoundsOf(cfg)
            && Idle(q) && q.probesUsed == 0 && Width(q) == Width(p)
  {
    hide Bits;
  }

  /** A search only starts in a tick, as a Raise, and at once sends its first probe if it has a slot. */
  lemma SearchStarts(isPrivate: bool, ceiling: nat, p: PeerState, e: Event)
    requires Brackets(isPrivate, ceiling, p) && ClampedTuning(e.cfg) && !Hunting(p.phase)
    requires Respects(isPrivate, ceiling, p, e) && IdsAreDrawn(isPrivate, p, e) && ceiling <= MAX_MTU
    requires Hunting(Step(isPrivate, p, e).phase)
    ensures var q := Step(isPrivate, p, e);
            && e.Tick? && Hunt(isPrivate, ceiling, q, e.cfg) && Rounds(q) == RoundsOf(e.cfg)
            && q.probesUsed == Copies(q, e.cfg) <= 1
  {
    hide Brackets, RaiseTarget, BinaryTarget, Rounds, RoundsOf, TickStep, AckStep, ConfirmedFail, SoftDown, Hunt;
    match e
    case Tick(_, _, _, _, _, _, _) => TickStarts(isPrivate, ceiling, p, e);
    case Ack(now, cfg, size, id, gen) => AckStartsNothing(p, ClampSize(size), id, gen, now, cfg);
    case HardFail(now, cfg, id) => HardFailNarrows(isPrivate, ceiling, p, id, now, cfg);
    case _ =>
  }

  lemma AckStartsNothing(p: PeerState, sz: nat, id: u32, gen: u32, now: nat, cfg: Tuning)
    requires !Hunting(p.phase)
    ensures !Hunting(AckStep(p, sz, id, gen, now, cfg).phase)
  {
    hide EnterPlateau;
    forall r: PeerState {
      PlateauEnds(r, now, cfg);
    }
  }

  lemma TickStarts(isPrivate: bool, ceiling: nat, p: PeerState, e: Event)
    requires e.Tick? && Brackets(isPrivate, ceiling, p) && ClampedTuning(e.cfg) && !Hunting(p.phase)
    requires Respects(isPrivate, ceiling, p, e) && IdsAreDrawn(isPrivate, p, e)
    requires Hunting(TickStep(isPrivate, p, e).phase)
    ensures var q := TickStep(isPrivate, p, e);
            Hunt(isPrivate, ceiling, q, e.cfg) && Rounds(q) == RoundsOf(e.cfg) && q.probesUsed == Copies(q, e.cfg) <= 1
  {
    hide Brackets, RaiseTarget, BinaryTarget, Rounds, RoundsOf, TimeoutStep, StartStep, IssueStep, WantsProbe, Resends, IssueSize, Hunt;
    var b, c, d := BeforeTimeout(isPrivate, p, e), BeforeStart(isPrivate, p, e), BeforeIssue(isPrivate, p, e);
    TickNarrows(isPrivate, ceiling, p, e);
    BracketsStay(isPrivate, ceiling, p, e);
    TimeoutNarrows(isPrivate, ceiling, b, e.now, e.cfg, e.resendId);
    TimeoutStartsNothing(isPrivate, b, e.now, e.cfg, e.resendId);
    IssueStartsNothing(d, e.now, e.cfg, e.issueId);
    StartIsRaise(c, e.now, e.cfg);
    NewSearchHunts(isPrivate, ceiling, c, e.now, e.cfg);
    if e.tryIssue && WantsProbe(d) {
      IssueHunts(isPrivate, ceiling, d, e.now, e.cfg, e.issueId);
    }
  }

  lemma BracketsStay(isPrivate: bool, ceiling: nat, p: PeerState, e: Event)
    requires e.Tick? && Brackets(isPrivate, ceiling, p)
    ensures Brackets(isPrivate, ceiling, InputStep(p, e.rttMs, e.largeAlive))
  {
  }

  lemma TimeoutStartsNothing(isPrivate: bool, p: PeerState, now: nat, cfg: Tuning, id: u32)
    requires !Hunting(p.phase) && !p.phase.Recheck? && !p.phase.DownSearch?
    ensures !Hunting(TimeoutStep(isPrivate, p, now, cfg, id).phase)
  {
  }

  lemma StartIsRaise(p: PeerState, now: nat, cfg: Tuning)
    requires !Hunting(p.phase)
    ensures Hunting(StartStep(p, now, cfg).phase) ==> StartStep(p, now, cfg).phase.Raise?
  {
  }

  lemma IssueStartsNothing(p: PeerState, now: nat, cfg: Tuning, id: u32)
    ensures Hunting(IssueStep(p, now, cfg, id).phase) ==> Hunting(p.phase)
  {
    hide EnterPlateau, FinishDownSearch, RaiseTarget, BinaryTarget, TimeoutFor, WindowClosed;
    EndsInPlateau(p, now, cfg);
  }

  lemma EndsInPlateau(p: PeerState, now: nat, cfg: Tuning)
    ensures EnterPlateau(p, now, cfg).phase.Plateau? && FinishDownSearch(p, now, cfg).phase.Plateau?
  {
  }

  // ---------- every search learns ----------

  /** The event ends a search, other than by new tuning. */
  predicate EndsSearch(isPrivate: bool, p: PeerState, e: Event) {
    Hunting(p.phase) && !Hunting(Step(isPrivate, p, e).phase) && !e.Retune?
  }

  /** The search has settled a probe: it sent more than the copies of the outstanding one. */
  predicate HasLearned(p: PeerState, cfg: Tuning) {
    Hunting(p.phase) && p.probesUsed > Copies(p, cfg)
  }

  /** A bracketed peer whose search, if any, is at work under this tuning. */
  predicate AtWork(isPrivate: bool, ceiling: nat, p: PeerState, cfg: Tuning) {
    && Brackets(isPrivate, ceiling, p)
    && (Hunting(p.phase) ==> Hunt(isPrivate, ceiling, p, cfg) && p.probesUsed >= Copies(p, cfg))
  }

  /** What a search learns pays for its end: the window narrows by one for each search that ends. */
  predicate Pays(isPrivate: bool, p: PeerState, e: Event) {
    var q := Step(isPrivate, p, e);
    Width(q) + Count(EndsSearch(isPrivate, p, e)) + Count(HasLearned(q, e.cfg)) <= Width(p) + Count(HasLearned(p, e.cfg))
  }

  lemma WorkPays(isPrivate: bool, ceiling: nat, p: PeerState, e: Event)
    requires AtWork(isPrivate, ceiling, p, e.cfg) && Hunting(p.phase) && ClampedTuning(e.cfg) && ceiling <= MAX_MTU
    requires Respects(isPrivate, ceiling, p, e) && IdsAreDrawn(isPrivate, p, e) && Works(p, e)
    requires e.cfg.confirmCount < e.cfg.maxProbes
    ensures AtWork(isPrivate, ceiling, Step(isPrivate, p, e), e.cfg) && Pays(isPrivate, p, e)
  {
    hide Brackets, Searchable, RaiseTarget, BinaryTarget, Rounds, TickStep, AckStep, HardFailStep, BeforeTimeout, IdsAreDrawn, Aimed,
         Effort, Spend;
    StepNarrows(isPrivate, ceiling, p, e);
    StepIsOnward(isPrivate, ceiling, p, e);
    CopiesAreSent(isPrivate, ceiling, p, e);
    if e.Tick? && !Resolves(isPrivate, p, e) {
      TickCounts(isPrivate, ceiling, p, e);
    }
  }

  /** A settled probe stays counted, and so is every copy of the outstanding one. */
  lemma CopiesAreSent(isPrivate: bool, ceiling: nat, p: PeerState, e: Event)
    requires AtWork(isPrivate, ceiling, p, e.cfg) && Hunting(p.phase) && ClampedTuning(e.cfg) && ceiling <= MAX_MTU
    requires Respects(isPrivate, ceiling, p, e) && IdsAreDrawn(isPrivate, p, e) && Works(p, e)
    ensures var q := Step(isPrivate, p, e); Hunting(q.phase) ==> q.probesUsed >= Copies(q, e.cfg)
  {
    hide Brackets, Searchable, RaiseTarget, BinaryTarget, Rounds, TickStep, AckStep, ConfirmedFail, SoftDown, IdsAreDrawn, Aimed;
    match e
    case Tick(_, _, _, _, _, _, _) => TickCounts(isPrivate, ceiling, p, e);
    case Ack(now, cfg, size, id, gen) => AckHunts(isPrivate, ceiling, p, id, gen, now, cfg);
    case HardFail(now, cfg, id) => FailHunts(isPrivate, ceiling, p, p, now, cfg);
  }

  /** How a working tick counts the probes of a search: it sends one more copy, or the next probe, or gives up. */
  lemma TickCounts(isPrivate: bool, ceiling: nat, p: PeerState, e: Event)
    requires e.Tick? && Hunt(isPrivate, ceiling, p, e.cfg) && ClampedTuning(e.cfg) && p.probesUsed >= Copies(p, e.cfg)
    requires Respects(isPrivate, ceiling, p, e) && IdsAreDrawn(isPrivate, p, e) && Works(p, e)
    ensures var q := TickStep(isPrivate, p, e);
            Hunting(q.phase) ==> q.probesUsed >= Copies(q, e.cfg)
    ensures var q := TickStep(isPrivate, p, e);
            !Resolves(isPrivate, p, e) ==>
              if Hunting(q.phase) then q.probesUsed - Copies(q, e.cfg) == p.probesUsed - Copies(p, e.cfg)
              else p.probesUsed - Copies(p, e.cfg) >= e.cfg.maxProbes - e.cfg.confirmCount
  {
    hide Brackets, Searchable, RaiseTarget, BinaryTarget, Rounds, TimeoutStep, StartStep, IssueStep, WantsProbe, ConfirmedFail,
         Resends, IssueSize;
    var b, c := BeforeTimeout(isPrivate, p, e), BeforeStart(isPrivate, p, e);
    TickNarrows(isPrivate, ceiling, p, e);
    InputHunts(isPrivate, ceiling, p, e);
    if b.inflight.None? {
      NoTimeout(isPrivate, b, e.now, e.cfg, e.resendId);
      NothingStarts(b, e.now, e.cfg);
      HuntIdleWants(isPrivate, ceiling, b, e.cfg);
      IssueHunts(isPrivate, ceiling, b, e.now, e.cfg, e.issueId);
    } else if b.inflight.value.confirmsLeft > 1 {
      ResendHunts(isPrivate, ceiling, b, e.now, e.cfg, e.resendId);
      NothingStarts(c, e.now, e.cfg);
    } else {
      FailHunts(isPrivate, ceiling, b, b.(inflight := None), e.now, e.cfg);
      LostStep(isPrivate, b, e.now, e.cfg, e.resendId);
      NothingStarts(c, e.now, e.cfg);
      if e.tryIssue && WantsProbe(c) {
        IssueHunts(isPrivate, ceiling, c, e.now, e.cfg, e.issueId);
      }
    }
  }

  lemma StepPays(isPrivate: bool, ceiling: nat, p: PeerState, e: Event)
    requires AtWork(isPrivate, ceiling, p, e.cfg) && ClampedTuning(e.cfg) && ceiling <= MAX_MTU
    requires Respects(isPrivate, ceiling, p, e) && IdsAreDrawn(isPrivate, p, e) && e.cfg.confirmCount < e.cfg.maxProbes
    ensures AtWork(isPrivate, ceiling, Step(isPrivate, p, e), e.cfg) && Pays(isPrivate, p, e)
  {
    hide Brackets, Step, Respects, IdsAreDrawn, Works, Hunt, Rounds, RoundsOf;
    StepNarrows(isPrivate, ceiling, p, e);
    if !Hunting(p.phase) {
      if Hunting(Step(isPrivate, p, e).phase) {
        SearchStarts(isPrivate, ceiling, p, e);
      }
    } else if e.Retune? {
      RetuneEnds(isPrivate, p, e);
    } else if Works(p, e) {
      WorkPays(isPrivate, ceiling, p, e);
    } else {
      RestChangesNothing(isPrivate, ceiling, p, e);
      if e.Tick? {
        InputHunts(isPrivate, ceiling, p, e);
      }
    }
  }

  lemma RetuneEnds(isPrivate: bool, p: PeerState, e: Event)
    requires e.Retune? && Hunting(p.phase)
    ensures !Hunting(Step(isPrivate, p, e).phase)
  {
  }

  /** One tuning throughout, and probe ids that were drawn before the counter wrapped around. */
  predicate Orderly(isPrivate: bool, start: PeerState, es: seq<Event>, cfg: Tuning) {
    forall i {:trigger es[i]} :: 0 <= i < |es| ==> es[i].cfg == cfg && IdsAreDrawn(isPrivate, Run(isPrivate, start, es[..i]), es[i])
  }

  function Ended(isPrivate: bool, start: PeerState, es: seq<Event>): nat {
    if es == [] then 0
    else
      var init := es[..|es| - 1];
      Ended(isPrivate, start, init) + Count(EndsSearch(isPrivate, Run(isPrivate, start, init), es[|es| - 1]))
  }

  lemma PrefixOrderly(isPrivate: bool, start: PeerState, es: seq<Event>, cfg: Tuning, n: nat)
    requires n <= |es| && Orderly(isPrivate, start, es, cfg)
    ensures Orderly(isPrivate, start, es[..n], cfg)
  {
    hide IdsAreDrawn, Run;
    assert forall i :: 0 <= i < n ==> es[..n][..i] == es[..i];
  }

  lemma {:induction false} RunPays(isPrivate: bool, ceiling: nat, p: PeerState, es: seq<Event>, cfg: Tuning)
    requires AtWork(isPrivate, ceiling, p, cfg) && ceiling <= MAX_MTU && ClampedTuning(cfg) && cfg.confirmCount < cfg.maxProbes
    requires RunRespects(isPrivate, ceiling, p, es) && Orderly(isPrivate, p, es, cfg)
    ensures var q := Run(isPrivate, p, es);
            && AtWork(isPrivate, ceiling, q, cfg)
            && Ended(isPrivate, p, es) + Width(q) + Count(HasLearned(q, cfg)) <= Width(p) + Count(HasLearned(p, cfg))
    decreases |es|
  {
    hide Step, Respects, AtWork, IdsAreDrawn, EndsSearch, HasLearned, ClampedTuning, Width;
    if es != [] {
      var init := es[..|es| - 1];
      PrefixRespects(isPrivate, ceiling, p, es, |es| - 1);
      PrefixOrderly(isPrivate, p, es, cfg, |es| - 1);
      RunPays(isPrivate, ceiling, p, init, cfg);
      StepPays(isPrivate, ceiling, Run(isPrivate, p, init), es[|es| - 1]);
    }
  }

  /** If the budget exceeds `confirmCount`, every search on a path with a fixed MTU narrows the window, also one that
      freezes.  So 280 searches of any history find the path MTU exactly. */
  lemma EverySearchLearns(isPrivate: bool, ceiling: nat, l: Life, cfg: Tuning)
    requires DEFAULT_MTU <= ceiling <= MAX_MTU && ClampedTuning(cfg) && cfg.confirmCount < cfg.maxProbes
    requires RunRespects(isPrivate, ceiling, Fresh(l.bornAt, l.bornCfg), l.events)
    requires Orderly(isPrivate, Fresh(l.bornAt, l.bornCfg), l.events, cfg)
    ensures var start, p := Fresh(l.bornAt, l.bornCfg), StateOf(isPrivate, l);
            && Ended(isPrivate, start, l.events) + Width(p) <= FIRST_BAD_SENTINEL - DEFAULT_MTU
            && (Ended(isPrivate, start, l.events) >= MAX_MTU - DEFAULT_MTU ==> p.lastGood == ceiling)
  {
    hide Run, RunRespects, Orderly, Brackets, ClampedTuning, Hunt, Ended;
    var start := Fresh(l.bornAt, l.bornCfg);
    FreshBrackets(isPrivate, ceiling, l.bornAt, l.bornCfg);
    NothingLearned(start, cfg);
    RunPays(isPrivate, ceiling, start, l.events, cfg);
    ClosedIsExact(isPrivate, ceiling, StateOf(isPrivate, l));
  }

  /** The same of one search, from the tick that starts it to the event that ends it. */
  lemma SearchNarrows(isPrivate: bool, ceiling: nat, p: PeerState, es: seq<Event>, cfg: Tuning, n: nat)
    requires Hunt(isPrivate, ceiling, p, cfg) && p.probesUsed == Copies(p, cfg)
    requires ceiling <= MAX_MTU && ClampedTuning(cfg) && cfg.confirmCount < cfg.maxProbes
    requires RunRespects(isPrivate, ceiling, p, es) && Undisturbed(isPrivate, p, es, cfg) && EndsAfter(isPrivate, p, es, n)
    ensures Width(Run(isPrivate, p, es[..n])) < Width(p)
  {
    hide Run, Step, Respects, Brackets, IdsAreDrawn, ClampedTuning, Searchable, Aimed;
    NoEvents(isPrivate, p, es);
    PrefixRespects(isPrivate, ceiling, p, es, n);
    assert Orderly(isPrivate, p, es[..n], cfg) by {
      assert forall i :: 0 <= i < n ==> es[..n][..i] == es[..i];
    }
    RunPays(isPrivate, ceiling, p, es[..n], cfg);
    NextEvent(isPrivate, p, es, n);
    assert es[..n][..n - 1] == es[..n - 1];
  }

  lemma NothingLearned(p: PeerState, cfg: Tuning)
    requires !Hunting(p.phase)
    ensures !HasLearned(p, cfg)
  {
  }

  lemma ClosedIsExact(isPrivate: bool, ceiling: nat, p: PeerState)
    requires Brackets(isPrivate, ceiling, p)
    ensures Width(p) >= 1 && (Width(p) == 1 ==> p.lastGood == ceiling)
  {
  }

  // ---------- the result ----------

  /** A search that tick `e` starts on a path with a fixed MTU is over once `RoundsOf(cfg) * (confirmCount + 1)` events got on
      with it, whatever else happens in between.  It has found the path MTU to within the resolution, or it froze because its
      budget was spent, which cannot happen with a budget above `RoundsOf(cfg) * confirmCount`.  If the budget exceeds
      `confirmCount`, it has narrowed the window either way. */
  lemma SearchEnds(isPrivate: bool, ceiling: nat, before: PeerState, e: Event, es: seq<Event>) returns (n: nat)
    requires Brackets(isPrivate, ceiling, before) && ceiling <= MAX_MTU && ClampedTuning(e.cfg) && !Hunting(before.phase)
    requires Respects(isPrivate, ceiling, before, e) && IdsAreDrawn(isPrivate, before, e)
    requires Hunting(Step(isPrivate, before, e).phase)
    requires RunRespects(isPrivate, ceiling, Step(isPrivate, before, e), es)
    requires Undisturbed(isPrivate, Step(isPrivate, before, e), es, e.cfg)
    requires Work(isPrivate, Step(isPrivate, before, e), es) >= RoundsOf(e.cfg) * (e.cfg.confirmCount + 1)
    ensures var p := Step(isPrivate, before, e);
            && EndsAfter(isPrivate, p, es, n)
            && Work(isPrivate, p, es[..n]) <= RoundsOf(e.cfg) * (e.cfg.confirmCount + 1)
            && var q := Run(isPrivate, p, es[..n]);
               && (Found(ceiling, q, e.cfg) || q.phase.Frozen?)
               && (RoundsOf(e.cfg) * e.cfg.confirmCount < e.cfg.maxProbes ==> Found(ceiling, q, e.cfg))
               && (e.cfg.confirmCount < e.cfg.maxProbes ==> Width(q) < Width(before))
  {
    hide Step, Run, Brackets, RunRespects, Respects, Undisturbed, IdsAreDrawn, Hunt, RoundsOf, Rounds, Work, Resolves;
    SearchStarts(isPrivate, ceiling, before, e);
    var p := Step(isPrivate, before, e);
    var ended := SearchGoesOn(isPrivate, ceiling, p, es, e.cfg, |es|);
    assert es[..|es|] == es;
    if ended.None? {
      EffortIsPositive(isPrivate, ceiling, Run(isPrivate, p, es), e.cfg);
      assert false;
    }
    n := ended.value;
    if e.cfg.confirmCount < e.cfg.maxProbes {
      SearchNarrows(isPrivate, ceiling, p, es, e.cfg, n);
      StepNarrows(isPrivate, ceiling, before, e);
    }
  }

  lemma {:induction false} RunSplits(isPrivate: bool, start: PeerState, es: seq<Event>, k: nat, i: nat)
    requires k + i <= |es|
    ensures Run(isPrivate, start, es[..k + i]) == Run(isPrivate, Run(isPrivate, start, es[..k]), es[k..][..i])
    decreases i
  {
    hide Step;
    if i > 0 {
      RunSplits(isPrivate, start, es, k, i - 1);
      assert es[..k + i][..k + i - 1] == es[..k + i - 1] && es[k..][..i][..i - 1] == es[k..][..i - 1];
      assert es[..k + i][k + i - 1] == es[k..][..i][i - 1];
    } else {
      assert es[k..][..0] == [];
    }
  }

  /** `SearchEnds` for the search that event `k` of a peer's history starts. */
  lemma SearchOfLifeEnds(isPrivate: bool, ceiling: nat, l: Life, k: nat, cfg: Tuning) returns (n: nat)
    requires DEFAULT_MTU <= ceiling <= MAX_MTU && ClampedTuning(cfg) && k < |l.events|
    requires RunRespects(isPrivate, ceiling, Fresh(l.bornAt, l.bornCfg), l.events) && NumberedLife(isPrivate, l, 0xFFFF_FFFF)
    requires forall i :: k <= i < |l.events| ==> l.events[i].cfg == cfg && !l.events[i].Retune?
    requires !Hunting(Run(isPrivate, Fresh(l.bornAt, l.bornCfg), l.events[..k]).phase)
    requires Hunting(Run(isPrivate, Fresh(l.bornAt, l.bornCfg), l.events[..k + 1]).phase)
    requires Work(isPrivate, Run(isPrivate, Fresh(l.bornAt, l.bornCfg), l.events[..k + 1]), l.events[k + 1..])
             >= RoundsOf(cfg) * (cfg.confirmCount + 1)
    ensures n <= |l.events| && !Hunting(Run(isPrivate, Fresh(l.bornAt, l.bornCfg), l.events[..n]).phase)
    ensures k < n && forall i :: k < i < n ==> Hunting(Run(isPrivate, Fresh(l.bornAt, l.bornCfg), l.events[..i]).phase)
    ensures var q := Run(isPrivate, Fresh(l.bornAt, l.bornCfg), l.events[..n]);
            && (Found(ceiling, q, cfg) || q.phase.Frozen?)
            && (RoundsOf(cfg) * cfg.confirmCount < cfg.maxProbes ==> Found(ceiling, q, cfg))
  {
    hide Step, Respects, Brackets, IdsAreDrawn, Run, Work, RoundsOf, NumberedTick, ClampedTuning, Found, Fresh;
    var start, es := Fresh(l.bornAt, l.bornCfg), l.events[k + 1..];
    var before, e := Run(isPrivate, start, l.events[..k]), l.events[k];
    var p := Step(isPrivate, before, e);
    NextEvent(isPrivate, start, l.events, k + 1);
    PrefixRespects(isPrivate, ceiling, start, l.events, k);
    EveryRunConverges(isPrivate, ceiling, l.(events := l.events[..k]));
    DrawnIsDrawn(isPrivate, before, e);
    forall i | 0 <= i <= |es|
      ensures Run(isPrivate, p, es[..i]) == Run(isPrivate, start, l.events[..k + 1 + i])
    {
      RunSplits(isPrivate, start, l.events, k + 1, i);
    }
    forall i | 0 <= i < |es|
      ensures Respects(isPrivate, ceiling, Run(isPrivate, p, es[..i]), es[i])
      ensures IdsAreDrawn(isPrivate, Run(isPrivate, p, es[..i]), es[i]) && es[i].cfg == cfg && !es[i].Retune?
    {
      assert es[i] == l.events[k + 1 + i];
      DrawnIsDrawn(isPrivate, Run(isPrivate, p, es[..i]), es[i]);
    }
    var m := SearchEnds(isPrivate, ceiling, before, e, es);
    n := k + 1 + m;
    forall i | k < i < n
      ensures Hunting(Run(isPrivate, start, l.events[..i]).phase)
    {
      assert Hunting(Run(isPrivate, p, es[..i - k - 1]).phase);
    }
  }

  lemma DrawnIsDrawn(isPrivate: bool, p: PeerState, e: Event)
    requires NumberedTick(isPrivate, p, e, 0xFFFF_FFFF)
    ensures IdsAreDrawn(isPrivate, p, e)
  {
  }

  /** With the default tuning every such search finds the path MTU after at most 56 events that get on with it. */
  lemma DefaultSearchFinds(isPrivate: bool, ceiling: nat, before: PeerState, e: Event, es: seq<Event>) returns (n: nat)
    requires Brackets(isPrivate, ceiling, before) && ceiling <= MAX_MTU && e.cfg == DEFAULT_TUNING && !Hunting(before.phase)
    requires Respects(isPrivate, ceiling, before, e) && IdsAreDrawn(isPrivate, before, e)
    requires Hunting(Step(isPrivate, before, e).phase)
    requires RunRespects(isPrivate, ceiling, Step(isPrivate, before, e), es)
    requires Undisturbed(isPrivate, Step(isPrivate, before, e), es, DEFAULT_TUNING)
    requires Work(isPrivate, Step(isPrivate, before, e), es) >= 56
    ensures var p := Step(isPrivate, before, e);
            && EndsAfter(isPrivate, p, es, n) && Work(isPrivate, p, es[..n]) <= 56
            && Found(ceiling, Run(isPrivate, p, es[..n]), DEFAULT_TUNING)
  {
    hide Run, Step, Brackets, RunRespects, Respects, Undisturbed, IdsAreDrawn, EndsAfter, Work;
    assert Bits(32) == 1 + Bits(16) && Bits(16) == 1 + Bits(8) && Bits(8) == 4;
    assert RoundsOf(DEFAULT_TUNING) == 14;
    n := SearchEnds(isPrivate, ceiling, before, e, es);
  }

  // ---------- a budget that is too small ----------

  /** No loss of the outstanding search probe can be confirmed before the budget is spent. */
  predicate Scarce(p: PeerState, cfg: Tuning) {
    p.inflight.Some? && !p.phase.Revalidate? && !p.phase.Recheck? ==>
      p.inflight.value.confirmsLeft >= 2 && p.inflight.value.confirmsLeft + p.probesUsed > cfg.confirmCount
  }

  lemma GraceStaysScarce(isPrivate: bool, p: PeerState, now: nat, cfg: Tuning)
    requires WindowInv(isPrivate, p) && Scarce(p, cfg)
    ensures Scarce(GraceStep(isPrivate, p, now, cfg), cfg)
  {
    hide ConfirmedFail;
    if GraceDue(p, now) {
      FailIsIdle(isPrivate, p.(grace := None), p.grace.value.size, now, cfg);
    }
  }

  lemma TimeoutStaysScarce(isPrivate: bool, p: PeerState, now: nat, cfg: Tuning, id: u32)
    requires Scarce(p, cfg) && cfg.maxProbes <= cfg.confirmCount
    ensures Scarce(TimeoutStep(isPrivate, p, now, cfg, id), cfg) && !TimeoutFails(p, now)
  {
    hide ConfirmedFail, TimeoutFor;
  }

  lemma IssueStaysScarce(p: PeerState, now: nat, cfg: Tuning, id: u32)
    requires Scarce(p, cfg) && 2 <= cfg.confirmCount
    ensures Scarce(StartStep(p, now, cfg), cfg) && Scarce(IssueStep(p, now, cfg, id), cfg)
  {
    hide TimeoutFor, RaiseTarget, BinaryTarget, WindowClosed, EnterPlateau, FinishDownSearch;
    PlateauIsIdle(p, now, cfg);
  }

  lemma TickStaysScarce(isPrivate: bool, p: PeerState, e: Event)
    requires e.Tick? && WindowInv(isPrivate, p) && Scarce(p, e.cfg) && 2 <= e.cfg.maxProbes <= e.cfg.confirmCount
    ensures Scarce(TickStep(isPrivate, p, e), e.cfg)
    ensures !TimeoutFails(BeforeTimeout(isPrivate, p, e), e.now)
  {
    hide GraceStep, TimeoutStep, StartStep, IssueStep, WantsProbe, TimeoutFails, WindowInv;
    TickKeepsWindow(isPrivate, p, e);
    GraceStaysScarce(isPrivate, BeforeGrace(isPrivate, p, e), e.now, e.cfg);
    hide Scarce;
    TimeoutStaysScarce(isPrivate, BeforeTimeout(isPrivate, p, e), e.now, e.cfg, e.resendId);
    IssueStaysScarce(BeforeStart(isPrivate, p, e), e.now, e.cfg, e.issueId);
    IssueStaysScarce(BeforeIssue(isPrivate, p, e), e.now, e.cfg, e.issueId);
  }

  lemma StepStaysScarce(isPrivate: bool, p: PeerState, e: Event)
    requires WindowInv(isPrivate, p) && Scarce(p, e.cfg) && 2 <= e.cfg.maxProbes <= e.cfg.confirmCount
    ensures Scarce(Step(isPrivate, p, e), e.cfg)
  {
    hide TickStep, AckStep, HardFailStep, WindowInv;
    match e
    case Tick(_, _, _, _, _, _, _) => TickStaysScarce(isPrivate, p, e);
    case Ack(now, cfg, size, id, gen) => AckIsIdle(p, ClampSize(size), id, gen, now, cfg);
    case HardFail(now, cfg, id) => HardFailIsIdle(isPrivate, p, id, now, cfg);
    case _ =>
  }

  lemma {:induction false} EveryRunStaysScarce(isPrivate: bool, l: Life, cfg: Tuning)
    requires 2 <= cfg.maxProbes <= cfg.confirmCount && forall e :: e in l.events ==> e.cfg == cfg
    ensures Scarce(StateOf(isPrivate, l), cfg)
    decreases |l.events|
  {
    hide Step, WindowInv;
    if l.events != [] {
      var before := l.(events := l.events[..|l.events| - 1]);
      EveryRunStaysScarce(isPrivate, before, cfg);
      EveryRunKeepsWindow(isPrivate, before);
      assert l.events[|l.events| - 1] in l.events;
      hide Scarce;
      StepStaysScarce(isPrivate, StateOf(isPrivate, before), l.events[|l.events| - 1]);
    }
  }

  /** With a budget of at most `confirmCount` no tick of any history ever confirms that a Raise, Binary or DownSearch probe
      was lost, so timeouts teach nothing.  The clamped tuning allows exactly one such setting, 8 and 8. */
  lemma ScarceBudgetConfirmsNothing(isPrivate: bool, l: Life, cfg: Tuning, e: Event)
    requires 2 <= cfg.maxProbes <= cfg.confirmCount && forall x :: x in l.events ==> x.cfg == cfg
    requires e.Tick? && e.cfg == cfg
    ensures !TimeoutFails(BeforeTimeout(isPrivate, StateOf(isPrivate, l), e), e.now)
  {
    hide WindowInv, BeforeTimeout, TimeoutFails, Scarce;
    EveryRunStaysScarce(isPrivate, l, cfg);
    EveryRunKeepsWindow(isPrivate, l);
    TickStaysScarce(isPrivate, StateOf(isPrivate, l), e);
  }
}
