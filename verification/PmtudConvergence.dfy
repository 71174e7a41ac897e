/** Convergence of one peer's search when the path really has a fixed MTU: probes up to the ceiling are
    acknowledged, larger ones fail. */
module PmtudConvergence {
  import opened Wrappers
  import opened PmtudPeer
  import opened PmtudWindow
  import opened PmtudHysteresis

  /** The probe that a tick's timeout stage is about to declare failed, if any. */
  predicate TimeoutFails(p: PeerState, now: nat) {
    TimeoutDue(p, now) && p.inflight.value.confirmsLeft <= 1 && !p.phase.Revalidate? && !p.phase.Recheck?
  }

  /** The event respects a path whose MTU is `ceiling`: only probes up to it are acknowledged, and only larger
      ones are confirmed lost.  Lost copies that are sent again, and late acknowledgements, are allowed. */
  predicate Respects(isPrivate: bool, ceiling: nat, p: PeerState, e: Event) {
    match e
    case Tick(now, _, _, _, _, _, _) =>
      var a := BeforeGrace(isPrivate, p, e);
      var b := BeforeTimeout(isPrivate, p, e);
      && (GraceDue(a, now) ==> a.grace.value.size > ceiling)
      && (TimeoutFails(b, now) ==> b.inflight.value.size > ceiling)
    case Ack(now, _, size, id, gen) => Accepts(p, ClampSize(size), id, gen, now) ==> ClampSize(size) <= ceiling
    case HardFail(_, _, id) => HardFailHits(p, id) ==> p.inflight.value.size > ceiling
    case Retune(_, _) => true
    case Hint(_, _) => true
    case EarlyWake(_, _) => true
    case Pin(_, _, _) => false
    case Unpin(_, _) => false
    case Seed(_, _, _) => false
  }

  predicate RunRespects(isPrivate: bool, ceiling: nat, start: PeerState, es: seq<Event>) {
    forall i {:trigger es[i]} :: 0 <= i < |es| ==> Respects(isPrivate, ceiling, Run(isPrivate, start, es[..i]), es[i])
  }

  /** The ceiling is bracketed by what was proven and what failed, and no downgrade is under way. */
  predicate Brackets(isPrivate: bool, ceiling: nat, p: PeerState) {
    && WindowInv(isPrivate, p)
    && DEFAULT_MTU <= p.lastGood == p.stable <= ceiling < p.firstBad
    && !p.phase.Recheck? && !p.phase.DownSearch?
    && p.downFromStable.None?
  }

  function Width(p: PeerState): int {
    p.firstBad - p.lastGood
  }

  /** The event settles an outstanding Raise or Binary probe. */
  predicate Resolves(isPrivate: bool, p: PeerState, e: Event) {
    match e
    case Tick(now, _, _, _, _, _, _) =>
      var b := BeforeTimeout(isPrivate, p, e);
      TimeoutFails(b, now) && (b.phase.Raise? || b.phase.Binary?)
    case Ack(_, _, size, id, gen) => MatchesInflight(p, ClampSize(size), id, gen) && (p.phase.Raise? || p.phase.Binary?)
    case HardFail(_, _, id) => HardFailHits(p, id) && (p.phase.Raise? || p.phase.Binary?)
    case _ => false
  }

  /** How one event may change a bracketed peer. */
  predicate Narrows(ceiling: nat, p: PeerState, q: PeerState, resolved: bool) {
    && p.lastGood <= q.lastGood
    && Width(q) <= Width(p) - Count(resolved)
  }

  lemma PlateauKeepsBrackets(isPrivate: bool, ceiling: nat, p: PeerState, now: nat, cfg: Tuning)
    requires Bounded(p) && DEFAULT_MTU <= p.lastGood == p.stable <= ceiling < p.firstBad && p.downFromStable.None?
    ensures var q := EnterPlateau(p, now, cfg);
            Brackets(isPrivate, ceiling, q) && q.lastGood == p.lastGood && q.firstBad == p.firstBad && q.phase.Plateau?
  {
  }

  /** A failed Raise or Binary probe above the ceiling pulls the upper end down to it. */
  lemma FailNarrows(isPrivate: bool, ceiling: nat, p: PeerState, size: nat, now: nat, cfg: Tuning)
    requires Brackets(isPrivate, ceiling, p) && p.grace.None? && (p.phase.Raise? || p.phase.Binary?)
    requires ceiling < size < p.firstBad
    ensures var q := ConfirmedFail(isPrivate, p, size, now, cfg);
            && Brackets(isPrivate, ceiling, q) && Narrows(ceiling, p, q, true) && Idle(q)
            && (q.phase.Plateau? ==> ceiling - q.lastGood < cfg.resolveEpsilon && q.nextRaiseAt == now + cfg.raisePeriod)
            && (q.phase.Plateau? || q.phase.Binary? || q.phase.Frozen?)
            && q.lastGood == p.lastGood && q.firstBad == size
  {
    hide EnterPlateau, FinishDownSearch;
    var q := if p.phase.Raise?
             then p.(inflight := None, firstBad := size, step := cfg.raiseStep, phase := Binary)
             else p.(inflight := None, firstBad := size);
    PlateauKeepsBrackets(isPrivate, ceiling, q, now, cfg);
    PlateauTimer(q, now, cfg);
  }

  lemma PlateauTimer(p: PeerState, now: nat, cfg: Tuning)
    ensures EnterPlateau(p, now, cfg).nextRaiseAt == now + cfg.raisePeriod && Idle(EnterPlateau(p, now, cfg))
  {
  }

  lemma TimeoutNarrows(isPrivate: bool, ceiling: nat, p: PeerState, now: nat, cfg: Tuning, id: u32)
    requires Brackets(isPrivate, ceiling, p)
    requires TimeoutFails(p, now) ==> p.inflight.value.size > ceiling
    ensures var q := TimeoutStep(isPrivate, p, now, cfg, id);
            && Brackets(isPrivate, ceiling, q)
            && Narrows(ceiling, p, q, TimeoutFails(p, now))
            && (TimeoutFails(p, now) && q.phase.Plateau? ==>
                  ceiling - q.lastGood < cfg.resolveEpsilon && q.nextRaiseAt == now + cfg.raisePeriod)
            && (q.phase.Plateau? && !p.phase.Plateau? ==> TimeoutFails(p, now))
            && q.lastGood == p.lastGood
            && q.firstBad == (if TimeoutFails(p, now) then p.inflight.value.size else p.firstBad)
  {
    hide ConfirmedFail, TimeoutFor;
    TimeoutKeepsWindow(isPrivate, p, now, cfg, id);
    if TimeoutFails(p, now) {
      FailNarrows(isPrivate, ceiling, p.(inflight := None), p.inflight.value.size, now, cfg);
    }
  }

  lemma StartAndIssueNarrow(isPrivate: bool, ceiling: nat, p: PeerState, now: nat, cfg: Tuning, id: u32)
    requires Brackets(isPrivate, ceiling, p)
    ensures Brackets(isPrivate, ceiling, StartStep(p, now, cfg)) && Narrows(ceiling, p, StartStep(p, now, cfg), false)
    ensures Brackets(isPrivate, ceiling, IssueStep(p, now, cfg, id)) && Narrows(ceiling, p, IssueStep(p, now, cfg, id), false)
  {
    hide EnterPlateau, FinishDownSearch, TimeoutFor, IssueSize, RaiseTarget, WindowInv;
    assert AboveFloor(isPrivate, p) && Bounded(p) by {
      BracketsAreBounded(isPrivate, ceiling, p);
    }
    StartKeepsWindow(isPrivate, p, now, cfg);
    IssueKeepsWindow(isPrivate, p, now, cfg, id);
    PlateauKeepsBrackets(isPrivate, ceiling, p, now, cfg);
  }

  lemma BracketsAreBounded(isPrivate: bool, ceiling: nat, p: PeerState)
    requires Brackets(isPrivate, ceiling, p)
    ensures AboveFloor(isPrivate, p) && Bounded(p)
  {
  }

  lemma TickNarrows(isPrivate: bool, ceiling: nat, p: PeerState, e: Event)
    requires e.Tick? && Brackets(isPrivate, ceiling, p) && Respects(isPrivate, ceiling, p, e)
    ensures var q := TickStep(isPrivate, p, e);
            Brackets(isPrivate, ceiling, q) && Narrows(ceiling, p, q, Resolves(isPrivate, p, e))
    ensures BeforeTimeout(isPrivate, p, e) == InputStep(p, e.rttMs, e.largeAlive)
  {
    hide ConfirmedFail, TimeoutStep, StartStep, IssueStep, WantsProbe;
    var a, b := BeforeGrace(isPrivate, p, e), BeforeTimeout(isPrivate, p, e);
    assert Brackets(isPrivate, ceiling, a) && b == a;
    TimeoutNarrows(isPrivate, ceiling, b, e.now, e.cfg, e.resendId);
    StartAndIssueNarrow(isPrivate, ceiling, BeforeStart(isPrivate, p, e), e.now, e.cfg, e.issueId);
    StartAndIssueNarrow(isPrivate, ceiling, BeforeIssue(isPrivate, p, e), e.now, e.cfg, e.issueId);
  }

  lemma AckRaiseNarrows(isPrivate: bool, ceiling: nat, p: PeerState, sz: nat, now: nat, cfg: Tuning)
    requires Brackets(isPrivate, ceiling, p) && Idle(p) && p.everAcked && p.phase.Raise?
    requires p.lastGood < sz <= ceiling <= MAX_MTU
    ensures var q := AckRaise(p, sz, now, cfg);
            Brackets(isPrivate, ceiling, q) && Narrows(ceiling, p, q, true) &&
            (q.phase.Plateau? ==> q.lastGood == ceiling)
  {
    hide EnterPlateau;
    var q := LiftStable(p.(lastGood := sz)).(step := Max(p.step * 2, cfg.raiseStep));
    PlateauKeepsBrackets(isPrivate, ceiling, q, now, cfg);
    PlateauKeepsBrackets(isPrivate, ceiling, q.(firstBad := FIRST_BAD_SENTINEL), now, cfg);
  }

  lemma AckBinaryNarrows(isPrivate: bool, ceiling: nat, p: PeerState, sz: nat, now: nat, cfg: Tuning)
    requires Brackets(isPrivate, ceiling, p) && Idle(p) && p.everAcked && p.phase.Binary?
    requires p.lastGood < sz <= ceiling <= MAX_MTU
    ensures var q := AckBinary(p, sz, now, cfg);
            Brackets(isPrivate, ceiling, q) && Narrows(ceiling, p, q, true) &&
            (q.phase.Plateau? ==> ceiling - q.lastGood < cfg.resolveEpsilon) &&
            q.lastGood == sz && q.firstBad == p.firstBad
  {
    hide EnterPlateau;
    PlateauKeepsBrackets(isPrivate, ceiling, LiftStable(p.(lastGood := sz)), now, cfg);
  }

  lemma AckNarrows(isPrivate: bool, ceiling: nat, p: PeerState, sz: nat, id: u32, gen: u32, now: nat, cfg: Tuning)
    requires Brackets(isPrivate, ceiling, p) && ceiling <= MAX_MTU
    requires Accepts(p, sz, id, gen, now) ==> sz <= ceiling
    ensures var q := AckStep(p, sz, id, gen, now, cfg);
            && Brackets(isPrivate, ceiling, q)
            && Narrows(ceiling, p, q, MatchesInflight(p, sz, id, gen) && (p.phase.Raise? || p.phase.Binary?))
            && (p.phase.Binary? && q.phase.Plateau? ==> ceiling - q.lastGood < cfg.resolveEpsilon)
            && (p.phase.Raise? && q.phase.Plateau? ==> q.lastGood == ceiling)
            && (MatchesInflight(p, sz, id, gen) && p.phase.Binary? ==> q.lastGood == sz && q.firstBad == p.firstBad)
  {
    hide AckRaise, AckBinary, EnterPlateau;
    var q := p.(inflight := None, grace := None, everAcked := true);
    PlateauKeepsBrackets(isPrivate, ceiling, q, now, cfg);
    PlateauKeepsBrackets(isPrivate, ceiling, p.(grace := None, everAcked := true), now, cfg);
    if MatchesInflight(p, sz, id, gen) {
      if p.phase.Raise? {
        AckRaiseNarrows(isPrivate, ceiling, q, sz, now, cfg);
      } else if p.phase.Binary? {
        AckBinaryNarrows(isPrivate, ceiling, q, sz, now, cfg);
      }
    }
  }

  lemma HardFailNarrows(isPrivate: bool, ceiling: nat, p: PeerState, id: u32, now: nat, cfg: Tuning)
    requires Brackets(isPrivate, ceiling, p)
    requires HardFailHits(p, id) ==> p.inflight.value.size > ceiling
    ensures var q := HardFailStep(isPrivate, p, id, now, cfg);
            && Brackets(isPrivate, ceiling, q) && Narrows(ceiling, p, q, HardFailHits(p, id))
            && (HardFailHits(p, id) ==> p.phase.Raise? || p.phase.Binary?)
            && (p.phase.Binary? && q.phase.Plateau? ==> ceiling - q.lastGood < cfg.resolveEpsilon)
            && (p.phase.Raise? && q.phase.Plateau? ==> ceiling - q.lastGood < cfg.resolveEpsilon)
            && (HardFailHits(p, id) ==> q.lastGood == p.lastGood && q.firstBad == p.inflight.value.size)
  {
    hide ConfirmedFail, SoftDown;
    if HardFailHits(p, id) {
      FailNarrows(isPrivate, ceiling, p, p.inflight.value.size, now, cfg);
    }
  }

  lemma StepNarrows(isPrivate: bool, ceiling: nat, p: PeerState, e: Event)
    requires Brackets(isPrivate, ceiling, p) && Respects(isPrivate, ceiling, p, e) && ceiling <= MAX_MTU
    ensures Brackets(isPrivate, ceiling, Step(isPrivate, p, e))
    ensures Narrows(ceiling, p, Step(isPrivate, p, e), Resolves(isPrivate, p, e))
    ensures SoftDowns(isPrivate, p, e) == 0
  {
    hide TickStep, BeforeTimeout, AckStep, HardFailStep, TimeoutFails;
    match e
    case Tick(_, _, _, _, _, _, _) => TickNarrows(isPrivate, ceiling, p, e);
    case Ack(now, cfg, size, id, gen) => AckNarrows(isPrivate, ceiling, p, ClampSize(size), id, gen, now, cfg);
    case HardFail(now, cfg, id) => HardFailNarrows(isPrivate, ceiling, p, id, now, cfg);
    case _ =>
  }

  /** Leaving Binary for the Plateau means the search is within `resolveEpsilon` of the true path MTU. */
  lemma ClosedBinaryIsAccurate(isPrivate: bool, ceiling: nat, p: PeerState, e: Event)
    requires Brackets(isPrivate, ceiling, p) && Respects(isPrivate, ceiling, p, e) && ceiling <= MAX_MTU
    requires p.phase.Binary? && Step(isPrivate, p, e).phase.Plateau? && !e.Retune?
    ensures ceiling - Step(isPrivate, p, e).lastGood < e.cfg.resolveEpsilon
  {
    hide TickStep, BeforeTimeout, AckStep, HardFailStep, TimeoutFails;
    match e
    case Tick(_, _, _, _, _, _, _) => TickFromBinary(isPrivate, ceiling, p, e);
    case Ack(now, cfg, size, id, gen) => AckNarrows(isPrivate, ceiling, p, ClampSize(size), id, gen, now, cfg);
    case HardFail(now, cfg, id) => HardFailNarrows(isPrivate, ceiling, p, id, now, cfg);
    case _ =>
  }

  lemma TickFromBinary(isPrivate: bool, ceiling: nat, p: PeerState, e: Event)
    requires e.Tick? && Brackets(isPrivate, ceiling, p) && Respects(isPrivate, ceiling, p, e)
    requires p.phase.Binary? && TickStep(isPrivate, p, e).phase.Plateau?
    ensures ceiling - TickStep(isPrivate, p, e).lastGood < e.cfg.resolveEpsilon
  {
    hide ConfirmedFail, TimeoutStep, IssueStep, RaiseTarget, EnterPlateau;
    TickNarrows(isPrivate, ceiling, p, e);
    var b, c, d := BeforeTimeout(isPrivate, p, e), BeforeStart(isPrivate, p, e), BeforeIssue(isPrivate, p, e);
    TimeoutNarrows(isPrivate, ceiling, b, e.now, e.cfg, e.resendId);
    StartAndIssueNarrow(isPrivate, ceiling, c, e.now, e.cfg, e.issueId);
    if !d.phase.Plateau? {
      IssuedPlateauIsClosed(d, e.now, e.cfg, e.issueId);
    }
  }

  lemma IssuedPlateauIsClosed(p: PeerState, now: nat, cfg: Tuning, id: u32)
    requires !p.phase.Plateau? && !p.phase.DownSearch? && IssueStep(p, now, cfg, id).phase.Plateau?
    ensures p.phase.Binary? && WindowClosed(p, cfg.resolveEpsilon)
    ensures IssueStep(p, now, cfg, id).lastGood == p.lastGood
  {
    hide TimeoutFor, RaiseTarget, BinaryTarget;
  }

  /** A Raise that only ever got acknowledgements stops exactly at the true path MTU. */
  lemma AcknowledgedRaiseIsExact(isPrivate: bool, ceiling: nat, p: PeerState, e: Event)
    requires Brackets(isPrivate, ceiling, p) && Respects(isPrivate, ceiling, p, e) && ceiling <= MAX_MTU
    requires p.phase.Raise? && e.Ack? && Step(isPrivate, p, e).phase.Plateau?
    ensures Step(isPrivate, p, e).lastGood == ceiling
  {
    hide AckStep;
    AckNarrows(isPrivate, ceiling, p, ClampSize(e.size), e.id, e.gen, e.now, e.cfg);
  }

  function TotalResolved(isPrivate: bool, start: PeerState, es: seq<Event>): nat {
    if es == [] then 0
    else
      var init := es[..|es| - 1];
      TotalResolved(isPrivate, start, init) + Count(Resolves(isPrivate, Run(isPrivate, start, init), es[|es| - 1]))
  }

  /** On a path with a fixed MTU, every history keeps the ceiling bracketed, never soft-downs, and settles at
      most 280 Raise and Binary probes before nothing is left to learn. */
  lemma {:induction false} EveryRunConverges(isPrivate: bool, ceiling: nat, l: Life)
    requires DEFAULT_MTU <= ceiling <= MAX_MTU
    requires RunRespects(isPrivate, ceiling, Fresh(l.bornAt, l.bornCfg), l.events)
    ensures Brackets(isPrivate, ceiling, StateOf(isPrivate, l))
    ensures var start := Fresh(l.bornAt, l.bornCfg);
            && TotalSoftDowns(isPrivate, start, l.events) == 0
            && TotalResolved(isPrivate, start, l.events) + Width(StateOf(isPrivate, l))
               <= FIRST_BAD_SENTINEL - DEFAULT_MTU
    decreases |l.events|
  {
    hide Step, Respects, Resolves, SoftDowns, Brackets;
    var start := Fresh(l.bornAt, l.bornCfg);
    if l.events == [] {
      FreshBrackets(isPrivate, ceiling, l.bornAt, l.bornCfg);
    } else {
      var before := l.(events := l.events[..|l.events| - 1]);
      PrefixRespects(isPrivate, ceiling, start, l.events, |l.events| - 1);
      EveryRunConverges(isPrivate, ceiling, before);
      assert l.events[..|l.events| - 1] == before.events;
      StepNarrows(isPrivate, ceiling, StateOf(isPrivate, before), l.events[|l.events| - 1]);
    }
  }

  lemma FreshBrackets(isPrivate: bool, ceiling: nat, now: nat, cfg: Tuning)
    requires DEFAULT_MTU <= ceiling <= MAX_MTU
    ensures Brackets(isPrivate, ceiling, Fresh(now, cfg))
  {
  }

  lemma PrefixRespects(isPrivate: bool, ceiling: nat, start: PeerState, es: seq<Event>, n: nat)
    requires n <= |es| && RunRespects(isPrivate, ceiling, start, es)
    ensures RunRespects(isPrivate, ceiling, start, es[..n])
  {
    hide Respects, Run;
    assert forall i :: 0 <= i < n ==> es[..n][..i] == es[..i];
  }

  /** What was proven is never given up again. */
  lemma {:induction false} ProvenSizeNeverShrinks(isPrivate: bool, ceiling: nat, l: Life, n: nat)
    requires DEFAULT_MTU <= ceiling <= MAX_MTU && n <= |l.events|
    requires RunRespects(isPrivate, ceiling, Fresh(l.bornAt, l.bornCfg), l.events)
    ensures StateOf(isPrivate, l.(events := l.events[..n])).lastGood <= StateOf(isPrivate, l).lastGood
    decreases |l.events|
  {
    hide Step, Respects, Brackets, Fresh;
    if n == |l.events| {
      assert l.events[..n] == l.events;
    } else {
      var before := l.(events := l.events[..|l.events| - 1]);
      PrefixRespects(isPrivate, ceiling, Fresh(l.bornAt, l.bornCfg), l.events, |l.events| - 1);
      ProvenSizeNeverShrinks(isPrivate, ceiling, before, n);
      EveryRunConverges(isPrivate, ceiling, before);
      assert before.events[..n] == l.events[..n];
      assert l.events[..|l.events| - 1] == before.events;
      StepNarrows(isPrivate, ceiling, StateOf(isPrivate, before), l.events[|l.events| - 1]);
    }
  }
}
