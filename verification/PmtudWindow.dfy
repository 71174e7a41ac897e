/** Path-MTU discovery: the search window of a peer stays sane over every run (src/pmtud.rs). */
module PmtudWindow {
  import opened Wrappers
  import opened PmtudPeer

  predicate WindowInv(isPrivate: bool, p: PeerState) {
    && MIN_MTU <= p.lastGood <= p.stable <= MAX_MTU
    && p.lastGood < p.firstBad <= FIRST_BAD_SENTINEL
    && (p.inflight.None? || p.grace.None?)
    && (!IsSearching(p.phase) ==> Idle(p))
    && (p.inflight.Some? ==>
          if p.phase.Revalidate? || p.phase.Recheck?
          then p.inflight.value.size == p.stable
          else p.lastGood < p.inflight.value.size < p.firstBad)
    && (p.grace.Some? ==>
          && (p.phase.Revalidate? || p.phase.Recheck?)
          && p.grace.value.size == p.stable
          && p.grace.value.searchGen == p.searchGen)
    && (p.phase.DownSearch? ==> p.firstBad <= p.stable + 1)
    && (p.phase.Raise? ==> p.step > 0)
    && (IsSearching(p.phase) ==> AboveFloor(isPrivate, p))
  }

  /** A private peer that never answered a probe is kept at the discovery floor. */
  predicate AboveFloor(isPrivate: bool, p: PeerState) {
    isPrivate && !p.everAcked ==> p.lastGood >= DEFAULT_MTU
  }

  predicate Bounded(p: PeerState) {
    MIN_MTU <= p.lastGood <= p.stable <= MAX_MTU && p.lastGood < p.firstBad <= FIRST_BAD_SENTINEL
  }

  /** Ending a search touches `stable` only downwards, and never below what was proven. */
  lemma PlateauKeepsBounds(p: PeerState, now: nat, cfg: Tuning)
    requires Bounded(p)
    ensures Bounded(EnterPlateau(p, now, cfg)) && Bounded(FinishDownSearch(p, now, cfg))
    ensures Settled(p, EnterPlateau(p, now, cfg)) && Settled(p, FinishDownSearch(p, now, cfg))
  {
  }

  /** `q` has ended the search of `p` without touching what was proven. */
  predicate Settled(p: PeerState, q: PeerState) {
    q.phase.Plateau? && Idle(q) && q.lastGood == p.lastGood && q.everAcked == p.everAcked
  }

  lemma SoftDownKeepsWindow(isPrivate: bool, p: PeerState, now: nat, cfg: Tuning)
    requires WindowInv(isPrivate, p) && IsSearching(p.phase)
    ensures WindowInv(isPrivate, SoftDown(isPrivate, p, now, cfg))
    ensures AboveFloor(isPrivate, SoftDown(isPrivate, p, now, cfg))
  {
  }

  lemma CloseKeepsWindow(isPrivate: bool, p: PeerState, now: nat, cfg: Tuning)
    requires WindowInv(isPrivate, p) && Idle(p) && IsSearching(p.phase)
    ensures WindowInv(isPrivate, CloseOrFreeze(p, now, cfg))
    ensures AboveFloor(isPrivate, CloseOrFreeze(p, now, cfg))
  {
    hide EnterPlateau, FinishDownSearch;
    PlateauKeepsBounds(p, now, cfg);
  }

  lemma ConfirmedFailKeepsWindow(isPrivate: bool, p: PeerState, size: nat, now: nat, cfg: Tuning)
    requires WindowInv(isPrivate, p) && IsSearching(p.phase) && p.grace.None?
    requires p.inflight.Some? ==> p.inflight.value.size == size
    requires !(p.phase.Revalidate? || p.phase.Recheck?) ==> p.lastGood < size < p.firstBad
    ensures WindowInv(isPrivate, ConfirmedFail(isPrivate, p, size, now, cfg))
    ensures AboveFloor(isPrivate, ConfirmedFail(isPrivate, p, size, now, cfg))
  {
    hide CloseOrFreeze, SoftDown;
    match p.phase
    case Recheck => SoftDownKeepsWindow(isPrivate, p, now, cfg);
    case Raise =>
      CloseKeepsWindow(isPrivate, p.(inflight := None, firstBad := size, step := cfg.raiseStep, phase := Binary), now, cfg);
    case Binary => CloseKeepsWindow(isPrivate, p.(inflight := None, firstBad := size), now, cfg);
    case DownSearch => CloseKeepsWindow(isPrivate, p.(inflight := None, firstBad := size), now, cfg);
    case _ =>
  }

  lemma GraceKeepsWindow(isPrivate: bool, p: PeerState, now: nat, cfg: Tuning)
    requires WindowInv(isPrivate, p) && AboveFloor(isPrivate, p)
    ensures WindowInv(isPrivate, GraceStep(isPrivate, p, now, cfg))
    ensures AboveFloor(isPrivate, GraceStep(isPrivate, p, now, cfg))
  {
    hide ConfirmedFail;
    if GraceDue(p, now) {
      ConfirmedFailKeepsWindow(isPrivate, p.(grace := None), p.grace.value.size, now, cfg);
    }
  }

  lemma TimeoutKeepsWindow(isPrivate: bool, p: PeerState, now: nat, cfg: Tuning, id: u32)
    requires WindowInv(isPrivate, p) && AboveFloor(isPrivate, p)
    ensures WindowInv(isPrivate, TimeoutStep(isPrivate, p, now, cfg, id))
    ensures AboveFloor(isPrivate, TimeoutStep(isPrivate, p, now, cfg, id))
  {
    hide ConfirmedFail, TimeoutFor;
    if TimeoutDue(p, now) && p.inflight.value.confirmsLeft <= 1 {
      ConfirmedFailKeepsWindow(isPrivate, p.(inflight := None), p.inflight.value.size, now, cfg);
    }
  }

  lemma StartKeepsWindow(isPrivate: bool, p: PeerState, now: nat, cfg: Tuning)
    requires WindowInv(isPrivate, p) && AboveFloor(isPrivate, p)
    ensures WindowInv(isPrivate, StartStep(p, now, cfg))
    ensures AboveFloor(isPrivate, StartStep(p, now, cfg))
  {
  }

  /** Every probe is aimed strictly inside the window, or at `stable` when it only confirms it. */
  lemma ProbeInsideWindow(p: PeerState, cfg: Tuning)
    requires Bounded(p) && IssueSize(p, cfg).Some?
    ensures if p.phase.Revalidate? || p.phase.Recheck?
            then IssueSize(p, cfg).value == p.stable
            else p.lastGood < IssueSize(p, cfg).value < p.firstBad
    ensures IsSearching(p.phase) && MIN_MTU <= IssueSize(p, cfg).value <= MAX_MTU
  {
  }

  lemma IssueKeepsWindow(isPrivate: bool, p: PeerState, now: nat, cfg: Tuning, id: u32)
    requires WindowInv(isPrivate, p) && AboveFloor(isPrivate, p)
    ensures WindowInv(isPrivate, IssueStep(p, now, cfg, id))
    ensures AboveFloor(isPrivate, IssueStep(p, now, cfg, id))
  {
    hide TimeoutFor, IssueSize, EnterPlateau, FinishDownSearch, WindowClosed;
    if IssueSize(p, cfg).Some? {
      ProbeInsideWindow(p, cfg);
      assert ClampSize(IssueSize(p, cfg).value) == IssueSize(p, cfg).value;
    }
    PlateauKeepsBounds(p, now, cfg);
  }

  lemma TickKeepsWindow(isPrivate: bool, p: PeerState, e: Event)
    requires e.Tick? && WindowInv(isPrivate, p)
    ensures WindowInv(isPrivate, BeforeGrace(isPrivate, p, e))
    ensures WindowInv(isPrivate, BeforeTimeout(isPrivate, p, e))
    ensures WindowInv(isPrivate, BeforeStart(isPrivate, p, e))
    ensures WindowInv(isPrivate, BeforeIssue(isPrivate, p, e))
    ensures WindowInv(isPrivate, TickStep(isPrivate, p, e))
    ensures AboveFloor(isPrivate, TickStep(isPrivate, p, e))
  {
    hide GraceStep, TimeoutStep, StartStep, IssueStep, WantsProbe;
    GraceKeepsWindow(isPrivate, BeforeGrace(isPrivate, p, e), e.now, e.cfg);
    TimeoutKeepsWindow(isPrivate, BeforeTimeout(isPrivate, p, e), e.now, e.cfg, e.resendId);
    StartKeepsWindow(isPrivate, BeforeStart(isPrivate, p, e), e.now, e.cfg);
    IssueKeepsWindow(isPrivate, BeforeIssue(isPrivate, p, e), e.now, e.cfg, e.issueId);
  }

  lemma AckRaiseKeepsWindow(isPrivate: bool, p: PeerState, sz: nat, now: nat, cfg: Tuning)
    requires Bounded(p) && Idle(p) && p.phase.Raise? && p.everAcked && p.lastGood < sz < p.firstBad
    ensures WindowInv(isPrivate, AckRaise(p, sz, now, cfg))
  {
    hide EnterPlateau;
    var q := LiftStable(p.(lastGood := sz)).(step := Max(p.step * 2, cfg.raiseStep));
    PlateauKeepsBounds(q, now, cfg);
    PlateauKeepsBounds(q.(firstBad := FIRST_BAD_SENTINEL), now, cfg);
  }

  lemma AckSearchKeepsWindow(isPrivate: bool, p: PeerState, sz: nat, now: nat, cfg: Tuning)
    requires Bounded(p) && Idle(p) && p.everAcked && p.lastGood < sz < p.firstBad
    ensures p.phase.Binary? ==> WindowInv(isPrivate, AckBinary(p, sz, now, cfg))
    ensures p.phase.DownSearch? && p.firstBad <= p.stable + 1 ==>
              WindowInv(isPrivate, AckDownSearch(p, sz, now, cfg))
  {
  }

  lemma AckKeepsWindow(isPrivate: bool, p: PeerState, sz: nat, id: u32, gen: u32, now: nat, cfg: Tuning)
    requires WindowInv(isPrivate, p)
    ensures WindowInv(isPrivate, AckStep(p, sz, id, gen, now, cfg))
  {
    hide AckRaise, AckBinary, AckDownSearch, EnterPlateau;
    var q := p.(inflight := None, grace := None, everAcked := true);
    PlateauKeepsBounds(q, now, cfg);
    PlateauKeepsBounds(p.(grace := None, everAcked := true), now, cfg);
    if MatchesInflight(p, sz, id, gen) && (p.phase.Raise? || p.phase.Binary? || p.phase.DownSearch?) {
      AckSearchKeepsWindow(isPrivate, q, sz, now, cfg);
      if p.phase.Raise? {
        AckRaiseKeepsWindow(isPrivate, q, sz, now, cfg);
      }
    }
  }

  lemma HardFailKeepsWindow(isPrivate: bool, p: PeerState, id: u32, now: nat, cfg: Tuning)
    requires WindowInv(isPrivate, p)
    ensures WindowInv(isPrivate, HardFailStep(isPrivate, p, id, now, cfg))
  {
    hide SoftDown, ConfirmedFail;
    if HardFailHits(p, id) {
      if p.phase.Revalidate? || p.phase.Recheck? {
        SoftDownKeepsWindow(isPrivate, p.(inflight := None, grace := None), now, cfg);
      } else {
        ConfirmedFailKeepsWindow(isPrivate, p, p.inflight.value.size, now, cfg);
      }
    }
  }

  lemma StepKeepsWindow(isPrivate: bool, p: PeerState, e: Event)
    requires WindowInv(isPrivate, p)
    ensures WindowInv(isPrivate, Step(isPrivate, p, e))
    ensures e.Tick? ==> AboveFloor(isPrivate, Step(isPrivate, p, e))
  {
    hide TickStep, AckStep, HardFailStep;
    match e
    case Tick(_, _, _, _, _, _, _) => TickKeepsWindow(isPrivate, p, e);
    case Ack(now, cfg, size, id, gen) => AckKeepsWindow(isPrivate, p, ClampSize(size), id, gen, now, cfg);
    case HardFail(now, cfg, id) => HardFailKeepsWindow(isPrivate, p, id, now, cfg);
    case _ =>
  }

  /** Whatever happens to a peer, in whatever order and under whatever tuning, its search window is sane. */
  lemma {:induction false} EveryRunKeepsWindow(isPrivate: bool, l: Life)
    ensures WindowInv(isPrivate, StateOf(isPrivate, l))
    ensures l.events != [] && l.events[|l.events| - 1].Tick? ==> AboveFloor(isPrivate, StateOf(isPrivate, l))
    decreases |l.events|
  {
    if l.events != [] {
      var before := l.(events := l.events[..|l.events| - 1]);
      EveryRunKeepsWindow(isPrivate, before);
      StepKeepsWindow(isPrivate, StateOf(isPrivate, before), l.events[|l.events| - 1]);
    }
  }
}
