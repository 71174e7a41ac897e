/** Path-MTU discovery: a due tick moves a peer on, unless its outstanding probe has id 0 (src/pmtud.rs). */
module PmtudLiveness {
  import opened Wrappers
  import opened PmtudPeer
  import opened PmtudWindow

  /** The ranges that `AdvancedTuning::clamp` enforces on the search knobs (src/advanced_tuning.rs:624-631). */
  predicate ClampedTuning(cfg: Tuning) {
    && 50 <= cfg.probeTimeout <= 10_000
    && 1 <= cfg.confirmCount <= 8
    && 1 <= cfg.resolveEpsilon <= 8
    && 1 <= cfg.raiseStep <= 512
    && 8 <= cfg.maxProbes <= 256
    && 1 <= cfg.maxConcurrent <= 64
    && 1 <= cfg.downgradeBatches
    && 1_000 <= cfg.raisePeriod
  }

  /** A searching peer that waits for nothing has something left to probe. */
  predicate Searchable(p: PeerState, epsilon: nat) {
    Idle(p) ==>
      && (p.phase.Raise? ==> RaiseTarget(p).Some?)
      && (p.phase.Binary? || p.phase.DownSearch? ==> !WindowClosed(p, epsilon))
  }

  lemma PlateauIsSearchable(p: PeerState, now: nat, cfg: Tuning)
    ensures Searchable(EnterPlateau(p, now, cfg), cfg.resolveEpsilon)
    ensures Searchable(FinishDownSearch(p, now, cfg), cfg.resolveEpsilon)
  {
  }

  lemma ConfirmedFailKeepsSearchable(isPrivate: bool, p: PeerState, size: nat, now: nat, cfg: Tuning)
    requires IsSearching(p.phase)
    ensures Searchable(ConfirmedFail(isPrivate, p, size, now, cfg), cfg.resolveEpsilon)
  {
    hide EnterPlateau, FinishDownSearch, RaiseTarget, SoftDownLastGood;
    forall q: PeerState {
      PlateauIsSearchable(q, now, cfg);
    }
  }

  lemma GraceKeepsSearchable(isPrivate: bool, p: PeerState, now: nat, cfg: Tuning)
    requires WindowInv(isPrivate, p) && Searchable(p, cfg.resolveEpsilon)
    ensures Searchable(GraceStep(isPrivate, p, now, cfg), cfg.resolveEpsilon)
  {
    hide ConfirmedFail, RaiseTarget, WindowClosed;
    if GraceDue(p, now) {
      ConfirmedFailKeepsSearchable(isPrivate, p.(grace := None), p.grace.value.size, now, cfg);
    }
  }

  lemma TimeoutKeepsSearchable(isPrivate: bool, p: PeerState, now: nat, cfg: Tuning, id: u32)
    requires WindowInv(isPrivate, p) && Searchable(p, cfg.resolveEpsilon)
    ensures Searchable(TimeoutStep(isPrivate, p, now, cfg, id), cfg.resolveEpsilon)
  {
    hide ConfirmedFail, TimeoutFor, RaiseTarget, WindowClosed;
    if TimeoutDue(p, now) {
      ConfirmedFailKeepsSearchable(isPrivate, p.(inflight := None), p.inflight.value.size, now, cfg);
    }
  }

  lemma StartAndIssueKeepSearchable(p: PeerState, now: nat, cfg: Tuning, id: u32)
    requires Searchable(p, cfg.resolveEpsilon)
    ensures Searchable(StartStep(p, now, cfg), cfg.resolveEpsilon)
    ensures Searchable(IssueStep(p, now, cfg, id), cfg.resolveEpsilon)
  {
    hide EnterPlateau, FinishDownSearch, TimeoutFor, IssueSize, WindowClosed;
    PlateauIsSearchable(p, now, cfg);
  }

  lemma AckKeepsSearchable(p: PeerState, sz: nat, id: u32, gen: u32, now: nat, cfg: Tuning)
    requires Searchable(p, cfg.resolveEpsilon)
    ensures Searchable(AckStep(p, sz, id, gen, now, cfg), cfg.resolveEpsilon)
  {
    hide EnterPlateau, FinishDownSearch, RaiseTarget, WindowClosed;
    forall q: PeerState {
      PlateauIsSearchable(q, now, cfg);
    }
  }

  lemma TickKeepsSearchable(isPrivate: bool, p: PeerState, e: Event)
    requires e.Tick? && WindowInv(isPrivate, p) && Searchable(p, e.cfg.resolveEpsilon)
    ensures Searchable(BeforeStart(isPrivate, p, e), e.cfg.resolveEpsilon)
    ensures Searchable(BeforeIssue(isPrivate, p, e), e.cfg.resolveEpsilon)
    ensures Searchable(TickStep(isPrivate, p, e), e.cfg.resolveEpsilon)
  {
    hide GraceStep, TimeoutStep, StartStep, IssueStep, WantsProbe, WindowInv;
    TickKeepsWindow(isPrivate, p, e);
    GraceKeepsSearchable(isPrivate, BeforeGrace(isPrivate, p, e), e.now, e.cfg);
    TimeoutKeepsSearchable(isPrivate, BeforeTimeout(isPrivate, p, e), e.now, e.cfg, e.resendId);
    StartAndIssueKeepSearchable(BeforeStart(isPrivate, p, e), e.now, e.cfg, e.issueId);
    StartAndIssueKeepSearchable(BeforeIssue(isPrivate, p, e), e.now, e.cfg, e.issueId);
  }

  lemma StepKeepsSearchable(isPrivate: bool, p: PeerState, e: Event)
    requires WindowInv(isPrivate, p)
    requires Searchable(p, e.cfg.resolveEpsilon) || e.Retune? || e.Pin? || e.Unpin? || e.Seed?
    ensures Searchable(Step(isPrivate, p, e), e.cfg.resolveEpsilon)
  {
    hide TickStep, AckStep, ConfirmedFail, RaiseTarget, WindowClosed;
    match e
    case Tick(_, _, _, _, _, _, _) => TickKeepsSearchable(isPrivate, p, e);
    case Ack(now, cfg, size, id, gen) => AckKeepsSearchable(p, ClampSize(size), id, gen, now, cfg);
    case HardFail(now, cfg, id) =>
      if HardFailHits(p, id) {
        ConfirmedFailKeepsSearchable(isPrivate, p, p.inflight.value.size, now, cfg);
        ConfirmedFailKeepsSearchable(isPrivate, p.(inflight := None, grace := None, phase := Recheck), 0, now, cfg);
      }
    case _ =>
  }

  /** The time at which the next tick must do something for this peer. */
  function DueAt(p: PeerState): nat {
    if p.inflight.Some? then p.inflight.value.deadline
    else if p.grace.Some? then p.grace.value.deadline
    else if IsSearching(p.phase) then 0
    else p.nextRaiseAt
  }

  predicate Moved(p: PeerState, q: PeerState) {
    p.inflight != q.inflight || p.grace != q.grace || p.phase != q.phase
  }

  /** Only probe id 0, which 32-bit wrap-around alone can produce, wedges a peer. */
  predicate Wedged(p: PeerState) {
    p.inflight.Some? && p.inflight.value.probeId == 0
  }

  /** A searching peer that waits for nothing can always be probed: it sends, or it gives up its search. */
  lemma SearchingPeerIssues(isPrivate: bool, p: PeerState, now: nat, cfg: Tuning, id: u32)
    requires WindowInv(isPrivate, p) && Searchable(p, cfg.resolveEpsilon) && cfg.resolveEpsilon >= 1
    requires Idle(p) && IsSearching(p.phase)
    ensures WantsProbe(p)
    ensures var q := IssueStep(p, now, cfg, id);
            q.grace.None? && (if q.inflight.Some? then q.phase == p.phase else q.phase.Frozen? && p.probesUsed >= cfg.maxProbes)
  {
    hide TimeoutFor;
  }

  /** A failed probe never leaves the peer where it was. */
  lemma ConfirmedFailMoves(isPrivate: bool, p: PeerState, size: nat, now: nat, cfg: Tuning)
    requires Idle(p) && IsSearching(p.phase) && cfg.raisePeriod > 0
    ensures var q := ConfirmedFail(isPrivate, p, size, now, cfg);
            && Idle(q)
            && (q.phase.Plateau? || q.phase.Frozen? ==> q.nextRaiseAt > now)
            && (q.phase == p.phase ==> (q.phase.Binary? || q.phase.DownSearch?) && q.firstBad <= ClampSize(size))
            && (q.phase.Binary? || q.phase.DownSearch? || q.phase.Recheck? || q.phase.Plateau? || q.phase.Frozen?)
  {
    hide WindowClosed, EnterPlateau, FinishDownSearch, SoftDown;
    PlateauWaits(isPrivate, p, now, cfg);
    PlateauWaits(isPrivate, p.(inflight := None, firstBad := ClampSize(size), step := cfg.raiseStep, phase := Binary), now, cfg);
    PlateauWaits(isPrivate, p.(inflight := None, firstBad := Min(ClampSize(size), p.firstBad)), now, cfg);
  }

  predicate Waits(p: PeerState, now: nat) {
    Idle(p) && p.phase.Plateau? && p.nextRaiseAt > now
  }

  lemma PlateauWaits(isPrivate: bool, p: PeerState, now: nat, cfg: Tuning)
    requires cfg.raisePeriod > 0
    ensures Waits(EnterPlateau(p, now, cfg), now) && Waits(FinishDownSearch(p, now, cfg), now)
    ensures var q := SoftDown(isPrivate, p, now, cfg); Waits(q, now) || (Idle(q) && q.phase.DownSearch?)
  {
    hide WindowClosed, SoftDownLastGood;
  }

  lemma TimeoutMoves(isPrivate: bool, p: PeerState, now: nat, cfg: Tuning, id: u32)
    requires WindowInv(isPrivate, p) && TimeoutDue(p, now) && cfg.raisePeriod > 0
    ensures var q := TimeoutStep(isPrivate, p, now, cfg, id);
            && q.inflight != p.inflight
            && (q.phase.Plateau? || q.phase.Frozen? ==> q.nextRaiseAt > now)
            && (Idle(q) && q.phase == p.phase ==>
                  (q.phase.Binary? || q.phase.DownSearch?) && q.firstBad <= p.inflight.value.size)
            && (Idle(q) ==> !q.phase.Raise? && !q.phase.Revalidate?)
  {
    hide ConfirmedFail, TimeoutFor;
    ConfirmedFailMoves(isPrivate, p.(inflight := None), p.inflight.value.size, now, cfg);
  }

  /** Once the timeout stage has run, the rest of a tick cannot restore the probe it dropped. */
  lemma RestOfTickMoves(isPrivate: bool, p: PeerState, c: PeerState, now: nat, cfg: Tuning, id: u32)
    requires WindowInv(isPrivate, c) && Searchable(c, cfg.resolveEpsilon) && cfg.resolveEpsilon >= 1
    requires WindowInv(isPrivate, p) && p.inflight.Some? && c.inflight != p.inflight
    requires c.phase.Plateau? || c.phase.Frozen? ==> c.nextRaiseAt > now
    requires Idle(c) && c.phase == p.phase ==>
               (c.phase.Binary? || c.phase.DownSearch?) && c.firstBad <= p.inflight.value.size
    requires Idle(c) ==> !c.phase.Raise? && !c.phase.Revalidate?
    ensures StartStep(c, now, cfg) == c
    ensures WantsProbe(c) ==> Moved(p, IssueStep(c, now, cfg, id))
  {
    hide TimeoutFor, EnterPlateau, FinishDownSearch, RaiseTarget, WindowClosed;
    if Idle(c) && IsSearching(c.phase) {
      SearchingPeerIssues(isPrivate, c, now, cfg, id);
      if IssueSize(c, cfg).Some? {
        ProbeInsideWindow(c, cfg);
      }
    }
  }

  /** The tick gets to the peer if that wants to send a new probe. */
  predicate SlotGiven(isPrivate: bool, p: PeerState, e: Event)
    requires e.Tick?
  {
    e.tryIssue || !WantsProbe(BeforeIssue(isPrivate, p, e))
  }

  /** The peer waits for nothing but its turn to send a new probe. */
  predicate IdleSearcher(p: PeerState) {
    Idle(p) && IsSearching(p.phase)
  }

  /** A peer that got its turn does not wait for it any longer. */
  lemma SlotLeavesNoSearcher(isPrivate: bool, p: PeerState, e: Event)
    requires e.Tick? && SlotGiven(isPrivate, p, e) && e.cfg.resolveEpsilon >= 1
    requires WindowInv(isPrivate, p) && Searchable(p, e.cfg.resolveEpsilon)
    ensures !IdleSearcher(Step(isPrivate, p, e))
  {
    hide GraceStep, TimeoutStep, StartStep, IssueStep, WindowInv, WantsProbe, Searchable, BeforeIssue;
    var d := BeforeIssue(isPrivate, p, e);
    TickKeepsWindow(isPrivate, p, e);
    TickKeepsSearchable(isPrivate, p, e);
    if IdleSearcher(d) {
      SearchingPeerIssues(isPrivate, d, e.now, e.cfg, e.issueId);
    } else {
      OnlySearchersWant(d);
    }
  }

  lemma OnlySearchersWant(p: PeerState)
    ensures WantsProbe(p) ==> IdleSearcher(p)
  {
  }

  lemma ClampedResolution(cfg: Tuning)
    requires ClampedTuning(cfg)
    ensures cfg.resolveEpsilon >= 1
  {
  }

  /** A tick that finds the peer due moves it, unless its outstanding probe has id 0; such a peer is never moved by a tick.
      Only a peer that waits for its turn to send depends on getting it. */
  lemma DueTickMovesUnlessWedged(isPrivate: bool, p: PeerState, e: Event)
    requires e.Tick? && ClampedTuning(e.cfg) && (SlotGiven(isPrivate, p, e) || !IdleSearcher(p))
    requires WindowInv(isPrivate, p) && Searchable(p, e.cfg.resolveEpsilon)
    requires e.now >= DueAt(p)
    ensures Moved(p, Step(isPrivate, p, e)) <==> !Wedged(p)
  {
    hide ConfirmedFail, TimeoutStep, IssueStep, RaiseTarget, BinaryTarget, WindowClosed;
    TickKeepsWindow(isPrivate, p, e);
    TickKeepsSearchable(isPrivate, p, e);
    var a, b := BeforeGrace(isPrivate, p, e), BeforeTimeout(isPrivate, p, e);
    var c, d := BeforeStart(isPrivate, p, e), BeforeIssue(isPrivate, p, e);
    if GraceDue(a, e.now) {
      ConfirmedFailMoves(isPrivate, a.(grace := None), a.grace.value.size, e.now, e.cfg);
    }
    if TimeoutDue(b, e.now) {
      TimeoutMoves(isPrivate, b, e.now, e.cfg, e.resendId);
      RestOfTickMoves(isPrivate, b, c, e.now, e.cfg, e.issueId);
    } else {
      NoTimeout(isPrivate, b, e.now, e.cfg, e.resendId);
      if Idle(d) && IsSearching(d.phase) {
        SearchingPeerIssues(isPrivate, d, e.now, e.cfg, e.issueId);
      }
    }
  }

  lemma NoTimeout(isPrivate: bool, p: PeerState, now: nat, cfg: Tuning, id: u32)
    requires !TimeoutDue(p, now)
    ensures TimeoutStep(isPrivate, p, now, cfg, id) == p
  {
  }

  /** Acknowledgements, failures, hints and ticks can never free a wedged peer. */
  lemma {:induction false} WedgedForever(isPrivate: bool, p: PeerState, es: seq<Event>)
    requires WindowInv(isPrivate, p) && Wedged(p)
    requires forall e :: e in es ==> e.Tick? || e.Ack? || e.HardFail? || e.Hint? || e.EarlyWake?
    ensures var q := Run(isPrivate, p, es);
            WindowInv(isPrivate, q) && q.inflight == p.inflight && q.phase == p.phase
            && q.lastGood == p.lastGood && q.firstBad == p.firstBad && q.stable == p.stable
    decreases |es|
  {
    hide Step, WindowInv;
    if es != [] {
      var init, last := es[..|es| - 1], es[|es| - 1];
      assert last in es;
      WedgedForever(isPrivate, p, init);
      StepKeepsWindow(isPrivate, Run(isPrivate, p, init), last);
      WedgedStays(isPrivate, Run(isPrivate, p, init), last);
    }
  }

  lemma WedgedStays(isPrivate: bool, p: PeerState, e: Event)
    requires WindowInv(isPrivate, p) && Wedged(p)
    requires e.Tick? || e.Ack? || e.HardFail? || e.Hint? || e.EarlyWake?
    ensures var q := Step(isPrivate, p, e);
            q.inflight == p.inflight && q.phase == p.phase
            && q.lastGood == p.lastGood && q.firstBad == p.firstBad && q.stable == p.stable
  {
    hide ConfirmedFail, TimeoutFor, SoftDown, AckRaise, AckBinary, AckDownSearch;
  }

  /** A peer does get wedged, by a first probe with id 0. */
  lemma IdZeroWedges(isPrivate: bool, cfg: Tuning)
    requires ClampedTuning(cfg)
    ensures Wedged(StateOf(isPrivate, Life(0, cfg, [Tick(cfg.raisePeriod, cfg, -1.0, false, 0, true, 0)])))
  {
    var e := Tick(cfg.raisePeriod, cfg, -1.0, false, 0, true, 0);
    var p := Fresh(0, cfg);
    assert [e][..0] == [];
    assert Run(isPrivate, p, [e]) == Step(isPrivate, Run(isPrivate, p, []), e);
    var d := BeforeIssue(isPrivate, p, e);
    assert d.phase.Raise? && WantsProbe(d) && IssueSize(d, cfg) == RaiseTarget(d);
  }
}
