/** Path-MTU discovery: lowering the stable size needs several soft-downs, and each of these has a cause (src/pmtud.rs). */
module PmtudHysteresis {
  import opened Wrappers
  import opened PmtudPeer
  import opened PmtudWindow

  function Count(b: bool): nat {
    if b then 1 else 0
  }

  /** Soft-downs caused by one event. */
  function SoftDowns(isPrivate: bool, p: PeerState, e: Event): nat {
    match e
    case Tick(now, _, _, _, _, _, _) =>
      var a := BeforeGrace(isPrivate, p, e);
      Count(GraceDue(a, now) && a.phase.Recheck?)
    case HardFail(_, _, id) => Count(HardFailHits(p, id) && (p.phase.Revalidate? || p.phase.Recheck?))
    case _ => 0
  }

  /** How often one event lowers `stable` other than by overwriting it (heal, pin, unpin, seed). */
  function Downgrades(isPrivate: bool, p: PeerState, e: Event): nat {
    match e
    case Tick(_, _, _, _, _, _, _) =>
      Count(BeforeTimeout(isPrivate, p, e).stable < BeforeGrace(isPrivate, p, e).stable) +
      Count(BeforeStart(isPrivate, p, e).stable < BeforeTimeout(isPrivate, p, e).stable) +
      Count(TickStep(isPrivate, p, e).stable < BeforeStart(isPrivate, p, e).stable)
    case Ack(_, _, _, _, _) => Count(Step(isPrivate, p, e).stable < p.stable)
    case HardFail(_, _, _) => Count(Step(isPrivate, p, e).stable < p.stable)
    case Retune(_, _) => Count(Step(isPrivate, p, e).stable < p.stable)
    case Hint(_, _) => Count(Step(isPrivate, p, e).stable < p.stable)
    case EarlyWake(_, _) => Count(Step(isPrivate, p, e).stable < p.stable)
    case _ => 0
  }

  function TotalSoftDowns(isPrivate: bool, start: PeerState, es: seq<Event>): nat {
    if es == [] then 0
    else
      var init := es[..|es| - 1];
      TotalSoftDowns(isPrivate, start, init) + SoftDowns(isPrivate, Run(isPrivate, start, init), es[|es| - 1])
  }

  function TotalDowngrades(isPrivate: bool, start: PeerState, es: seq<Event>): nat {
    if es == [] then 0
    else
      var init := es[..|es| - 1];
      TotalDowngrades(isPrivate, start, init) + Downgrades(isPrivate, Run(isPrivate, start, init), es[|es| - 1])
  }

  /** Soft-downs already paid for but not yet turned into a lower `stable`. */
  function Credit(p: PeerState): nat {
    p.lowerCampaigns + Count(p.downFromStable.Some?)
  }

  /** One stage `p -> q` that performed `soft` soft-downs stays within its credit. */
  predicate Pays(p: PeerState, q: PeerState, soft: nat, batches: nat) {
    && q.lowerCampaigns < batches
    && Credit(q) + (if q.stable < p.stable then batches else 0) <= Credit(p) + soft
  }

  lemma PlateauPays(p: PeerState, now: nat, cfg: Tuning)
    requires Bounded(p) && p.lowerCampaigns < cfg.downgradeBatches
    ensures Pays(p, EnterPlateau(p, now, cfg), 0, cfg.downgradeBatches)
    ensures Pays(p, FinishDownSearch(p, now, cfg), 0, cfg.downgradeBatches)
  {
  }

  lemma SoftDownPays(isPrivate: bool, p: PeerState, now: nat, cfg: Tuning)
    requires WindowInv(isPrivate, p) && IsSearching(p.phase) && p.lowerCampaigns < cfg.downgradeBatches
    ensures Pays(p, SoftDown(isPrivate, p, now, cfg), 1, cfg.downgradeBatches)
  {
  }

  lemma ConfirmedFailPays(isPrivate: bool, p: PeerState, size: nat, now: nat, cfg: Tuning)
    requires WindowInv(isPrivate, p) && IsSearching(p.phase) && p.lowerCampaigns < cfg.downgradeBatches
    requires !(p.phase.Revalidate? || p.phase.Recheck?) ==> p.lastGood < size < p.firstBad
    ensures Pays(p, ConfirmedFail(isPrivate, p, size, now, cfg), Count(p.phase.Recheck?), cfg.downgradeBatches)
  {
    hide EnterPlateau, FinishDownSearch, SoftDown;
    match p.phase
    case Recheck => SoftDownPays(isPrivate, p, now, cfg);
    case Raise =>
      PlateauPays(p.(inflight := None, firstBad := size, step := cfg.raiseStep, phase := Binary), now, cfg);
    case Binary => PlateauPays(p.(inflight := None, firstBad := size), now, cfg);
    case DownSearch => PlateauPays(p.(inflight := None, firstBad := size), now, cfg);
    case _ =>
  }

  lemma TimeoutPays(isPrivate: bool, p: PeerState, now: nat, cfg: Tuning, id: u32)
    requires WindowInv(isPrivate, p) && p.lowerCampaigns < cfg.downgradeBatches
    ensures Pays(p, TimeoutStep(isPrivate, p, now, cfg, id), 0, cfg.downgradeBatches)
  {
    hide ConfirmedFail, TimeoutFor;
    if TimeoutDue(p, now) {
      ConfirmedFailPays(isPrivate, p.(inflight := None), p.inflight.value.size, now, cfg);
    }
  }

  lemma StartAndIssuePay(isPrivate: bool, p: PeerState, now: nat, cfg: Tuning, id: u32)
    requires WindowInv(isPrivate, p) && p.lowerCampaigns < cfg.downgradeBatches
    ensures StartStep(p, now, cfg).stable == p.stable
    ensures Pays(p, StartStep(p, now, cfg), 0, cfg.downgradeBatches)
    ensures Pays(p, IssueStep(p, now, cfg, id), 0, cfg.downgradeBatches)
  {
    hide EnterPlateau, FinishDownSearch, TimeoutFor, IssueSize, RaiseTarget;
    PlateauPays(p, now, cfg);
  }

  lemma GracePays(isPrivate: bool, p: PeerState, now: nat, cfg: Tuning)
    requires WindowInv(isPrivate, p) && p.lowerCampaigns < cfg.downgradeBatches
    ensures Pays(p, GraceStep(isPrivate, p, now, cfg), Count(GraceDue(p, now) && p.phase.Recheck?), cfg.downgradeBatches)
  {
    hide ConfirmedFail;
    if GraceDue(p, now) {
      ConfirmedFailPays(isPrivate, p.(grace := None), p.grace.value.size, now, cfg);
    }
  }

  lemma TickPays(isPrivate: bool, p: PeerState, e: Event)
    requires e.Tick? && WindowInv(isPrivate, p) && p.lowerCampaigns < e.cfg.downgradeBatches
    ensures Step(isPrivate, p, e).lowerCampaigns < e.cfg.downgradeBatches
    ensures Credit(Step(isPrivate, p, e)) + e.cfg.downgradeBatches * Downgrades(isPrivate, p, e)
            <= Credit(p) + SoftDowns(isPrivate, p, e)
  {
    hide GraceStep, TimeoutStep, StartStep, IssueStep, WantsProbe, WindowInv;
    TickKeepsWindow(isPrivate, p, e);
    var a := BeforeGrace(isPrivate, p, e);
    var b := BeforeTimeout(isPrivate, p, e);
    var c := BeforeStart(isPrivate, p, e);
    var d := BeforeIssue(isPrivate, p, e);
    assert a.lowerCampaigns < e.cfg.downgradeBatches && Credit(a) <= Credit(p);
    GracePays(isPrivate, a, e.now, e.cfg);
    TimeoutPays(isPrivate, b, e.now, e.cfg, e.resendId);
    StartAndIssuePay(isPrivate, c, e.now, e.cfg, e.issueId);
    StartAndIssuePay(isPrivate, d, e.now, e.cfg, e.issueId);
    var x := Count(b.stable < a.stable);
    var y := Count(c.stable < b.stable);
    var z := Count(TickStep(isPrivate, p, e).stable < c.stable);
    var n := e.cfg.downgradeBatches;
    assert n * (x + y + z) == n * x + n * y + n * z;
  }

  lemma AckRaisePays(p: PeerState, sz: nat, now: nat, cfg: Tuning)
    requires Bounded(p) && p.lastGood < sz < p.firstBad && p.lowerCampaigns < cfg.downgradeBatches
    ensures Pays(p, AckRaise(p, sz, now, cfg), 0, cfg.downgradeBatches)
  {
    hide EnterPlateau, RaiseTarget;
    var q := LiftStable(p.(lastGood := sz)).(step := Max(p.step * 2, cfg.raiseStep));
    PlateauPays(q, now, cfg);
    PlateauPays(q.(firstBad := FIRST_BAD_SENTINEL), now, cfg);
  }

  lemma AckSearchPays(p: PeerState, sz: nat, now: nat, cfg: Tuning)
    requires Bounded(p) && p.lastGood < sz < p.firstBad && p.lowerCampaigns < cfg.downgradeBatches
    ensures Pays(p, AckBinary(p, sz, now, cfg), 0, cfg.downgradeBatches)
    ensures p.firstBad <= p.stable + 1 ==> Pays(p, AckDownSearch(p, sz, now, cfg), 0, cfg.downgradeBatches)
  {
    hide EnterPlateau, FinishDownSearch;
    PlateauPays(LiftStable(p.(lastGood := sz)), now, cfg);
    if p.firstBad <= p.stable + 1 {
      PlateauPays(p.(lastGood := sz, downsearchGotAck := true), now, cfg);
    }
  }

  lemma AckPays(isPrivate: bool, p: PeerState, sz: nat, id: u32, gen: u32, now: nat, cfg: Tuning)
    requires WindowInv(isPrivate, p) && p.lowerCampaigns < cfg.downgradeBatches
    ensures Pays(p, AckStep(p, sz, id, gen, now, cfg), 0, cfg.downgradeBatches)
  {
    hide EnterPlateau, AckRaise, AckBinary, AckDownSearch;
    var q := p.(inflight := None, grace := None, everAcked := true);
    PlateauPays(q, now, cfg);
    PlateauPays(p.(grace := None, everAcked := true), now, cfg);
    if MatchesInflight(p, sz, id, gen) && (p.phase.Raise? || p.phase.Binary? || p.phase.DownSearch?) {
      AckRaisePays(q, sz, now, cfg);
      AckSearchPays(q, sz, now, cfg);
    }
  }

  lemma HardFailPays(isPrivate: bool, p: PeerState, id: u32, now: nat, cfg: Tuning)
    requires WindowInv(isPrivate, p) && p.lowerCampaigns < cfg.downgradeBatches
    ensures Pays(p, HardFailStep(isPrivate, p, id, now, cfg),
                 Count(HardFailHits(p, id) && (p.phase.Revalidate? || p.phase.Recheck?)), cfg.downgradeBatches)
  {
    hide SoftDown, ConfirmedFail;
    if HardFailHits(p, id) {
      if p.phase.Revalidate? || p.phase.Recheck? {
        SoftDownPays(isPrivate, p.(inflight := None, grace := None), now, cfg);
      } else {
        ConfirmedFailPays(isPrivate, p, p.inflight.value.size, now, cfg);
      }
    }
  }

  lemma OtherEventsPay(isPrivate: bool, p: PeerState, e: Event)
    requires !e.Tick? && WindowInv(isPrivate, p) && p.lowerCampaigns < e.cfg.downgradeBatches
    ensures e.Pin? || e.Unpin? || e.Seed? || Pays(p, Step(isPrivate, p, e), SoftDowns(isPrivate, p, e), e.cfg.downgradeBatches)
    ensures Step(isPrivate, p, e).lowerCampaigns < e.cfg.downgradeBatches
    ensures e.Pin? || e.Unpin? || e.Seed? ==> Credit(Step(isPrivate, p, e)) <= Credit(p)
  {
    hide TickStep, AckStep, HardFailStep, BeforeGrace, GraceDue, WindowInv;
    match e
    case Ack(now, cfg, size, id, gen) => AckPays(isPrivate, p, ClampSize(size), id, gen, now, cfg);
    case HardFail(now, cfg, id) => HardFailPays(isPrivate, p, id, now, cfg);
    case _ =>
  }

  lemma StepPays(isPrivate: bool, p: PeerState, e: Event)
    requires WindowInv(isPrivate, p) && p.lowerCampaigns < e.cfg.downgradeBatches
    ensures Step(isPrivate, p, e).lowerCampaigns < e.cfg.downgradeBatches
    ensures Credit(Step(isPrivate, p, e)) + e.cfg.downgradeBatches * Downgrades(isPrivate, p, e)
            <= Credit(p) + SoftDowns(isPrivate, p, e)
  {
    hide Step, SoftDowns, Credit, BeforeGrace, BeforeTimeout, BeforeStart, TickStep, WindowInv;
    if e.Tick? {
      TickPays(isPrivate, p, e);
    } else {
      OtherEventsPay(isPrivate, p, e);
      assert Downgrades(isPrivate, p, e) == 0 || Downgrades(isPrivate, p, e) == 1;
    }
  }

  /** Lowering `stable` once takes `batches` soft-downs, over any history. */
  lemma {:induction false} DowngradesNeedSoftDowns(isPrivate: bool, l: Life, batches: nat)
    requires batches >= 1
    requires forall e :: e in l.events ==> e.cfg.downgradeBatches == batches
    ensures StateOf(isPrivate, l).lowerCampaigns < batches
    ensures var start := Fresh(l.bornAt, l.bornCfg);
            batches * TotalDowngrades(isPrivate, start, l.events) + Credit(StateOf(isPrivate, l))
            <= TotalSoftDowns(isPrivate, start, l.events)
    decreases |l.events|
  {
    hide Step, Downgrades, SoftDowns, WindowInv;
    if l.events != [] {
      hide Credit;
      var before := l.(events := l.events[..|l.events| - 1]);
      var e := l.events[|l.events| - 1];
      assert e in l.events;
      var start, init := Fresh(l.bornAt, l.bornCfg), before.events;
      DowngradesNeedSoftDowns(isPrivate, before, batches);
      EveryRunKeepsWindow(isPrivate, before);
      StepPays(isPrivate, StateOf(isPrivate, before), e);
      PaymentsAdd(batches, TotalDowngrades(isPrivate, start, init), Downgrades(isPrivate, StateOf(isPrivate, before), e),
                  Credit(StateOf(isPrivate, before)), Credit(StateOf(isPrivate, l)),
                  TotalSoftDowns(isPrivate, start, init), SoftDowns(isPrivate, StateOf(isPrivate, before), e));
    }
  }

  lemma PaymentsAdd(batches: nat, earlier: nat, last: nat, credit: nat, credit': nat, soft: nat, soft': nat)
    requires batches * earlier + credit <= soft && credit' + batches * last <= credit + soft'
    ensures batches * (earlier + last) + credit' <= soft + soft'
  {
    assert batches * (earlier + last) == batches * earlier + batches * last;
  }

  /** The event is a tick that turns a failed revalidation into a recheck. */
  predicate RevalidationFails(isPrivate: bool, p: PeerState, e: Event) {
    e.Tick? &&
    var a := BeforeGrace(isPrivate, p, e);
    a.phase.Revalidate? && GraceDue(a, e.now) && !a.largeAlive
  }

  lemma PlateauIsPlateau(p: PeerState, now: nat, cfg: Tuning)
    ensures EnterPlateau(p, now, cfg).phase.Plateau? && FinishDownSearch(p, now, cfg).phase.Plateau?
  {
  }

  lemma SoftDownPhase(isPrivate: bool, p: PeerState, now: nat, cfg: Tuning)
    ensures SoftDown(isPrivate, p, now, cfg).phase.DownSearch? || SoftDown(isPrivate, p, now, cfg).phase.Plateau?
  {
  }

  lemma ConfirmedFailEntersRecheck(isPrivate: bool, p: PeerState, size: nat, now: nat, cfg: Tuning)
    ensures ConfirmedFail(isPrivate, p, size, now, cfg).phase.Recheck? ==> p.phase.Revalidate? && !p.largeAlive
  {
    hide EnterPlateau, FinishDownSearch, SoftDown, WindowClosed;
    SoftDownPhase(isPrivate, p, now, cfg);
    PlateauIsPlateau(p.(inflight := None, firstBad := ClampSize(size), step := cfg.raiseStep, phase := Binary), now, cfg);
    PlateauIsPlateau(p.(inflight := None, firstBad := Min(ClampSize(size), p.firstBad)), now, cfg);
  }

  lemma TimeoutEntersRecheck(isPrivate: bool, p: PeerState, now: nat, cfg: Tuning, id: u32)
    ensures TimeoutStep(isPrivate, p, now, cfg, id).phase.Recheck? ==> p.phase.Recheck?
  {
    hide ConfirmedFail, TimeoutFor;
    if TimeoutDue(p, now) {
      ConfirmedFailEntersRecheck(isPrivate, p.(inflight := None), p.inflight.value.size, now, cfg);
    }
  }

  lemma StartAndIssueEnterRecheck(p: PeerState, now: nat, cfg: Tuning, id: u32)
    ensures StartStep(p, now, cfg).phase.Recheck? ==> p.phase.Recheck?
    ensures IssueStep(p, now, cfg, id).phase.Recheck? ==> p.phase.Recheck?
  {
    hide EnterPlateau, FinishDownSearch, TimeoutFor, RaiseTarget, IssueSize, WindowClosed;
    PlateauIsPlateau(p, now, cfg);
  }

  lemma TickEntersRecheck(isPrivate: bool, p: PeerState, e: Event)
    requires e.Tick? && Step(isPrivate, p, e).phase.Recheck? && !p.phase.Recheck?
    ensures RevalidationFails(isPrivate, p, e)
  {
    hide ConfirmedFail, TimeoutStep, StartStep, IssueStep, WantsProbe;
    var a := BeforeGrace(isPrivate, p, e);
    StartAndIssueEnterRecheck(BeforeIssue(isPrivate, p, e), e.now, e.cfg, e.issueId);
    StartAndIssueEnterRecheck(BeforeStart(isPrivate, p, e), e.now, e.cfg, e.issueId);
    TimeoutEntersRecheck(isPrivate, BeforeTimeout(isPrivate, p, e), e.now, e.cfg, e.resendId);
    if GraceDue(a, e.now) {
      ConfirmedFailEntersRecheck(isPrivate, a.(grace := None), a.grace.value.size, e.now, e.cfg);
    }
  }

  lemma AckLeavesRecheck(p: PeerState, sz: nat, id: u32, gen: u32, now: nat, cfg: Tuning)
    ensures AckStep(p, sz, id, gen, now, cfg).phase.Recheck? ==> p.phase.Recheck?
  {
    hide RaiseTarget, WindowClosed, EnterPlateau, FinishDownSearch;
    forall q: PeerState {
      PlateauIsPlateau(q, now, cfg);
    }
  }

  lemma OnlyFailedRevalidationEntersRecheck(isPrivate: bool, p: PeerState, e: Event)
    requires Step(isPrivate, p, e).phase.Recheck?
    ensures p.phase.Recheck? || RevalidationFails(isPrivate, p, e)
  {
    hide TickStep, AckStep, ConfirmedFail, SoftDown, RevalidationFails, WindowClosed;
    match e
    case Tick(_, _, _, _, _, _, _) =>
      if !p.phase.Recheck? {
        TickEntersRecheck(isPrivate, p, e);
      }
    case Ack(now, cfg, size, id, gen) => AckLeavesRecheck(p, ClampSize(size), id, gen, now, cfg);
    case HardFail(now, cfg, id) =>
      if HardFailHits(p, id) {
        SoftDownPhase(isPrivate, p.(inflight := None, grace := None), now, cfg);
        ConfirmedFailEntersRecheck(isPrivate, p, p.inflight.value.size, now, cfg);
      }
    case _ =>
  }

  /** A soft-down is either a hard local send failure, or the failure of a recheck that a failed
      revalidation started and that nothing interrupted. */
  lemma {:induction false} SoftDownHasCause(isPrivate: bool, start: PeerState, es: seq<Event>, e: Event)
    requires !start.phase.Recheck?
    requires SoftDowns(isPrivate, Run(isPrivate, start, es), e) > 0
    ensures e.HardFail? || exists j :: 0 <= j < |es| && RecheckSince(isPrivate, start, es, j)
  {
    if !e.HardFail? {
      var j := RecheckHasCause(isPrivate, start, es);
    }
  }

  /** Event `j` failed the revalidation, and the peer has been rechecking ever since. */
  predicate RecheckSince(isPrivate: bool, start: PeerState, es: seq<Event>, j: nat)
    requires j < |es|
  {
    && RevalidationFails(isPrivate, Run(isPrivate, start, es[..j]), es[j])
    && forall k {:trigger es[..k]} :: j < k <= |es| ==> Run(isPrivate, start, es[..k]).phase.Recheck?
  }

  lemma {:induction false} RecheckHasCause(isPrivate: bool, start: PeerState, es: seq<Event>) returns (j: nat)
    requires !start.phase.Recheck?
    requires Run(isPrivate, start, es).phase.Recheck?
    ensures j < |es| && RecheckSince(isPrivate, start, es, j)
  {
    var init, last := es[..|es| - 1], es[|es| - 1];
    assert es[..|es|] == es;
    OnlyFailedRevalidationEntersRecheck(isPrivate, Run(isPrivate, start, init), last);
    if Run(isPrivate, start, init).phase.Recheck? {
      j := RecheckHasCause(isPrivate, start, init);
      assert init[..j] == es[..j];
      assert forall k :: 0 <= k <= |init| ==> init[..k] == es[..k];
    } else {
      j := |init|;
    }
  }

  // ---------- a down-search that heard nothing proves nothing ----------

  /** Still searching downwards unheard, or stopped with the whole range open again. */
  predicate Unheard(p: PeerState) {
    || (p.phase.DownSearch? && !p.downsearchGotAck)
    || p.phase.Frozen?
    || (p.phase.Plateau? && p.firstBad == FIRST_BAD_SENTINEL)
  }

  lemma FinishReopens(p: PeerState, now: nat, cfg: Tuning)
    requires !p.downsearchGotAck
    ensures FinishDownSearch(p, now, cfg).phase.Plateau? && FinishDownSearch(p, now, cfg).firstBad == FIRST_BAD_SENTINEL
  {
  }

  lemma FailStaysUnheard(isPrivate: bool, p: PeerState, size: nat, now: nat, cfg: Tuning)
    requires Unheard(p)
    ensures Unheard(ConfirmedFail(isPrivate, p, size, now, cfg))
  {
    hide WindowClosed, FinishDownSearch, EnterPlateau;
    if p.phase.DownSearch? {
      FinishReopens(p.(inflight := None, firstBad := Min(ClampSize(size), p.firstBad)), now, cfg);
    }
  }

  lemma StagesStayUnheard(isPrivate: bool, p: PeerState, now: nat, cfg: Tuning, id: u32)
    requires Unheard(p)
    ensures Unheard(GraceStep(isPrivate, p, now, cfg))
    ensures WindowInv(isPrivate, p) ==> Unheard(TimeoutStep(isPrivate, p, now, cfg, id))
  {
    hide ConfirmedFail, TimeoutFor;
    if GraceDue(p, now) {
      FailStaysUnheard(isPrivate, p.(grace := None), p.grace.value.size, now, cfg);
    }
    if TimeoutDue(p, now) {
      FailStaysUnheard(isPrivate, p.(inflight := None), p.inflight.value.size, now, cfg);
    }
  }

  lemma LastStagesReopen(p: PeerState, now: nat, cfg: Tuning, id: u32)
    requires Unheard(p) || p.phase.Raise? || p.phase.Revalidate?
    ensures var q := StartStep(p, now, cfg); Unheard(q) || q.phase.Raise? || q.phase.Revalidate?
    ensures var q := IssueStep(p, now, cfg, id); q.phase.Plateau? ==> q.firstBad == FIRST_BAD_SENTINEL
  {
    hide WindowClosed, TimeoutFor, RaiseTarget, BinaryTarget, FinishDownSearch, EnterPlateau, IssueSize;
    if p.phase.DownSearch? {
      FinishReopens(p, now, cfg);
    }
  }

  /** If a down-search ends without having heard a single acknowledgement, the failed sizes are forgotten: the next search may
      raise up to the maximum again. */
  lemma UnheardDownSearchReopens(isPrivate: bool, p: PeerState, e: Event)
    requires WindowInv(isPrivate, p) && p.phase.DownSearch? && !p.downsearchGotAck && (e.Tick? || e.HardFail?)
    requires Step(isPrivate, p, e).phase.Plateau?
    ensures Step(isPrivate, p, e).firstBad == FIRST_BAD_SENTINEL
  {
    if e.Tick? {
      hide WindowInv, GraceStep, TimeoutStep, StartStep, IssueStep, WantsProbe;
      TickKeepsWindow(isPrivate, p, e);
      var a, b := BeforeGrace(isPrivate, p, e), BeforeTimeout(isPrivate, p, e);
      assert Unheard(a);
      StagesStayUnheard(isPrivate, a, e.now, e.cfg, e.resendId);
      StagesStayUnheard(isPrivate, b, e.now, e.cfg, e.resendId);
      LastStagesReopen(BeforeStart(isPrivate, p, e), e.now, e.cfg, e.issueId);
      LastStagesReopen(BeforeIssue(isPrivate, p, e), e.now, e.cfg, e.issueId);
    } else if HardFailHits(p, e.id) {
      hide ConfirmedFail, SoftDown, WindowInv;
      FailStaysUnheard(isPrivate, p, p.inflight.value.size, e.now, e.cfg);
    }
  }
}
