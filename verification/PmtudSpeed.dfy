/** How fast a peer's Binary search closes in on a fixed path MTU: every resolved probe halves the window (src/pmtud.rs). */
module PmtudSpeed {
  import opened Wrappers
  import opened PmtudPeer
  import opened PmtudProbes
  import opened PmtudWindow
  import opened PmtudConvergence

  /** A Binary probe tests the middle of the window. */
  predicate ProbesMiddle(p: PeerState) {
    p.phase.Binary? && p.inflight.Some? ==> BinaryTarget(p) == Some(p.inflight.value.size)
  }

  lemma GraceKeepsMiddle(isPrivate: bool, p: PeerState, now: nat, cfg: Tuning)
    requires WindowInv(isPrivate, p) && ProbesMiddle(p)
    ensures ProbesMiddle(GraceStep(isPrivate, p, now, cfg))
  {
    hide ConfirmedFail, BinaryTarget;
    if GraceDue(p, now) {
      FailIsIdle(isPrivate, p.(grace := None), p.grace.value.size, now, cfg);
    }
  }

  lemma TimeoutKeepsMiddle(isPrivate: bool, p: PeerState, now: nat, cfg: Tuning, id: u32)
    requires WindowInv(isPrivate, p) && ProbesMiddle(p)
    ensures ProbesMiddle(TimeoutStep(isPrivate, p, now, cfg, id))
  {
    hide ConfirmedFail, TimeoutFor;
    if TimeoutDue(p, now) {
      FailIsIdle(isPrivate, p.(inflight := None), p.inflight.value.size, now, cfg);
    }
  }

  lemma IssueKeepsMiddle(p: PeerState, now: nat, cfg: Tuning, id: u32)
    requires ProbesMiddle(p)
    ensures ProbesMiddle(StartStep(p, now, cfg)) && ProbesMiddle(IssueStep(p, now, cfg, id))
  {
    hide EnterPlateau, FinishDownSearch, TimeoutFor, RaiseTarget;
    PlateauIsIdle(p, now, cfg);
  }

  lemma TickKeepsMiddle(isPrivate: bool, p: PeerState, e: Event)
    requires e.Tick? && WindowInv(isPrivate, p) && ProbesMiddle(p)
    ensures ProbesMiddle(TickStep(isPrivate, p, e))
  {
    hide WindowInv, GraceStep, TimeoutStep, StartStep, IssueStep, WantsProbe;
    TickKeepsWindow(isPrivate, p, e);
    GraceKeepsMiddle(isPrivate, BeforeGrace(isPrivate, p, e), e.now, e.cfg);
    hide ProbesMiddle;
    TimeoutKeepsMiddle(isPrivate, BeforeTimeout(isPrivate, p, e), e.now, e.cfg, e.resendId);
    IssueKeepsMiddle(BeforeStart(isPrivate, p, e), e.now, e.cfg, e.issueId);
    IssueKeepsMiddle(BeforeIssue(isPrivate, p, e), e.now, e.cfg, e.issueId);
  }

  lemma StepKeepsMiddle(isPrivate: bool, p: PeerState, e: Event)
    requires WindowInv(isPrivate, p) && ProbesMiddle(p)
    ensures ProbesMiddle(Step(isPrivate, p, e))
  {
    hide TickStep, AckStep, HardFailStep;
    match e
    case Tick(_, _, _, _, _, _, _) => TickKeepsMiddle(isPrivate, p, e);
    case Ack(now, cfg, size, id, gen) => AckIsIdle(p, ClampSize(size), id, gen, now, cfg);
    case HardFail(now, cfg, id) => HardFailIsIdle(isPrivate, p, id, now, cfg);
    case _ =>
  }

  lemma {:induction false} EveryRunProbesMiddle(isPrivate: bool, l: Life)
    ensures ProbesMiddle(StateOf(isPrivate, l))
    decreases |l.events|
  {
    hide Step, WindowInv;
    if l.events != [] {
      var before := l.(events := l.events[..|l.events| - 1]);
      EveryRunProbesMiddle(isPrivate, before);
      EveryRunKeepsWindow(isPrivate, before);
      hide ProbesMiddle;
      StepKeepsMiddle(isPrivate, StateOf(isPrivate, before), l.events[|l.events| - 1]);
    }
  }

  // ---------- halving ----------

  /** Resolving a Binary probe leaves at most half of the sizes in question. */
  lemma BinaryHalves(isPrivate: bool, ceiling: nat, p: PeerState, e: Event)
    requires Brackets(isPrivate, ceiling, p) && Respects(isPrivate, ceiling, p, e) && ceiling <= MAX_MTU
    requires ProbesMiddle(p) && p.phase.Binary? && Resolves(isPrivate, p, e)
    ensures 2 * (Width(Step(isPrivate, p, e)) - 1) <= Width(p) - 1
  {
    hide TickStep, BeforeTimeout, AckStep, HardFailStep, TimeoutFails, WindowInv;
    match e
    case Tick(_, _, _, _, _, _, _) =>
      TickHalves(isPrivate, ceiling, p, e);
    case Ack(now, cfg, size, id, gen) =>
      MiddleSplits(isPrivate, ceiling, p);
      AckNarrows(isPrivate, ceiling, p, ClampSize(size), id, gen, now, cfg);
    case HardFail(now, cfg, id) =>
      MiddleSplits(isPrivate, ceiling, p);
      HardFailNarrows(isPrivate, ceiling, p, id, now, cfg);
    case _ =>
  }

  lemma MiddleSplits(isPrivate: bool, ceiling: nat, p: PeerState)
    requires Brackets(isPrivate, ceiling, p) && ProbesMiddle(p) && p.phase.Binary? && p.inflight.Some?
    ensures var mid := p.inflight.value.size;
            2 * (p.firstBad - mid - 1) <= Width(p) - 1 && 2 * (mid - p.lastGood - 1) <= Width(p) - 1
  {
  }

  lemma TickHalves(isPrivate: bool, ceiling: nat, p: PeerState, e: Event)
    requires e.Tick? && Brackets(isPrivate, ceiling, p) && Respects(isPrivate, ceiling, p, e)
    requires ProbesMiddle(p) && p.phase.Binary? && Resolves(isPrivate, p, e)
    ensures 2 * (Width(TickStep(isPrivate, p, e)) - 1) <= Width(p) - 1
  {
    hide GraceStep, TimeoutStep, StartStep, IssueStep, WantsProbe, ProbesMiddle, Brackets, TimeoutDue;
    TickNarrows(isPrivate, ceiling, p, e);
    var b, c, d := BeforeTimeout(isPrivate, p, e), BeforeStart(isPrivate, p, e), BeforeIssue(isPrivate, p, e);
    DueHasProbe(b, e.now);
    MiddleSplits(isPrivate, ceiling, p);
    InputKeepsBrackets(isPrivate, ceiling, p, e);
    TimeoutNarrows(isPrivate, ceiling, b, e.now, e.cfg, e.resendId);
    StartAndIssueNarrow(isPrivate, ceiling, c, e.now, e.cfg, e.issueId);
    StartAndIssueNarrow(isPrivate, ceiling, d, e.now, e.cfg, e.issueId);
  }

  lemma DueHasProbe(p: PeerState, now: nat)
    ensures TimeoutDue(p, now) ==> p.inflight.Some?
  {
  }

  lemma InputKeepsBrackets(isPrivate: bool, ceiling: nat, p: PeerState, e: Event)
    requires e.Tick? && Brackets(isPrivate, ceiling, p)
    ensures Brackets(isPrivate, ceiling, InputStep(p, e.rttMs, e.largeAlive))
  {
  }

  // ---------- a whole Binary search ----------

  /** The peer is in Binary before every event of the run. */
  predicate StaysBinary(isPrivate: bool, start: PeerState, es: seq<Event>) {
    forall i :: 0 <= i < |es| ==> Run(isPrivate, start, es[..i]).phase.Binary?
  }

  lemma PrefixStaysBinary(isPrivate: bool, start: PeerState, es: seq<Event>, n: nat)
    requires n <= |es| && StaysBinary(isPrivate, start, es)
    ensures StaysBinary(isPrivate, start, es[..n])
  {
    hide Run;
    assert forall i :: 0 <= i < n ==> es[..n][..i] == es[..i];
  }

  /** After k resolved probes of one Binary search at most a 2^k-th of the sizes in question is left. */
  lemma {:induction false} BinaryIsLogarithmic(isPrivate: bool, ceiling: nat, p: PeerState, es: seq<Event>)
    requires Brackets(isPrivate, ceiling, p) && ProbesMiddle(p) && ceiling <= MAX_MTU
    requires RunRespects(isPrivate, ceiling, p, es) && StaysBinary(isPrivate, p, es)
    ensures var q := Run(isPrivate, p, es);
            && Brackets(isPrivate, ceiling, q) && ProbesMiddle(q)
            && Pow2(TotalResolved(isPrivate, p, es)) * (Width(q) - 1) <= Width(p) - 1
    decreases |es|
  {
    hide Step, Respects, Resolves, Brackets, ProbesMiddle, Width;
    if es != [] {
      hide Pow2;
      var init, last := es[..|es| - 1], es[|es| - 1];
      PrefixRespects(isPrivate, ceiling, p, es, |es| - 1);
      PrefixStaysBinary(isPrivate, p, es, |es| - 1);
      BinaryIsLogarithmic(isPrivate, ceiling, p, init);
      BinaryStep(isPrivate, ceiling, Run(isPrivate, p, init), last);
      var r, q := Run(isPrivate, p, init), Run(isPrivate, p, es);
      if Resolves(isPrivate, r, last) {
        HalvingPays(TotalResolved(isPrivate, p, init), Width(r) - 1, Width(q) - 1);
      } else {
        NarrowingPays(TotalResolved(isPrivate, p, init), Width(r) - 1, Width(q) - 1);
      }
    }
  }

  lemma BinaryStep(isPrivate: bool, ceiling: nat, p: PeerState, e: Event)
    requires Brackets(isPrivate, ceiling, p) && Respects(isPrivate, ceiling, p, e) && ceiling <= MAX_MTU
    requires ProbesMiddle(p) && p.phase.Binary?
    ensures var q := Step(isPrivate, p, e);
            && Brackets(isPrivate, ceiling, q) && ProbesMiddle(q) && 1 <= Width(q) <= Width(p)
            && (Resolves(isPrivate, p, e) ==> 2 * (Width(q) - 1) <= Width(p) - 1)
  {
    hide Step, Respects, Resolves, ProbesMiddle;
    StepNarrows(isPrivate, ceiling, p, e);
    StepKeepsMiddle(isPrivate, p, e);
    if Resolves(isPrivate, p, e) {
      BinaryHalves(isPrivate, ceiling, p, e);
    }
  }

  lemma HalvingPays(k: nat, before: int, after: int)
    requires 2 * after <= before
    ensures Pow2(k + 1) * after <= Pow2(k) * before
  {
    assert Pow2(k) * (before - 2 * after) >= 0;
  }

  lemma NarrowingPays(k: nat, before: int, after: int)
    requires after <= before
    ensures Pow2(k) * after <= Pow2(k) * before
  {
    assert Pow2(k) * (before - after) >= 0;
  }

  /** Nine resolved probes of one Binary search find the path MTU exactly, whatever resolution was asked for. */
  lemma NineProbesSuffice(isPrivate: bool, ceiling: nat, p: PeerState, es: seq<Event>)
    requires Brackets(isPrivate, ceiling, p) && ProbesMiddle(p) && ceiling <= MAX_MTU
    requires RunRespects(isPrivate, ceiling, p, es) && StaysBinary(isPrivate, p, es)
    ensures TotalResolved(isPrivate, p, es) >= 9 ==> Run(isPrivate, p, es).lastGood == ceiling
  {
    hide Step, Respects, Resolves, ProbesMiddle;
    BinaryIsLogarithmic(isPrivate, ceiling, p, es);
    var k, q := TotalResolved(isPrivate, p, es), Run(isPrivate, p, es);
    if k >= 9 {
      Pow2Grows(9, k);
      assert Pow2(9) == 512;
      if Width(q) > 1 {
        NarrowingPays(k, Width(q) - 1, 1);
      }
    }
  }

  lemma {:induction false} Pow2Grows(a: nat, b: nat)
    requires a <= b
    ensures Pow2(a) <= Pow2(b)
    decreases b
  {
    if a < b {
      Pow2Grows(a, b - 1);
    }
  }
}
