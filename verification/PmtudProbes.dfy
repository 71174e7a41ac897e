/** Path-MTU discovery: an acknowledgement counts only for the probe that was sent last (src/pmtud.rs). */
module PmtudProbes {
  import opened Wrappers
  import opened PmtudPeer
  import opened PmtudWindow

  datatype Sent = Sent(id: u32, size: nat, gen: u32)

  /** The tick sends a probe: an unanswered one again, or a new one. */
  predicate Sends(isPrivate: bool, p: PeerState, e: Event) {
    e.Tick? &&
    var b, d := BeforeTimeout(isPrivate, p, e), BeforeIssue(isPrivate, p, e);
    Resends(b, e.now, e.cfg) || (e.tryIssue && WantsProbe(d) && IssueSize(d, e.cfg).Some?)
  }

  /** The probe in flight, or in its grace period, is the one that was sent last, in the present search. */
  predicate Recorded(p: PeerState, last: Option<Sent>) {
    && (p.inflight.Some? ==> last == Some(Sent(p.inflight.value.probeId, p.inflight.value.size, p.searchGen)))
    && (p.grace.Some? ==>
          last == Some(Sent(p.grace.value.probeId, p.grace.value.size, p.grace.value.searchGen))
          && p.grace.value.searchGen == p.searchGen)
  }

  function Noted(isPrivate: bool, p: PeerState, e: Event, last: Option<Sent>): Option<Sent> {
    var q := Step(isPrivate, p, e);
    if Sends(isPrivate, p, e) && q.inflight.Some?
    then Some(Sent(q.inflight.value.probeId, q.inflight.value.size, q.searchGen)) else last
  }

  /** The probe that was sent last over a whole history. */
  function LastSent(isPrivate: bool, start: PeerState, es: seq<Event>): Option<Sent> {
    if es == [] then None
    else
      var init := es[..|es| - 1];
      Noted(isPrivate, Run(isPrivate, start, init), es[|es| - 1], LastSent(isPrivate, start, init))
  }

  // ---------- each stage keeps the record ----------

  lemma PlateauIsIdle(p: PeerState, now: nat, cfg: Tuning)
    ensures Idle(EnterPlateau(p, now, cfg)) && Idle(FinishDownSearch(p, now, cfg))
  {
  }

  lemma CloseIsIdle(p: PeerState, now: nat, cfg: Tuning)
    requires Idle(p)
    ensures Idle(CloseOrFreeze(p, now, cfg))
  {
    hide EnterPlateau, FinishDownSearch, WindowClosed;
    PlateauIsIdle(p, now, cfg);
  }

  lemma SoftDownIsIdle(isPrivate: bool, p: PeerState, now: nat, cfg: Tuning)
    ensures Idle(SoftDown(isPrivate, p, now, cfg))
  {
    hide WindowClosed, SoftDownLastGood;
  }

  lemma FailIsIdle(isPrivate: bool, p: PeerState, size: nat, now: nat, cfg: Tuning)
    requires p.grace.None?
    ensures var q := ConfirmedFail(isPrivate, p, size, now, cfg); q == p || Idle(q)
  {
    hide CloseOrFreeze, SoftDown;
    SoftDownIsIdle(isPrivate, p, now, cfg);
    CloseIsIdle(p.(inflight := None, firstBad := ClampSize(size), step := cfg.raiseStep, phase := Binary), now, cfg);
    CloseIsIdle(p.(inflight := None, firstBad := Min(ClampSize(size), p.firstBad)), now, cfg);
  }

  lemma GraceKeepsRecord(isPrivate: bool, p: PeerState, now: nat, cfg: Tuning, last: Option<Sent>)
    requires WindowInv(isPrivate, p) && Recorded(p, last)
    ensures Recorded(GraceStep(isPrivate, p, now, cfg), last)
  {
    hide ConfirmedFail;
    if GraceDue(p, now) {
      FailIsIdle(isPrivate, p.(grace := None), p.grace.value.size, now, cfg);
    }
  }

  lemma TimeoutKeepsRecord(isPrivate: bool, p: PeerState, now: nat, cfg: Tuning, id: u32, last: Option<Sent>)
    requires WindowInv(isPrivate, p) && Recorded(p, last)
    ensures var q := TimeoutStep(isPrivate, p, now, cfg, id);
            if Resends(p, now, cfg) then q.inflight.Some? && q.grace.None? else Recorded(q, last)
  {
    hide ConfirmedFail, TimeoutFor;
    if TimeoutDue(p, now) {
      FailIsIdle(isPrivate, p.(inflight := None), p.inflight.value.size, now, cfg);
    }
  }

  lemma StartKeepsRecord(p: PeerState, now: nat, cfg: Tuning, last: Option<Sent>)
    requires Recorded(p, last)
    ensures Recorded(StartStep(p, now, cfg), last)
    ensures p.inflight.Some? ==> StartStep(p, now, cfg) == p && !WantsProbe(p)
  {
    hide RaiseTarget;
  }

  lemma IssueKeepsRecord(p: PeerState, now: nat, cfg: Tuning, id: u32, last: Option<Sent>)
    requires Recorded(p, last)
    ensures var q := IssueStep(p, now, cfg, id);
            if IssueSize(p, cfg).Some? then q.inflight.Some? && q.grace.None? else Recorded(q, last)
  {
    hide EnterPlateau, FinishDownSearch, TimeoutFor, RaiseTarget, BinaryTarget;
    PlateauIsIdle(p, now, cfg);
  }

  lemma HealKeepsRecord(isPrivate: bool, p: PeerState, e: Event, last: Option<Sent>)
    requires e.Tick? && Recorded(p, last)
    ensures Recorded(BeforeGrace(isPrivate, p, e), last)
  {
  }

  lemma TickKeepsRecord(isPrivate: bool, p: PeerState, e: Event, last: Option<Sent>)
    requires e.Tick? && WindowInv(isPrivate, p) && Recorded(p, last)
    ensures Recorded(Step(isPrivate, p, e), Noted(isPrivate, p, e, last))
    ensures Sends(isPrivate, p, e) ==> Step(isPrivate, p, e).inflight.Some?
  {
    hide WindowInv, Heal, GraceStep, TimeoutStep, StartStep, IssueStep, WantsProbe, Resends, IssueSize;
    TickKeepsWindow(isPrivate, p, e);
    var a, b := BeforeGrace(isPrivate, p, e), BeforeTimeout(isPrivate, p, e);
    var c, d := BeforeStart(isPrivate, p, e), BeforeIssue(isPrivate, p, e);
    HealKeepsRecord(isPrivate, p, e, last);
    GraceKeepsRecord(isPrivate, a, e.now, e.cfg, last);
    TimeoutKeepsRecord(isPrivate, b, e.now, e.cfg, e.resendId, last);
    if Resends(b, e.now, e.cfg) {
      StartKeepsRecord(c, e.now, e.cfg, Some(Sent(c.inflight.value.probeId, c.inflight.value.size, c.searchGen)));
    } else {
      StartKeepsRecord(c, e.now, e.cfg, last);
      IssueKeepsRecord(d, e.now, e.cfg, e.issueId, last);
    }
  }

  lemma SearchAckIsIdle(p: PeerState, sz: nat, now: nat, cfg: Tuning)
    requires Idle(p)
    ensures Idle(AckRaise(p, sz, now, cfg)) && Idle(AckBinary(p, sz, now, cfg)) && Idle(AckDownSearch(p, sz, now, cfg))
  {
    hide RaiseTarget, WindowClosed, EnterPlateau, FinishDownSearch;
    var r := LiftStable(p.(lastGood := sz)).(step := Max(p.step * 2, cfg.raiseStep));
    PlateauIsIdle(r, now, cfg);
    PlateauIsIdle(r.(firstBad := FIRST_BAD_SENTINEL), now, cfg);
    PlateauIsIdle(LiftStable(p.(lastGood := Max(sz, p.lastGood))), now, cfg);
    PlateauIsIdle(p.(lastGood := Max(sz, p.lastGood), downsearchGotAck := true), now, cfg);
  }

  lemma AckIsIdle(p: PeerState, sz: nat, id: u32, gen: u32, now: nat, cfg: Tuning)
    ensures AckStep(p, sz, id, gen, now, cfg) == p || Idle(AckStep(p, sz, id, gen, now, cfg))
  {
    hide AckRaise, AckBinary, AckDownSearch, EnterPlateau;
    var q := p.(inflight := None, grace := None, everAcked := true);
    SearchAckIsIdle(q, sz, now, cfg);
    PlateauIsIdle(q, now, cfg);
    PlateauIsIdle(p.(grace := None, everAcked := true), now, cfg);
  }

  lemma HardFailIsIdle(isPrivate: bool, p: PeerState, id: u32, now: nat, cfg: Tuning)
    requires WindowInv(isPrivate, p)
    ensures HardFailStep(isPrivate, p, id, now, cfg) == p || Idle(HardFailStep(isPrivate, p, id, now, cfg))
  {
    hide ConfirmedFail, SoftDown;
    SoftDownIsIdle(isPrivate, p.(inflight := None, grace := None), now, cfg);
    if HardFailHits(p, id) {
      FailIsIdle(isPrivate, p, p.inflight.value.size, now, cfg);
    }
  }

  lemma StepKeepsRecord(isPrivate: bool, p: PeerState, e: Event, last: Option<Sent>)
    requires WindowInv(isPrivate, p) && Recorded(p, last)
    ensures Recorded(Step(isPrivate, p, e), Noted(isPrivate, p, e, last))
  {
    hide WindowInv, TickStep, AckStep, HardFailStep, BeforeTimeout, BeforeIssue;
    match e
    case Tick(_, _, _, _, _, _, _) => TickKeepsRecord(isPrivate, p, e, last);
    case Ack(now, cfg, size, id, gen) => AckIsIdle(p, ClampSize(size), id, gen, now, cfg);
    case HardFail(now, cfg, id) => HardFailIsIdle(isPrivate, p, id, now, cfg);
    case _ =>
  }

  // ---------- over a whole history ----------

  lemma {:induction false} EveryRunKeepsRecord(isPrivate: bool, l: Life)
    ensures Recorded(StateOf(isPrivate, l), LastSent(isPrivate, Fresh(l.bornAt, l.bornCfg), l.events))
    decreases |l.events|
  {
    hide Step, WindowInv, Noted;
    if l.events != [] {
      var before := l.(events := l.events[..|l.events| - 1]);
      EveryRunKeepsRecord(isPrivate, before);
      EveryRunKeepsWindow(isPrivate, before);
      hide Recorded;
      StepKeepsRecord(isPrivate, StateOf(isPrivate, before), l.events[|l.events| - 1],
                      LastSent(isPrivate, Fresh(l.bornAt, l.bornCfg), before.events));
    }
  }

  /** After any history, an acknowledgement is accepted only if it names the probe that was sent last, with its size and the
      generation it was sent in.  Late answers to earlier probes, and to searches that were aborted, change nothing. */
  lemma AcceptedAckAnswersLastProbe(isPrivate: bool, l: Life, size: nat, id: u32, gen: u32, now: nat, cfg: Tuning)
    ensures var p := StateOf(isPrivate, l);
            var last := LastSent(isPrivate, Fresh(l.bornAt, l.bornCfg), l.events);
            last != Some(Sent(id, ClampSize(size), gen)) ==> Step(isPrivate, p, Ack(now, cfg, size, id, gen)) == p
  {
    hide LastSent, StateOf, Fresh;
    EveryRunKeepsRecord(isPrivate, l);
  }

  /** A search that starts has a new generation, so probes of earlier searches cannot be mistaken for its own. */
  lemma NewSearchNewGeneration(isPrivate: bool, p: PeerState, e: Event)
    requires WindowInv(isPrivate, p) && !IsSearching(p.phase) && IsSearching(Step(isPrivate, p, e).phase)
    ensures e.Tick? && Step(isPrivate, p, e).searchGen != p.searchGen
  {
    if e.Tick? {
      hide TimeoutFor, RaiseTarget, ConfirmedFail, IssueSize, FinishDownSearch, EnterPlateau;
      var c, d := BeforeStart(isPrivate, p, e), BeforeIssue(isPrivate, p, e);
      assert !IsSearching(c.phase);
      IssueKeepsGeneration(d, e.now, e.cfg, e.issueId);
    }
  }

  lemma IssueKeepsGeneration(p: PeerState, now: nat, cfg: Tuning, id: u32)
    ensures IssueStep(p, now, cfg, id).searchGen == p.searchGen
    ensures IsSearching(IssueStep(p, now, cfg, id).phase) ==> IsSearching(p.phase)
  {
    hide TimeoutFor, IssueSize;
  }

  // ---------- probe ids ----------

  /** The ids that a tick uses are among 1..`n`. */
  predicate NumberedTick(isPrivate: bool, p: PeerState, e: Event, n: nat) {
    e.Tick? ==>
      var b, d := BeforeTimeout(isPrivate, p, e), BeforeIssue(isPrivate, p, e);
      && (Resends(b, e.now, e.cfg) ==> 1 <= e.resendId <= n)
      && (e.tryIssue && WantsProbe(d) && IssueSize(d, e.cfg).Some? ==> 1 <= e.issueId <= n)
  }

  /** So are those of every tick of a history. */
  ghost predicate NumberedLife(isPrivate: bool, l: Life, n: nat) {
    forall i {:trigger l.events[i]} :: 0 <= i < |l.events| ==>
      NumberedTick(isPrivate, Run(isPrivate, Fresh(l.bornAt, l.bornCfg), l.events[..i]), l.events[i], n)
  }

  lemma SentId(isPrivate: bool, p: PeerState, e: Event)
    requires WindowInv(isPrivate, p) && Sends(isPrivate, p, e)
    ensures var q := Step(isPrivate, p, e);
            q.inflight.Some? ==>
              q.inflight.value.probeId ==
                if Resends(BeforeTimeout(isPrivate, p, e), e.now, e.cfg) then e.resendId else e.issueId
  {
    hide WindowInv, Heal, GraceStep, StartStep, WantsProbe, IssueSize, TimeoutFor;
    var b, c, d := BeforeTimeout(isPrivate, p, e), BeforeStart(isPrivate, p, e), BeforeIssue(isPrivate, p, e);
    if Resends(b, e.now, e.cfg) {
      BusyIsLeftAlone(c, e.now, e.cfg);
    } else {
      IssuedId(d, e.now, e.cfg, e.issueId);
    }
  }

  lemma BusyIsLeftAlone(p: PeerState, now: nat, cfg: Tuning)
    requires p.inflight.Some?
    ensures StartStep(p, now, cfg) == p && !WantsProbe(p)
  {
  }

  lemma IssuedId(p: PeerState, now: nat, cfg: Tuning, id: u32)
    requires IssueSize(p, cfg).Some?
    ensures var q := IssueStep(p, now, cfg, id); q.inflight.Some? && q.inflight.value.probeId == id
  {
    hide TimeoutFor, RaiseTarget, BinaryTarget;
  }

  lemma NumberedMore(isPrivate: bool, l: Life, e: Event, n: nat, m: nat)
    requires NumberedLife(isPrivate, l, n) && n <= m && NumberedTick(isPrivate, StateOf(isPrivate, l), e, m)
    ensures NumberedLife(isPrivate, l.(events := l.events + [e]), m)
  {
    hide Run, Fresh, BeforeTimeout, BeforeIssue, Resends, WantsProbe, IssueSize;
    var es := l.events + [e];
    forall i | 0 <= i < |es|
      ensures NumberedTick(isPrivate, Run(isPrivate, Fresh(l.bornAt, l.bornCfg), es[..i]), es[i], m)
    {
      assert es[..i] == l.events[..i];
    }
    assert l.events[..|l.events|] == l.events;
  }

  lemma {:induction false} LastIsNumbered(isPrivate: bool, l: Life, n: nat)
    requires NumberedLife(isPrivate, l, n)
    ensures var last := LastSent(isPrivate, Fresh(l.bornAt, l.bornCfg), l.events); last.Some? ==> 1 <= last.value.id <= n
    decreases |l.events|
  {
    hide Step, WindowInv, Resends, WantsProbe, IssueSize, Fresh;
    if l.events != [] {
      var init, e := l.events[..|l.events| - 1], l.events[|l.events| - 1];
      assert forall i :: 0 <= i < |init| ==> init[..i] == l.events[..i];
      LastIsNumbered(isPrivate, l.(events := init), n);
      EveryRunKeepsWindow(isPrivate, l.(events := init));
      var p := StateOf(isPrivate, l.(events := init));
      if Sends(isPrivate, p, e) {
        SentId(isPrivate, p, e);
      }
    }
  }

  /** So the probe in flight or in grace has one of these ids. */
  lemma OutstandingIsNumbered(isPrivate: bool, l: Life, n: nat)
    requires NumberedLife(isPrivate, l, n)
    ensures var p := StateOf(isPrivate, l);
            && (p.inflight.Some? ==> 1 <= p.inflight.value.probeId <= n)
            && (p.grace.Some? ==> 1 <= p.grace.value.probeId <= n)
  {
    hide LastSent, StateOf, NumberedLife;
    LastIsNumbered(isPrivate, l, n);
    EveryRunKeepsRecord(isPrivate, l);
  }
}
